/** What one call of executeSteps does, as a value: the ordered effects it has on the store, the
    history, the step functions and the lease, and the state it leaves the instance in.
    A crash cuts that sequence of effects anywhere; see EngineRuns. */
module Execution {
  import opened Base
  import opened Workflow

  datatype Event =
    | WorkflowStarted | WorkflowResumed | WorkflowWaiting | WorkflowCompleted | WorkflowFailed
    | WorkflowEnqueued | SignalReceived
    | StepStarted | StepCompleted | StepFailed

  datatype Effect =
    | Write(inst: Instance)
    | Emit(event: Event, step: int)
    | Call(step: int, input: Value)
    | Sleep(nanos: int)
    | Renew
    | Release

  /** The event that a step has completed. */
  predicate Completes(e: Effect) {
    e.Emit? && e.event.StepCompleted?
  }

  /** The environment of one attempt: is the context done before it, how does the world answer the
      call, is the context done while sleeping after it. */
  datatype Attempt = Attempt(cancelled: bool, world: World, cancelledAsleep: bool)

  /** Attempts are numbered over the whole call. */
  type Environment = nat -> Attempt

  datatype Outcome = Finished | Parked | Stopped(error: Error)

  datatype Verdict = Advance(value: Value) | Halt(outcome: Outcome)

  /** The attempts at one step. */
  datatype StepRun = StepRun(trace: seq<Effect>, inst: Instance, verdict: Verdict, used: nat)

  /** The rest of the workflow. */
  datatype Exec = Exec(trace: seq<Effect>, inst: Instance, outcome: Outcome)

  function MaxAttempts(step: StepDefinition): (n: int)
    ensures 1 <= n
  {
    if step.retry.Some? && step.retry.value.maxAttempts > 0 then step.retry.value.maxAttempts else 1
  }

  function InitialBackoff(step: StepDefinition): int {
    if step.retry.None? then 0
    else if step.retry.value.initialBackoff > 0 then step.retry.value.initialBackoff
    else step.retry.value.backoff
  }

  function MaxBackoff(step: StepDefinition): int {
    if step.retry.None? then 0 else step.retry.value.maxBackoff
  }

  function Multiplier(step: StepDefinition): real {
    if step.retry.None? then 0.0
    else if step.retry.value.multiplier <= 0.0 then 2.0
    else step.retry.value.multiplier
  }

  /** The delay actually slept for a backoff value. */
  function Delay(step: StepDefinition, backoff: int): int {
    if MaxBackoff(step) > 0 && backoff > MaxBackoff(step) then MaxBackoff(step) else backoff
  }

  function NextBackoff(step: StepDefinition, backoff: int): int {
    if Multiplier(step) > 0.0 then
      var next := (backoff as real * Multiplier(step)).Floor;
      if MaxBackoff(step) > 0 && next > MaxBackoff(step) then MaxBackoff(step) else next
    else
      backoff
  }

  function Fail(inst: Instance, e: Error): Instance {
    inst.(status := Failed, err := Some(e))
  }

  /** A failed attempt is followed by another one. */
  predicate Retries(step: StepDefinition, current: Value, a: Attempt, attempt: nat, backoff: int) {
    && !a.cancelled && Invoke(step.fn, current, a.world).Fault?
    && attempt < MaxAttempts(step) && (backoff <= 0 || !a.cancelledAsleep)
  }

  /** An attempt that is the last one: the step is done, parked, or has failed for good. */
  function Settle(step: StepDefinition, i: int, inst: Instance, current: Value, a: Attempt,
                  attempt: nat, used: nat): StepRun
  {
    if a.cancelled then
      var failed := Fail(inst, ContextDone);
      StepRun([Write(failed)] + [Emit(StepFailed, i), Emit(WorkflowFailed, -1)],
              failed, Halt(Stopped(ContextDone)), used + 1)
    else
      match Invoke(step.fn, current, a.world)
      case Done(v) =>
        var next := inst.(stepResults := inst.stepResults[i := v]);
        StepRun([Call(i, current), Write(next), Emit(StepCompleted, i)], next, Advance(v), used + 1)
      case AwaitSignal(_, returnPayload) =>
        var parked := inst.(status := Waiting, err := None, output := WaitMeta("signal", returnPayload));
        StepRun([Call(i, current), Write(parked)] + [Emit(WorkflowWaiting, i), Release],
                parked, Halt(Parked), used + 1)
      case AwaitChildren =>
        var parked := inst.(status := Waiting, err := None);
        StepRun([Call(i, current), Write(parked)] + [Emit(WorkflowWaiting, i), Release],
                parked, Halt(Parked), used + 1)
      case AwaitAnyChild =>
        var parked := inst.(status := Waiting, err := None);
        StepRun([Call(i, current), Write(parked)] + [Release], parked, Halt(Parked), used + 1)
      case Fault(e) =>
        if attempt == MaxAttempts(step) then
          var failed := Fail(inst, e);
          StepRun([Call(i, current), Write(failed)] + [Emit(StepFailed, i), Emit(WorkflowFailed, -1), Release],
                  failed, Halt(Stopped(e)), used + 1)
        else // the context ends during the backoff sleep
          var failed := Fail(inst, ContextDone);
          StepRun([Call(i, current), Write(failed)] + [Emit(StepFailed, i), Emit(WorkflowFailed, -1)],
                  failed, Halt(Stopped(ContextDone)), used + 1)
  }

  /** Attempts `attempt`, `attempt + 1`, ... at step i, with `used` attempts made before in this call. */
  function AttemptsFrom(step: StepDefinition, i: int, inst: Instance, current: Value,
                        env: Environment, used: nat, attempt: nat, backoff: int): StepRun
    requires 1 <= attempt <= MaxAttempts(step)
    decreases MaxAttempts(step) - attempt
  {
    if !Retries(step, current, env(used), attempt, backoff) then
      Settle(step, i, inst, current, env(used), attempt, used)
    else if backoff <= 0 then
      var rest := AttemptsFrom(step, i, inst, current, env, used + 1, attempt + 1, backoff);
      rest.(trace := [Call(i, current)] + rest.trace)
    else
      var rest := AttemptsFrom(step, i, inst, current, env, used + 1, attempt + 1, NextBackoff(step, backoff));
      rest.(trace := [Call(i, current), Sleep(Delay(step, backoff))] + rest.trace)
  }

  /** All attempts at step i. */
  function RunStep(step: StepDefinition, i: int, inst: Instance, current: Value, env: Environment, used: nat): StepRun {
    AttemptsFrom(step, i, inst, current, env, used, 1, InitialBackoff(step))
  }

  /** executeSteps from step i on, with `current` as its input. */
  function ExecFrom(def: Definition, inst: Instance, i: int, current: Value, env: Environment, used: nat): Exec
    requires 0 <= i
    decreases |def.steps| - i
  {
    if i >= |def.steps| then
      var done := inst.(status := Completed, output := current, currentStep := |def.steps|);
      Exec([Write(done), Emit(WorkflowCompleted, -1), Release], done, Finished)
    else if i in inst.stepResults then
      var skipped := inst.(currentStep := i + 1);
      var rest := ExecFrom(def, skipped, i + 1, inst.stepResults[i], env, used);
      rest.(trace := [Renew, Write(skipped)] + rest.trace)
    else
      var at := inst.(currentStep := i);
      var run := RunStep(def.steps[i], i, at, current, env, used);
      var lead := [Renew, Write(at), Emit(StepStarted, i)] + run.trace;
      match run.verdict
      case Halt(outcome) => Exec(lead, run.inst, outcome)
      case Advance(v) =>
        var rest := ExecFrom(def, run.inst, i + 1, v, env, run.used);
        rest.(trace := lead + rest.trace)
  }

  /** The durable instance after some effects: the last one written, or the one there was. */
  function After(durable: Instance, trace: seq<Effect>): Instance
    decreases |trace|
  {
    if trace == [] then durable
    else After(if trace[0].Write? then trace[0].inst else durable, trace[1..])
  }

  lemma {:induction false} AfterConcat(durable: Instance, a: seq<Effect>, b: seq<Effect>)
    ensures After(durable, a + b) == After(After(durable, a), b)
    decreases |a|
  {
    if a == [] {
      assert a + b == b;
    } else {
      assert (a + b)[1..] == a[1..] + b;
      AfterConcat(if a[0].Write? then a[0].inst else durable, a[1..], b);
    }
  }

  // ---------- Entry points ----------

  function Created(def: Definition, id: string, input: Value, status: Status): Instance {
    Instance(id, def.name, def.version, def.fingerprint, status, Nil, None, input, 0, map[])
  }

  /** Runtime fields reset for a replay from the first step. */
  function Restarted(d: Instance): Instance {
    d.(status := Running, err := None, output := Nil, currentStep := 0)
  }

  /** Runtime fields set for resuming at the waiting step. */
  function Woken(d: Instance, signal: Value): Instance {
    d.(status := Running, err := None, output := Nil, input := signal)
  }

  /** Run, after the new instance has been saved. */
  function LaunchTrace(def: Definition, born: Instance, env: Environment): seq<Effect> {
    [Emit(WorkflowStarted, -1)] + ExecFrom(def, born, 0, born.input, env, 0).trace
  }

  function RestartTrace(def: Definition, d: Instance, event: Event, env: Environment): seq<Effect> {
    [Write(Restarted(d))] + [Emit(event, -1)] + ExecFrom(def, Restarted(d), 0, d.input, env, 0).trace
  }

  function DeliverTrace(def: Definition, d: Instance, signal: Value, env: Environment): seq<Effect> {
    [Write(Woken(d, signal))] + [Emit(WorkflowResumed, d.currentStep)]
    + ExecFrom(def, Woken(d, signal), d.currentStep, signal, env, 0).trace
  }

  /** A call on an existing instance. `registered`: its definition is in the registry;
      `leaseFree`: the instance lease can be had; `valid`: the registered fingerprint is the computed one. */
  datatype Action =
    | RunInstance(registered: bool, valid: bool, leaseFree: bool, env: Environment)
    | Resume(registered: bool, leaseFree: bool, env: Environment)
    | SignalNow(registered: bool, name: string, payload: Value, leaseFree: bool, env: Environment)
    | SignalLater(name: string, payload: Value)
    | Recover

  /** Resume and signal refuse an instance recorded under another fingerprint. */
  predicate Bound(def: Definition, d: Instance) {
    d.fingerprint == "" || d.fingerprint == def.fingerprint
  }

  function Effects(def: Definition, d: Instance, action: Action): seq<Effect> {
    match action
    case RunInstance(registered, valid, leaseFree, env) =>
      if !registered then []
      else if !valid then [Write(Fail(d, DefinitionMismatch))] + [Emit(WorkflowFailed, -1)]
      else if !leaseFree then []
      else RestartTrace(def, d, WorkflowStarted, env)
    case Resume(registered, leaseFree, env) =>
      if !d.status.Failed? || !leaseFree then []
      else if !registered || !Bound(def, d) then [Release]
      else RestartTrace(def, d, WorkflowResumed, env) + [Release]
    case SignalNow(registered, name, payload, leaseFree, env) =>
      if !d.status.Waiting? || !leaseFree then []
      else if !registered || !Bound(def, d) then [Release]
      else DeliverTrace(def, d, Signal(name, payload), env) + [Release]
    case SignalLater(name, payload) =>
      if !d.status.Waiting? then []
      else [Write(d.(err := None, input := Signal(name, payload)))]
           + [Emit(SignalReceived, d.currentStep), Emit(WorkflowEnqueued, -1)]
    case Recover =>
      if d.status.Running? then [Write(Fail(d, RecoveredAfterCrash))] else []
  }
}
