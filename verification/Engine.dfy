/** The engine itself: executeSteps' nested loops and the entry points, over a store of instances. */
module Engine {
  import opened Base
  import opened Workflow
  import opened Execution
  import opened Registry
  import opened Progress

  /** The instances in a store after some writes. */
  function StoreAfter(store: map<string, Instance>, trace: seq<Effect>): map<string, Instance>
    decreases |trace|
  {
    if trace == [] then store
    else
      var last := trace[|trace| - 1];
      var before := StoreAfter(store, trace[..|trace| - 1]);
      if last.Write? then before[last.inst.id := last.inst] else before
  }

  lemma StoreAfterOne(store: map<string, Instance>, trace: seq<Effect>, e: Effect)
    ensures StoreAfter(store, trace + [e])
            == if e.Write? then StoreAfter(store, trace)[e.inst.id := e.inst] else StoreAfter(store, trace)
  {
    assert (trace + [e])[..|trace|] == trace;
  }

  lemma Regroup(a: seq<Effect>, b: seq<Effect>, c: seq<Effect>)
    ensures (a + b) + c == a + (b + c)
  {
  }

  /** What is still to be done (`rest`) completes `journal` to what the whole run owes. */
  ghost predicate StepOwes(goal: seq<Effect>, run: StepRun, journal: seq<Effect>, rest: StepRun) {
    journal + rest.trace == goal && run == rest.(trace := run.trace)
  }

  lemma RetryUnfolds(goal: seq<Effect>, run: StepRun, journal: seq<Effect>, step: StepDefinition, i: int,
                     inst: Instance, current: Value, env: Environment, used: nat, attempt: nat, backoff: int)
    requires 1 <= attempt <= MaxAttempts(step)
    requires StepOwes(goal, run, journal, AttemptsFrom(step, i, inst, current, env, used, attempt, backoff))
    requires Retries(step, current, env(used), attempt, backoff)
    ensures backoff <= 0 ==>
              StepOwes(goal, run, journal + [Call(i, current)],
                       AttemptsFrom(step, i, inst, current, env, used + 1, attempt + 1, backoff))
    ensures backoff > 0 ==>
              StepOwes(goal, run, journal + [Call(i, current)] + [Sleep(Delay(step, backoff))],
                       AttemptsFrom(step, i, inst, current, env, used + 1, attempt + 1, NextBackoff(step, backoff)))
  {
    if backoff <= 0 {
      var rest := AttemptsFrom(step, i, inst, current, env, used + 1, attempt + 1, backoff);
      assert journal + ([Call(i, current)] + rest.trace) == journal + [Call(i, current)] + rest.trace;
    } else {
      var rest := AttemptsFrom(step, i, inst, current, env, used + 1, attempt + 1, NextBackoff(step, backoff));
      var nap := Sleep(Delay(step, backoff));
      assert journal + ([Call(i, current), nap] + rest.trace) == journal + [Call(i, current)] + [nap] + rest.trace;
    }
  }

  ghost predicate ExecOwes(goal: seq<Effect>, all: Exec, journal: seq<Effect>, rest: Exec) {
    journal + rest.trace == goal && all == rest.(trace := all.trace)
  }

  lemma SkipUnfolds(goal: seq<Effect>, all: Exec, journal: seq<Effect>, def: Definition, inst: Instance, i: nat,
                    current: Value, env: Environment, used: nat)
    requires i < |def.steps| && i in inst.stepResults
    requires ExecOwes(goal, all, journal, ExecFrom(def, inst, i, current, env, used))
    ensures var skipped := inst.(currentStep := i + 1);
            ExecOwes(goal, all, journal + [Renew, Write(skipped)],
                     ExecFrom(def, skipped, i + 1, inst.stepResults[i], env, used))
  {
    var skipped := inst.(currentStep := i + 1);
    var rest := ExecFrom(def, skipped, i + 1, inst.stepResults[i], env, used);
    assert journal + ([Renew, Write(skipped)] + rest.trace) == journal + [Renew, Write(skipped)] + rest.trace;
  }

  lemma StepUnfolds(goal: seq<Effect>, all: Exec, journal: seq<Effect>, def: Definition, inst: Instance, i: nat,
                    current: Value, env: Environment, used: nat)
    requires i < |def.steps| && i !in inst.stepResults
    requires ExecOwes(goal, all, journal, ExecFrom(def, inst, i, current, env, used))
    ensures var at := inst.(currentStep := i);
            var run := RunStep(def.steps[i], i, at, current, env, used);
            var soFar := journal + ([Renew, Write(at), Emit(StepStarted, i)] + run.trace);
            match run.verdict
            case Halt(outcome) => soFar == goal && all == Exec(all.trace, run.inst, outcome)
            case Advance(v) => ExecOwes(goal, all, soFar, ExecFrom(def, run.inst, i + 1, v, env, run.used))
  {
    var at := inst.(currentStep := i);
    var run := RunStep(def.steps[i], i, at, current, env, used);
    var lead := [Renew, Write(at), Emit(StepStarted, i)] + run.trace;
    if run.verdict.Advance? {
      var rest := ExecFrom(def, run.inst, i + 1, run.verdict.value, env, run.used);
      assert journal + (lead + rest.trace) == journal + lead + rest.trace;
    }
  }

  /** The retry settings of a step, with the engine's defaults. */
  method ReadPolicy(step: StepDefinition) returns (maxAttempts: int, backoff: int, maxBackoff: int, multiplier: real)
    ensures maxAttempts == MaxAttempts(step) && backoff == InitialBackoff(step)
    ensures maxBackoff == MaxBackoff(step) && multiplier == Multiplier(step)
  {
    maxAttempts, backoff, maxBackoff, multiplier := 1, 0, 0, 0.0;
    if step.retry.Some? {
      var policy := step.retry.value;
      if policy.maxAttempts > 0 {
        maxAttempts := policy.maxAttempts;
      }
      backoff := policy.initialBackoff;
      if backoff <= 0 {
        backoff := policy.backoff;
      }
      maxBackoff := policy.maxBackoff;
      multiplier := policy.multiplier;
      if multiplier <= 0.0 {
        multiplier := 2.0;
      }
    }
  }

  /** The delay before the next attempt and the backoff it leaves. */
  method DelayAndGrow(step: StepDefinition, backoff: int, maxBackoff: int, multiplier: real)
    returns (delay: int, next: int)
    requires maxBackoff == MaxBackoff(step) && multiplier == Multiplier(step)
    ensures delay == Delay(step, backoff) && next == NextBackoff(step, backoff)
  {
    delay, next := backoff, backoff;
    if maxBackoff > 0 && delay > maxBackoff {
      delay := maxBackoff;
    }
    if multiplier > 0.0 {
      var nextBackoff := (backoff as real * multiplier).Floor;
      if maxBackoff > 0 && nextBackoff > maxBackoff {
        next := maxBackoff;
      } else {
        next := nextBackoff;
      }
    }
  }

  /** What a call's reply leads to: another attempt, or the instance to write, the effects after that, and the
      verdict. */
  method Judge(step: StepDefinition, i: int, inst0: Instance, current: Value, a: Attempt, attempt: nat,
               maxAttempts: int, backoff: int, used: nat)
    returns (again: bool, inst: Instance, tail: seq<Effect>, verdict: Verdict)
    requires !a.cancelled && maxAttempts == MaxAttempts(step) && attempt <= maxAttempts
    ensures again == Retries(step, current, a, attempt, backoff)
    ensures !again ==> (forall e | e in tail :: !e.Write?)
                       && Settle(step, i, inst0, current, a, attempt, used)
                          == StepRun([Call(i, current)] + ([Write(inst)] + tail), inst, verdict, used + 1)
  {
    again, inst, tail, verdict := false, inst0, [], Halt(Parked);
    match Invoke(step.fn, current, a.world) {
      case Done(v) =>
        inst := inst.(stepResults := inst.stepResults[i := v]);
        tail := [Emit(StepCompleted, i)];
        verdict := Advance(v);
      case AwaitSignal(_, returnPayload) =>
        inst := inst.(status := Waiting, err := None, output := WaitMeta("signal", returnPayload));
        tail := [Emit(WorkflowWaiting, i), Release];
      case AwaitChildren =>
        inst := inst.(status := Waiting, err := None);
        tail := [Emit(WorkflowWaiting, i), Release];
      case AwaitAnyChild =>
        inst := inst.(status := Waiting, err := None);
        tail := [Release];
      case Fault(e) =>
        if attempt == maxAttempts {
          inst := Fail(inst, e);
          tail := [Emit(StepFailed, i), Emit(WorkflowFailed, -1), Release];
          verdict := Halt(Stopped(e));
        } else if backoff > 0 && a.cancelledAsleep {
          inst := Fail(inst, ContextDone);
          tail := [Emit(StepFailed, i), Emit(WorkflowFailed, -1)];
          verdict := Halt(Stopped(ContextDone));
        } else {
          again := true;
          return;
        }
    }
    assert [Call(i, current)] + ([Write(inst)] + tail) == Settle(step, i, inst0, current, a, attempt, used).trace;
  }

  datatype Result = Result(inst: Option<Instance>, error: Option<Error>)

  class EngineImpl {
    const workflows: WorkflowStore
    ghost const initial: map<string, Instance>
    var instances: map<string, Instance>
    var nextID: nat
    /** Everything the engine has done to the outside, in order. */
    var journal: seq<Effect>
    /** The tasks handed to the queue. */
    var queued: seq<Task>

    /** The store holds exactly what has been written, each instance under its own id. */
    ghost predicate Valid()
      reads this
    {
      instances == StoreAfter(initial, journal) && Keyed(instances)
    }

    constructor (workflows: WorkflowStore, instances: map<string, Instance>)
      requires Keyed(instances)
      ensures Valid() && journal == [] && queued == [] && nextID == 0
      ensures this.instances == instances && this.workflows == workflows
    {
      this.workflows := workflows;
      this.initial := instances;
      this.instances := instances;
      this.nextID := 0;
      this.journal := [];
      this.queued := [];
    }

    /** UpdateInstance and SaveInstance: the whole instance is written. */
    method Update(inst: Instance)
      requires Valid()
      modifies this`instances, this`journal
      ensures Valid() && journal == old(journal) + [Write(inst)]
      ensures instances == old(instances)[inst.id := inst]
    {
      StoreAfterOne(initial, journal, Write(inst));
      instances := instances[inst.id := inst];
      journal := journal + [Write(inst)];
    }

    /** Any effect outside the instance store. */
    method Record(e: Effect)
      requires Valid() && !e.Write?
      modifies this`journal
      ensures Valid() && journal == old(journal) + [e]
    {
      StoreAfterOne(initial, journal, e);
      journal := journal + [e];
    }

    /** A write and the events and lease release that follow it. */
    method UpdateThen(inst: Instance, tail: seq<Effect>)
      requires Valid() && forall e | e in tail :: !e.Write?
      modifies this`instances, this`journal
      ensures Valid() && journal == old(journal) + ([Write(inst)] + tail)
      ensures instances == old(instances)[inst.id := inst]
    {
      Update(inst);
      for k := 0 to |tail|
        invariant Valid() && journal == old(journal) + ([Write(inst)] + tail[..k])
        invariant instances == old(instances)[inst.id := inst]
      {
        assert tail[..k + 1] == tail[..k] + [tail[k]];
        assert tail[k] in tail;
        Record(tail[k]);
      }
    }

    /** One attempt at step i, up to the point where the engine would sleep before the next one. */
    method Attempt(step: StepDefinition, i: int, inst0: Instance, current: Value, a: Execution.Attempt,
                   attempt: nat, maxAttempts: int, backoff: int, used: nat)
      returns (again: bool, inst: Instance, verdict: Verdict)
      requires Valid() && maxAttempts == MaxAttempts(step) && attempt <= maxAttempts
      modifies this`instances, this`journal
      ensures Valid() && again == Retries(step, current, a, attempt, backoff)
      ensures again ==> journal == old(journal) + [Call(i, current)]
      ensures !again ==> var run := Settle(step, i, inst0, current, a, attempt, used);
                         journal == old(journal) + run.trace && StepRun(run.trace, inst, verdict, used + 1) == run
    {
      again, inst, verdict := false, inst0, Halt(Parked);
      if a.cancelled {
        inst := Fail(inst, ContextDone);
        verdict := Halt(Stopped(ContextDone));
        UpdateThen(inst, [Emit(StepFailed, i), Emit(WorkflowFailed, -1)]);
        assert journal == old(journal) + Settle(step, i, inst0, current, a, attempt, used).trace;
        return;
      }
      Record(Call(i, current));
      var tail;
      again, inst, tail, verdict := Judge(step, i, inst0, current, a, attempt, maxAttempts, backoff, used);
      if again {
        return;
      }
      UpdateThen(inst, tail);
      Regroup(old(journal), [Call(i, current)], [Write(inst)] + tail);
    }

    /** The attempts at step i: the retry loop of executeSteps. */
    method RunAttempts(step: StepDefinition, i: int, inst0: Instance, current: Value, env: Environment, used0: nat)
      returns (inst: Instance, verdict: Verdict, used: nat)
      requires Valid()
      modifies this`instances, this`journal
      ensures Valid()
      ensures var run := RunStep(step, i, inst0, current, env, used0);
              journal == old(journal) + run.trace && StepRun(run.trace, inst, verdict, used) == run
    {
      ghost var run := RunStep(step, i, inst0, current, env, used0);
      ghost var goal := journal + run.trace;
      inst, verdict, used := inst0, Halt(Parked), used0;
      var maxAttempts, backoff, maxBackoff, multiplier := ReadPolicy(step);
      var attempt, again := 1, true;
      while again
        invariant Valid() && 1 <= attempt <= maxAttempts == MaxAttempts(step)
        invariant maxBackoff == MaxBackoff(step) && multiplier == Multiplier(step)
        invariant again ==>
                    StepOwes(goal, run, journal, AttemptsFrom(step, i, inst0, current, env, used, attempt, backoff))
        invariant !again ==> journal == goal && StepRun(run.trace, inst, verdict, used) == run
        decreases again, maxAttempts - attempt
      {
        ghost var before := journal;
        again, inst, verdict := Attempt(step, i, inst0, current, env(used), attempt, maxAttempts, backoff, used);
        if again {
          RetryUnfolds(goal, run, before, step, i, inst0, current, env, used, attempt, backoff);
          if backoff > 0 {
            var delay, next := DelayAndGrow(step, backoff, maxBackoff, multiplier);
            Record(Sleep(delay));
            backoff := next;
          }
          attempt := attempt + 1;
        }
        used := used + 1;
      }
    }

    /** One step that has no cached result yet. */
    method StartStep(def: Definition, inst0: Instance, i: nat, current: Value, env: Environment, used0: nat)
      returns (inst: Instance, verdict: Verdict, used: nat)
      requires Valid() && i < |def.steps|
      modifies this`instances, this`journal
      ensures Valid()
      ensures var at := inst0.(currentStep := i);
              var run := RunStep(def.steps[i], i, at, current, env, used0);
              && journal == old(journal) + ([Renew, Write(at), Emit(StepStarted, i)] + run.trace)
              && StepRun(run.trace, inst, verdict, used) == run
    {
      var at := inst0.(currentStep := i);
      Begin(at, i);
      ghost var before, lead := old(journal), [Renew, Write(at), Emit(StepStarted, i)];
      inst, verdict, used := RunAttempts(def.steps[i], i, at, current, env, used0);
      Regroup(before, lead, RunStep(def.steps[i], i, at, current, env, used0).trace);
    }

    /** Renew the lease, persist the position, announce the step. */
    method Begin(at: Instance, i: nat)
      requires Valid()
      modifies this`instances, this`journal
      ensures Valid() && journal == old(journal) + [Renew, Write(at), Emit(StepStarted, i)]
    {
      Record(Renew);
      UpdateThen(at, [Emit(StepStarted, i)]);
      assert [Renew] + ([Write(at)] + [Emit(StepStarted, i)]) == [Renew, Write(at), Emit(StepStarted, i)];
    }

    /** A step with a cached result: its function is not called. */
    method SkipStep(inst0: Instance, i: nat) returns (inst: Instance)
      requires Valid()
      modifies this`instances, this`journal
      ensures Valid() && inst == inst0.(currentStep := i + 1)
      ensures journal == old(journal) + [Renew, Write(inst)]
    {
      Record(Renew);
      inst := inst0.(currentStep := i + 1);
      Update(inst);
    }

    /** executeSteps: the step loop. */
    method ExecuteSteps(def: Definition, inst0: Instance, start: nat, input: Value, env: Environment)
      returns (inst: Instance, outcome: Outcome)
      requires Valid()
      modifies this`instances, this`journal
      ensures Valid()
      ensures var e := ExecFrom(def, inst0, start, input, env, 0);
              journal == old(journal) + e.trace && Exec(e.trace, inst, outcome) == e
    {
      ghost var all := ExecFrom(def, inst0, start, input, env, 0);
      ghost var goal := journal + all.trace;
      inst := inst0;
      var current, i, used := input, start, 0;
      while i < |def.steps|
        invariant Valid() && ExecOwes(goal, all, journal, ExecFrom(def, inst, i, current, env, used))
        decreases |def.steps| - i
      {
        if i in inst.stepResults {
          SkipUnfolds(goal, all, journal, def, inst, i, current, env, used);
          current := inst.stepResults[i];
          inst := SkipStep(inst, i);
        } else {
          StepUnfolds(goal, all, journal, def, inst, i, current, env, used);
          var verdict;
          inst, verdict, used := StartStep(def, inst, i, current, env, used);
          if verdict.Halt? {
            return inst, verdict.outcome;
          }
          current := verdict.value;
        }
        i := i + 1;
      }
      inst := Complete(inst, current, |def.steps|);
      outcome := Finished;
    }

    /** All steps are done. */
    method Complete(inst0: Instance, output: Value, steps: nat) returns (inst: Instance)
      requires Valid()
      modifies this`instances, this`journal
      ensures Valid() && inst == inst0.(status := Completed, output := output, currentStep := steps)
      ensures journal == old(journal) + [Write(inst), Emit(WorkflowCompleted, -1), Release]
    {
      inst := inst0.(status := Completed, output := output, currentStep := steps);
      UpdateThen(inst, [Emit(WorkflowCompleted, -1), Release]);
      assert [Write(inst)] + [Emit(WorkflowCompleted, -1), Release]
             == [Write(inst), Emit(WorkflowCompleted, -1), Release];
    }

    // ---------- Entry points ----------

    /** Save the new instance and execute it. */
    method Launch(def: Definition, born: Instance, env: Environment) returns (r: Result)
      requires Valid()
      modifies this`instances, this`journal
      ensures Valid() && journal == old(journal) + ([Write(born)] + LaunchTrace(def, born, env))
      ensures r.inst.Some? && instances == old(instances)[born.id := r.inst.value] && r.error == Told(r.inst.value)
      ensures CallsOutOnly(def) && Working(env) ==> r.inst.value.status.Completed?
    {
      UpdateThen(born, [Emit(WorkflowStarted, -1)]);
      var inst, outcome := ExecuteSteps(def, born, 0, born.input, env);
      ghost var trace := ExecFrom(def, born, 0, born.input, env, 0).trace;
      Regroup(old(journal), [Write(born)] + [Emit(WorkflowStarted, -1)], trace);
      Regroup([Write(born)], [Emit(WorkflowStarted, -1)], trace);
      r := Result(Some(inst), ErrorOf(outcome));
      LaunchedStore(initial, old(journal), def, born, env);
      if CallsOutOnly(def) && Working(env) {
        WorkingRunCompletes(def, born, 0, born.input, env, 0);
      }
    }

    /** Reset the runtime fields, persist, and replay from the first step. */
    method Restart(def: Definition, d: Instance, event: Event, env: Environment) returns (r: Result)
      requires Valid() && d.id in instances && instances[d.id] == d
      modifies this`instances, this`journal
      ensures Valid() && journal == old(journal) + RestartTrace(def, d, event, env)
      ensures r.inst.Some? && instances == old(instances)[d.id := r.inst.value] && r.error == Told(r.inst.value)
      ensures CallsOutOnly(def) && Working(env) ==> r.inst.value.status.Completed?
    {
      var restarted := d.(status := Running, err := None, output := Nil, currentStep := 0);
      UpdateThen(restarted, [Emit(event, -1)]);
      var inst, outcome := ExecuteSteps(def, restarted, 0, restarted.input, env);
      Regroup(old(journal), [Write(restarted)] + [Emit(event, -1)], ExecFrom(def, restarted, 0, d.input, env, 0).trace);
      r := Result(Some(inst), ErrorOf(outcome));
      RestartEnds(def, d, event, env);
      ExecOnly(def, restarted, 0, d.input, env, 0);
      CallStore(initial, old(journal), d.id, RestartTrace(def, d, event, env));
      if CallsOutOnly(def) && Working(env) {
        WorkingRunCompletes(def, restarted, 0, d.input, env, 0);
      }
    }

    /** Store the signal as the instance's input, persist, and continue at the waiting step. */
    method Deliver(def: Definition, d: Instance, signal: Value, env: Environment) returns (r: Result)
      requires Valid() && d.id in instances && instances[d.id] == d
      modifies this`instances, this`journal
      ensures Valid() && journal == old(journal) + DeliverTrace(def, d, signal, env)
      ensures r.inst.Some? && instances == old(instances)[d.id := r.inst.value] && r.error == Told(r.inst.value)
    {
      var woken := d.(status := Running, err := None, output := Nil, input := signal);
      UpdateThen(woken, [Emit(WorkflowResumed, d.currentStep)]);
      var inst, outcome := ExecuteSteps(def, woken, d.currentStep, signal, env);
      Regroup(old(journal), [Write(woken)] + [Emit(WorkflowResumed, d.currentStep)],
              ExecFrom(def, woken, d.currentStep, signal, env, 0).trace);
      r := Result(Some(inst), ErrorOf(outcome));
      DeliverEnds(def, d, signal, env);
      ExecOnly(def, woken, d.currentStep, signal, env, 0);
      CallStore(initial, old(journal), d.id, DeliverTrace(def, d, signal, env));
    }

    /** Run: save a new RUNNING instance of the latest definition and execute it. */
    method Run(name: string, input: Value, env: Environment) returns (r: Result)
      requires Valid()
      modifies this`instances, this`journal, this`nextID
      ensures Valid()
      ensures r.inst.None? ==> journal == old(journal) && r.error == Some(NotFound)
      ensures r.inst.None? <==> name !in workflows.table || |workflows.table[name]| != 1
      ensures r.inst.Some? ==>
                exists version ::
                  var found := Lookup(workflows.table, name, version);
                  && found.Some?
                  && var born := Created(found.value, InstanceId(old(nextID) + 1), input, Running);
                     journal == old(journal) + ([Write(born)] + LaunchTrace(found.value, born, env))
      ensures r.inst.Some? ==> nextID == old(nextID) + 1
      ensures r.inst.Some? ==>
                instances == old(instances)[InstanceId(nextID) := r.inst.value] && r.error == Told(r.inst.value)
      ensures InstanceId(old(nextID) + 1) !in old(instances) ==>
                forall id | id in old(instances) :: id in instances && instances[id] == old(instances)[id]
    {
      var found := workflows.GetLatestWorkflow(name);
      if found.None? {
        return Result(None, Some(NotFound));
      }
      var def := found.value;
      nextID := nextID + 1;
      var born := Created(def, InstanceId(nextID), input, Running);
      r := Launch(def, born, env);
    }

    /** RunInstance: replay an existing instance, whatever its status. */
    method RunInstance(id: string, fp: Definition -> string, leaseFree: bool, env: Environment) returns (r: Result)
      requires Valid()
      modifies this`instances, this`journal
      ensures Valid()
      ensures id !in old(instances) ==> journal == old(journal) && r == Result(None, Some(NotFound))
      ensures id in old(instances) ==>
                var d := old(instances)[id];
                var found := Lookup(workflows.table, d.name, d.version);
                journal == old(journal) + PlannedRunInstance(found, d, fp, leaseFree, env)
      ensures id in old(instances) ==>
                var d := old(instances)[id];
                var refusal := StartRefusal(Lookup(workflows.table, d.name, d.version), fp, leaseFree);
                && id in instances && r.inst == Some(instances[id]) && instances == old(instances)[id := instances[id]]
                && r.error == if refusal.Some? then refusal else Told(instances[id])
      ensures id in old(instances) ==>
                var d := old(instances)[id];
                var found := Lookup(workflows.table, d.name, d.version);
                && (found.Some? && found.value.fingerprint != "" && fp(found.value) != found.value.fingerprint ==>
                      instances[id] == d.(status := Failed, err := Some(DefinitionMismatch))
                      && r.error == Some(DefinitionMismatch))
                && (StartRefusal(found, fp, leaseFree).None? && Working(env) && CallsOutOnly(found.value) ==>
                      instances[id].status.Completed? && r.error.None?)
    {
      if id !in instances {
        return Result(None, Some(NotFound));
      }
      var d := instances[id];
      var found := workflows.GetWorkflow(d.name, d.version);
      if found.None? {
        return Result(Some(d), Some(NotFound));
      }
      var def := found.value;
      if !FingerprintValid(def, fp) {
        var failed := Fail(d, DefinitionMismatch);
        UpdateThen(failed, [Emit(WorkflowFailed, -1)]);
        return Result(Some(failed), Some(DefinitionMismatch));
      }
      if !leaseFree {
        return Result(Some(d), Some(InstanceLocked));
      }
      r := Restart(def, d, WorkflowStarted, env);
    }

    /** resumeInline: replay a FAILED instance from the first step. */
    method ResumeInline(id: string, leaseFree: bool, env: Environment) returns (r: Result)
      requires Valid()
      modifies this`instances, this`journal
      ensures Valid()
      ensures id !in old(instances) ==> journal == old(journal) && r == Result(None, Some(NotFound))
      ensures id in old(instances) ==>
                var d := old(instances)[id];
                var found := Lookup(workflows.table, d.name, VersionOf(d));
                journal == old(journal) + Effects(OrNothing(found), d, Action.Resume(found.Some?, leaseFree, env))
      ensures id in old(instances) ==>
                Answered(Refusal(workflows.table, old(instances)[id], Failed, leaseFree), old(instances), id, instances,
                         r)
      ensures id in old(instances) && Refusal(workflows.table, old(instances)[id], Failed, leaseFree).None?
              && Working(env) && CallsOutOnly(OrNothing(Registered(workflows.table, old(instances)[id])))
              ==> r.inst.Some? && r.inst.value.status.Completed? && r.error.None?
    {
      if id !in instances {
        return Result(None, Some(NotFound));
      }
      var d := instances[id];
      if !d.status.Failed? {
        return Result(None, Some(WrongStatus(d.status)));
      }
      if !leaseFree {
        return Result(None, Some(InstanceLocked));
      }
      var found := workflows.GetWorkflow(d.name, VersionOf(d));
      if found.None? {
        Record(Release);
        return Result(None, Some(NotFound));
      }
      if !Bound(found.value, d) {
        Record(Release);
        return Result(None, Some(DefinitionMismatch));
      }
      r := RestartAndRelease(found.value, d, env);
    }

    /** Replay under the lease taken for it. */
    method RestartAndRelease(def: Definition, d: Instance, env: Environment) returns (r: Result)
      requires Valid() && d.id in instances && instances[d.id] == d
      modifies this`instances, this`journal
      ensures Valid() && journal == old(journal) + (RestartTrace(def, d, WorkflowResumed, env) + [Release])
      ensures r.inst.Some? && instances == old(instances)[d.id := r.inst.value] && r.error == Told(r.inst.value)
      ensures CallsOutOnly(def) && Working(env) ==> r.inst.value.status.Completed?
    {
      r := Restart(def, d, WorkflowResumed, env);
      Record(Release);
      Regroup(old(journal), RestartTrace(def, d, WorkflowResumed, env), [Release]);
    }

    /** signalInline: resume a WAITING instance at its waiting step with the signal as input. */
    method SignalInline(id: string, name: string, payload: Value, leaseFree: bool, env: Environment) returns (r: Result)
      requires Valid()
      modifies this`instances, this`journal
      ensures Valid()
      ensures id !in old(instances) ==> journal == old(journal) && r == Result(None, Some(NotFound))
      ensures id in old(instances) ==>
                var d := old(instances)[id];
                var found := Lookup(workflows.table, d.name, VersionOf(d));
                journal == old(journal)
                  + Effects(OrNothing(found), d, Action.SignalNow(found.Some?, name, payload, leaseFree, env))
      ensures id in old(instances) ==>
                Answered(Refusal(workflows.table, old(instances)[id], Waiting, leaseFree), old(instances), id,
                         instances, r)
    {
      if id !in instances {
        return Result(None, Some(NotFound));
      }
      var d := instances[id];
      if !d.status.Waiting? {
        return Result(None, Some(WrongStatus(d.status)));
      }
      if !leaseFree {
        return Result(None, Some(InstanceLocked));
      }
      var found := workflows.GetWorkflow(d.name, VersionOf(d));
      if found.None? {
        Record(Release);
        return Result(None, Some(NotFound));
      }
      if !Bound(found.value, d) {
        Record(Release);
        return Result(None, Some(DefinitionMismatch));
      }
      r := DeliverAndRelease(found.value, d, Signal(name, payload), env);
    }

    method DeliverAndRelease(def: Definition, d: Instance, signal: Value, env: Environment) returns (r: Result)
      requires Valid() && d.id in instances && instances[d.id] == d
      modifies this`instances, this`journal
      ensures Valid() && journal == old(journal) + (DeliverTrace(def, d, signal, env) + [Release])
      ensures r.inst.Some? && instances == old(instances)[d.id := r.inst.value] && r.error == Told(r.inst.value)
    {
      r := Deliver(def, d, signal, env);
      Record(Release);
      Regroup(old(journal), DeliverTrace(def, d, signal, env), [Release]);
    }

    /** Signal on an engine with a queue: note the signal and hand a task to the queue, which takes it or not. */
    method SignalQueued(id: string, name: string, payload: Value, now: int, queueTakes: bool) returns (r: Result)
      requires Valid()
      modifies this`instances, this`journal, this`queued
      ensures Valid()
      ensures id !in old(instances) ==>
                journal == old(journal) && queued == old(queued) && r == Result(None, Some(NotFound))
      ensures id in old(instances) ==>
                journal == old(journal) + Effects(NO_DEFINITION, old(instances)[id], Action.SignalLater(name, payload))
      ensures id in old(instances) ==>
                var d := old(instances)[id];
                if !d.status.Waiting? then
                  r == Result(None, Some(WrongStatus(d.status))) && instances == old(instances) && queued == old(queued)
                else
                  && instances == old(instances)[id := d.(err := None, input := Signal(name, payload))]
                  && queued == old(queued) + (if queueTakes then [SignalTaskFor(id, name, payload, now)] else [])
                  && (queueTakes ==>
                        var job := queued[|old(queued)|].job;
                        job.kind == SignalTask && job.instanceId == id && job.signalName == name
                          && job.payload == payload)
                  && r == Result(Some(instances[id]), if queueTakes then None else Some(EnqueueFailed))
    {
      if id !in instances {
        return Result(None, Some(NotFound));
      }
      var d := instances[id];
      if !d.status.Waiting? {
        return Result(None, Some(WrongStatus(d.status)));
      }
      var noted := d.(err := None, input := Signal(name, payload));
      UpdateThen(noted, [Emit(SignalReceived, noted.currentStep), Emit(WorkflowEnqueued, -1)]);
      if !queueTakes {
        return Result(Some(noted), Some(EnqueueFailed));
      }
      queued := queued + [SignalTaskFor(id, name, payload, now)];
      return Result(Some(noted), None);
    }

    /** RegisterWorkflow, with no one else saving in between. */
    method RegisterWorkflow(raw: Definition, fp: Definition -> string) returns (answer: Answer)
      modifies workflows
      ensures (answer, workflows.table) == Register(old(workflows.table), [], raw, fp)
    {
      if raw.name == "" || raw.steps == [] {
        return Invalid;
      }
      var def := raw;
      if def.version == "" {
        def := def.(version := "v1");
      }
      if def.fingerprint == "" {
        def := def.(fingerprint := fp(def));
      }
      var existing := workflows.GetWorkflow(def.name, def.version);
      if existing.Some? && existing.value.name != "" {
        if existing.value.fingerprint == def.fingerprint {
          return AlreadyThere;
        }
        return Mismatch;
      }
      var ok := workflows.SaveWorkflow(def);
      answer := if ok then Accepted else LostRace;
    }
  }

  function InstanceId(n: nat): string { "wf-" + Decimal(n) }

  function SignalTaskFor(id: string, name: string, payload: Value, now: int): Task {
    Task(NO_ID, Job(SignalTask, "", id, name, payload, At(now)), Zero, 0)
  }

  function ErrorOf(outcome: Outcome): Option<Error> {
    match outcome
    case Finished => None
    case Parked => Some(WaitRequested)
    case Stopped(e) => Some(e)
  }

  /** What the caller is told goes with the status the instance was persisted in. */
  function Told(inst: Instance): Option<Error> {
    match inst.status
    case Waiting => Some(WaitRequested)
    case Failed => inst.err
    case _ => None
  }

  /** Why resume or signal does nothing, if it does not: the wrong status, the lease, the registry. */
  function Refusal(table: Table, d: Instance, wanted: Status, leaseFree: bool): Option<Error> {
    var found := Lookup(table, d.name, VersionOf(d));
    if d.status != wanted then Some(WrongStatus(d.status))
    else if !leaseFree then Some(InstanceLocked)
    else if found.None? then Some(NotFound)
    else if !Bound(found.value, d) then Some(DefinitionMismatch)
    else None
  }

  function StartRefusal(found: Option<Definition>, fp: Definition -> string, leaseFree: bool): Option<Error> {
    if found.None? then Some(NotFound)
    else if !FingerprintValid(found.value, fp) then Some(DefinitionMismatch)
    else if !leaseFree then Some(InstanceLocked)
    else None
  }

  /** Resume and signal are taken exactly for an instance in the right status, under a free lease, whose definition is
      registered and carries the fingerprint it records, if it records one; RunInstance exactly under a free lease for a
      registered definition whose fingerprint, if it has one, is the computed one. */
  lemma TakenIff(table: Table, d: Instance, wanted: Status, found: Option<Definition>, fp: Definition -> string,
                 leaseFree: bool)
    ensures var v := if d.version == "" then "v1" else d.version;
            Refusal(table, d, wanted, leaseFree).None?
            <==> && d.status == wanted && leaseFree && Lookup(table, d.name, v).Some?
                 && (d.fingerprint == "" || Lookup(table, d.name, v).value.fingerprint == d.fingerprint)
    ensures StartRefusal(found, fp, leaseFree).None?
            <==> && found.Some? && leaseFree
                 && (found.value.fingerprint == "" || fp(found.value) == found.value.fingerprint)
  {
  }

  /** A refused call leaves the store alone; any other returns the instance as it is now persisted, with the error that
      goes with it, and leaves every other instance alone. */
  predicate Answered(refusal: Option<Error>, before: map<string, Instance>, id: string, after: map<string, Instance>,
                     r: Result) {
    if refusal.Some? then r == Result(None, refusal) && after == before
    else id in after && r == Result(Some(after[id]), Told(after[id])) && after == before[id := after[id]]
  }

  /** Instances persisted before versioning carry no version. */
  function VersionOf(d: Instance): string {
    if d.version == "" then "v1" else d.version
  }

  predicate FingerprintValid(def: Definition, fp: Definition -> string) {
    def.fingerprint == "" || fp(def) == def.fingerprint
  }

  /** The definition a resume or a signal finds for an instance. */
  function Registered(table: Table, d: Instance): Option<Definition> {
    Lookup(table, d.name, VersionOf(d))
  }

  const NO_DEFINITION := Definition("", "", "", [])

  function OrNothing(found: Option<Definition>): Definition {
    if found.Some? then found.value else NO_DEFINITION
  }

  function PlannedRunInstance(found: Option<Definition>, d: Instance, fp: Definition -> string, leaseFree: bool,
                              env: Environment): seq<Effect>
  {
    var def := OrNothing(found);
    Effects(def, d, Action.RunInstance(found.Some?, FingerprintValid(def, fp), leaseFree, env))
  }

  // ---------- One call, one instance ----------

  /** The same instance of the same definition, whatever its progress. */
  predicate Same(a: Instance, b: Instance) {
    a.id == b.id && a.name == b.name && a.version == b.version && a.fingerprint == b.fingerprint
  }

  ghost predicate Only(trace: seq<Effect>, d: Instance) {
    forall q | 0 <= q < |trace| && trace[q].Write? :: Same(trace[q].inst, d)
  }

  lemma {:induction false} AttemptsOnly(step: StepDefinition, i: int, inst: Instance, current: Value, env: Environment,
                                        used: nat, attempt: nat, backoff: int)
    requires 1 <= attempt <= MaxAttempts(step)
    ensures var run := AttemptsFrom(step, i, inst, current, env, used, attempt, backoff);
            Only(run.trace, inst) && Same(run.inst, inst)
    decreases MaxAttempts(step) - attempt
  {
    if Retries(step, current, env(used), attempt, backoff) {
      AttemptsOnly(step, i, inst, current, env, used + 1, attempt + 1,
                   if backoff <= 0 then backoff else NextBackoff(step, backoff));
    }
  }

  lemma {:induction false} ExecOnly(def: Definition, inst: Instance, i: nat, current: Value, env: Environment,
                                    used: nat)
    ensures Only(ExecFrom(def, inst, i, current, env, used).trace, inst)
    decreases |def.steps| - i
  {
    if i < |def.steps| {
      if i in inst.stepResults {
        ExecOnly(def, inst.(currentStep := i + 1), i + 1, inst.stepResults[i], env, used);
      } else {
        var at := inst.(currentStep := i);
        AttemptsOnly(def.steps[i], i, at, current, env, used, 1, InitialBackoff(def.steps[i]));
        var run := RunStep(def.steps[i], i, at, current, env, used);
        if run.verdict.Advance? {
          ExecOnly(def, run.inst, i + 1, run.verdict.value, env, run.used);
        }
      }
    }
  }

  lemma EffectsOnly(def: Definition, d: Instance, action: Action)
    ensures Only(Effects(def, d, action), d)
  {
    if action.RunInstance? || action.Resume? {
      ExecOnly(def, Restarted(d), 0, d.input, action.env, 0);
    } else if action.SignalNow? {
      var signal := Signal(action.name, action.payload);
      ExecOnly(def, Woken(d, signal), d.currentStep, signal, action.env, 0);
    }
  }

  lemma {:induction false} StoreFollows(store: map<string, Instance>, id: string, trace: seq<Effect>)
    requires id in store && store[id].id == id && Only(trace, store[id])
    ensures StoreAfter(store, trace) == store[id := After(store[id], trace)]
    decreases |trace|
  {
    if trace != [] {
      var front, last := trace[..|trace| - 1], trace[|trace| - 1];
      assert trace == front + [last];
      StoreFollows(store, id, front);
      AfterConcat(store[id], front, [last]);
      assert [last][1..] == [];
      assert After(After(store[id], front), [last]) == if last.Write? then last.inst else After(store[id], front);
    }
  }

  // ---------- What is returned is what is persisted ----------

  lemma RestartEnds(def: Definition, d: Instance, event: Event, env: Environment)
    ensures var e := ExecFrom(def, Restarted(d), 0, d.input, env, 0);
            After(d, RestartTrace(def, d, event, env)) == e.inst && Ends(e.inst, e.outcome)
  {
    var lead := [Write(Restarted(d))] + [Emit(event, -1)];
    ExecEnds(def, Restarted(d), 0, d.input, env, 0, After(d, lead));
    AfterConcat(d, lead, ExecFrom(def, Restarted(d), 0, d.input, env, 0).trace);
  }

  lemma DeliverEnds(def: Definition, d: Instance, signal: Value, env: Environment)
    ensures var e := ExecFrom(def, Woken(d, signal), d.currentStep, signal, env, 0);
            After(d, DeliverTrace(def, d, signal, env)) == e.inst && Ends(e.inst, e.outcome)
  {
    var lead := [Write(Woken(d, signal))] + [Emit(WorkflowResumed, d.currentStep)];
    ExecEnds(def, Woken(d, signal), d.currentStep, signal, env, 0, After(d, lead));
    AfterConcat(d, lead, ExecFrom(def, Woken(d, signal), d.currentStep, signal, env, 0).trace);
  }

  lemma {:induction false} StoreAfterConcat(store: map<string, Instance>, a: seq<Effect>, b: seq<Effect>)
    ensures StoreAfter(store, a + b) == StoreAfter(StoreAfter(store, a), b)
    decreases |b|
  {
    if b == [] {
      assert a + b == a;
    } else {
      var front, last := b[..|b| - 1], b[|b| - 1];
      assert a + b == (a + front) + [last] && b == front + [last];
      StoreAfterConcat(store, a, front);
      StoreAfterOne(store, a + front, last);
      StoreAfterOne(StoreAfter(store, a), front, last);
    }
  }

  /** The store after a call on one instance. */
  lemma CallStore(initial: map<string, Instance>, journal: seq<Effect>, id: string, trace: seq<Effect>)
    requires var store := StoreAfter(initial, journal);
             id in store && store[id].id == id && Only(trace, store[id])
    ensures var store := StoreAfter(initial, journal);
            StoreAfter(initial, journal + trace) == store[id := After(store[id], trace)]
  {
    StoreAfterConcat(initial, journal, trace);
    StoreFollows(StoreAfter(initial, journal), id, trace);
  }

  lemma LaunchEnds(def: Definition, born: Instance, env: Environment)
    ensures var e := ExecFrom(def, born, 0, born.input, env, 0);
            && After(born, LaunchTrace(def, born, env)) == e.inst && Ends(e.inst, e.outcome)
            && Only(LaunchTrace(def, born, env), born)
  {
    ExecEnds(def, born, 0, born.input, env, 0, born);
    ExecOnly(def, born, 0, born.input, env, 0);
    AfterConcat(born, [Emit(WorkflowStarted, -1)], ExecFrom(def, born, 0, born.input, env, 0).trace);
  }

  lemma BornStore(initial: map<string, Instance>, journal: seq<Effect>, born: Instance, trace: seq<Effect>)
    requires Only(trace, born)
    ensures StoreAfter(initial, journal + ([Write(born)] + trace))
            == StoreAfter(initial, journal)[born.id := After(born, trace)]
  {
    var store := StoreAfter(initial, journal);
    Regroup(journal, [Write(born)], trace);
    StoreAfterOne(initial, journal, Write(born));
    CallStore(initial, journal + [Write(born)], born.id, trace);
    assert store[born.id := born][born.id := After(born, trace)] == store[born.id := After(born, trace)];
  }

  lemma LaunchedStore(initial: map<string, Instance>, journal: seq<Effect>, def: Definition, born: Instance,
                      env: Environment)
    ensures var e := ExecFrom(def, born, 0, born.input, env, 0);
            && StoreAfter(initial, journal + ([Write(born)] + LaunchTrace(def, born, env)))
               == StoreAfter(initial, journal)[born.id := e.inst]
            && Ends(e.inst, e.outcome)
  {
    LaunchEnds(def, born, env);
    BornStore(initial, journal, born, LaunchTrace(def, born, env));
  }

  /** An engine call moves its own durable instance as its effects say, at every moment of the call, and no other. */
  lemma CallMovesOneInstance(store: map<string, Instance>, id: string, def: Definition, action: Action, cut: nat)
    requires id in store && store[id].id == id && cut <= |Effects(def, store[id], action)|
    ensures var t := Effects(def, store[id], action)[..cut];
            StoreAfter(store, t) == store[id := After(store[id], t)]
  {
    EffectsOnly(def, store[id], action);
    StoreFollows(store, id, Effects(def, store[id], action)[..cut]);
  }

  /** Whatever registry a (restarted) engine has: resume and signal call steps only of the definition registered
      under the instance's name and version, and only if the instance records its fingerprint or none; that
      definition then stays the registered one through all later registrations. */
  lemma CallsOnlyWhenBound(table: Table, later: seq<Definition>, d: Instance, action: Action, q: nat)
    requires WellKeyed(table) && (action.Resume? || action.SignalNow?)
    requires action.registered == Lookup(table, d.name, VersionOf(d)).Some?
    requires var t := Effects(OrNothing(Lookup(table, d.name, VersionOf(d))), d, action); q < |t| && t[q].Call?
    ensures var found := Lookup(table, d.name, VersionOf(d));
            && found.Some? && found.value.name == d.name && found.value.version == VersionOf(d)
            && (d.fingerprint == "" || d.fingerprint == found.value.fingerprint)
            && Lookup(AfterSaves(table, later), d.name, VersionOf(d)) == found
    ensures d.status == (if action.Resume? then Failed else Waiting) && action.leaseFree
  {
    if Lookup(table, d.name, VersionOf(d)).Some? {
      FirstAcceptedForever(table, later, d.name, VersionOf(d));
    }
  }
}
