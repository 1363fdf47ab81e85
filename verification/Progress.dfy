/** That the engine does something: which calls reach a step, how often a failing step is tried, and that work which can
    be done is done. */
module Progress {
  import opened Base
  import opened Workflow
  import opened Execution
  import opened EngineRuns
  import opened Backoff

  // ---------- Which steps a call reaches ----------

  ghost predicate HasCall(t: seq<Effect>) {
    exists q | 0 <= q < |t| :: t[q].Call?
  }

  lemma HasCallConcat(a: seq<Effect>, b: seq<Effect>)
    ensures HasCall(a + b) <==> HasCall(a) || HasCall(b)
  {
    if HasCall(a) {
      var q :| 0 <= q < |a| && a[q].Call?;
      assert (a + b)[q].Call?;
    }
    if HasCall(b) {
      var q :| 0 <= q < |b| && b[q].Call?;
      assert (a + b)[|a| + q].Call?;
    }
    if HasCall(a + b) {
      var q :| 0 <= q < |a + b| && (a + b)[q].Call?;
      assert if q < |a| then a[q].Call? else b[q - |a|].Call?;
    }
  }

  /** The first thing a step without a cached result does, in a live context, is to be called. */
  lemma FirstAttemptCalls(step: StepDefinition, i: int, inst: Instance, current: Value, env: Environment, used: nat)
    ensures var t := RunStep(step, i, inst, current, env, used).trace;
            if env(used).cancelled then !HasCall(t) else t != [] && t[0] == Call(i, current)
  {
  }

  lemma {:induction false} ExecCallsIff(def: Definition, inst: Instance, i: nat, current: Value, env: Environment,
                                        used: nat)
    requires Prefix(inst.stepResults)
    ensures HasCall(ExecFrom(def, inst, i, current, env, used).trace)
            <==> Max(i, |inst.stepResults|) < |def.steps| && !env(used).cancelled
    decreases |def.steps| - i
  {
    if i < |def.steps| && i in inst.stepResults {
      var skipped := inst.(currentStep := i + 1);
      ExecCallsIff(def, skipped, i + 1, inst.stepResults[i], env, used);
      HasCallConcat([Renew, Write(skipped)], ExecFrom(def, skipped, i + 1, inst.stepResults[i], env, used).trace);
    } else if i < |def.steps| {
      UncachedCallsIff(def, inst, i, current, env, used);
    }
  }

  lemma UncachedCallsIff(def: Definition, inst: Instance, i: nat, current: Value, env: Environment, used: nat)
    requires i < |def.steps| && i !in inst.stepResults
    ensures var t := ExecFrom(def, inst, i, current, env, used).trace;
            && (HasCall(t) <==> !env(used).cancelled)
            && (!env(used).cancelled ==> |t| > 3 && t[3] == Call(i, current))
  {
    var at := inst.(currentStep := i);
    var t := ExecFrom(def, inst, i, current, env, used).trace;
    var run, lead := RunStep(def.steps[i], i, at, current, env, used), [Renew, Write(at), Emit(StepStarted, i)];
    FirstAttemptCalls(def.steps[i], i, at, current, env, used);
    assert t[..3 + |run.trace|] == lead + run.trace;
    if env(used).cancelled {
      assert run == Settle(def.steps[i], i, at, current, env(used), 1, used);
      assert t == lead + run.trace;
      HasCallConcat(lead, run.trace);
    } else {
      assert t[3] == Call(i, current);
    }
  }

  // ---------- How often a step is tried ----------

  /** The calls numbered `from`, ..., to - 1 of the step all fault, and the context outlives them and the sleeps after
      them. */
  ghost predicate Faulting(step: StepDefinition, current: Value, env: Environment, from: nat, to: nat) {
    forall n: nat | from <= n < to :: Faults(step, current, env, n)
  }

  predicate Faults(step: StepDefinition, current: Value, env: Environment, n: nat) {
    !env(n).cancelled && !env(n).cancelledAsleep && Invoke(step.fn, current, env(n).world).Fault?
  }

  /** The run comes to what the rest comes to, after so many calls and sleeps more. */
  predicate Adds(run: StepRun, rest: StepRun, calls: nat, sleeps: nat) {
    && run.inst == rest.inst && run.verdict == rest.verdict && run.used == rest.used
    && Calls(run.trace) == calls + Calls(rest.trace) && |Sleeps(run.trace)| == sleeps + |Sleeps(rest.trace)|
  }

  lemma AddsMore(a: StepRun, b: StepRun, c: StepRun, calls: nat, sleeps: nat, calls': nat, sleeps': nat)
    requires Adds(a, b, calls, sleeps) && Adds(b, c, calls', sleeps')
    ensures Adds(a, c, calls + calls', sleeps + sleeps')
  {
  }

  /** After faulting calls the step is where it would be had they not been made, but for the attempts used up and the
      backoff; each of the calls is made, and slept after if there is a backoff that does not shrink. */
  lemma {:induction false} AfterFaults(step: StepDefinition, i: int, inst: Instance, current: Value, env: Environment,
                                       used: nat, attempt: nat, backoff: int, used': nat, attempt': nat)
    returns (backoff': int, sleeps: nat)
    requires 1 <= attempt <= attempt' <= MaxAttempts(step) && used' - used == attempt' - attempt
    requires Faulting(step, current, env, used, used')
    ensures Adds(AttemptsFrom(step, i, inst, current, env, used, attempt, backoff),
                 AttemptsFrom(step, i, inst, current, env, used', attempt', backoff'), used' - used, sleeps)
    ensures backoff > 0 && Multiplier(step) >= 1.0 ==> sleeps == used' - used && backoff' > 0
    decreases used' - used
  {
    backoff', sleeps := backoff, 0;
    if used < used' {
      assert Faults(step, current, env, used);
      var next := if backoff <= 0 then backoff else NextBackoff(step, backoff);
      var slept := if backoff > 0 then 1 else 0;
      OneFault(step, i, inst, current, env, used, attempt, backoff);
      var n;
      backoff', n := AfterFaults(step, i, inst, current, env, used + 1, attempt + 1, next, used', attempt');
      sleeps := slept + n;
      AddsMore(AttemptsFrom(step, i, inst, current, env, used, attempt, backoff),
               AttemptsFrom(step, i, inst, current, env, used + 1, attempt + 1, next),
               AttemptsFrom(step, i, inst, current, env, used', attempt', backoff'), 1, slept, used' - used - 1, n);
    }
  }

  lemma OneFault(step: StepDefinition, i: int, inst: Instance, current: Value, env: Environment, used: nat,
                 attempt: nat,
                 backoff: int)
    requires 1 <= attempt < MaxAttempts(step) && Faults(step, current, env, used)
    ensures var next := if backoff <= 0 then backoff else NextBackoff(step, backoff);
            && Adds(AttemptsFrom(step, i, inst, current, env, used, attempt, backoff),
                    AttemptsFrom(step, i, inst, current, env, used + 1, attempt + 1, next), 1, if backoff > 0 then 1
                      else 0)
            && (backoff > 0 && Multiplier(step) >= 1.0 ==> next > 0)
  {
    var next := if backoff <= 0 then backoff else NextBackoff(step, backoff);
    var rest := AttemptsFrom(step, i, inst, current, env, used + 1, attempt + 1, next);
    if backoff <= 0 {
      CallThen(i, current, rest.trace);
    } else {
      CallSleepThen(i, current, Delay(step, backoff), rest.trace);
      if Multiplier(step) >= 1.0 {
        assert backoff as real * Multiplier(step) >= backoff as real;
      }
    }
  }

  lemma SettleCalls(step: StepDefinition, i: int, inst: Instance, current: Value, a: Attempt, attempt: nat, used: nat)
    requires !a.cancelled
    ensures Calls(Settle(step, i, inst, current, a, attempt, used).trace) == 1
  {
    var t := Settle(step, i, inst, current, a, attempt, used).trace;
    assert t[0].Call? && forall e | e in t[1..] :: !e.Sleep? && !e.Call?;
    NoneOfThese(t[1..]);
  }

  /** A step whose policy allows n attempts survives any number of faults below n: the first call that works ends it,
      with its value recorded, and no call is made after it. */
  lemma RetriedUntilItWorks(step: StepDefinition, i: int, inst: Instance, current: Value, env: Environment, used: nat,
                            k: nat, v: Value)
    requires step.retry.Some? && k < step.retry.value.maxAttempts && Faulting(step, current, env, used, used + k)
    requires !env(used + k).cancelled && Invoke(step.fn, current, env(used + k).world) == Done(v)
    ensures var run := RunStep(step, i, inst, current, env, used);
            && run.verdict == Advance(v) && run.inst == inst.(stepResults := inst.stepResults[i := v])
            && Calls(run.trace) == k + 1 && run.used == used + k + 1
  {
    var backoff, sleeps := AfterFaults(step, i, inst, current, env, used, 1, InitialBackoff(step), used + k, k + 1);
    SettleCalls(step, i, inst, current, env(used + k), k + 1, used + k);
  }

  /** A step that faults as often as its policy allows is given up after exactly that many calls, with the error of the
      last one. */
  lemma GivenUpAfterThePolicy(step: StepDefinition, i: int, inst: Instance, current: Value, env: Environment, used: nat)
    requires step.retry.Some? && step.retry.value.maxAttempts > 0
    requires Faulting(step, current, env, used, used + step.retry.value.maxAttempts)
    ensures var n := step.retry.value.maxAttempts;
            var run := RunStep(step, i, inst, current, env, used);
            var last := Invoke(step.fn, current, env(used + n - 1).world);
            && Calls(run.trace) == n && last.Fault? && run.verdict == Halt(Stopped(last.error))
            && run.inst == inst.(status := Failed, err := Some(last.error))
    ensures var p := step.retry.value;
            (p.initialBackoff > 0 || p.backoff > 0) && (p.multiplier <= 0.0 || p.multiplier >= 1.0)
            ==> |Sleeps(RunStep(step, i, inst, current, env, used).trace)| == p.maxAttempts - 1
  {
    var k: nat := step.retry.value.maxAttempts - 1;
    assert Faults(step, current, env, used + k);
    var backoff, sleeps := AfterFaults(step, i, inst, current, env, used, 1, InitialBackoff(step), used + k, k + 1);
    SettleCalls(step, i, inst, current, env(used + k), k + 1, used + k);
    SettleIsOneCall(step, i, inst, current, env(used + k), k + 1, used + k);
  }

  /** A context that ends before an attempt fails the step with the context's error, whatever the faults before said. */
  lemma ContextEndsBefore(step: StepDefinition, i: int, inst: Instance, current: Value, env: Environment, used: nat,
                          k: nat)
    requires step.retry.Some? && k < step.retry.value.maxAttempts && Faulting(step, current, env, used, used + k)
    requires env(used + k).cancelled
    ensures var run := RunStep(step, i, inst, current, env, used);
            run.inst == inst.(status := Failed, err := Some(ContextDone)) && Calls(run.trace) == k
  {
    var backoff, sleeps := AfterFaults(step, i, inst, current, env, used, 1, InitialBackoff(step), used + k, k + 1);
    var t := Settle(step, i, inst, current, env(used + k), k + 1, used + k).trace;
    assert forall e | e in t :: !e.Sleep? && !e.Call?;
    NoneOfThese(t);
  }

  /** So does a context that ends in the sleep after a fault that would have been retried. */
  lemma ContextEndsAsleep(step: StepDefinition, i: int, inst: Instance, current: Value, env: Environment, used: nat,
                          k: nat)
    requires step.retry.Some? && k + 1 < step.retry.value.maxAttempts && Faulting(step, current, env, used, used + k)
    requires var p := step.retry.value;
             (p.initialBackoff > 0 || p.backoff > 0) && (p.multiplier <= 0.0 || p.multiplier >= 1.0)
    requires var a := env(used + k); !a.cancelled && a.cancelledAsleep && Invoke(step.fn, current, a.world).Fault?
    ensures var run := RunStep(step, i, inst, current, env, used);
            run.inst == inst.(status := Failed, err := Some(ContextDone)) && Calls(run.trace) == k + 1
  {
    var backoff, sleeps := AfterFaults(step, i, inst, current, env, used, 1, InitialBackoff(step), used + k, k + 1);
    SettleCalls(step, i, inst, current, env(used + k), k + 1, used + k);
  }

  /** Without a policy, or with one that allows no attempts, a step in a live context is called exactly once. */
  lemma CalledOnceWithoutPolicy(step: StepDefinition, i: int, inst: Instance, current: Value, env: Environment,
                                used: nat)
    requires step.retry.None? || step.retry.value.maxAttempts <= 0
    requires !env(used).cancelled
    ensures var run := RunStep(step, i, inst, current, env, used);
            var reply := Invoke(step.fn, current, env(used).world);
            && Calls(run.trace) == 1 && Sleeps(run.trace) == [] && run.used == used + 1
            && (reply.Done? ==> run.verdict == Advance(reply.value))
            && (reply.Fault? ==> run.inst == inst.(status := Failed, err := Some(reply.error)))
  {
    SettleCalls(step, i, inst, current, env(used), 1, used);
    SettleIsOneCall(step, i, inst, current, env(used), 1, used);
  }

  // ---------- Work that can be done is done ----------

  /** Every step calls out, to another service or to child workflows. */
  ghost predicate CallsOutOnly(def: Definition) {
    forall j | 0 <= j < |def.steps| :: !def.steps[j].fn.Local?
  }

  /** The context stays alive and every call works. */
  ghost predicate Working(env: Environment) {
    forall n: nat :: !env(n).cancelled && env(n).world.Works?
  }

  /** A step that joins child workflows parks while they are pending. */
  lemma PendingChildrenPark(step: StepDefinition, i: int, inst: Instance, current: Value, env: Environment, used: nat)
    requires step.fn.Join? && !env(used).cancelled && env(used).world.ChildrenPending?
    ensures var run := RunStep(step, i, inst, current, env, used);
            run.verdict == Halt(Parked) && run.inst == inst.(status := Waiting, err := None) && Calls(run.trace) == 1
  {
    SettleCalls(step, i, inst, current, env(used), 1, used);
  }

  /** In a world that works, steps that only call out complete the workflow. */
  lemma {:induction false} WorkingRunCompletes(def: Definition, inst: Instance, i: nat, current: Value,
                                               env: Environment,
                                               used: nat)
    requires CallsOutOnly(def) && Working(env)
    ensures ExecFrom(def, inst, i, current, env, used).inst.status.Completed?
    decreases |def.steps| - i
  {
    if i < |def.steps| {
      if i in inst.stepResults {
        WorkingRunCompletes(def, inst.(currentStep := i + 1), i + 1, inst.stepResults[i], env, used);
      } else {
        var at := inst.(currentStep := i);
        var run := RunStep(def.steps[i], i, at, current, env, used);
        assert !env(used).cancelled && env(used).world.Works?;
        assert run == Settle(def.steps[i], i, at, current, env(used), 1, used);
        WorkingRunCompletes(def, run.inst, i + 1, run.verdict.value, env, run.used);
      }
    }
  }

  // ---------- What is returned is what is persisted ----------

  lemma SettleEnds(step: StepDefinition, i: int, inst: Instance, current: Value, a: Attempt, attempt: nat, used: nat,
                   x: Instance)
    ensures var run := Settle(step, i, inst, current, a, attempt, used);
            After(x, run.trace) == run.inst && (run.verdict.Halt? ==> Ends(run.inst, run.verdict.outcome))
  {
    var run := Settle(step, i, inst, current, a, attempt, used);
    var k := if a.cancelled then 0 else 1;
    assert run.trace[k] == Write(run.inst);
    assert forall e | e in run.trace[k + 1..] :: !e.Write?;
    NoMoreWrites(run.inst, run.trace[k + 1..]);
    assert run.trace[k..][1..] == run.trace[k + 1..];
    assert k == 1 ==> run.trace[0].Call? && run.trace[1..] == run.trace[k..];
    assert run.trace[0..] == run.trace;
  }

  /** The status and error of an instance agree with how its execution ended. */
  predicate Ends(inst: Instance, outcome: Outcome) {
    match outcome
    case Finished => inst.status.Completed?
    case Parked => inst.status.Waiting?
    case Stopped(e) => inst.status.Failed? && inst.err == Some(e)
  }

  lemma {:induction false} NoMoreWrites(x: Instance, trace: seq<Effect>)
    requires forall e | e in trace :: !e.Write?
    ensures After(x, trace) == x
    decreases |trace|
  {
    if trace != [] {
      NoMoreWrites(x, trace[1..]);
    }
  }

  lemma {:induction false} AttemptsEnd(step: StepDefinition, i: int, inst: Instance, current: Value, env: Environment,
                                       used: nat, attempt: nat, backoff: int, x: Instance)
    requires 1 <= attempt <= MaxAttempts(step)
    ensures var run := AttemptsFrom(step, i, inst, current, env, used, attempt, backoff);
            After(x, run.trace) == run.inst && (run.verdict.Halt? ==> Ends(run.inst, run.verdict.outcome))
    decreases MaxAttempts(step) - attempt
  {
    if Retries(step, current, env(used), attempt, backoff) {
      var next := if backoff <= 0 then backoff else NextBackoff(step, backoff);
      var lead := if backoff <= 0 then [Call(i, current)] else [Call(i, current), Sleep(Delay(step, backoff))];
      var rest := AttemptsFrom(step, i, inst, current, env, used + 1, attempt + 1, next);
      AttemptsEnd(step, i, inst, current, env, used + 1, attempt + 1, next, x);
      NoMoreWrites(x, lead);
      AfterConcat(x, lead, rest.trace);
    } else {
      SettleEnds(step, i, inst, current, env(used), attempt, used, x);
    }
  }

  /** Execution ends with the instance it returns as the last one written, in the status its outcome says. */
  lemma {:induction false} ExecEnds(def: Definition, inst: Instance, i: nat, current: Value, env: Environment,
                                    used: nat, x: Instance)
    ensures var e := ExecFrom(def, inst, i, current, env, used);
            After(x, e.trace) == e.inst && Ends(e.inst, e.outcome)
    decreases |def.steps| - i
  {
    if i >= |def.steps| {
      var e := ExecFrom(def, inst, i, current, env, used);
      assert e.trace[1..] == [Emit(WorkflowCompleted, -1), Release];
      NoMoreWrites(e.inst, e.trace[1..]);
    } else if i in inst.stepResults {
      var skipped := inst.(currentStep := i + 1);
      var rest := ExecFrom(def, skipped, i + 1, inst.stepResults[i], env, used);
      ExecEnds(def, skipped, i + 1, inst.stepResults[i], env, used, After(x, [Renew, Write(skipped)]));
      AfterConcat(x, [Renew, Write(skipped)], rest.trace);
    } else {
      var at := inst.(currentStep := i);
      var run := RunStep(def.steps[i], i, at, current, env, used);
      var lead := [Renew, Write(at), Emit(StepStarted, i)];
      AttemptsEnd(def.steps[i], i, at, current, env, used, 1, InitialBackoff(def.steps[i]), After(x, lead));
      AfterConcat(x, lead, run.trace);
      if run.verdict.Advance? {
        var rest := ExecFrom(def, run.inst, i + 1, run.verdict.value, env, run.used);
        ExecEnds(def, run.inst, i + 1, run.verdict.value, env, run.used, After(x, lead + run.trace));
        AfterConcat(x, lead + run.trace, rest.trace);
      }
    }
  }

  // ---------- What is announced ----------

  ghost predicate Announces(t: seq<Effect>, event: Event) {
    exists q | 0 <= q < |t| :: t[q].Emit? && t[q].event == event
  }

  lemma AnnouncesConcat(a: seq<Effect>, b: seq<Effect>, event: Event)
    ensures Announces(a + b, event) <==> Announces(a, event) || Announces(b, event)
  {
    if Announces(a, event) {
      var q :| 0 <= q < |a| && a[q].Emit? && a[q].event == event;
      assert (a + b)[q] == a[q];
    }
    if Announces(b, event) {
      var q :| 0 <= q < |b| && b[q].Emit? && b[q].event == event;
      assert (a + b)[|a| + q] == b[q];
    }
    if Announces(a + b, event) {
      var q :| 0 <= q < |a + b| && (a + b)[q].Emit? && (a + b)[q].event == event;
      assert if q < |a| then a[q] == (a + b)[q] else b[q - |a|] == (a + b)[q];
    }
  }

  lemma SettleAnnounces(step: StepDefinition, i: int, inst: Instance, current: Value, a: Attempt, attempt: nat,
                        used: nat)
    ensures var run := Settle(step, i, inst, current, a, attempt, used);
            && !Announces(run.trace, WorkflowCompleted)
            && (Announces(run.trace, WorkflowFailed) <==> run.verdict.Halt? && run.verdict.outcome.Stopped?)
            && (Announces(run.trace, StepFailed) <==> run.verdict.Halt? && run.verdict.outcome.Stopped?)
            && (Announces(run.trace, StepCompleted) <==> run.verdict.Advance?)
  {
    var run := Settle(step, i, inst, current, a, attempt, used);
    var n := |run.trace|;
    if run.verdict.Advance? {
      assert run.trace[2] == Emit(StepCompleted, i);
    } else if run.verdict.outcome.Stopped? {
      var k := if a.cancelled then 1 else 2;
      assert run.trace[k] == Emit(StepFailed, i) && run.trace[k + 1] == Emit(WorkflowFailed, -1);
    }
  }

  lemma {:induction false} AttemptsAnnounce(step: StepDefinition, i: int, inst: Instance, current: Value,
                                            env: Environment,
                                            used: nat, attempt: nat, backoff: int)
    requires 1 <= attempt <= MaxAttempts(step)
    ensures var run := AttemptsFrom(step, i, inst, current, env, used, attempt, backoff);
            && !Announces(run.trace, WorkflowCompleted)
            && (Announces(run.trace, WorkflowFailed) <==> run.verdict.Halt? && run.verdict.outcome.Stopped?)
    decreases MaxAttempts(step) - attempt
  {
    if Retries(step, current, env(used), attempt, backoff) {
      var next := if backoff <= 0 then backoff else NextBackoff(step, backoff);
      var lead := if backoff <= 0 then [Call(i, current)] else [Call(i, current), Sleep(Delay(step, backoff))];
      var rest := AttemptsFrom(step, i, inst, current, env, used + 1, attempt + 1, next);
      AttemptsAnnounce(step, i, inst, current, env, used + 1, attempt + 1, next);
      AnnouncesConcat(lead, rest.trace, WorkflowCompleted);
      AnnouncesConcat(lead, rest.trace, WorkflowFailed);
    } else {
      SettleAnnounces(step, i, inst, current, env(used), attempt, used);
    }
  }

  /** The completed event is emitted exactly by executions that finish, the failed event exactly by those that stop. */
  lemma {:induction false} ExecAnnounces(def: Definition, inst: Instance, i: nat, current: Value, env: Environment,
                                         used: nat)
    ensures var e := ExecFrom(def, inst, i, current, env, used);
            && (Announces(e.trace, WorkflowCompleted) <==> e.outcome.Finished?)
            && (Announces(e.trace, WorkflowFailed) <==> e.outcome.Stopped?)
    decreases |def.steps| - i
  {
    var e := ExecFrom(def, inst, i, current, env, used);
    if i >= |def.steps| {
      assert e.trace[1] == Emit(WorkflowCompleted, -1);
    } else if i in inst.stepResults {
      var skipped := inst.(currentStep := i + 1);
      var rest := ExecFrom(def, skipped, i + 1, inst.stepResults[i], env, used);
      ExecAnnounces(def, skipped, i + 1, inst.stepResults[i], env, used);
      AnnouncesConcat([Renew, Write(skipped)], rest.trace, WorkflowCompleted);
      AnnouncesConcat([Renew, Write(skipped)], rest.trace, WorkflowFailed);
    } else {
      StepAnnounces(def, inst, i, current, env, used);
      var run := RunStep(def.steps[i], i, inst.(currentStep := i), current, env, used);
      if run.verdict.Advance? {
        var rest := ExecFrom(def, run.inst, i + 1, run.verdict.value, env, run.used);
        ExecAnnounces(def, run.inst, i + 1, run.verdict.value, env, run.used);
        var lead := [Renew, Write(inst.(currentStep := i)), Emit(StepStarted, i)] + run.trace;
        AnnouncesConcat(lead, rest.trace, WorkflowCompleted);
        AnnouncesConcat(lead, rest.trace, WorkflowFailed);
      }
    }
  }

  lemma StepAnnounces(def: Definition, inst: Instance, i: nat, current: Value, env: Environment, used: nat)
    requires i < |def.steps|
    ensures var run := RunStep(def.steps[i], i, inst.(currentStep := i), current, env, used);
            var lead := [Renew, Write(inst.(currentStep := i)), Emit(StepStarted, i)] + run.trace;
            && !Announces(lead, WorkflowCompleted) && (run.verdict.Halt? ==> !run.verdict.outcome.Finished?)
            && (Announces(lead, WorkflowFailed) <==> run.verdict.Halt? && run.verdict.outcome.Stopped?)
  {
    var at := inst.(currentStep := i);
    var run := RunStep(def.steps[i], i, at, current, env, used);
    AttemptsAnnounce(def.steps[i], i, at, current, env, used, 1, InitialBackoff(def.steps[i]));
    AnnouncesConcat([Renew, Write(at), Emit(StepStarted, i)], run.trace, WorkflowCompleted);
    AnnouncesConcat([Renew, Write(at), Emit(StepStarted, i)], run.trace, WorkflowFailed);
    NeverFinishes(def.steps[i], i, at, current, env, used, 1, InitialBackoff(def.steps[i]));
  }

  lemma {:induction false} NeverFinishes(step: StepDefinition, i: int, inst: Instance, current: Value, env: Environment,
                                         used: nat, attempt: nat, backoff: int)
    requires 1 <= attempt <= MaxAttempts(step)
    ensures var run := AttemptsFrom(step, i, inst, current, env, used, attempt, backoff);
            run.verdict.Halt? ==> !run.verdict.outcome.Finished?
    decreases MaxAttempts(step) - attempt
  {
    if Retries(step, current, env(used), attempt, backoff) {
      NeverFinishes(step, i, inst, current, env, used + 1, attempt + 1,
                    if backoff <= 0 then backoff else NextBackoff(step, backoff));
    }
  }

  // ---------- The lease is given back ----------

  ghost predicate EndsReleased(t: seq<Effect>) {
    t != [] && t[|t| - 1] == Release
  }

  lemma {:induction false} ParkingReleases(step: StepDefinition, i: int, inst: Instance, current: Value,
                                           env: Environment,
                                           used: nat, attempt: nat, backoff: int)
    requires 1 <= attempt <= MaxAttempts(step)
    ensures var run := AttemptsFrom(step, i, inst, current, env, used, attempt, backoff);
            run.verdict == Halt(Parked) ==> EndsReleased(run.trace)
    decreases MaxAttempts(step) - attempt
  {
    if Retries(step, current, env(used), attempt, backoff) {
      ParkingReleases(step, i, inst, current, env, used + 1, attempt + 1,
                      if backoff <= 0 then backoff else NextBackoff(step, backoff));
    }
  }

  /** An execution that finishes or parks gives the lease back as its last effect. */
  lemma {:induction false} ExecReleases(def: Definition, inst: Instance, i: nat, current: Value, env: Environment,
                                        used: nat)
    ensures var e := ExecFrom(def, inst, i, current, env, used);
            e.outcome.Finished? || e.outcome.Parked? ==> EndsReleased(e.trace)
    decreases |def.steps| - i
  {
    if i < |def.steps| {
      if i in inst.stepResults {
        ExecReleases(def, inst.(currentStep := i + 1), i + 1, inst.stepResults[i], env, used);
      } else {
        var at := inst.(currentStep := i);
        var run := RunStep(def.steps[i], i, at, current, env, used);
        ParkingReleases(def.steps[i], i, at, current, env, used, 1, InitialBackoff(def.steps[i]));
        NeverFinishes(def.steps[i], i, at, current, env, used, 1, InitialBackoff(def.steps[i]));
        if run.verdict.Advance? {
          ExecReleases(def, run.inst, i + 1, run.verdict.value, env, run.used);
        }
      }
    }
  }

  /** A resume or a signal that has taken the lease always gives it back. */
  lemma LeasedCallsRelease(def: Definition, d: Instance, registered: bool, name: string, payload: Value,
                           env: Environment)
    ensures d.status.Failed? ==> EndsReleased(Effects(def, d, Action.Resume(registered, true, env)))
    ensures d.status.Waiting? ==> EndsReleased(Effects(def, d, Action.SignalNow(registered, name, payload, true, env)))
  {
  }

  // ---------- Replays and recovery ----------

  /** An accepted resume starts over: its first write resets the runtime fields and nothing else, and it calls a step
      exactly if one without a result is left and the context is alive. */
  lemma ResumeStartsOver(def: Definition, d: Instance, env: Environment)
    requires d.status.Failed? && (d.fingerprint == "" || d.fingerprint == def.fingerprint) && Prefix(d.stepResults)
    ensures var t := Effects(def, d, Action.Resume(true, true, env));
            && |t| > 1 && t[0] == Write(d.(status := Running, err := None, output := Nil, currentStep := 0))
            && t[1] == Emit(WorkflowResumed, -1)
            && (HasCall(t) <==> |d.stepResults| < |def.steps| && !env(0).cancelled)
  {
    var again := Restarted(d);
    var lead, rest := [Write(again)] + [Emit(WorkflowResumed, -1)], ExecFrom(def, again, 0, d.input, env, 0).trace;
    ExecCallsIff(def, again, 0, d.input, env, 0);
    HasCallConcat(lead, rest);
    HasCallConcat(lead + rest, [Release]);
  }

  /** An accepted resume and an accepted RunInstance come to the same durable instance. */
  lemma ResumeIsReplay(def: Definition, d: Instance, env: Environment)
    requires d.status.Failed? && (d.fingerprint == "" || d.fingerprint == def.fingerprint)
    ensures After(d, Effects(def, d, Action.Resume(true, true, env)))
            == After(d, Effects(def, d, Action.RunInstance(true, true, true, env)))
  {
    var again, rest := Restarted(d), ExecFrom(def, Restarted(d), 0, d.input, env, 0).trace;
    var a, b := [Write(again)] + [Emit(WorkflowResumed, -1)], [Write(again)] + [Emit(WorkflowStarted, -1)];
    AfterConcat(d, a + rest, [Release]);
    AfterConcat(d, a, rest);
    AfterConcat(d, b, rest);
    AfterConcat(d, [Write(again)], [Emit(WorkflowResumed, -1)]);
    AfterConcat(d, [Write(again)], [Emit(WorkflowStarted, -1)]);
    OneEffect(d, again);
    var x := After(After(d, a), rest);
    assert [Release][1..] == [] && After(x, [Release]) == After(x, []);
  }

  lemma OneEffect(d: Instance, w: Instance)
    ensures After(d, [Write(w)]) == w && forall e: Event, i :: After(w, [Emit(e, i)]) == w
  {
    assert [Write(w)][1..] == [];
    forall e: Event, i ensures After(w, [Emit(e, i)]) == w {
      assert [Emit(e, i)][1..] == [];
    }
  }

  /** An accepted signal wakes the instance where it waits, with the signal as its input. */
  lemma SignalWakes(def: Definition, d: Instance, name: string, payload: Value, env: Environment)
    requires d.status.Waiting? && (d.fingerprint == "" || d.fingerprint == def.fingerprint)
    ensures var t := Effects(def, d, Action.SignalNow(true, name, payload, true, env));
            && |t| > 1 && t[1] == Emit(WorkflowResumed, d.currentStep)
            && t[0] == Write(d.(status := Running, err := None, output := Nil, input := Signal(name, payload)))
  {
  }

  /** What a crash leaves RUNNING can be finished: recovery fails it, with its results and its input kept, and a
      resume in a world that works completes it. */
  lemma CrashRecoverResume(def: Definition, d: Instance, env: Environment)
    requires d.status.Running? && (d.fingerprint == "" || d.fingerprint == def.fingerprint)
    requires CallsOutOnly(def) && Working(env)
    ensures var failed := After(d, Effects(def, d, Action.Recover));
            && failed == d.(status := Failed, err := Some(RecoveredAfterCrash))
            && After(failed, Effects(def, failed, Action.Resume(true, true, env))).status.Completed?
  {
    var failed := d.(status := Failed, err := Some(RecoveredAfterCrash));
    OneEffect(d, failed);
    ResumeIsReplay(def, failed, env);
    ReplayCompletes(def, failed, env);
  }

  lemma ReplayCompletes(def: Definition, d: Instance, env: Environment)
    requires CallsOutOnly(def) && Working(env)
    ensures After(d, Effects(def, d, Action.RunInstance(true, true, true, env))).status.Completed?
  {
    var again := Restarted(d);
    var lead := [Write(again)] + [Emit(WorkflowStarted, -1)];
    WorkingRunCompletes(def, again, 0, d.input, env, 0);
    ExecEnds(def, again, 0, d.input, env, 0, After(d, lead));
    AfterConcat(d, lead, ExecFrom(def, again, 0, d.input, env, 0).trace);
  }
}
