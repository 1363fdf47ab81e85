/** Every history an instance can have: engine calls one after another, each cut short by a crash
    after any number of its effects. */
module EngineRuns {
  import opened Base
  import opened Workflow
  import opened Execution

  // ---------- What a persisted instance looks like ----------

  /** The cached results are those of an initial segment of the steps. */
  ghost predicate Prefix(results: map<int, Value>) {
    forall i :: i in results <==> 0 <= i < |results|
  }

  ghost predicate Checkpoint(def: Definition, inst: Instance) {
    var n, k := |def.steps|, |inst.stepResults|;
    && Prefix(inst.stepResults)
    && 0 <= inst.currentStep <= k <= n
    && match inst.status
       case Pending => k == 0 && inst.err.None?
       case Running => inst.err.None?
       case Waiting => inst.currentStep == k < n && inst.err.None?
       case Failed => inst.err.Some?
       case Completed => inst.currentStep == k == n && n > 0 && inst.output == inst.stepResults[n - 1] && inst.err.None?
  }

  ghost predicate Extends(older: map<int, Value>, newer: map<int, Value>) {
    forall i | i in older :: i in newer && newer[i] == older[i]
  }

  // ---------- The monitor ----------

  /** Reads a trace against the durable instance: writes are checkpoints that keep every cached result,
      only the first step without a cached result is ever called, and step-completed events climb. */
  ghost predicate Sound(def: Definition, durable: Instance, lastDone: int, trace: seq<Effect>)
    decreases |trace|
  {
    trace == [] ||
    match trace[0]
    case Write(w) =>
      Checkpoint(def, w) && Extends(durable.stepResults, w.stepResults) && Sound(def, w, lastDone, trace[1..])
    case Call(i, _) =>
      i == |durable.stepResults| < |def.steps| && Sound(def, durable, lastDone, trace[1..])
    case Emit(StepCompleted, i) =>
      lastDone < i < |durable.stepResults| && Sound(def, durable, i, trace[1..])
    case _ => Sound(def, durable, lastDone, trace[1..])
  }

  function LastDone(lastDone: int, trace: seq<Effect>): int
    decreases |trace|
  {
    if trace == [] then lastDone
    else LastDone(if Completes(trace[0]) then trace[0].step else lastDone, trace[1..])
  }

  lemma {:induction false} SoundConcat(def: Definition, d: Instance, done: int, a: seq<Effect>, b: seq<Effect>)
    ensures Sound(def, d, done, a + b) <==> Sound(def, d, done, a) && Sound(def, After(d, a), LastDone(done, a), b)
    decreases |a|
  {
    if a == [] {
      assert a + b == b;
    } else {
      assert (a + b)[1..] == a[1..] + b;
      var d' := if a[0].Write? then a[0].inst else d;
      var done' := if Completes(a[0]) then a[0].step else done;
      SoundConcat(def, d', done', a[1..], b);
    }
  }

  /** Effects the monitor does not look at. */
  ghost predicate Quiet(trace: seq<Effect>) {
    forall e | e in trace :: e.Renew? || e.Release? || e.Sleep? || (e.Emit? && !e.event.StepCompleted?)
  }

  lemma {:induction false} QuietIsNeutral(def: Definition, d: Instance, done: int, trace: seq<Effect>)
    requires Quiet(trace)
    ensures Sound(def, d, done, trace) && After(d, trace) == d && LastDone(done, trace) == done
    decreases |trace|
  {
    if trace != [] {
      assert trace[0] in trace && forall e | e in trace[1..] :: e in trace;
      QuietIsNeutral(def, d, done, trace[1..]);
    }
  }

  lemma {:induction false} LastDoneConcat(done: int, a: seq<Effect>, b: seq<Effect>)
    ensures LastDone(done, a + b) == LastDone(LastDone(done, a), b)
    decreases |a|
  {
    if a == [] {
      assert a + b == b;
    } else {
      assert (a + b)[1..] == a[1..] + b;
      LastDoneConcat(if Completes(a[0]) then a[0].step else done, a[1..], b);
    }
  }

  /** The trace is sound and takes the monitor from (d, done) to (d', done'). */
  ghost predicate Leads(def: Definition, d: Instance, done: int, trace: seq<Effect>, d': Instance, done': int) {
    Sound(def, d, done, trace) && After(d, trace) == d' && LastDone(done, trace) == done'
  }

  lemma LeadsConcat(def: Definition, d: Instance, done: int, a: seq<Effect>, d1: Instance, done1: int,
                    b: seq<Effect>, d2: Instance, done2: int)
    requires Leads(def, d, done, a, d1, done1) && Leads(def, d1, done1, b, d2, done2)
    ensures Leads(def, d, done, a + b, d2, done2)
  {
    SoundConcat(def, d, done, a, b);
    AfterConcat(d, a, b);
    LastDoneConcat(done, a, b);
  }

  lemma LeadsOne(def: Definition, d: Instance, done: int, e: Effect)
    requires e.Write? ==> Checkpoint(def, e.inst) && Extends(d.stepResults, e.inst.stepResults)
    requires e.Call? ==> e.step == |d.stepResults| < |def.steps|
    requires Completes(e) ==> done < e.step < |d.stepResults|
    ensures Leads(def, d, done, [e], if e.Write? then e.inst else d,
                  if Completes(e) then e.step else done)
  {
    var d' := if e.Write? then e.inst else d;
    var done' := if Completes(e) then e.step else done;
    assert [e][1..] == [];
    assert After(d, [e]) == After(d', []) && LastDone(done, [e]) == LastDone(done', []);
  }

  /** One checked write and then quiet effects. */
  lemma LeadsWrite(def: Definition, d: Instance, done: int, w: Instance, tail: seq<Effect>)
    requires Quiet(tail) && Checkpoint(def, w) && Extends(d.stepResults, w.stepResults)
    ensures Leads(def, d, done, [Write(w)] + tail, w, done)
  {
    LeadsOne(def, d, done, Write(w));
    QuietIsNeutral(def, w, done, tail);
    LeadsConcat(def, d, done, [Write(w)], w, done, tail, w, done);
  }

  /** A call, one checked write, then quiet effects. */
  lemma LeadsCallWrite(def: Definition, d: Instance, done: int, x: Value, w: Instance, tail: seq<Effect>)
    requires |d.stepResults| < |def.steps|
    requires Quiet(tail) && Checkpoint(def, w) && Extends(d.stepResults, w.stepResults)
    ensures Leads(def, d, done, [Call(|d.stepResults|, x), Write(w)] + tail, w, done)
  {
    LeadsOne(def, d, done, Call(|d.stepResults|, x));
    LeadsWrite(def, d, done, w, tail);
    LeadsConcat(def, d, done, [Call(|d.stepResults|, x)], d, done, [Write(w)] + tail, w, done);
    assert [Call(|d.stepResults|, x)] + ([Write(w)] + tail) == [Call(|d.stepResults|, x), Write(w)] + tail;
  }

  lemma LeadsDone(def: Definition, d: Instance, done: int, x: Value, w: Instance)
    requires |d.stepResults| < |def.steps| && done < |d.stepResults| < |w.stepResults|
    requires Checkpoint(def, w) && Extends(d.stepResults, w.stepResults)
    ensures var i := |d.stepResults|; Leads(def, d, done, [Call(i, x), Write(w), Emit(StepCompleted, i)], w, i)
  {
    var i := |d.stepResults|;
    LeadsCallWrite(def, d, done, x, w, []);
    LeadsOne(def, w, done, Emit(StepCompleted, i));
    LeadsConcat(def, d, done, [Call(i, x), Write(w)] + [], w, done, [Emit(StepCompleted, i)], w, i);
    assert [Call(i, x), Write(w)] + [] + [Emit(StepCompleted, i)] == [Call(i, x), Write(w), Emit(StepCompleted, i)];
  }

  /** A sound trace cut anywhere leaves a state from which the next call can start. */
  ghost predicate Steady(def: Definition, d: Instance, lastDone: int) {
    Checkpoint(def, d) && -1 <= lastDone < |d.stepResults|
  }

  lemma {:induction false} SoundKeepsSteady(def: Definition, d: Instance, done: int, trace: seq<Effect>)
    requires Steady(def, d, done) && Sound(def, d, done, trace)
    ensures Steady(def, After(d, trace), LastDone(done, trace))
    ensures Extends(d.stepResults, After(d, trace).stepResults)
    decreases |trace|
  {
    if trace != [] {
      var d' := if trace[0].Write? then trace[0].inst else d;
      var done' := if Completes(trace[0]) then trace[0].step else done;
      if trace[0].Write? {
        assert |d.stepResults| <= |d'.stepResults| by {
          if |d.stepResults| > 0 {
            assert |d.stepResults| - 1 in d.stepResults;
          }
        }
      }
      SoundKeepsSteady(def, d', done', trace[1..]);
    }
  }

  // ---------- executeSteps is sound ----------

  /** The instance while step |stepResults| is being attempted. */
  ghost predicate Attempting(def: Definition, inst: Instance, i: int, done: int) {
    && Checkpoint(def, inst) && inst.status.Running?
    && i == inst.currentStep == |inst.stepResults| < |def.steps|
    && -1 <= done < i
  }

  lemma {:induction false} RecordKeepsCheckpoint(def: Definition, inst: Instance, i: int, done: int, v: Value)
    requires Attempting(def, inst, i, done)
    ensures var next := inst.(stepResults := inst.stepResults[i := v]);
            Checkpoint(def, next) && |next.stepResults| == i + 1 && Extends(inst.stepResults, next.stepResults)
  {
    var next := inst.(stepResults := inst.stepResults[i := v]);
    assert i !in inst.stepResults;
    assert |next.stepResults| == i + 1;
  }

  /** The attempts at step i lead to its result being recorded, or to a parked or failed instance. */
  ghost predicate GoodRun(def: Definition, inst: Instance, i: int, done: int, run: StepRun) {
    match run.verdict
    case Advance(v) =>
      && run.inst == inst.(stepResults := inst.stepResults[i := v])
      && Leads(def, inst, done, run.trace, run.inst, i)
    case Halt(outcome) =>
      && run.inst.status == (if outcome.Parked? then Waiting else Failed)
      && run.inst.stepResults == inst.stepResults
      && !outcome.Finished?
      && Leads(def, inst, done, run.trace, run.inst, done)
  }

  lemma SettleSound(def: Definition, i: int, inst: Instance, current: Value, a: Attempt,
                    attempt: nat, used: nat, done: int)
    requires Attempting(def, inst, i, done)
    ensures GoodRun(def, inst, i, done, Settle(def.steps[i], i, inst, current, a, attempt, used))
  {
    var run := Settle(def.steps[i], i, inst, current, a, attempt, used);
    if a.cancelled {
      LeadsWrite(def, inst, done, run.inst, [Emit(StepFailed, i), Emit(WorkflowFailed, -1)]);
    } else {
      match Invoke(def.steps[i].fn, current, a.world)
      case Done(v) =>
        RecordKeepsCheckpoint(def, inst, i, done, v);
        LeadsDone(def, inst, done, current, run.inst);
      case Fault(_) =>
        LeadsCallWrite(def, inst, done, current, run.inst, [Emit(StepFailed, i), Emit(WorkflowFailed, -1), Release]);
        LeadsCallWrite(def, inst, done, current, run.inst, [Emit(StepFailed, i), Emit(WorkflowFailed, -1)]);
      case AwaitAnyChild =>
        LeadsCallWrite(def, inst, done, current, run.inst, [Release]);
      case _ =>
        LeadsCallWrite(def, inst, done, current, run.inst, [Emit(WorkflowWaiting, i), Release]);
    }
  }

  lemma {:induction false} AttemptsSound(def: Definition, i: int, inst: Instance, current: Value, env: Environment,
                                         used: nat, attempt: nat, backoff: int, done: int)
    requires Attempting(def, inst, i, done)
    requires 1 <= attempt <= MaxAttempts(def.steps[i])
    ensures GoodRun(def, inst, i, done, AttemptsFrom(def.steps[i], i, inst, current, env, used, attempt, backoff))
    decreases MaxAttempts(def.steps[i]) - attempt
  {
    var step := def.steps[i];
    if Retries(step, current, env(used), attempt, backoff) {
      var next := if backoff <= 0 then backoff else NextBackoff(step, backoff);
      var sleep := if backoff <= 0 then [] else [Sleep(Delay(step, backoff))];
      var run := AttemptsFrom(step, i, inst, current, env, used, attempt, backoff);
      var rest := AttemptsFrom(step, i, inst, current, env, used + 1, attempt + 1, next);
      AttemptsSound(def, i, inst, current, env, used + 1, attempt + 1, next, done);
      RetryTrace(step, i, inst, current, env, used, attempt, backoff);
      RetrySound(def, inst, i, current, done, sleep, rest, run);
    } else {
      SettleSound(def, i, inst, current, env(used), attempt, used, done);
    }
  }

  lemma RetryTrace(step: StepDefinition, i: int, inst: Instance, current: Value, env: Environment, used: nat,
                   attempt: nat, backoff: int)
    requires 1 <= attempt < MaxAttempts(step) && Retries(step, current, env(used), attempt, backoff)
    ensures var next := if backoff <= 0 then backoff else NextBackoff(step, backoff);
            var rest := AttemptsFrom(step, i, inst, current, env, used + 1, attempt + 1, next);
            var sleep := if backoff <= 0 then [] else [Sleep(Delay(step, backoff))];
            AttemptsFrom(step, i, inst, current, env, used, attempt, backoff)
              == rest.(trace := [Call(i, current)] + sleep + rest.trace)
  {
  }

  lemma RetrySound(def: Definition, inst: Instance, i: int, current: Value, done: int,
                   sleep: seq<Effect>, rest: StepRun, run: StepRun)
    requires Attempting(def, inst, i, done) && Quiet(sleep)
    requires run.trace == [Call(i, current)] + sleep + rest.trace
    requires run.inst == rest.inst && run.verdict == rest.verdict
    requires GoodRun(def, inst, i, done, rest)
    ensures GoodRun(def, inst, i, done, run)
  {
    var done' := if rest.verdict.Advance? then i else done;
    LeadsOne(def, inst, done, Call(i, current));
    QuietIsNeutral(def, inst, done, sleep);
    LeadsConcat(def, inst, done, [Call(i, current)], inst, done, sleep, inst, done);
    LeadsConcat(def, inst, done, [Call(i, current)] + sleep, inst, done, rest.trace, rest.inst, done');
  }

  /** executeSteps from any step up to the first without a result. */
  ghost predicate Replaying(def: Definition, inst: Instance, i: int, current: Value, done: int) {
    && Checkpoint(def, inst) && inst.status.Running?
    && 0 <= i <= |inst.stepResults| && -1 <= done < |inst.stepResults|
    && (i == |def.steps| ==> i > 0 && current == inst.stepResults[i - 1])
  }

  /** The execution keeps the promises of a run and ends in the status its outcome says. */
  ghost predicate GoodExec(def: Definition, d: Instance, done: int, e: Exec) {
    && Leads(def, d, done, e.trace, e.inst, LastDone(done, e.trace))
    && e.inst.status == (match e.outcome case Finished => Completed case Parked => Waiting case Stopped(_) => Failed)
  }

  lemma GoodThen(def: Definition, d: Instance, done: int, lead: seq<Effect>, d1: Instance, done1: int, e: Exec)
    requires Leads(def, d, done, lead, d1, done1) && GoodExec(def, d1, done1, e)
    ensures GoodExec(def, d, done, e.(trace := lead + e.trace))
  {
    LeadsConcat(def, d, done, lead, d1, done1, e.trace, e.inst, LastDone(done1, e.trace));
  }

  lemma {:induction false} ExecSound(def: Definition, d: Instance, inst: Instance, i: int, current: Value,
                                     env: Environment, used: nat, done: int)
    requires Replaying(def, inst, i, current, done) && d.stepResults == inst.stepResults
    ensures GoodExec(def, d, done, ExecFrom(def, inst, i, current, env, used))
    decreases |def.steps| - i
  {
    if i == |def.steps| {
      FinishSound(def, d, inst, current, env, used, done);
    } else if i in inst.stepResults {
      var skipped := inst.(currentStep := i + 1);
      ExecSound(def, skipped, skipped, i + 1, inst.stepResults[i], env, used, done);
      SkipCase(def, d, inst, i, current, env, used, done);
    } else {
      var run := RunStep(def.steps[i], i, inst.(currentStep := i), current, env, used);
      StepSound(def, d, inst, i, current, env, used, done);
      if run.verdict.Advance? {
        RecordKeepsCheckpoint(def, inst.(currentStep := i), i, done, run.verdict.value);
        ExecSound(def, run.inst, run.inst, i + 1, run.verdict.value, env, run.used, i);
      }
      StepCase(def, d, inst, i, current, env, used, done);
    }
  }

  /** A cached step, given that the rest is good. */
  lemma SkipCase(def: Definition, d: Instance, inst: Instance, i: nat, current: Value, env: Environment, used: nat,
                 done: int)
    requires Replaying(def, inst, i, current, done) && d.stepResults == inst.stepResults && i in inst.stepResults
    requires GoodExec(def, inst.(currentStep := i + 1), done,
                      ExecFrom(def, inst.(currentStep := i + 1), i + 1, inst.stepResults[i], env, used))
    ensures GoodExec(def, d, done, ExecFrom(def, inst, i, current, env, used))
  {
    var skipped := inst.(currentStep := i + 1);
    LeadsRenewWrite(def, d, done, skipped, []);
    assert [Renew, Write(skipped)] + [] == [Renew, Write(skipped)];
    GoodThen(def, d, done, [Renew, Write(skipped)], skipped, done,
             ExecFrom(def, skipped, i + 1, inst.stepResults[i], env, used));
  }

  /** A step without a cached result, given that the rest is good. */
  lemma StepCase(def: Definition, d: Instance, inst: Instance, i: nat, current: Value, env: Environment, used: nat,
                 done: int)
    requires Attempting(def, inst.(currentStep := i), i, done) && d.stepResults == inst.stepResults
    requires var run := RunStep(def.steps[i], i, inst.(currentStep := i), current, env, used);
             run.verdict.Advance? ==>
               GoodExec(def, run.inst, i, ExecFrom(def, run.inst, i + 1, run.verdict.value, env, run.used))
    ensures GoodExec(def, d, done, ExecFrom(def, inst, i, current, env, used))
  {
    var at := inst.(currentStep := i);
    var run := RunStep(def.steps[i], i, at, current, env, used);
    var lead := [Renew, Write(at), Emit(StepStarted, i)] + run.trace;
    assert i !in inst.stepResults;
    StepSound(def, d, inst, i, current, env, used, done);
    if run.verdict.Advance? {
      GoodThen(def, d, done, lead, run.inst, i, ExecFrom(def, run.inst, i + 1, run.verdict.value, env, run.used));
    } else {
      assert ExecFrom(def, inst, i, current, env, used) == Exec(lead, run.inst, run.verdict.outcome);
    }
  }

  lemma FinishSound(def: Definition, d: Instance, inst: Instance, current: Value, env: Environment, used: nat,
                    done: int)
    requires Replaying(def, inst, |def.steps|, current, done) && d.stepResults == inst.stepResults
    ensures GoodExec(def, d, done, ExecFrom(def, inst, |def.steps|, current, env, used))
  {
    var e := ExecFrom(def, inst, |def.steps|, current, env, used);
    LeadsWrite(def, d, done, e.inst, e.trace[1..]);
    assert e.trace == [Write(e.inst)] + e.trace[1..];
  }

  /** One step without a cached result, from its first write to its last effect. */
  lemma StepSound(def: Definition, d: Instance, inst: Instance, i: nat, current: Value, env: Environment, used: nat,
                  done: int)
    requires Attempting(def, inst.(currentStep := i), i, done) && d.stepResults == inst.stepResults
    ensures var at := inst.(currentStep := i);
            var run := RunStep(def.steps[i], i, at, current, env, used);
            && GoodRun(def, at, i, done, run)
            && Leads(def, d, done, [Renew, Write(at), Emit(StepStarted, i)] + run.trace, run.inst,
                     if run.verdict.Advance? then i else done)
  {
    var at := inst.(currentStep := i);
    var run := RunStep(def.steps[i], i, at, current, env, used);
    LeadsRenewWrite(def, d, done, at, [Emit(StepStarted, i)]);
    assert [Renew, Write(at)] + [Emit(StepStarted, i)] == [Renew, Write(at), Emit(StepStarted, i)];
    AttemptsSound(def, i, at, current, env, used, 1, InitialBackoff(def.steps[i]), done);
    LeadsConcat(def, d, done, [Renew, Write(at), Emit(StepStarted, i)], at, done, run.trace, run.inst,
                if run.verdict.Advance? then i else done);
  }

  lemma LeadsRenewWrite(def: Definition, d: Instance, done: int, w: Instance, tail: seq<Effect>)
    requires Quiet(tail) && Checkpoint(def, w) && Extends(d.stepResults, w.stepResults)
    ensures Leads(def, d, done, [Renew, Write(w)] + tail, w, done)
  {
    LeadsOne(def, d, done, Renew);
    LeadsWrite(def, d, done, w, tail);
    LeadsConcat(def, d, done, [Renew], d, done, [Write(w)] + tail, w, done);
    assert [Renew] + ([Write(w)] + tail) == [Renew, Write(w)] + tail;
  }

  // ---------- Entry points ----------

  lemma RestartSound(def: Definition, d: Instance, done: int, event: Event, env: Environment, tail: seq<Effect>)
    requires Steady(def, d, done) && def.steps != [] && !event.StepCompleted? && Quiet(tail)
    ensures Sound(def, d, done, RestartTrace(def, d, event, env) + tail)
  {
    var restarted := Restarted(d);
    LeadsWrite(def, d, done, restarted, [Emit(event, -1)]);
    ExecSound(def, restarted, restarted, 0, d.input, env, 0, done);
    var e := ExecFrom(def, restarted, 0, d.input, env, 0);
    LeadsConcat(def, d, done, [Write(restarted)] + [Emit(event, -1)], restarted, done, e.trace, e.inst,
                LastDone(done, e.trace));
    QuietIsNeutral(def, e.inst, LastDone(done, e.trace), tail);
    SoundConcat(def, d, done, RestartTrace(def, d, event, env), tail);
  }

  lemma DeliverSound(def: Definition, d: Instance, done: int, signal: Value, env: Environment, tail: seq<Effect>)
    requires Steady(def, d, done) && d.status.Waiting? && Quiet(tail)
    ensures Sound(def, d, done, DeliverTrace(def, d, signal, env) + tail)
  {
    var woken := Woken(d, signal);
    LeadsWrite(def, d, done, woken, [Emit(WorkflowResumed, d.currentStep)]);
    ExecSound(def, woken, woken, d.currentStep, signal, env, 0, done);
    var e := ExecFrom(def, woken, d.currentStep, signal, env, 0);
    LeadsConcat(def, d, done, [Write(woken)] + [Emit(WorkflowResumed, d.currentStep)], woken, done, e.trace, e.inst,
                LastDone(done, e.trace));
    QuietIsNeutral(def, e.inst, LastDone(done, e.trace), tail);
    SoundConcat(def, d, done, DeliverTrace(def, d, signal, env), tail);
  }

  lemma ActionSound(def: Definition, d: Instance, done: int, action: Action)
    requires Steady(def, d, done) && def.steps != []
    ensures Sound(def, d, done, Effects(def, d, action))
  {
    match action
    case RunInstance(registered, valid, leaseFree, env) =>
      if registered && !valid {
        LeadsWrite(def, d, done, Fail(d, DefinitionMismatch), [Emit(WorkflowFailed, -1)]);
      } else if registered && leaseFree {
        RestartSound(def, d, done, WorkflowStarted, env, []);
        assert Effects(def, d, action) + [] == Effects(def, d, action);
      }
    case Resume(registered, leaseFree, env) =>
      RestartSound(def, d, done, WorkflowResumed, env, [Release]);
      QuietIsNeutral(def, d, done, [Release]);
    case SignalNow(registered, name, payload, leaseFree, env) =>
      if d.status.Waiting? {
        DeliverSound(def, d, done, Signal(name, payload), env, [Release]);
      }
      QuietIsNeutral(def, d, done, [Release]);
    case SignalLater(name, payload) =>
      if d.status.Waiting? {
        var w := d.(err := None, input := Signal(name, payload));
        LeadsWrite(def, d, done, w, [Emit(SignalReceived, d.currentStep), Emit(WorkflowEnqueued, -1)]);
      }
    case Recover =>
      if d.status.Running? {
        LeadsWrite(def, d, done, Fail(d, RecoveredAfterCrash), []);
        assert Effects(def, d, action) + [] == Effects(def, d, action);
      }
  }

  // ---------- Whole histories ----------

  /** An engine call that a crash cuts short after `cut` effects (never, when `cut` is large). */
  datatype Episode = Episode(action: Action, cut: nat)

  function Cut(trace: seq<Effect>, cut: nat): seq<Effect> {
    if cut < |trace| then trace[..cut] else trace
  }

  function History(def: Definition, d: Instance, episodes: seq<Episode>): seq<Effect>
    decreases |episodes|
  {
    if episodes == [] then []
    else
      var t := Cut(Effects(def, d, episodes[0].action), episodes[0].cut);
      t + History(def, After(d, t), episodes[1..])
  }

  lemma {:induction false} CutSound(def: Definition, d: Instance, done: int, trace: seq<Effect>, cut: nat)
    requires Sound(def, d, done, trace)
    ensures Sound(def, d, done, Cut(trace, cut))
  {
    var t := Cut(trace, cut);
    assert trace == t + trace[|t|..];
    SoundConcat(def, d, done, t, trace[|t|..]);
  }

  lemma {:induction false} HistorySound(def: Definition, d: Instance, done: int, episodes: seq<Episode>)
    requires Steady(def, d, done) && def.steps != []
    ensures Sound(def, d, done, History(def, d, episodes))
    decreases |episodes|
  {
    if episodes != [] {
      var t := Cut(Effects(def, d, episodes[0].action), episodes[0].cut);
      ActionSound(def, d, done, episodes[0].action);
      CutSound(def, d, done, Effects(def, d, episodes[0].action), episodes[0].cut);
      SoundKeepsSteady(def, d, done, t);
      HistorySound(def, After(d, t), LastDone(done, t), episodes[1..]);
      SoundConcat(def, d, done, t, History(def, After(d, t), episodes[1..]));
    }
  }

  /** What an instance goes through from its creation on: Run executes it at once (possibly crashing
      after `cut` effects), Start only saves it; then any engine calls follow. */
  datatype Birth = ByRun(env: Environment, cut: nat) | ByStart

  function Newborn(def: Definition, id: string, input: Value, birth: Birth): Instance {
    Created(def, id, input, if birth.ByRun? then Running else Pending)
  }

  /** What happens between the first write and the first call on the existing instance. */
  function FirstEffects(def: Definition, id: string, input: Value, birth: Birth): seq<Effect> {
    if birth.ByRun? then Cut(LaunchTrace(def, Newborn(def, id, input, birth), birth.env), birth.cut) else []
  }

  /** The whole history, beginning with the write that saves the new instance. */
  function Life(def: Definition, id: string, input: Value, birth: Birth, episodes: seq<Episode>): seq<Effect> {
    var born, first := Newborn(def, id, input, birth), FirstEffects(def, id, input, birth);
    [Write(born)] + (first + History(def, After(born, first), episodes))
  }

  lemma FirstEffectsSound(def: Definition, id: string, input: Value, birth: Birth)
    requires def.steps != []
    ensures var born, first := Newborn(def, id, input, birth), FirstEffects(def, id, input, birth);
            Sound(def, born, -1, first) && Steady(def, After(born, first), LastDone(-1, first))
  {
    var born, first := Newborn(def, id, input, birth), FirstEffects(def, id, input, birth);
    if birth.ByRun? {
      ExecSound(def, born, born, 0, input, birth.env, 0, -1);
      LeadsOne(def, born, -1, Emit(WorkflowStarted, -1));
      var e := ExecFrom(def, born, 0, input, birth.env, 0);
      LeadsConcat(def, born, -1, [Emit(WorkflowStarted, -1)], born, -1, e.trace, e.inst, LastDone(-1, e.trace));
      CutSound(def, born, -1, LaunchTrace(def, born, birth.env), birth.cut);
    }
    SoundKeepsSteady(def, born, -1, first);
  }

  lemma LifeSound(def: Definition, id: string, input: Value, birth: Birth, episodes: seq<Episode>)
    requires def.steps != []
    ensures Sound(def, Newborn(def, id, input, birth), -1, Life(def, id, input, birth, episodes))
  {
    var born, first := Newborn(def, id, input, birth), FirstEffects(def, id, input, birth);
    FirstEffectsSound(def, id, input, birth);
    var rest := History(def, After(born, first), episodes);
    HistorySound(def, After(born, first), LastDone(-1, first), episodes);
    SoundConcat(def, born, -1, first, rest);
    LeadsOne(def, born, -1, Write(born));
    SoundConcat(def, born, -1, [Write(born)], first + rest);
  }

  // ---------- Theorems about every history ----------

  /** The monitor's verdict at a position of a sound trace. */
  lemma {:induction false} SoundAt(def: Definition, d: Instance, done: int, trace: seq<Effect>, q: nat)
    requires Steady(def, d, done) && Sound(def, d, done, trace) && q < |trace|
    ensures Steady(def, After(d, trace[..q]), LastDone(done, trace[..q]))
    ensures Sound(def, After(d, trace[..q]), LastDone(done, trace[..q]), trace[q..])
  {
    assert trace == trace[..q] + trace[q..];
    SoundConcat(def, d, done, trace[..q], trace[q..]);
    SoundKeepsSteady(def, d, done, trace[..q]);
  }

  /** Every persisted state is a checkpoint: a prefix of results, and a status that agrees with it. */
  lemma CheckpointInEveryPersistedState(def: Definition, id: string, input: Value, birth: Birth, episodes: seq<Episode>,
                                        q: nat)
    requires def.steps != []
    requires q < |Life(def, id, input, birth, episodes)| && Life(def, id, input, birth, episodes)[q].Write?
    ensures Checkpoint(def, Life(def, id, input, birth, episodes)[q].inst)
  {
    var trace := Life(def, id, input, birth, episodes);
    LifeSound(def, id, input, birth, episodes);
    SoundAt(def, Newborn(def, id, input, birth), -1, trace, q);
    assert trace[q..][0] == trace[q];
  }

  lemma NoReexecutionInTrace(def: Definition, d: Instance, done: int, t: seq<Effect>, p: nat, q: nat)
    requires Steady(def, d, done) && Sound(def, d, done, t) && p < q < |t| && t[p].Write?
    ensures t[q].Call? ==> t[q].step !in t[p].inst.stepResults
    ensures t[q].Write? ==> Extends(t[p].inst.stepResults, t[q].inst.stepResults)
  {
    SoundAt(def, d, done, t, p);
    var d', done', w := After(d, t[..p]), LastDone(done, t[..p]), t[p].inst;
    assert t[p..][0] == t[p] && t[p..][1..] == t[p + 1..];
    StillSteady(def, d', done', w);
    assert t[p + 1..][q - p - 1..] == t[q..] && t[q..][0] == t[q];
    SoundAt(def, w, done', t[p + 1..], q - p - 1);
    var between := t[p + 1..][..q - p - 1];
    assert t[p + 1..] == between + t[p + 1..][q - p - 1..];
    SoundConcat(def, w, done', between, t[p + 1..][q - p - 1..]);
    SoundKeepsSteady(def, w, done', between);
  }

  /** Once a result is persisted its step is never called again, and the result never changes. */
  lemma NoReexecution(def: Definition, id: string, input: Value, birth: Birth, episodes: seq<Episode>, t: seq<Effect>,
                      p: nat, q: nat)
    requires def.steps != [] && t == Life(def, id, input, birth, episodes) && p < q < |t| && t[p].Write?
    ensures t[q].Call? ==> t[q].step !in t[p].inst.stepResults
    ensures t[q].Write? ==> Extends(t[p].inst.stepResults, t[q].inst.stepResults)
  {
    LifeSound(def, id, input, birth, episodes);
    NoReexecutionInTrace(def, Newborn(def, id, input, birth), -1, t, p, q);
  }

  lemma StillSteady(def: Definition, d: Instance, done: int, w: Instance)
    requires Steady(def, d, done) && Checkpoint(def, w) && Extends(d.stepResults, w.stepResults)
    ensures Steady(def, w, done)
  {
    if |d.stepResults| > 0 {
      assert |d.stepResults| - 1 in d.stepResults;
    }
  }

  lemma EventsClimbInTrace(def: Definition, d: Instance, done: int, t: seq<Effect>, p: nat, q: nat)
    requires Steady(def, d, done) && Sound(def, d, done, t)
    requires p < q < |t| && Completes(t[p]) && Completes(t[q])
    ensures t[p].step < t[q].step
  {
    SoundAt(def, d, done, t, p);
    var d' := After(d, t[..p]);
    assert t[p..][0] == t[p] && t[p..][1..] == t[p + 1..];
    var between := t[p + 1..q];
    assert t[p + 1..] == between + t[q..];
    SoundConcat(def, d', t[p].step, between, t[q..]);
    LastDoneClimbs(def, d', t[p].step, between);
    assert t[q..][0] == t[q];
  }

  /** The step-completed events of a history climb strictly, across every resume and crash. */
  lemma CompletedEventsClimb(def: Definition, id: string, input: Value, birth: Birth, episodes: seq<Episode>,
                             t: seq<Effect>, p: nat, q: nat)
    requires def.steps != [] && t == Life(def, id, input, birth, episodes) && p < q < |t|
    requires Completes(t[p]) && Completes(t[q])
    ensures t[p].step < t[q].step
  {
    LifeSound(def, id, input, birth, episodes);
    EventsClimbInTrace(def, Newborn(def, id, input, birth), -1, t, p, q);
  }

  lemma {:induction false} LastDoneClimbs(def: Definition, d: Instance, done: int, trace: seq<Effect>)
    requires Sound(def, d, done, trace)
    ensures done <= LastDone(done, trace)
    decreases |trace|
  {
    if trace != [] {
      LastDoneClimbs(def, if trace[0].Write? then trace[0].inst else d,
                     if Completes(trace[0]) then trace[0].step else done, trace[1..]);
    }
  }
}
