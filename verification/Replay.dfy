/** What the checkpointed, crash-prone engine computes: the plain composition of the steps. */
module Replay {
  import opened Base
  import opened Workflow
  import opened Execution
  import opened EngineRuns

  // ---------- The reference: plain composition ----------

  ghost function Apply(fn: StepFn, x: Value): Option<Value> {
    match fn
    case Local(f) => if f(x).Done? then Some(f(x).value) else None
    case Remote(f) => Some(f(x))
    case Join(f, _) => Some(f(x))
  }

  /** f_{k-1} after ... after f_0, on x. */
  ghost function Composition(def: Definition, x: Value, k: nat): Option<Value>
    requires k <= |def.steps|
  {
    if k == 0 then Some(x)
    else
      var y := Composition(def, x, k - 1);
      if y.None? then None else Apply(def.steps[k - 1].fn, y.value)
  }

  // ---------- Every persisted result is the composition's ----------

  function InputOf(x: Value, results: map<int, Value>, i: nat): Value {
    if i == 0 then x else if i - 1 in results then results[i - 1] else Nil
  }

  /** The instance still has its original input, and its results are those of the composition. */
  ghost predicate Faithful(def: Definition, x: Value, inst: Instance) {
    && inst.input == x
    && forall i: nat {:trigger def.steps[i]} | i < |def.steps| && i in inst.stepResults ::
         Produces(def.steps[i].fn, InputOf(x, inst.stepResults, i), inst.stepResults[i])
  }

  ghost predicate ParkFree(def: Definition) {
    forall i | 0 <= i < |def.steps| :: NeverParks(def.steps[i].fn)
  }

  ghost predicate Tame(def: Definition, x: Value, inst: Instance) {
    Faithful(def, x, inst) && (ParkFree(def) ==> !inst.status.Waiting?)
  }

  ghost predicate AllTame(def: Definition, x: Value, trace: seq<Effect>) {
    forall k | 0 <= k < |trace| && trace[k].Write? :: Tame(def, x, trace[k].inst)
  }

  lemma {:induction false} FaithfulIsComposition(def: Definition, x: Value, inst: Instance, k: nat)
    requires Faithful(def, x, inst) && Prefix(inst.stepResults) && k <= |inst.stepResults| && k <= |def.steps|
    ensures Composition(def, x, k) == Some(InputOf(x, inst.stepResults, k))
  {
    if k > 0 {
      FaithfulIsComposition(def, x, inst, k - 1);
      assert k - 1 in inst.stepResults;
    }
  }

  /** The instance while step i is attempted with the input the composition gives it. */
  ghost predicate TameAttempt(def: Definition, x: Value, i: nat, inst: Instance, current: Value) {
    && i < |def.steps| && inst.status.Running? && Prefix(inst.stepResults) && i == |inst.stepResults|
    && Tame(def, x, inst) && current == InputOf(x, inst.stepResults, i)
  }

  lemma RecordTame(def: Definition, x: Value, i: nat, inst: Instance, current: Value, v: Value)
    requires TameAttempt(def, x, i, inst, current) && Produces(def.steps[i].fn, current, v)
    ensures Tame(def, x, inst.(stepResults := inst.stepResults[i := v]))
  {
    var next := inst.stepResults[i := v];
    forall j: nat | j < |def.steps| && j in next
      ensures Produces(def.steps[j].fn, InputOf(x, next, j), next[j])
    {
      assert j <= i;
      assert InputOf(x, next, j) == InputOf(x, inst.stepResults, j);
    }
  }

  lemma SettleTame(def: Definition, x: Value, i: nat, inst: Instance, current: Value, a: Attempt, attempt: nat,
                   used: nat)
    requires TameAttempt(def, x, i, inst, current)
    ensures var run := Settle(def.steps[i], i, inst, current, a, attempt, used);
            AllTame(def, x, run.trace) && Tame(def, x, run.inst)
  {
    var step := def.steps[i];
    var run := Settle(step, i, inst, current, a, attempt, used);
    if run.verdict.Advance? {
      RecordTame(def, x, i, inst, current, run.verdict.value);
    } else {
      assert ParkFree(def) ==> NeverParks(step.fn);
      assert run.inst.stepResults == inst.stepResults && run.inst.input == inst.input;
      assert ParkFree(def) ==> !run.inst.status.Waiting?;
    }
  }

  lemma {:induction false} AttemptsTame(def: Definition, x: Value, i: nat, inst: Instance, current: Value,
                                        env: Environment, used: nat, attempt: nat, backoff: int)
    requires TameAttempt(def, x, i, inst, current) && 1 <= attempt <= MaxAttempts(def.steps[i])
    ensures var run := AttemptsFrom(def.steps[i], i, inst, current, env, used, attempt, backoff);
            AllTame(def, x, run.trace) && Tame(def, x, run.inst)
    decreases MaxAttempts(def.steps[i]) - attempt
  {
    var step := def.steps[i];
    if Retries(step, current, env(used), attempt, backoff) {
      AttemptsTame(def, x, i, inst, current, env, used + 1, attempt + 1,
                   if backoff <= 0 then backoff else NextBackoff(step, backoff));
    } else {
      SettleTame(def, x, i, inst, current, env(used), attempt, used);
    }
  }

  lemma TameAlike(def: Definition, x: Value, a: Instance, b: Instance)
    requires Tame(def, x, a) && a.stepResults == b.stepResults && a.input == b.input && !b.status.Waiting?
    ensures Tame(def, x, b)
  {
  }

  lemma AttemptTame(def: Definition, x: Value, inst: Instance, i: nat, current: Value, env: Environment,
                    used: nat, done: int)
    requires Replaying(def, inst, i, current, done) && i < |def.steps| && i !in inst.stepResults
    requires Tame(def, x, inst) && current == InputOf(x, inst.stepResults, i)
    ensures var run := RunStep(def.steps[i], i, inst.(currentStep := i), current, env, used);
            && AllTame(def, x, [Renew, Write(inst.(currentStep := i)), Emit(StepStarted, i)] + run.trace)
            && (run.verdict.Advance? ==>
                  && Tame(def, x, run.inst) && Replaying(def, run.inst, i + 1, run.verdict.value, i)
                  && InputOf(x, run.inst.stepResults, i + 1) == run.verdict.value)
  {
    var at := inst.(currentStep := i);
    TameAlike(def, x, inst, at);
    var run := RunStep(def.steps[i], i, at, current, env, used);
    AttemptsTame(def, x, i, at, current, env, used, 1, InitialBackoff(def.steps[i]));
    AllTameConcat(def, x, [Renew, Write(at), Emit(StepStarted, i)], run.trace);
    if run.verdict.Advance? {
      AttemptsSound(def, i, at, current, env, used, 1, InitialBackoff(def.steps[i]), done);
      RecordKeepsCheckpoint(def, at, i, done, run.verdict.value);
    }
  }

  lemma {:induction false} ExecTame(def: Definition, x: Value, inst: Instance, i: nat, current: Value, env: Environment,
                                    used: nat, done: int)
    requires Replaying(def, inst, i, current, done)
    requires Tame(def, x, inst) && current == InputOf(x, inst.stepResults, i)
    ensures AllTame(def, x, ExecFrom(def, inst, i, current, env, used).trace)
    decreases |def.steps| - i
  {
    if i == |def.steps| {
      TameAlike(def, x, inst, ExecFrom(def, inst, i, current, env, used).inst);
    } else if i in inst.stepResults {
      var skipped := inst.(currentStep := i + 1);
      TameAlike(def, x, inst, skipped);
      ExecTame(def, x, skipped, i + 1, inst.stepResults[i], env, used, done);
      AllTameConcat(def, x, [Renew, Write(skipped)],
                    ExecFrom(def, skipped, i + 1, inst.stepResults[i], env, used).trace);
    } else {
      AttemptTame(def, x, inst, i, current, env, used, done);
      var run := RunStep(def.steps[i], i, inst.(currentStep := i), current, env, used);
      if run.verdict.Advance? {
        ExecTame(def, x, run.inst, i + 1, run.verdict.value, env, run.used, i);
        AllTameConcat(def, x, [Renew, Write(inst.(currentStep := i)), Emit(StepStarted, i)] + run.trace,
                      ExecFrom(def, run.inst, i + 1, run.verdict.value, env, run.used).trace);
      }
    }
  }

  lemma AllTameConcat(def: Definition, x: Value, a: seq<Effect>, b: seq<Effect>)
    requires AllTame(def, x, a) && AllTame(def, x, b)
    ensures AllTame(def, x, a + b)
  {
  }

  predicate IsSignal(action: Action) {
    action.SignalNow? || action.SignalLater?
  }

  lemma ActionTame(def: Definition, x: Value, d: Instance, done: int, action: Action)
    requires def.steps != [] && Steady(def, d, done) && Tame(def, x, d)
    requires ParkFree(def) || !IsSignal(action)
    ensures AllTame(def, x, Effects(def, d, action))
  {
    if action.RunInstance? || action.Resume? {
      var restarted := Restarted(d);
      ExecTame(def, x, restarted, 0, x, action.env, 0, done);
      var event := if action.RunInstance? then WorkflowStarted else WorkflowResumed;
      AllTameConcat(def, x, [Write(restarted)] + [Emit(event, -1)],
                    ExecFrom(def, restarted, 0, x, action.env, 0).trace);
      AllTameConcat(def, x, RestartTrace(def, d, event, action.env), [Release]);
    }
  }

  lemma {:induction false} TameAfter(def: Definition, x: Value, d: Instance, trace: seq<Effect>)
    requires Tame(def, x, d) && AllTame(def, x, trace)
    ensures Tame(def, x, After(d, trace))
    decreases |trace|
  {
    if trace != [] {
      TameAfter(def, x, if trace[0].Write? then trace[0].inst else d, trace[1..]);
    }
  }

  ghost predicate Unsignalled(episodes: seq<Episode>) {
    forall e | e in episodes :: !IsSignal(e.action)
  }

  lemma {:induction false} HistoryTame(def: Definition, x: Value, d: Instance, done: int, episodes: seq<Episode>)
    requires def.steps != [] && Steady(def, d, done) && Tame(def, x, d)
    requires ParkFree(def) || Unsignalled(episodes)
    ensures AllTame(def, x, History(def, d, episodes))
    decreases |episodes|
  {
    if episodes != [] {
      var all := Effects(def, d, episodes[0].action);
      var t := Cut(all, episodes[0].cut);
      assert episodes[0] in episodes;
      ActionTame(def, x, d, done, episodes[0].action);
      ActionSound(def, d, done, episodes[0].action);
      CutSound(def, d, done, all, episodes[0].cut);
      SoundKeepsSteady(def, d, done, t);
      TameAfter(def, x, d, t);
      HistoryTame(def, x, After(d, t), LastDone(done, t), episodes[1..]);
    }
  }

  /** Crash-replay refinement. However often an instance is run, crashes between two effects, is
      recovered, resumed or redelivered, and however its steps fail: if no signal is delivered, or the
      definition has no waiting step, then whenever the instance is persisted as COMPLETED its output is
      the plain composition of the steps on the original input; and every cached result is the
      composition's value at that step. */
  lemma CrashReplayRefinement(def: Definition, id: string, input: Value, birth: Birth, episodes: seq<Episode>, q: nat)
    requires def.steps != []
    requires ParkFree(def) || Unsignalled(episodes)
    requires var t := Life(def, id, input, birth, episodes); q < |t| && t[q].Write?
    ensures var w := Life(def, id, input, birth, episodes)[q].inst;
            && w.input == input
            && (w.status.Completed? ==> Composition(def, input, |def.steps|) == Some(w.output))
            && forall i: nat | i in w.stepResults ::
                 i < |def.steps| && Composition(def, input, i + 1) == Some(w.stepResults[i])
  {
    CheckpointInEveryPersistedState(def, id, input, birth, episodes, q);
    LifeTame(def, id, input, birth, episodes);
    var w := Life(def, id, input, birth, episodes)[q].inst;
    FaithfulResults(def, input, w);
    if w.status.Completed? {
      FaithfulIsComposition(def, input, w, |def.steps|);
    }
  }

  lemma {:induction false} FaithfulResults(def: Definition, x: Value, w: Instance)
    requires Checkpoint(def, w) && Faithful(def, x, w)
    ensures forall i: nat | i in w.stepResults ::
              i < |def.steps| && Composition(def, x, i + 1) == Some(w.stepResults[i])
  {
    forall i: nat | i in w.stepResults
      ensures i < |def.steps| && Composition(def, x, i + 1) == Some(w.stepResults[i])
    {
      FaithfulIsComposition(def, x, w, i + 1);
    }
  }

  lemma LifeTame(def: Definition, id: string, input: Value, birth: Birth, episodes: seq<Episode>)
    requires def.steps != []
    requires ParkFree(def) || Unsignalled(episodes)
    ensures AllTame(def, input, Life(def, id, input, birth, episodes))
  {
    var born, first := Newborn(def, id, input, birth), FirstEffects(def, id, input, birth);
    FirstEffectsSound(def, id, input, birth);
    if birth.ByRun? {
      ExecTame(def, input, born, 0, input, birth.env, 0, -1);
      AllTameConcat(def, input, [Emit(WorkflowStarted, -1)], ExecFrom(def, born, 0, input, birth.env, 0).trace);
    }
    TameAfter(def, input, born, first);
    HistoryTame(def, input, After(born, first), LastDone(-1, first), episodes);
  }
}
