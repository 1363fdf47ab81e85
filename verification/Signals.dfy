/** Racing signals: an approval and a timeout (or any number of deliveries) against one waiting step. */
module Signals {
  import opened Base
  import opened Workflow
  import opened Execution
  import opened EngineRuns

  /** The two waiting steps: for one signal, whose data they yield, or for any of several, which they yield whole. */
  datatype Wait = One(name: string) | AnyOf(names: seq<string>)

  function WaitStep(wait: Wait): StepFn {
    match wait
    case One(name) => WaitForSignalStep(name)
    case AnyOf(names) => WaitForAnySignalStep(names)
  }

  predicate Awaits(wait: Wait, v: Value) {
    v.Signal? && match wait case One(name) => v.name == name case AnyOf(names) => v.name in names
  }

  function Yield(wait: Wait, v: Value): Value
    requires v.Signal?
  {
    if wait.One? then v.data else v
  }

  /** What a parked instance shows of its wait. */
  function Meta(wait: Wait): Value {
    WaitMeta("signal", wait.AnyOf? && wait.names != [])
  }

  /** The definition's only remaining wait is step w. */
  ghost predicate SingleWait(def: Definition, w: nat, wait: Wait) {
    && w < |def.steps| && def.steps[w].fn == WaitStep(wait)
    && forall i | w < i < |def.steps| :: NeverParks(def.steps[i].fn)
  }

  ghost predicate WaitingAt(def: Definition, d: Instance, w: nat) {
    Checkpoint(def, d) && d.status.Waiting? && d.currentStep == w && Bound(def, d)
  }

  /** Reached by ordinary execution, the step parks exactly when its input is not the signal it waits for. */
  lemma ForwardRunParks(def: Definition, inst: Instance, w: nat, wait: Wait, v: Value, env: Environment, used: nat)
    requires SingleWait(def, w, wait) && Checkpoint(def, inst) && inst.status.Running? && |inst.stepResults| == w
    requires !env(used).cancelled
    ensures var e := ExecFrom(def, inst, w, v, env, used);
            e.inst.status.Waiting? <==> !Awaits(wait, v)
    ensures !Awaits(wait, v) ==>
              ExecFrom(def, inst, w, v, env, used).inst
              == inst.(currentStep := w, status := Waiting, err := None, output := Meta(wait))
  {
    var at := inst.(currentStep := w);
    var run := RunStep(def.steps[w], w, at, v, env, used);
    assert run == Settle(def.steps[w], w, at, v, env(used), 1, used);
    if Awaits(wait, v) {
      RecordKeepsCheckpoint(def, at, w, -1, Yield(wait, v));
      NeverWaits(def, run.inst, w + 1, Yield(wait, v), env, run.used);
    }
  }

  /** From a step after which nothing parks, execution ends COMPLETED or FAILED. */
  lemma {:induction false} NeverWaits(def: Definition, inst: Instance, i: nat, current: Value, env: Environment,
                                      used: nat)
    requires forall j | i <= j < |def.steps| :: NeverParks(def.steps[j].fn)
    ensures !ExecFrom(def, inst, i, current, env, used).inst.status.Waiting?
    decreases |def.steps| - i
  {
    if i < |def.steps| {
      if i in inst.stepResults {
        NeverWaits(def, inst.(currentStep := i + 1), i + 1, inst.stepResults[i], env, used);
      } else {
        var at := inst.(currentStep := i);
        NeverParksStep(def.steps[i], i, at, current, env, used, 1, InitialBackoff(def.steps[i]));
        var run := RunStep(def.steps[i], i, at, current, env, used);
        if run.verdict.Advance? {
          NeverWaits(def, run.inst, i + 1, run.verdict.value, env, run.used);
        }
      }
    }
  }

  lemma {:induction false} NeverParksStep(step: StepDefinition, i: int, inst: Instance, current: Value,
                                          env: Environment, used: nat, attempt: nat, backoff: int)
    requires NeverParks(step.fn) && 1 <= attempt <= MaxAttempts(step)
    ensures var run := AttemptsFrom(step, i, inst, current, env, used, attempt, backoff);
            run.verdict.Halt? ==> run.inst.status.Failed?
    decreases MaxAttempts(step) - attempt
  {
    if Retries(step, current, env(used), attempt, backoff) {
      NeverParksStep(step, i, inst, current, env, used + 1, attempt + 1,
                     if backoff <= 0 then backoff else NextBackoff(step, backoff));
    }
  }

  // ---------- Deliveries ----------

  datatype Delivery = Delivery(name: string, payload: Value, env: Environment)

  function DeliveryEffects(def: Definition, d: Instance, v: Delivery): seq<Effect> {
    Effects(def, d, SignalNow(true, v.name, v.payload, true, v.env))
  }

  function Deliver(def: Definition, d: Instance, v: Delivery): Instance {
    After(d, DeliveryEffects(def, d, v))
  }

  function DeliverAll(def: Definition, d: Instance, vs: seq<Delivery>): Instance
    decreases |vs|
  {
    if vs == [] then d else DeliverAll(def, Deliver(def, d, vs[0]), vs[1..])
  }

  lemma DeliveryRunsFromTheWait(def: Definition, d: Instance, w: nat, v: Delivery)
    requires WaitingAt(def, d, w)
    ensures var signal := Signal(v.name, v.payload);
            Deliver(def, d, v) == ExecFrom(def, Woken(d, signal), w, signal, v.env, 0).inst
    ensures Extends(d.stepResults, Deliver(def, d, v).stepResults)
    ensures Checkpoint(def, Deliver(def, d, v))
  {
    var signal := Signal(v.name, v.payload);
    var woken := Woken(d, signal);
    var e := ExecFrom(def, woken, w, signal, v.env, 0);
    LeadsWrite(def, d, -1, woken, [Emit(WorkflowResumed, w)]);
    ExecSound(def, woken, woken, w, signal, v.env, 0, -1);
    LeadsConcat(def, d, -1, [Write(woken)] + [Emit(WorkflowResumed, w)], woken, -1, e.trace, e.inst,
                LastDone(-1, e.trace));
    QuietIsNeutral(def, e.inst, LastDone(-1, e.trace), [Release]);
    AfterConcat(d, DeliverTrace(def, d, signal, v.env), [Release]);
    SoundKeepsSteady(def, d, -1, DeliverTrace(def, d, signal, v.env));
  }

  /** The delivery ends the wait: it is the awaited signal, or its context is already done. */
  predicate Decisive(v: Delivery, wait: Wait) {
    v.env(0).cancelled || Awaits(wait, Signal(v.name, v.payload))
  }

  /** One delivery to the waiting instance. A mismatch leaves it WAITING with the same results; the awaited
      signal fixes the step's result for good; a dead context fails the instance without a result. */
  lemma OneDelivery(def: Definition, d: Instance, w: nat, wait: Wait, v: Delivery)
    requires SingleWait(def, w, wait) && WaitingAt(def, d, w)
    ensures Deliver(def, d, v).status.Waiting? <==> !Decisive(v, wait)
    ensures !Decisive(v, wait) ==>
              Deliver(def, d, v) == d.(input := Signal(v.name, v.payload), output := Meta(wait))
    ensures Decisive(v, wait) && !v.env(0).cancelled ==>
              w in Deliver(def, d, v).stepResults
              && Deliver(def, d, v).stepResults[w] == Yield(wait, Signal(v.name, v.payload))
    ensures v.env(0).cancelled ==>
              Deliver(def, d, v).stepResults == d.stepResults && Deliver(def, d, v).err == Some(ContextDone)
  {
    var signal := Signal(v.name, v.payload);
    var woken := Woken(d, signal);
    assert Deliver(def, d, v) == ExecFrom(def, woken, w, signal, v.env, 0).inst by {
      DeliveryRunsFromTheWait(def, d, w, v);
    }
    if v.env(0).cancelled {
      DeadContext(def, woken, w, signal, v.env);
    } else {
      ForwardRunParks(def, woken, w, wait, signal, v.env, 0);
      if Awaits(wait, signal) {
        AwaitedSignalStays(def, woken, w, wait, signal, v.env);
      }
    }
  }

  lemma DeadContext(def: Definition, inst: Instance, w: nat, v: Value, env: Environment)
    requires w < |def.steps| && w !in inst.stepResults && env(0).cancelled
    ensures ExecFrom(def, inst, w, v, env, 0).inst == Fail(inst.(currentStep := w), ContextDone)
  {
    var at := inst.(currentStep := w);
    assert RunStep(def.steps[w], w, at, v, env, 0) == Settle(def.steps[w], w, at, v, env(0), 1, 0);
  }

  /** Whatever the later steps do, the result recorded for the wait stays. */
  lemma AwaitedSignalStays(def: Definition, inst: Instance, w: nat, wait: Wait, v: Value, env: Environment)
    requires SingleWait(def, w, wait) && Checkpoint(def, inst) && inst.status.Running? && |inst.stepResults| == w
    requires !env(0).cancelled && Awaits(wait, v)
    ensures var end := ExecFrom(def, inst, w, v, env, 0).inst;
            w in end.stepResults && end.stepResults[w] == Yield(wait, v)
  {
    var at, y := inst.(currentStep := w), Yield(wait, v);
    var run := RunStep(def.steps[w], w, at, v, env, 0);
    assert run == Settle(def.steps[w], w, at, v, env(0), 1, 0);
    RecordKeepsCheckpoint(def, at, w, -1, y);
    ExecSound(def, run.inst, run.inst, w + 1, y, env, 1, -1);
    SoundKeepsSteady(def, run.inst, -1, ExecFrom(def, run.inst, w + 1, y, env, 1).trace);
    assert run.inst.stepResults[w] == y;
  }

  lemma {:induction false} RefusedUnlessWaiting(def: Definition, d: Instance, vs: seq<Delivery>)
    requires !d.status.Waiting?
    ensures DeliverAll(def, d, vs) == d
    decreases |vs|
  {
    if vs != [] {
      assert DeliveryEffects(def, d, vs[0]) == [];
      RefusedUnlessWaiting(def, d, vs[1..]);
    }
  }

  function Winner(vs: seq<Delivery>, wait: Wait): (j: nat)
    ensures j <= |vs| && (j < |vs| ==> Decisive(vs[j], wait))
    ensures forall i | 0 <= i < j :: !Decisive(vs[i], wait)
  {
    if vs == [] then 0 else if Decisive(vs[0], wait) then 0 else Winner(vs[1..], wait) + 1
  }

  lemma {:induction false} DeliverConcat(def: Definition, d: Instance, a: seq<Delivery>, b: seq<Delivery>)
    ensures DeliverAll(def, d, a + b) == DeliverAll(def, DeliverAll(def, d, a), b)
    decreases |a|
  {
    if a == [] {
      assert a + b == b;
    } else {
      assert (a + b)[0] == a[0] && (a + b)[1..] == a[1..] + b;
      DeliverConcat(def, Deliver(def, d, a[0]), a[1..], b);
    }
  }

  /** Deliveries that are not decisive leave the instance waiting where it was. */
  lemma {:induction false} LosersChangeNothing(def: Definition, d: Instance, w: nat, wait: Wait, vs: seq<Delivery>)
    requires SingleWait(def, w, wait) && WaitingAt(def, d, w)
    requires forall i | 0 <= i < |vs| :: !Decisive(vs[i], wait)
    ensures WaitingAt(def, DeliverAll(def, d, vs), w) && DeliverAll(def, d, vs).stepResults == d.stepResults
    decreases |vs|
  {
    if vs != [] {
      OneDelivery(def, d, w, wait, vs[0]);
      LosersChangeNothing(def, Deliver(def, d, vs[0]), w, wait, vs[1..]);
    }
  }

  /** A race has one winner: the first decisive delivery alone determines what becomes of the wait, and
      every later one is refused without touching the instance. */
  lemma SignalRaceHasOneWinner(def: Definition, d: Instance, w: nat, wait: Wait, vs: seq<Delivery>)
    requires SingleWait(def, w, wait) && WaitingAt(def, d, w)
    ensures var j, end := Winner(vs, wait), DeliverAll(def, d, vs);
            if j == |vs| then
              end.status.Waiting? && end.currentStep == w && end.stepResults == d.stepResults
            else
              && !end.status.Waiting?
              && end == DeliverAll(def, d, vs[..j + 1])
              && (if vs[j].env(0).cancelled then end.stepResults == d.stepResults
                  else w in end.stepResults && end.stepResults[w] == Yield(wait, Signal(vs[j].name, vs[j].payload)))
  {
    var j := Winner(vs, wait);
    LosersChangeNothing(def, d, w, wait, vs[..j]);
    if j < |vs| {
      var won := WonBy(def, d, vs, j);
      OneDelivery(def, DeliverAll(def, d, vs[..j]), w, wait, vs[j]);
      RefusedUnlessWaiting(def, won, vs[j + 1..]);
    } else {
      assert vs[..j] == vs;
    }
  }

  lemma WonBy(def: Definition, d: Instance, vs: seq<Delivery>, j: nat) returns (won: Instance)
    requires j < |vs|
    ensures won == Deliver(def, DeliverAll(def, d, vs[..j]), vs[j]) == DeliverAll(def, d, vs[..j + 1])
    ensures DeliverAll(def, d, vs) == DeliverAll(def, won, vs[j + 1..])
  {
    var v, mid := [vs[j]], DeliverAll(def, d, vs[..j]);
    won := Deliver(def, mid, vs[j]);
    assert vs[..j + 1] == vs[..j] + v && v[1..] == [];
    DeliverConcat(def, d, vs[..j], v);
    assert DeliverAll(def, mid, v) == DeliverAll(def, won, []);
    assert vs == vs[..j + 1] + vs[j + 1..];
    DeliverConcat(def, d, vs[..j + 1], vs[j + 1..]);
  }
}
