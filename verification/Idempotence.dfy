/** Replaying over cached results: it agrees with resuming at the checkpoint, and redelivery is harmless. */
module Idempotence {
  import opened Base
  import opened Workflow
  import opened Execution
  import opened EngineRuns

  /** The effects of walking over the cached steps i..k: lease renewals and progress writes. */
  function SkipTrace(inst: Instance, i: nat, k: nat): seq<Effect>
    requires i <= k
    decreases k - i
  {
    if i == k then []
    else
      var skipped := inst.(currentStep := i + 1);
      [Renew, Write(skipped)] + SkipTrace(skipped, i + 1, k)
  }

  /** The input of the first step without a cached result, when the walk starts at step i with `current`. */
  function Frontier(inst: Instance, i: nat, current: Value): Value
    requires Prefix(inst.stepResults) && i <= |inst.stepResults|
  {
    if i == |inst.stepResults| then current else inst.stepResults[|inst.stepResults| - 1]
  }

  /** The two executions come to the same, one of them after some effects of its own. */
  predicate Agree(replay: Exec, lead: seq<Effect>, direct: Exec) {
    replay.inst == direct.inst && replay.outcome == direct.outcome && replay.trace == lead + direct.trace
  }

  /** Execution does not look at the recorded current step. */
  lemma CurrentStepIsOverwritten(def: Definition, inst: Instance, c: nat, k: nat, v: Value, env: Environment, used: nat)
    ensures ExecFrom(def, inst.(currentStep := c), k, v, env, used) == ExecFrom(def, inst, k, v, env, used)
  {
  }

  /** Executing from step i over a prefix cache of size k does what executing from step k does, after
      walking over the cached steps; it ends in the same instance with the same outcome. */
  lemma {:induction false} CacheTransparency(def: Definition, inst: Instance, i: nat, current: Value, env: Environment,
                                             used: nat)
    requires Prefix(inst.stepResults) && i <= |inst.stepResults| <= |def.steps|
    ensures var k := |inst.stepResults|;
            var replay := ExecFrom(def, inst, i, current, env, used);
            var direct := ExecFrom(def, inst, k, Frontier(inst, i, current), env, used);
            Agree(replay, SkipTrace(inst, i, k), direct)
    decreases |inst.stepResults| - i
  {
    var k := |inst.stepResults|;
    if i < k {
      var skipped, cached, v := inst.(currentStep := i + 1), inst.stepResults[i], Frontier(inst, i, current);
      assert Frontier(skipped, i + 1, cached) == v;
      CacheTransparency(def, skipped, i + 1, cached, env, used);
      CurrentStepIsOverwritten(def, inst, i + 1, k, v, env, used);
      SkipOne(def, inst, i, current, env, used);
      AgreeAfter(ExecFrom(def, skipped, i + 1, cached, env, used), [Renew, Write(skipped)],
                 SkipTrace(skipped, i + 1, k), ExecFrom(def, inst, k, v, env, used));
    }
  }

  lemma AgreeAfter(rest: Exec, first: seq<Effect>, lead: seq<Effect>, direct: Exec)
    requires Agree(rest, lead, direct)
    ensures Agree(rest.(trace := first + rest.trace), first + lead, direct)
  {
  }

  lemma SkipOne(def: Definition, inst: Instance, i: nat, current: Value, env: Environment, used: nat)
    requires i < |def.steps| && i in inst.stepResults
    ensures var skipped := inst.(currentStep := i + 1);
            var rest := ExecFrom(def, skipped, i + 1, inst.stepResults[i], env, used);
            ExecFrom(def, inst, i, current, env, used) == rest.(trace := [Renew, Write(skipped)] + rest.trace)
  {
  }

  /** The two instances differ at most in their runtime fields. */
  ghost predicate SameWork(a: Instance, b: Instance) {
    a == b.(status := a.status, output := a.output, err := a.err, currentStep := a.currentStep)
  }

  ghost predicate AllSameWork(trace: seq<Effect>, d: Instance) {
    forall q | 0 <= q < |trace| && trace[q].Write? :: SameWork(trace[q].inst, d)
  }

  lemma {:induction false} SkipSameWork(inst: Instance, i: nat, k: nat, d: Instance)
    requires i <= k && SameWork(inst, d)
    ensures AllSameWork(SkipTrace(inst, i, k), d)
    decreases k - i
  {
    if i < k {
      SkipSameWork(inst.(currentStep := i + 1), i + 1, k, d);
    }
  }

  lemma {:induction false} AfterSameWork(d': Instance, trace: seq<Effect>, d: Instance)
    requires SameWork(d', d) && AllSameWork(trace, d)
    ensures SameWork(After(d', trace), d)
    decreases |trace|
  {
    if trace != [] {
      AfterSameWork(if trace[0].Write? then trace[0].inst else d', trace[1..], d);
    }
  }

  /** Nothing is left to call once every step has a cached result. */
  lemma {:induction false} NoCallsWhenFull(def: Definition, d: Instance, done: int, trace: seq<Effect>, q: nat)
    requires Steady(def, d, done) && Sound(def, d, done, trace) && |d.stepResults| == |def.steps| && q < |trace|
    ensures !trace[q].Call?
  {
    SoundAt(def, d, done, trace, q);
    assert trace[q..][0] == trace[q];
    SoundConcat(def, d, done, trace[..q], trace[q..]);
    assert trace == trace[..q] + trace[q..];
    SoundKeepsSteady(def, d, done, trace[..q]);
    var now := After(d, trace[..q]);
    if |def.steps| > 0 {
      assert |def.steps| - 1 in d.stepResults;
      assert |def.steps| - 1 in now.stepResults;
    }
  }

  /** A queued start task delivered again: definition and lease are available. */
  function Redeliver(env: Environment): Action {
    RunInstance(true, true, true, env)
  }

  /** One redelivery of a completed instance, whatever state earlier crashed redeliveries left it in. */
  lemma RedeliverOnce(def: Definition, d: Instance, d': Instance, env: Environment)
    requires def.steps != [] && Checkpoint(def, d) && d.status.Completed? && SameWork(d', d)
    ensures var t := Effects(def, d', Redeliver(env));
            AllSameWork(t, d) && After(d', t) == d
  {
    var n := |def.steps|;
    var t := Effects(def, d', Redeliver(env));
    var start := Restarted(d');
    CacheTransparency(def, start, 0, d'.input, env, 0);
    SkipSameWork(start, 0, n, d);
    var direct := ExecFrom(def, start, n, Frontier(start, 0, d'.input), env, 0);
    assert direct.inst == d;
    var lead := [Write(start)] + [Emit(WorkflowStarted, -1)] + SkipTrace(start, 0, n);
    var finish := [Write(d), Emit(WorkflowCompleted, -1), Release];
    assert t == lead + finish;
    AfterConcat(d', lead, finish);
    assert finish[1..] == [Emit(WorkflowCompleted, -1), Release] && finish[1..][1..] == [Release]
           && finish[1..][1..][1..] == [];
    assert After(d, [Release]) == d;
    assert After(d, finish[1..]) == d;
  }

  /** Start tasks delivered again, whatever the registry and the lease make of them. */
  ghost predicate Redeliveries(episodes: seq<Episode>) {
    forall e | e in episodes :: e.action.RunInstance?
  }

  /** A redelivery that is not refused. */
  predicate Accepted(action: Action) {
    action.RunInstance? && action.registered && action.valid && action.leaseFree
  }

  lemma RedeliveryWrites(def: Definition, d: Instance, d': Instance, action: Action)
    requires def.steps != [] && Checkpoint(def, d) && d.status.Completed? && SameWork(d', d) && action.RunInstance?
    ensures AllSameWork(Effects(def, d', action), d)
  {
    if Accepted(action) {
      RedeliverOnce(def, d, d', action.env);
    }
  }

  /** One redelivery, refused or not, cut short or not. */
  lemma RedeliveryEpisode(def: Definition, d: Instance, d': Instance, done: int, e: Episode)
    requires def.steps != [] && Checkpoint(def, d) && d.status.Completed?
    requires SameWork(d', d) && Steady(def, d', done) && e.action.RunInstance?
    ensures var t := Cut(Effects(def, d', e.action), e.cut);
            && (forall q | 0 <= q < |t| :: !t[q].Call?) && AllSameWork(t, d)
            && SameWork(After(d', t), d) && Steady(def, After(d', t), LastDone(done, t))
  {
    var all := Effects(def, d', e.action);
    var t := Cut(all, e.cut);
    RedeliveryWrites(def, d, d', e.action);
    ActionSound(def, d', done, e.action);
    CutSound(def, d', done, all, e.cut);
    SoundKeepsSteady(def, d', done, t);
    AfterSameWork(d', t, d);
    forall q | 0 <= q < |t| ensures !t[q].Call? {
      NoCallsWhenFull(def, d', done, t, q);
    }
  }

  /** Redelivering a completed instance any number of times, crashes included, calls no step and keeps its work. */
  lemma {:induction false} RedeliveriesCallNothing(def: Definition, d: Instance, d': Instance, done: int,
                                                   episodes: seq<Episode>)
    requires def.steps != [] && Checkpoint(def, d) && d.status.Completed?
    requires SameWork(d', d) && Steady(def, d', done) && Redeliveries(episodes)
    ensures var t := History(def, d', episodes);
            (forall q | 0 <= q < |t| :: !t[q].Call?) && AllSameWork(t, d) && SameWork(After(d', t), d)
    decreases |episodes|
  {
    if episodes != [] {
      var first, rest := episodes[0], episodes[1..];
      var t := Cut(Effects(def, d', first.action), first.cut);
      var mid := After(d', t);
      assert first in episodes;
      RedeliveryEpisode(def, d, d', done, first);
      RedeliveriesCallNothing(def, d, mid, LastDone(done, t), rest);
      AfterConcat(d', t, History(def, mid, rest));
    }
  }

  /** The last episode of a history starts from what the ones before it have left. */
  lemma {:induction false} LastEpisode(def: Definition, d: Instance, episodes: seq<Episode>)
    requires episodes != []
    ensures var m := |episodes| - 1;
            var mid := After(d, History(def, d, episodes[..m]));
            After(d, History(def, d, episodes))
              == After(mid, Cut(Effects(def, mid, episodes[m].action), episodes[m].cut))
    decreases |episodes|
  {
    var m := |episodes| - 1;
    var t := Cut(Effects(def, d, episodes[0].action), episodes[0].cut);
    var next, rest := After(d, t), episodes[1..];
    AfterConcat(d, t, History(def, next, rest));
    if m > 0 {
      LastEpisode(def, next, rest);
      assert episodes[..m][0] == episodes[0] && episodes[..m][1..] == rest[..m - 1];
      AfterConcat(d, t, History(def, next, rest[..m - 1]));
    } else {
      assert History(def, next, rest) == [];
    }
  }

  /** Redelivering a completed instance any number of times, crashes included, calls no step; and whenever a
      redelivery runs to its end the instance is exactly what it was: COMPLETED, same output, same results. */
  lemma RedeliveryIsIdempotent(def: Definition, d: Instance, d': Instance, done: int, episodes: seq<Episode>)
    requires def.steps != [] && Checkpoint(def, d) && d.status.Completed?
    requires SameWork(d', d) && Steady(def, d', done) && Redeliveries(episodes)
    ensures var t := History(def, d', episodes);
            (forall q | 0 <= q < |t| :: !t[q].Call?) && AllSameWork(t, d) && SameWork(After(d', t), d)
    ensures episodes != [] && RunsToItsEnd(def, d', episodes) ==> After(d', History(def, d', episodes)) == d
  {
    RedeliveriesCallNothing(def, d, d', done, episodes);
    if episodes != [] && RunsToItsEnd(def, d', episodes) {
      var m := |episodes| - 1;
      var before, last := episodes[..m], episodes[m];
      var mid := After(d', History(def, d', before));
      RedeliveriesCallNothing(def, d, d', done, before);
      RedeliverOnce(def, d, mid, last.action.env);
      LastEpisode(def, d', episodes);
    }
  }

  /** The last redelivery is accepted and nothing cuts it short. */
  predicate RunsToItsEnd(def: Definition, d: Instance, episodes: seq<Episode>)
    requires episodes != []
  {
    var m := |episodes| - 1;
    var mid := After(d, History(def, d, episodes[..m]));
    Accepted(episodes[m].action) && |Effects(def, mid, episodes[m].action)| <= episodes[m].cut
  }
}
