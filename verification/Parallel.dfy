/** ParallelStep and ParallelMapStep as an interleaving machine: one goroutine per child, a shared result slice, one
    sync.Once for the first error and one context to cancel. */
module Parallel {
  import opened Base

  datatype Failure =
    | Returned(message: string)
    | PanicIn(child: nat, message: string)
    | ContextDone
    | Interrupted(message: string)

  /** What a child comes to if nothing interrupts it. `Absent` is a nil step, for which the input is passed through. */
  datatype Fate =
    | Absent
    | Succeeds(value: Value)
    | Fails(message: string)
    | Panics(message: string)

  /** Where a child's goroutine is. */
  datatype Phase =
    | Unspawned
    | Ready
    | Aborting
    | Calling
    | Produced(value: Value)
    | Broken(failure: Failure)
    | Recorded
    | Done

  datatype Machine = Machine(
    next: nat,
    phases: seq<Phase>,
    results: seq<Option<Value>>,
    firstErr: Option<Failure>,
    cancelled: bool,
    parentDone: bool)

  datatype Event =
    | Spawn                              // the spawning loop takes up the next child
    | Check(i: nat)                      // the early test of the context
    | Abort(i: nat)                      // errOnce with the context's error, then return
    | Finish(i: nat)                     // the child's step function comes to its fate
    | Interrupt(i: nat, message: string) // the child notices that the context is done and returns what it makes of that
    | Store(i: nat)                      // results[i] = out
    | Record(i: nat)                     // errOnce with the child's error or panic
    | Cancel(i: nat)                     // cancel(), then return
    | ParentCancels

  function Init(n: nat): Machine {
    Machine(0, seq(n, _ => Unspawned), seq(n, _ => None), None, false, false)
  }

  predicate Shaped(fates: seq<Fate>, m: Machine) {
    |m.phases| == |fates| && |m.results| == |fates| && m.next <= |fates|
  }

  predicate ContextIsDone(m: Machine) {
    m.cancelled || m.parentDone
  }

  predicate Enabled(fates: seq<Fate>, m: Machine, e: Event)
    requires Shaped(fates, m)
  {
    match e
    case Spawn => m.next < |fates|
    case Check(i) => i < |fates| && m.phases[i].Ready?
    case Abort(i) => i < |fates| && m.phases[i].Aborting?
    case Finish(i) => i < |fates| && m.phases[i].Calling?
    case Interrupt(i, _) => i < |fates| && m.phases[i].Calling? && ContextIsDone(m)
    case Store(i) => i < |fates| && m.phases[i].Produced?
    case Record(i) => i < |fates| && m.phases[i].Broken?
    case Cancel(i) => i < |fates| && m.phases[i].Recorded?
    case ParentCancels => !m.parentDone
  }

  /** errOnce.Do */
  function Once(m: Machine, f: Failure): Machine {
    if m.firstErr.None? then m.(firstErr := Some(f)) else m
  }

  function Move(m: Machine, i: nat, p: Phase): Machine
    requires i < |m.phases|
  {
    m.(phases := m.phases[i := p])
  }

  /** What a call of child i comes to. */
  function Comes(fates: seq<Fate>, i: nat): Phase
    requires i < |fates|
  {
    match fates[i]
    case Absent => Done
    case Succeeds(v) => Produced(v)
    case Fails(message) => Broken(Returned(message))
    case Panics(message) => Broken(PanicIn(i, message))
  }

  function Next(fates: seq<Fate>, input: Value, m: Machine, e: Event): Machine
    requires Shaped(fates, m) && Enabled(fates, m, e)
  {
    match e
    case Spawn =>
      if fates[m.next].Absent? then
        Move(m, m.next, Done).(next := m.next + 1, results := m.results[m.next := Some(input)])
      else Move(m, m.next, Ready).(next := m.next + 1)
    case Check(i) => Move(m, i, if ContextIsDone(m) then Aborting else Calling)
    case Abort(i) => Move(Once(m, ContextDone), i, Done)
    case Finish(i) => Move(m, i, Comes(fates, i))
    case Interrupt(i, message) => Move(m, i, Broken(Interrupted(message)))
    case Store(i) => Move(m, i, Done).(results := m.results[i := Some(m.phases[i].value)])
    case Record(i) => Move(Once(m, m.phases[i].failure), i, Recorded)
    case Cancel(i) => Move(m, i, Done).(cancelled := true)
    case ParentCancels => m.(parentDone := true)
  }

  /** wg.Wait returns: every child has been spawned and is done. */
  predicate Terminal(m: Machine) {
    m.next == |m.phases| && forall i | 0 <= i < |m.phases| :: m.phases[i].Done?
  }

  // ---------- Invariants of every interleaving ----------

  /** The value in slot i when all goes well. */
  function Expected(fates: seq<Fate>, input: Value, i: nat): Option<Value>
    requires i < |fates|
  {
    match fates[i]
    case Absent => Some(input)
    case Succeeds(v) => Some(v)
    case _ => None
  }

  /** Child i, uninterrupted, ends in failure f. */
  predicate ReallyFails(fates: seq<Fate>, i: nat, f: Failure)
    requires i < |fates|
  {
    match fates[i]
    case Fails(message) => f == Returned(message)
    case Panics(message) => f == PanicIn(i, message)
    case _ => false
  }

  predicate SomeChildFailsWith(fates: seq<Fate>, f: Failure) {
    exists i | 0 <= i < |fates| :: ReallyFails(fates, i, f)
  }

  /** The failure only tells of a done context. */
  predicate IsCancellation(f: Failure) {
    f.ContextDone? || f.Interrupted?
  }

  /** The failure is a child's own, or tells of the cancellation of the parent. */
  predicate Legitimate(fates: seq<Fate>, m: Machine, f: Failure) {
    SomeChildFailsWith(fates, f) || (m.parentDone && IsCancellation(f))
  }

  predicate ChildInOrder(fates: seq<Fate>, input: Value, m: Machine, i: nat)
    requires Shaped(fates, m) && i < |fates|
  {
    && (m.phases[i].Unspawned? <==> m.next <= i)
    && (fates[i].Absent? ==> m.phases[i].Unspawned? || m.phases[i].Done?)
    && match m.phases[i]
       case Aborting => ContextIsDone(m)
       case Produced(v) => fates[i] == Succeeds(v)
       case Broken(f) => ReallyFails(fates, i, f) || (IsCancellation(f) && ContextIsDone(m))
       case Recorded => m.firstErr.Some?
       case Done => m.firstErr.Some? || (m.results[i].Some? && m.results[i] == Expected(fates, input, i))
       case _ => true
  }

  ghost predicate InOrder(fates: seq<Fate>, input: Value, m: Machine) {
    && Shaped(fates, m)
    && (m.cancelled ==> m.firstErr.Some?)
    && (m.firstErr.Some? ==> Legitimate(fates, m, m.firstErr.value))
    && (forall i | 0 <= i < |fates| :: ChildInOrder(fates, input, m, i))
  }

  lemma ChildKept(fates: seq<Fate>, input: Value, m: Machine, e: Event, i: nat)
    requires InOrder(fates, input, m) && Enabled(fates, m, e) && i < |fates|
    ensures ChildInOrder(fates, input, Next(fates, input, m, e), i)
  {
    assert ChildInOrder(fates, input, m, i);
  }

  lemma OrderKept(fates: seq<Fate>, input: Value, m: Machine, e: Event)
    requires InOrder(fates, input, m) && Enabled(fates, m, e)
    ensures InOrder(fates, input, Next(fates, input, m, e))
    ensures m.firstErr.Some? ==> Next(fates, input, m, e).firstErr == m.firstErr
  {
    var m' := Next(fates, input, m, e);
    forall i | 0 <= i < |fates| ensures ChildInOrder(fates, input, m', i) {
      ChildKept(fates, input, m, e, i);
    }
    if e.Cancel? {
      assert ChildInOrder(fates, input, m, e.i);
    }
    if m'.firstErr.Some? {
      LegitimateKept(fates, input, m, e);
    }
  }

  lemma LegitimateKept(fates: seq<Fate>, input: Value, m: Machine, e: Event)
    requires InOrder(fates, input, m) && Enabled(fates, m, e) && Next(fates, input, m, e).firstErr.Some?
    ensures Legitimate(fates, Next(fates, input, m, e), Next(fates, input, m, e).firstErr.value)
  {
    if m.firstErr.None? && !e.Spawn? && !e.ParentCancels? {
      assert ChildInOrder(fates, input, m, e.i);
    }
  }

  // ---------- Runs ----------

  ghost predicate IsRun(fates: seq<Fate>, input: Value, machines: seq<Machine>, events: seq<Event>) {
    && |machines| == |events| + 1 && machines[0] == Init(|fates|)
    && forall k | 0 <= k < |events| ::
         && Shaped(fates, machines[k]) && Enabled(fates, machines[k], events[k])
         && machines[k + 1] == Next(fates, input, machines[k], events[k])
  }

  lemma {:induction false} AlwaysInOrder(fates: seq<Fate>, input: Value, machines: seq<Machine>, events: seq<Event>,
                                         k: nat)
    requires IsRun(fates, input, machines, events) && k <= |events|
    ensures InOrder(fates, input, machines[k])
  {
    if k > 0 {
      AlwaysInOrder(fates, input, machines, events, k - 1);
      OrderKept(fates, input, machines[k - 1], events[k - 1]);
    }
  }

  /** The first error is never replaced. */
  lemma {:induction false} FirstErrorStands(fates: seq<Fate>, input: Value, machines: seq<Machine>, events: seq<Event>,
                                            j: nat, k: nat)
    requires IsRun(fates, input, machines, events) && j <= k <= |events| && machines[j].firstErr.Some?
    ensures machines[k].firstErr == machines[j].firstErr
    decreases k
  {
    if j < k {
      FirstErrorStands(fates, input, machines, events, j, k - 1);
      AlwaysInOrder(fates, input, machines, events, k - 1);
      OrderKept(fates, input, machines[k - 1], events[k - 1]);
    }
  }

  /** Every schedule that ends without an error has filled every slot with that child's own value, in order: the result
      does not depend on the schedule. */
  lemma SuccessIsScheduleIndependent(fates: seq<Fate>, input: Value, machines: seq<Machine>, events: seq<Event>)
    requires IsRun(fates, input, machines, events) && Terminal(machines[|events|]) && machines[|events|].firstErr.None?
    ensures |machines[|events|].results| == |fates|
    ensures forall i | 0 <= i < |fates| ::
              || (fates[i].Absent? && machines[|events|].results[i] == Some(input))
              || (fates[i].Succeeds? && machines[|events|].results[i] == Some(fates[i].value))
  {
    AlwaysInOrder(fates, input, machines, events, |events|);
    var m := machines[|events|];
    forall i | 0 <= i < |fates|
      ensures (fates[i].Absent? && m.results[i] == Some(input))
              || (fates[i].Succeeds? && m.results[i] == Some(fates[i].value))
    {
      assert ChildInOrder(fates, input, m, i);
    }
  }

  /** The error, whenever there is one, is that of a child that really failed or panicked, never the cancellation this
      induced in its siblings; a context error comes only from the parent. */
  lemma ErrorIsGenuine(fates: seq<Fate>, input: Value, machines: seq<Machine>, events: seq<Event>)
    requires IsRun(fates, input, machines, events) && machines[|events|].firstErr.Some?
    ensures var f := machines[|events|].firstErr.value;
            SomeChildFailsWith(fates, f) || (machines[|events|].parentDone && IsCancellation(f))
  {
    AlwaysInOrder(fates, input, machines, events, |events|);
  }

  /** With the parent left alone, a schedule ends in an error exactly if some child really fails. */
  lemma FailsIffAChildFails(fates: seq<Fate>, input: Value, machines: seq<Machine>, events: seq<Event>)
    requires IsRun(fates, input, machines, events) && Terminal(machines[|events|]) && !machines[|events|].parentDone
    ensures machines[|events|].firstErr.Some? <==> exists i | 0 <= i < |fates| :: fates[i].Fails? || fates[i].Panics?
  {
    var m := machines[|events|];
    AlwaysInOrder(fates, input, machines, events, |events|);
    if m.firstErr.Some? {
      var i :| 0 <= i < |fates| && ReallyFails(fates, i, m.firstErr.value);
      assert fates[i].Fails? || fates[i].Panics?;
    }
    if i :| 0 <= i < |fates| && (fates[i].Fails? || fates[i].Panics?) {
      assert ChildInOrder(fates, input, m, i);
    }
  }

  // ---------- A failure stops the others ----------

  /** Child c has not got past its early test of the context. */
  predicate NotStarted(m: Machine, c: nat)
    requires c < |m.phases|
  {
    m.phases[c].Unspawned? || m.phases[c].Ready?
  }

  /** Child c has not been called and will not be. */
  predicate Spared(m: Machine, c: nat)
    requires c < |m.phases|
  {
    NotStarted(m, c) || m.phases[c].Aborting? || m.phases[c].Done?
  }

  lemma DoneContextStep(fates: seq<Fate>, input: Value, m: Machine, e: Event, c: nat)
    requires Shaped(fates, m) && Enabled(fates, m, e) && c < |fates| && ContextIsDone(m) && Spared(m, c)
    requires InOrder(fates, input, m)
    ensures var m' := Next(fates, input, m, e); |m'.phases| == |fates| && ContextIsDone(m') && Spared(m', c)
  {
    assert ChildInOrder(fates, input, m, c);
  }

  lemma {:induction false} DoneContextSpares(fates: seq<Fate>, input: Value, machines: seq<Machine>, events: seq<Event>,
                                             c: nat, j: nat, k: nat)
    requires IsRun(fates, input, machines, events) && j <= k <= |events| && c < |fates|
    requires |machines[j].phases| == |fates| && ContextIsDone(machines[j]) && Spared(machines[j], c)
    ensures |machines[k].phases| == |fates| && ContextIsDone(machines[k]) && Spared(machines[k], c)
    decreases k
  {
    if j < k {
      DoneContextSpares(fates, input, machines, events, c, j, k - 1);
      AlwaysInOrder(fates, input, machines, events, k - 1);
      DoneContextStep(fates, input, machines[k - 1], events[k - 1], c);
    }
  }

  /** Once a failed child has cancelled, no sibling that has not yet been called is called any more. */
  lemma FailureStopsOthers(fates: seq<Fate>, input: Value, machines: seq<Machine>, events: seq<Event>, i: nat, c: nat,
                           j: nat, k: nat)
    requires IsRun(fates, input, machines, events) && j < k < |events| && c < |fates|
    requires events[j] == Cancel(i) && |machines[j + 1].phases| == |fates| && NotStarted(machines[j + 1], c)
    ensures events[k] != Finish(c) && !(events[k].Interrupt? && events[k].i == c)
  {
    assert Enabled(fates, machines[j], events[j]) && machines[j + 1] == Next(fates, input, machines[j], events[j]);
    DoneContextSpares(fates, input, machines, events, c, j + 1, k);
    assert Shaped(fates, machines[k]) && Enabled(fates, machines[k], events[k]);
  }

  /** An error has led to a cancellation, or a child is about to cancel, or the parent has cancelled. */
  ghost predicate CancelDue(m: Machine) {
    m.firstErr.Some? ==> m.cancelled || m.parentDone || exists i | 0 <= i < |m.phases| :: m.phases[i].Recorded?
  }

  lemma CancelDueKept(fates: seq<Fate>, input: Value, m: Machine, e: Event)
    requires InOrder(fates, input, m) && Enabled(fates, m, e) && CancelDue(m)
    ensures CancelDue(Next(fates, input, m, e))
  {
    var m' := Next(fates, input, m, e);
    if e.Abort? {
      assert ChildInOrder(fates, input, m, e.i);
    } else if m'.firstErr.Some? && !m'.cancelled && !m'.parentDone {
      if e.Record? {
        assert m'.phases[e.i].Recorded?;
      } else {
        var i :| 0 <= i < |m.phases| && m.phases[i].Recorded?;
        assert ChildInOrder(fates, input, m, i);
        assert m'.phases[i].Recorded?;
      }
    }
  }

  lemma {:induction false} CancelAlwaysDue(fates: seq<Fate>, input: Value, machines: seq<Machine>, events: seq<Event>,
                                           k: nat)
    requires IsRun(fates, input, machines, events) && k <= |events|
    ensures CancelDue(machines[k])
  {
    if k > 0 {
      CancelAlwaysDue(fates, input, machines, events, k - 1);
      AlwaysInOrder(fates, input, machines, events, k - 1);
      CancelDueKept(fates, input, machines[k - 1], events[k - 1]);
    }
  }

  /** A schedule that ends in a child's error has cancelled the context its siblings see. */
  lemma ErrorHasCancelled(fates: seq<Fate>, input: Value, machines: seq<Machine>, events: seq<Event>)
    requires IsRun(fates, input, machines, events) && Terminal(machines[|events|])
    requires machines[|events|].firstErr.Some? && !machines[|events|].parentDone
    ensures machines[|events|].cancelled
  {
    CancelAlwaysDue(fates, input, machines, events, |events|);
  }

  // ---------- Every schedule ends ----------

  function StepsLeft(p: Phase): nat {
    match p
    case Unspawned => 5
    case Ready => 4
    case Calling => 3
    case Produced(_) => 1
    case Broken(_) => 2
    case Aborting => 1
    case Recorded => 1
    case Done => 0
  }

  function AllStepsLeft(phases: seq<Phase>): nat {
    if phases == [] then 0 else AllStepsLeft(phases[..|phases| - 1]) + StepsLeft(phases[|phases| - 1])
  }

  lemma {:induction false} StepsAfterMove(phases: seq<Phase>, i: nat, p: Phase)
    requires i < |phases|
    ensures AllStepsLeft(phases[i := p]) == AllStepsLeft(phases) - StepsLeft(phases[i]) + StepsLeft(p)
    decreases |phases|
  {
    var n := |phases| - 1;
    if i == n {
      assert phases[i := p][..n] == phases[..n];
    } else {
      assert phases[i := p][..n] == phases[..n][i := p];
      StepsAfterMove(phases[..n], i, p);
    }
  }

  function Measure(m: Machine): nat {
    AllStepsLeft(m.phases) + if m.parentDone then 0 else 1
  }

  lemma MeasureDrops(fates: seq<Fate>, input: Value, m: Machine, e: Event)
    requires InOrder(fates, input, m) && Enabled(fates, m, e)
    ensures Measure(Next(fates, input, m, e)) < Measure(m)
  {
    if !e.ParentCancels? {
      var i := if e.Spawn? then m.next else e.i;
      assert ChildInOrder(fates, input, m, i);
      StepsAfterMove(m.phases, i, Next(fates, input, m, e).phases[i]);
    }
  }

  lemma {:induction false} InitialSteps(n: nat)
    ensures AllStepsLeft(seq(n, _ => Unspawned)) == 5 * n
  {
    if n > 0 {
      assert seq(n, _ => Unspawned)[..n - 1] == seq(n - 1, _ => Unspawned);
      InitialSteps(n - 1);
    }
  }

  /** No schedule is longer than five steps a child and the parent's cancellation. */
  lemma {:induction false} SchedulesAreFinite(fates: seq<Fate>, input: Value, machines: seq<Machine>,
                                              events: seq<Event>, k: nat)
    requires IsRun(fates, input, machines, events) && k <= |events|
    ensures k + Measure(machines[k]) <= 5 * |fates| + 1
  {
    if k > 0 {
      SchedulesAreFinite(fates, input, machines, events, k - 1);
      AlwaysInOrder(fates, input, machines, events, k - 1);
      MeasureDrops(fates, input, machines[k - 1], events[k - 1]);
    } else {
      InitialSteps(|fates|);
    }
  }

  /** No deadlock: until wg.Wait returns, some goroutine can move, the parent's help not needed. */
  lemma NeverStuck(fates: seq<Fate>, input: Value, m: Machine) returns (e: Event)
    requires InOrder(fates, input, m) && !Terminal(m)
    ensures !e.ParentCancels? && Enabled(fates, m, e)
  {
    if m.next < |fates| {
      e := Spawn;
    } else {
      var i :| 0 <= i < |fates| && !m.phases[i].Done?;
      assert ChildInOrder(fates, input, m, i);
      var p := m.phases[i];
      e := if p.Ready? then Check(i)
           else if p.Aborting? then Abort(i)
           else if p.Calling? then Finish(i)
           else if p.Produced? then Store(i)
           else if p.Broken? then Record(i)
           else Cancel(i);
    }
  }
}
