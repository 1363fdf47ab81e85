/** Order and identity in the in-memory queue: generated ids never clash, and unscheduled tasks are first delivered
    in the order they were enqueued. */
module MemoryOrder {
  import opened Base
  import opened LeaseQueue
  import opened MemoryQueue

  // ---------- Generated ids ----------

  ghost predicate Generated(id: TaskId, upTo: nat) {
    exists j: nat :: 1 <= j <= upTo && id == Text(Decimal(j))
  }

  ghost predicate AutoNamed(s: State) {
    forall id | id in BagOf(s) :: Generated(id, s.nextID)
  }

  /** If every task so far was enqueued with an empty id, the next generated id is unused. */
  lemma GeneratedIdIsFresh(s: State, t: Task)
    requires AutoNamed(s) && t.id == NO_ID
    ensures Enabled(s, DoEnqueue(t))
  {
    var id := Named(s, t).id;
    if id in BagOf(s) {
      var j: nat :| 1 <= j <= s.nextID && id == Text(Decimal(j));
      DecimalInjective(j, s.nextID + 1);
      assert false;
    }
  }

  lemma AutoNamedKept(s: State, c: Command, s': State, op: Op)
    requires Valid(s) && AutoNamed(s) && Step(s, c, s', op)
    requires c.DoEnqueue? ==> c.task.id == NO_ID
    ensures AutoNamed(s')
  {
    StepRefines(s, c, s', op);
    assert s.nextID <= s'.nextID;
    forall id | id in BagOf(s') ensures Generated(id, s'.nextID) {
      if c.DoEnqueue? && id == op.id {
        assert 1 <= s'.nextID && id == Text(Decimal(s'.nextID));
      } else {
        assert id in BagOf(s);
        var j: nat :| 1 <= j <= s.nextID && id == Text(Decimal(j));
      }
    }
  }

  // ---------- First deliveries ----------

  predicate Delivers(op: Op, id: TaskId) {
    op.Dequeue? && op.got == Some(id)
  }

  /** Task `id` waits at position i of the ready list, not scheduled for later. */
  predicate Waits(s: State, id: TaskId, i: nat) {
    i < |s.ready| && s.ready[i].id == id && s.ready[i].notBefore.Zero?
  }

  /** An unscheduled ready task that is not delivered keeps waiting, and its position only moves down by one, if at
      all, when something ahead of it is taken. */
  lemma KeepsWaiting(s: State, c: Command, s': State, op: Op, id: TaskId, i: nat) returns (i': nat)
    requires Valid(s) && Step(s, c, s', op) && Waits(s, id, i) && !Delivers(op, id)
    ensures Waits(s', id, i')
    ensures i' == if c.DoDequeue? then NewPlace(s, c.now, c.order, i) else i
  {
    i' := i;
    match c
    case DoDequeue(now, owner, expiry, order) =>
      var swept := Swept(s, order);
      var k := FirstRunnable(swept.ready, now);
      if k < |swept.ready| && k <= i {
        assert swept.ready[k].id != id;
        assert k < i;
        i' := i - 1;
      }
    case _ =>
  }

  function NewPlace(s: State, now: int, order: seq<TaskId>, i: nat): int
    requires SweepOrder(s, now, order)
  {
    var ready := Swept(s, order).ready;
    var k := FirstRunnable(ready, now);
    if k < |ready| && k <= i then i - 1 else i
  }

  /** No dequeue overtakes an unscheduled task that waits further ahead. */
  lemma NoOvertaking(s: State, c: Command, s': State, op: Op, a: TaskId, b: TaskId, i: nat, j: nat)
    requires Valid(s) && Step(s, c, s', op) && Waits(s, a, i) && Waits(s, b, j) && i < j
    ensures !Delivers(op, b)
  {
    if c.DoDequeue? {
      var swept := Swept(s, c.order);
      var k := FirstRunnable(swept.ready, c.now);
      SweepRefines(s, c.order);
      assert swept.ready[i] == s.ready[i] && swept.ready[j] == s.ready[j];
      assert k <= i;
      if swept.ready[k].id == b {
        SameIdSamePlace(swept.ready, k, j);
      }
    }
  }

  lemma BothKeepWaiting(s: State, c: Command, s': State, op: Op, a: TaskId, b: TaskId, i: nat, j: nat)
    returns (i': nat, j': nat)
    requires Valid(s) && Step(s, c, s', op) && Waits(s, a, i) && Waits(s, b, j) && i < j
    requires !Delivers(op, a) && !Delivers(op, b)
    ensures Waits(s', a, i') && Waits(s', b, j') && i' < j'
  {
    i' := KeepsWaiting(s, c, s', op, a, i);
    j' := KeepsWaiting(s, c, s', op, b, j);
  }

  lemma {:induction false} WaitsUntil(states: seq<State>, commands: seq<Command>, ops: seq<Op>, id: TaskId, m: nat,
                                      n: nat, i: nat)
    returns (i': nat)
    requires IsMemoryRun(states, commands, ops) && Valid(states[0]) && m <= n <= |ops|
    requires Waits(states[m], id, i) && forall k | m <= k < n :: !Delivers(ops[k], id)
    ensures Waits(states[n], id, i')
    decreases n - m
  {
    i' := i;
    if m < n {
      RunStaysValid(states, commands, ops, m);
      i' := KeepsWaiting(states[m], commands[m], states[m + 1], ops[m], id, i);
      i' := WaitsUntil(states, commands, ops, id, m + 1, n, i');
    }
  }

  lemma {:induction false} NeverOvertaken(states: seq<State>, commands: seq<Command>, ops: seq<Op>, a: TaskId,
                                          b: TaskId, m: nat, r: nat, i: nat, j: nat)
    requires IsMemoryRun(states, commands, ops) && Valid(states[0]) && m <= r < |ops|
    requires Waits(states[m], a, i) && Waits(states[m], b, j) && i < j
    requires forall k | m <= k < r :: !Delivers(ops[k], a)
    ensures !Delivers(ops[r], b)
    decreases r - m
  {
    RunStaysValid(states, commands, ops, m);
    NoOvertaking(states[m], commands[m], states[m + 1], ops[m], a, b, i, j);
    if m < r {
      var i', j' := BothKeepWaiting(states[m], commands[m], states[m + 1], ops[m], a, b, i, j);
      NeverOvertaken(states, commands, ops, a, b, m + 1, r, i', j');
    }
  }

  /** Of two tasks enqueued without a schedule, the later is never delivered before the earlier has been, whatever
      else is enqueued, claimed, given back, swept or acknowledged. */
  lemma FirstDeliveriesInOrder(states: seq<State>, commands: seq<Command>, ops: seq<Op>, p: nat, q: nat, r: nat)
    requires IsMemoryRun(states, commands, ops) && Valid(states[0]) && p < q < r < |ops|
    requires ops[p].Enqueue? && ops[p].due.Zero? && ops[q].Enqueue? && ops[q].due.Zero?
    requires Delivers(ops[r], ops[q].id)
    ensures exists k | p < k < r :: Delivers(ops[k], ops[p].id)
  {
    var a, b := ops[p].id, ops[q].id;
    if forall k | p < k < r :: !Delivers(ops[k], a) {
      assert Step(states[p], commands[p], states[p + 1], ops[p]) && Step(states[q], commands[q], states[q + 1], ops[q]);
      var i := |states[p].ready|;
      assert Waits(states[p + 1], a, i);
      i := WaitsUntil(states, commands, ops, a, p + 1, q, i);
      var j := |states[q].ready|;
      assert Waits(states[q + 1], a, i) && Waits(states[q + 1], b, j);
      NeverOvertaken(states, commands, ops, a, b, q + 1, r, i, j);
      assert false;
    }
  }
}
