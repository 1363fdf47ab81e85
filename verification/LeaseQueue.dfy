/** The one specification the three task queues share: a bag of tasks, each ready or leased to an owner until an
    expiry; a lapsed lease may turn back into ready at any later dequeue. */
module LeaseQueue {
  import opened Base

  /** `due` is when the task may be delivered; `holder` is its lease, lapsed or not. */
  datatype Entry = Entry(task: Task, due: When, holder: Option<Holder>)

  type Bag = map<TaskId, Entry>

  /** What a caller sees of one queue operation. */
  datatype Op =
    | Enqueue(id: TaskId, task: Task, due: When)
    | Dequeue(now: int, owner: string, expiry: int, got: Option<TaskId>, delivered: Option<Task>)
    | Renew(id: TaskId, owner: string, expiry: int, ok: bool)
    | Ack(id: TaskId, owner: string)
    | Nack(id: TaskId, owner: string, due: When, notBefore: When, attempts: int)

  predicate HeldBy(b: Bag, id: TaskId, owner: string) {
    id in b && b[id].holder.Some? && b[id].holder.value.owner == owner
  }

  /** No lease, or one that has run out by `now`. */
  predicate Free(e: Entry, now: int) {
    e.holder.None? || e.holder.value.expiry <= now
  }

  predicate Deliverable(e: Entry, now: int) {
    Free(e, now) && Due(e.due, now)
  }

  /** The entry may look different after a dequeue at `now` only in having lost a lapsed lease. */
  predicate MayLapse(e: Entry, e': Entry, now: int) {
    e' == e || (Free(e, now) && e' == e.(holder := None))
  }

  predicate DequeueNext(b: Bag, now: int, owner: string, expiry: int, got: Option<TaskId>, b': Bag) {
    && b'.Keys == b.Keys
    && (got.Some? ==> got.value in b && Deliverable(b[got.value], now)
                      && b'[got.value] == b[got.value].(holder := Some(Holder(owner, expiry))))
    && forall id | id in b && got != Some(id) :: MayLapse(b[id], b'[id], now)
  }

  /** The task as it stands in the bag. */
  function TaskAt(b: Bag, id: Option<TaskId>): Option<Task> {
    if id.Some? && id.value in b then Some(b[id.value].task) else None
  }

  predicate Next(b: Bag, op: Op, b': Bag) {
    match op
    case Enqueue(id, task, due) => id !in b && b' == b[id := Entry(task, due, None)]
    case Dequeue(now, owner, expiry, got, delivered) =>
      DequeueNext(b, now, owner, expiry, got, b') && delivered == TaskAt(b, got)
    case Renew(id, owner, expiry, ok) =>
      && ok == HeldBy(b, id, owner)
      && b' == if ok then b[id := b[id].(holder := Some(Holder(owner, expiry)))] else b
    case Ack(id, owner) =>
      b' == if HeldBy(b, id, owner) then b - {id} else b
    case Nack(id, owner, due, notBefore, attempts) =>
      b' == if HeldBy(b, id, owner)
            then b[id := Entry(b[id].task.(notBefore := notBefore, attempts := attempts), due, None)] else b
  }

  /** A run of any queue meeting the specification: the bags it goes through and what its callers see. */
  predicate IsRun(bags: seq<Bag>, ops: seq<Op>) {
    |bags| == |ops| + 1 && forall k | 0 <= k < |ops| :: Next(bags[k], ops[k], bags[k + 1])
  }

  // ---------- Conservation ----------

  predicate Removes(b: Bag, op: Op) {
    op.Ack? && HeldBy(b, op.id, op.owner)
  }

  function CountEnqueued(ops: seq<Op>): nat {
    if ops == [] then 0 else CountEnqueued(ops[..|ops| - 1]) + if ops[|ops| - 1].Enqueue? then 1 else 0
  }

  function CountAcked(bags: seq<Bag>, ops: seq<Op>): nat
    requires |bags| == |ops| + 1
  {
    if ops == [] then 0
    else
      var m := |ops| - 1;
      CountAcked(bags[..m + 1], ops[..m]) + if Removes(bags[m], ops[m]) then 1 else 0
  }

  lemma {:induction false} RunPrefix(bags: seq<Bag>, ops: seq<Op>, m: nat)
    requires IsRun(bags, ops) && m <= |ops|
    ensures IsRun(bags[..m + 1], ops[..m])
  {
    forall k | 0 <= k < m ensures Next(bags[..m + 1][k], ops[..m][k], bags[..m + 1][k + 1]) {
      assert Next(bags[k], ops[k], bags[k + 1]);
    }
  }

  /** Tasks are neither lost nor duplicated: at any point of a run there are as many as were there at the start and
      enqueued since, less those acknowledged by the owner of their lease. */
  lemma {:induction false} Conservation(bags: seq<Bag>, ops: seq<Op>)
    requires IsRun(bags, ops)
    ensures |bags[|ops|]| == |bags[0]| + CountEnqueued(ops) - CountAcked(bags, ops)
    decreases |ops|
  {
    if ops != [] {
      var m := |ops| - 1;
      RunPrefix(bags, ops, m);
      Conservation(bags[..m + 1], ops[..m]);
      var b, b' := bags[m], bags[m + 1];
      assert Next(b, ops[m], b');
      match ops[m]
      case Dequeue(_, _, _, _, _) =>
        assert |b'.Keys| == |b.Keys|;
      case Ack(id, owner) =>
        if HeldBy(b, id, owner) {
          assert b'.Keys == b.Keys - {id};
        }
      case _ =>
    }
  }

  /** A task stays in the bag until an Ack by the recorded owner of its lease. */
  lemma {:induction false} NeverLost(bags: seq<Bag>, ops: seq<Op>, id: TaskId, m: nat, n: nat)
    requires IsRun(bags, ops) && m <= n <= |ops| && id in bags[m] && id !in bags[n]
    ensures exists k | m <= k < n :: ops[k].Ack? && ops[k].id == id && HeldBy(bags[k], id, ops[k].owner)
    decreases n - m
  {
    assert m < n;
    assert Next(bags[m], ops[m], bags[m + 1]);
    if id in bags[m + 1] {
      NeverLost(bags, ops, id, m + 1, n);
    } else {
      assert ops[m].Ack? && ops[m].id == id && HeldBy(bags[m], id, ops[m].owner);
    }
  }

  /** The op takes the task from the bag or gives it back, as only its lease holder can. */
  predicate Settles(b: Bag, op: Op, id: TaskId) {
    (op.Ack? || op.Nack?) && op.id == id && HeldBy(b, id, op.owner)
  }

  /** A task enqueued or given back for a later time is delivered no earlier, as long as its holder does not reschedule
      it; it is delivered as it stands. */
  lemma {:induction false} NotBeforeRespected(bags: seq<Bag>, ops: seq<Op>, id: TaskId, m: nat, n: nat)
    requires IsRun(bags, ops) && m < n < |ops|
    requires id in bags[m + 1] && ops[n].Dequeue? && ops[n].got == Some(id)
    requires forall k | m < k < n :: !Settles(bags[k], ops[k], id)
    ensures Due(bags[m + 1][id].due, ops[n].now) && ops[n].delivered == Some(bags[m + 1][id].task)
  {
    DueKept(bags, ops, id, m + 1, n);
    assert Next(bags[n], ops[n], bags[n + 1]);
  }

  lemma {:induction false} DueKept(bags: seq<Bag>, ops: seq<Op>, id: TaskId, m: nat, n: nat)
    requires IsRun(bags, ops) && m <= n <= |ops| && id in bags[m]
    requires forall k | m <= k < n :: !Settles(bags[k], ops[k], id)
    ensures id in bags[n] && bags[n][id].due == bags[m][id].due && bags[n][id].task == bags[m][id].task
    decreases n - m
  {
    if m < n {
      assert Next(bags[m], ops[m], bags[m + 1]);
      DueKept(bags, ops, id, m + 1, n);
    }
  }

  // ---------- Leases exclude ----------

  /** The op touches the lease of `id` as its owner would: renewing, acknowledging or giving it back. */
  predicate ByHolder(op: Op, id: TaskId, owner: string) {
    match op
    case Renew(i, o, _, _) => i == id && o == owner
    case Ack(i, o) => i == id && o == owner
    case Nack(i, o, _, _, _) => i == id && o == owner
    case _ => false
  }

  /** While nothing is done in the holder's name and the clock has not reached the expiry, the lease stands and the
      task is delivered to no one. */
  lemma {:induction false} LeaseStands(bags: seq<Bag>, ops: seq<Op>, id: TaskId, owner: string, expiry: int, m: nat,
                                       n: nat)
    requires IsRun(bags, ops) && m <= n <= |ops|
    requires id in bags[m] && bags[m][id].holder == Some(Holder(owner, expiry))
    requires forall k | m <= k < n :: !ByHolder(ops[k], id, owner)
    requires forall k | m <= k < n && ops[k].Dequeue? :: ops[k].now < expiry
    ensures id in bags[n] && bags[n][id] == bags[m][id]
    ensures forall k | m <= k < n && ops[k].Dequeue? :: ops[k].got != Some(id)
    decreases n - m
  {
    if m < n {
      assert Next(bags[m], ops[m], bags[m + 1]);
      LeaseStands(bags, ops, id, owner, expiry, m + 1, n);
    }
  }

  /** Two deliveries of one task: in between the first taker gave it back, renewed it, or let the lease run out. */
  lemma DeliveredAgain(bags: seq<Bag>, ops: seq<Op>, id: TaskId, p: nat, q: nat)
    requires IsRun(bags, ops) && p < q < |ops|
    requires ops[p].Dequeue? && ops[p].got == Some(id) && ops[q].Dequeue? && ops[q].got == Some(id)
    ensures (exists k | p < k < q :: ByHolder(ops[k], id, ops[p].owner))
            || (exists k | p < k <= q :: ops[k].Dequeue? && ops[p].expiry <= ops[k].now)
  {
    assert Next(bags[p], ops[p], bags[p + 1]) && Next(bags[q], ops[q], bags[q + 1]);
    if (forall k | p + 1 <= k < q :: !ByHolder(ops[k], id, ops[p].owner))
       && (forall k | p + 1 <= k <= q && ops[k].Dequeue? :: ops[k].now < ops[p].expiry)
    {
      LeaseStands(bags, ops, id, ops[p].owner, ops[p].expiry, p + 1, q);
      assert false;
    }
  }

  // ---------- The heartbeat ----------

  /** When `renewals` renewals have been made: the heartbeat of interval `step`, started at `start`, ticks at
      start + step, start + 2 * step, ...; each renewal runs at or after its tick and less than one step later, so
      anything that happens before the next renewal happens before start + (renewals + 2) * step. */
  ghost predicate OnSchedule(ops: seq<Op>, times: seq<int>, id: TaskId, owner: string, ttl: int,
                           start: int, step: int, renewals: nat, m: nat, n: nat)
    requires |times| == |ops| && m <= n <= |ops|
    decreases n - m
  {
    m == n ||
    (times[m] < start + (renewals + 2) * step &&
     match ops[m]
     case Renew(i, o, expiry, _) =>
       if i == id && o == owner then
         && start + (renewals + 1) * step <= times[m] && expiry == times[m] + ttl
         && OnSchedule(ops, times, id, owner, ttl, start, step, renewals + 1, m + 1, n)
       else OnSchedule(ops, times, id, owner, ttl, start, step, renewals, m + 1, n)
     case Dequeue(now, _, _, _, _) =>
       now == times[m] && OnSchedule(ops, times, id, owner, ttl, start, step, renewals, m + 1, n)
     case _ =>
       !ByHolder(ops[m], id, owner) && OnSchedule(ops, times, id, owner, ttl, start, step, renewals, m + 1, n))
  }

  /** A lease that a punctual heartbeat renews is never lost: whatever others do, no dequeue returns the task until
      the handler stops. */
  lemma {:induction false} HeartbeatKeepsLease(bags: seq<Bag>, ops: seq<Op>, times: seq<int>, id: TaskId, owner: string,
                                                   ttl: int, start: int, step: int, renewals: nat, m: nat, n: nat)
    requires IsRun(bags, ops) && |times| == |ops| && m <= n <= |ops| && 2 * step <= ttl
    requires OnSchedule(ops, times, id, owner, ttl, start, step, renewals, m, n)
    requires HeldBy(bags[m], id, owner) && bags[m][id].holder.value.expiry >= start + (renewals + 2) * step
    ensures HeldBy(bags[n], id, owner)
    ensures forall k | m <= k < n && ops[k].Dequeue? :: ops[k].got != Some(id)
    decreases n - m
  {
    if m < n {
      assert Next(bags[m], ops[m], bags[m + 1]);
      var renews := ops[m].Renew? && ops[m].id == id && ops[m].owner == owner;
      if renews {
        assert (renewals + 3) * step == (renewals + 1) * step + 2 * step;
      }
      HeartbeatKeepsLease(bags, ops, times, id, owner, ttl, start, step,
                          if renews then renewals + 1 else renewals, m + 1, n);
    }
  }

  /** The same from the dequeue that claimed the task: no one else gets it while the heartbeat, started at `begun`
      early enough for the first lease, keeps its schedule. */
  lemma ClaimKept(bags: seq<Bag>, ops: seq<Op>, times: seq<int>, id: TaskId, ttl: int, step: int, begun: int, p: nat,
                  n: nat)
    requires IsRun(bags, ops) && |times| == |ops| && p < n <= |ops| && 2 * step <= ttl
    requires ops[p].Dequeue? && ops[p].got == Some(id) && begun + 2 * step <= ops[p].expiry
    requires OnSchedule(ops, times, id, ops[p].owner, ttl, begun, step, 0, p + 1, n)
    ensures HeldBy(bags[n], id, ops[p].owner)
    ensures forall k | p < k < n && ops[k].Dequeue? :: ops[k].got != Some(id)
  {
    assert Next(bags[p], ops[p], bags[p + 1]);
    HeartbeatKeepsLease(bags, ops, times, id, ops[p].owner, ttl, begun, step, 0, p + 1, n);
  }
}
