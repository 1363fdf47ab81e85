/** The in-memory task queue: a ready list and an inflight map, with an eager sweep of lapsed leases. */
module MemoryQueue {
  import opened Base
  import opened LeaseQueue

  datatype LeasedTask = LeasedTask(task: Task, owner: string, expiry: int)

  datatype State = State(nextID: nat, ready: seq<Task>, inflight: map<TaskId, LeasedTask>)

  // ---------- The operations on values ----------

  function Named(s: State, t: Task): Task {
    if t.id == NO_ID then t.(id := Text(Decimal(s.nextID + 1))) else t
  }

  function Enqueued(s: State, t: Task): State {
    s.(nextID := if t.id == NO_ID then s.nextID + 1 else s.nextID, ready := s.ready + [Named(s, t)])
  }

  /** Go ranges over the inflight map in any order: `order` is the order in which this sweep meets lapsed leases. */
  predicate SweepOrder(s: State, now: int, order: seq<TaskId>) {
    && (forall i, j | 0 <= i < j < |order| :: order[i] != order[j])
    && (forall id | id in order :: id in s.inflight && s.inflight[id].expiry <= now)
    && (forall id | id in s.inflight && s.inflight[id].expiry <= now :: id in order)
  }

  function Swept(s: State, order: seq<TaskId>): State
    requires forall id | id in order :: id in s.inflight
  {
    s.(ready := s.ready
       + seq(|order|, i requires 0 <= i < |order| => assert order[i] in order; s.inflight[order[i]].task),
       inflight := map id | id in s.inflight && id !in order :: s.inflight[id])
  }

  /** The position of the first runnable task, or the length. */
  function FirstRunnable(ready: seq<Task>, now: int): (k: nat)
    ensures k <= |ready| && (k < |ready| ==> Due(ready[k].notBefore, now))
    ensures forall i | 0 <= i < k :: !Due(ready[i].notBefore, now)
  {
    if ready == [] then 0
    else if Due(ready[0].notBefore, now) then 0
    else FirstRunnable(ready[1..], now) + 1
  }

  function Claimed(s: State, k: nat, owner: string, expiry: int): State
    requires k < |s.ready|
  {
    var t := s.ready[k];
    s.(ready := s.ready[..k] + s.ready[k + 1..], inflight := s.inflight[t.id := LeasedTask(t, owner, expiry)])
  }

  /** One pass of Dequeue's polling loop: sweep, scan, claim. */
  function Dequeued(s: State, now: int, owner: string, expiry: int, order: seq<TaskId>): (State, Option<Task>)
    requires SweepOrder(s, now, order)
  {
    var swept := Swept(s, order);
    var k := FirstRunnable(swept.ready, now);
    if k == |swept.ready| then (swept, None)
    else (Claimed(swept, k, owner, expiry), Some(swept.ready[k]))
  }

  predicate Holds(s: State, id: TaskId, owner: string) {
    id in s.inflight && s.inflight[id].owner == owner
  }

  function Renewed(s: State, id: TaskId, owner: string, expiry: int): State {
    if Holds(s, id, owner) then s.(inflight := s.inflight[id := s.inflight[id].(expiry := expiry)]) else s
  }

  function Acked(s: State, id: TaskId, owner: string): State {
    if Holds(s, id, owner) then s.(inflight := s.inflight - {id}) else s
  }

  function Nacked(s: State, id: TaskId, owner: string, notBefore: When, attempts: int): State {
    if !Holds(s, id, owner) then s
    else
      var t := s.inflight[id].task;
      s.(inflight := s.inflight - {id}, ready := s.ready + [t.(notBefore := notBefore, attempts := attempts)])
  }

  // ---------- The queue object ----------

  datatype Status = Ok | BadTTL | Cancelled | NotInflight | OtherOwner

  class InMemoryQueue {
    var nextID: nat
    var ready: seq<Task>
    var inflight: map<TaskId, LeasedTask>

    function Contents(): State
      reads this
    {
      State(nextID, ready, inflight)
    }

    constructor ()
      ensures Contents() == State(0, [], map[])
    {
      nextID, ready, inflight := 0, [], map[];
    }

    method Enqueue(task: Task, contextDone: bool) returns (status: Status)
      modifies this
      ensures contextDone ==> status == Cancelled && Contents() == old(Contents())
      ensures !contextDone ==> status == Ok && Contents() == Enqueued(old(Contents()), task)
    {
      if contextDone {
        return Cancelled;
      }
      var t := task;
      if t.id == NO_ID {
        nextID := nextID + 1;
        t := t.(id := Text(Decimal(nextID)));
      }
      ready := ready + [t];
      return Ok;
    }

    /** Move every lapsed lease back to the ready list, in the order the map happens to yield them. */
    method Sweep(now: int) returns (ghost order: seq<TaskId>)
      modifies this`ready, this`inflight
      ensures SweepOrder(old(Contents()), now, order)
      ensures Contents() == Swept(old(Contents()), order)
    {
      order := [];
      var pending := inflight.Keys;
      while pending != {}
        invariant pending <= old(inflight).Keys
        invariant forall i, j | 0 <= i < j < |order| :: order[i] != order[j]
        invariant forall id | id in order :: id !in pending && id in old(inflight) && old(inflight)[id].expiry <= now
        invariant forall id | id in old(inflight) && id !in pending && old(inflight)[id].expiry <= now :: id in order
        invariant Contents() == Swept(old(Contents()), order)
        decreases pending
      {
        var id :| id in pending;
        pending := pending - {id};
        var lt := inflight[id];
        if lt.expiry <= now {
          inflight := inflight - {id};
          ready := ready + [lt.task];
          order := order + [id];
        }
      }
    }

    /** One pass of the polling loop. */
    method TryDequeue(owner: string, ttl: int, now: int)
      returns (status: Status, task: Option<Task>, ghost order: seq<TaskId>)
      modifies this`ready, this`inflight
      ensures ttl <= 0 ==> status == BadTTL && task == None && Contents() == old(Contents())
      ensures ttl > 0 ==> status == Ok && SweepOrder(old(Contents()), now, order)
                          && (Contents(), task) == Dequeued(old(Contents()), now, owner, now + ttl, order)
    {
      if ttl <= 0 {
        order := [];
        return BadTTL, None, [];
      }
      order := Sweep(now);
      var idx := 0;
      while idx < |ready| && !(ready[idx].notBefore.Zero? || ready[idx].notBefore.nanos <= now)
        invariant 0 <= idx <= |ready|
        invariant forall i | 0 <= i < idx :: !Due(ready[i].notBefore, now)
      {
        idx := idx + 1;
      }
      if idx == |ready| {
        return Ok, None, order;
      }
      var t := ready[idx];
      ready := ready[..idx] + ready[idx + 1..];
      inflight := inflight[t.id := LeasedTask(t, owner, now + ttl)];
      return Ok, Some(t), order;
    }

    method RenewLease(id: TaskId, owner: string, ttl: int, now: int) returns (status: Status)
      modifies this`inflight
      ensures status == (if ttl <= 0 then BadTTL else if id !in old(inflight) then NotInflight
                         else if old(inflight)[id].owner != owner then OtherOwner else Ok)
      ensures Contents() == if status == Ok then Renewed(old(Contents()), id, owner, now + ttl) else old(Contents())
    {
      if ttl <= 0 {
        return BadTTL;
      }
      if id !in inflight {
        return NotInflight;
      }
      var lt := inflight[id];
      if lt.owner != owner {
        return OtherOwner;
      }
      inflight := inflight[id := lt.(expiry := now + ttl)];
      return Ok;
    }

    method Ack(id: TaskId, owner: string) returns (status: Status)
      modifies this`inflight
      ensures status == (if id in old(inflight) && old(inflight)[id].owner != owner then OtherOwner else Ok)
      ensures Contents() == Acked(old(Contents()), id, owner)
    {
      if id !in inflight {
        return Ok;
      }
      if inflight[id].owner != owner {
        return OtherOwner;
      }
      inflight := inflight - {id};
      return Ok;
    }

    method Nack(id: TaskId, owner: string, notBefore: When, attempts: int) returns (status: Status)
      modifies this`ready, this`inflight
      ensures status == (if id in old(inflight) && old(inflight)[id].owner != owner then OtherOwner else Ok)
      ensures Contents() == Nacked(old(Contents()), id, owner, notBefore, attempts)
    {
      if id !in inflight {
        return Ok;
      }
      if inflight[id].owner != owner {
        return OtherOwner;
      }
      var t := inflight[id].task;
      inflight := inflight - {id};
      ready := ready + [t.(notBefore := notBefore, attempts := attempts)];
      return Ok;
    }

    method Len() returns (n: nat)
      ensures n == |ready| + |inflight|
    {
      n := |ready| + |inflight|;
    }
  }

  // ---------- Refinement of the lease queue ----------

  function ReadyEntry(t: Task): Entry { Entry(t, t.notBefore, None) }

  function LeasedEntry(l: LeasedTask): Entry { Entry(l.task, l.task.notBefore, Some(Holder(l.owner, l.expiry))) }

  function ReadyBag(ready: seq<Task>): Bag {
    if ready == [] then map[]
    else
      var last := ready[|ready| - 1];
      ReadyBag(ready[..|ready| - 1])[last.id := ReadyEntry(last)]
  }

  function LeasedBag(inflight: map<TaskId, LeasedTask>): Bag {
    map id | id in inflight :: LeasedEntry(inflight[id])
  }

  /** The bag of tasks a ready list and an inflight map stand for. */
  function BagOf(s: State): Bag {
    ReadyBag(s.ready) + LeasedBag(s.inflight)
  }

  /** No id occurs twice in the list. */
  ghost predicate Distinct(ready: seq<Task>) {
    ready == [] ||
    (ready[|ready| - 1].id !in ReadyBag(ready[..|ready| - 1]) && Distinct(ready[..|ready| - 1]))
  }

  /** Each task is in exactly one place, under its own id. */
  ghost predicate Valid(s: State) {
    && Distinct(s.ready)
    && ReadyBag(s.ready).Keys !! s.inflight.Keys
    && forall id | id in s.inflight :: s.inflight[id].task.id == id
  }

  /** The step from s to s' is the lease queue's step `op`. */
  ghost predicate Refines(s: State, s': State, op: Op) {
    Valid(s') && Next(BagOf(s), op, BagOf(s'))
  }

  lemma Append(ready: seq<Task>, t: Task)
    ensures ReadyBag(ready + [t]) == ReadyBag(ready)[t.id := ReadyEntry(t)]
    ensures Distinct(ready) && t.id !in ReadyBag(ready) ==> Distinct(ready + [t])
  {
    assert (ready + [t])[..|ready|] == ready;
  }

  // Maps only: how updates of the two parts show in their union.

  lemma PutLeft(r: Bag, l: Bag, id: TaskId, e: Entry)
    requires id !in l
    ensures r[id := e] + l == (r + l)[id := e]
  {
  }

  lemma PutRight(r: Bag, l: Bag, id: TaskId, e: Entry)
    ensures r + l[id := e] == (r + l)[id := e]
  {
  }

  lemma MoveLeft(r: Bag, l: Bag, id: TaskId, e: Entry)
    ensures r[id := e] + (l - {id}) == (r + l)[id := e]
  {
  }

  lemma MoveRight(r: Bag, l: Bag, id: TaskId, e: Entry)
    ensures (r - {id}) + l[id := e] == (r + l)[id := e]
  {
  }

  lemma DropRight(r: Bag, l: Bag, id: TaskId)
    requires id !in r
    ensures r + (l - {id}) == (r + l) - {id}
  {
  }

  lemma LeasePut(inflight: map<TaskId, LeasedTask>, id: TaskId, l: LeasedTask)
    ensures LeasedBag(inflight[id := l]) == LeasedBag(inflight)[id := LeasedEntry(l)]
  {
  }

  lemma LeaseDrop(inflight: map<TaskId, LeasedTask>, id: TaskId)
    ensures LeasedBag(inflight - {id}) == LeasedBag(inflight) - {id}
  {
  }

  lemma {:induction false} At(ready: seq<Task>, i: nat)
    requires Distinct(ready) && i < |ready|
    ensures ready[i].id in ReadyBag(ready) && ReadyBag(ready)[ready[i].id] == ReadyEntry(ready[i])
  {
    var m := |ready| - 1;
    if i < m {
      At(ready[..m], i);
    }
  }

  lemma {:induction false} Find(ready: seq<Task>, id: TaskId) returns (i: nat)
    requires id in ReadyBag(ready)
    ensures i < |ready| && ready[i].id == id
  {
    var m := |ready| - 1;
    if ready[m].id == id {
      i := m;
    } else {
      i := Find(ready[..m], id);
    }
  }

  lemma {:induction false} SameIdSamePlace(ready: seq<Task>, i: nat, j: nat)
    requires Distinct(ready) && i <= j < |ready| && ready[i].id == ready[j].id
    ensures i == j
  {
    var m := |ready| - 1;
    if j < m {
      SameIdSamePlace(ready[..m], i, j);
    } else if i < m {
      At(ready[..m], i);
    }
  }

  function Without(ready: seq<Task>, k: nat): seq<Task>
    requires k < |ready|
  {
    ready[..k] + ready[k + 1..]
  }

  lemma {:induction false} Remove(ready: seq<Task>, k: nat)
    requires Distinct(ready) && k < |ready|
    ensures Distinct(Without(ready, k)) && ReadyBag(Without(ready, k)) == ReadyBag(ready) - {ready[k].id}
  {
    var m := |ready| - 1;
    var front, last := ready[..m], ready[m];
    var b := ReadyBag(front);
    if k == m {
      assert Without(ready, k) == front;
    } else {
      var id, rest := ready[k].id, Without(front, k);
      assert id in b && last.id != id by {
        At(front, k);
      }
      assert Distinct(rest) && ReadyBag(rest) == b - {id} by {
        Remove(front, k);
      }
      assert Without(ready, k) == rest + [last];
      assert Distinct(rest + [last]) && ReadyBag(rest + [last]) == (b - {id})[last.id := ReadyEntry(last)] by {
        Append(rest, last);
      }
      assert (b - {id})[last.id := ReadyEntry(last)] == b[last.id := ReadyEntry(last)] - {id};
    }
  }

  lemma {:induction false} ReadySize(ready: seq<Task>)
    requires Distinct(ready)
    ensures |ReadyBag(ready)| == |ready|
  {
    if ready != [] {
      ReadySize(ready[..|ready| - 1]);
    }
  }

  /** Len counts every task once. */
  lemma LenIsBagSize(s: State)
    requires Valid(s)
    ensures |BagOf(s)| == |s.ready| + |s.inflight|
  {
    ReadySize(s.ready);
    var r, l := ReadyBag(s.ready), LeasedBag(s.inflight);
    assert l.Keys == s.inflight.Keys;
    assert BagOf(s).Keys == r.Keys + l.Keys;
    assert |r.Keys + l.Keys| == |r.Keys| + |l.Keys|;
  }

  lemma EnqueueRefines(s: State, t: Task)
    requires Valid(s) && Named(s, t).id !in BagOf(s)
    ensures Refines(s, Enqueued(s, t), Op.Enqueue(Named(s, t).id, Named(s, t), t.notBefore))
  {
    var n := Named(s, t);
    Append(s.ready, n);
    PutLeft(ReadyBag(s.ready), LeasedBag(s.inflight), n.id, ReadyEntry(n));
  }

  /** One lapsed lease goes back to the ready list. */
  lemma LapseOne(s: State, id: TaskId)
    requires Valid(s) && id in s.inflight
    ensures var s' := s.(ready := s.ready + [s.inflight[id].task], inflight := s.inflight - {id});
            Valid(s') && BagOf(s') == BagOf(s)[id := BagOf(s)[id].(holder := None)]
  {
    var t := s.inflight[id].task;
    Append(s.ready, t);
    LeaseDrop(s.inflight, id);
    MoveLeft(ReadyBag(s.ready), LeasedBag(s.inflight), id, ReadyEntry(t));
  }

  /** The bag after a sweep: the lapsed leases are gone, nothing else changes. */
  function SweptBag(b: Bag, order: seq<TaskId>): Bag {
    map id | id in b :: if id in order then b[id].(holder := None) else b[id]
  }

  /** A sweep one lease longer moves one more task. */
  lemma SweptOneMore(s: State, front: seq<TaskId>, id: TaskId)
    requires id !in front && id in s.inflight && forall x | x in front :: x in s.inflight
    ensures var before, after := Swept(s, front), Swept(s, front + [id]);
            && id in before.inflight && before.inflight[id] == s.inflight[id]
            && after == before.(ready := before.ready + [s.inflight[id].task], inflight := before.inflight - {id})
  {
    var before, after := Swept(s, front), Swept(s, front + [id]);
    assert forall x :: x in front + [id] <==> x in front || x == id;
    assert after.inflight == before.inflight - {id};
    assert after.ready == before.ready + [s.inflight[id].task];
  }

  lemma SweptBagOneMore(b: Bag, front: seq<TaskId>, id: TaskId)
    requires id !in front && id in b
    ensures SweptBag(b, front + [id]) == SweptBag(b, front)[id := b[id].(holder := None)]
  {
    assert forall x :: x in front + [id] <==> x in front || x == id;
  }

  lemma {:induction false} SweepRefines(s: State, order: seq<TaskId>)
    requires Valid(s)
    requires forall i, j | 0 <= i < j < |order| :: order[i] != order[j]
    requires forall id | id in order :: id in s.inflight
    ensures Valid(Swept(s, order)) && BagOf(Swept(s, order)) == SweptBag(BagOf(s), order)
    decreases |order|
  {
    if order == [] {
      assert Swept(s, order).ready == s.ready;
      assert Swept(s, order).inflight == s.inflight;
    } else {
      var m := |order| - 1;
      var front, id := order[..m], order[m];
      assert order == front + [id] && id in order;
      assert id !in front;
      SweepRefines(s, front);
      SweptOneMore(s, front, id);
      LapseOne(Swept(s, front), id);
      SweptBagOneMore(BagOf(s), front, id);
    }
  }

  lemma ClaimRefines(s: State, k: nat, owner: string, expiry: int)
    requires Valid(s) && k < |s.ready|
    ensures Valid(Claimed(s, k, owner, expiry))
    ensures var id := s.ready[k].id;
            id in BagOf(s) && BagOf(s)[id] == ReadyEntry(s.ready[k])
            && BagOf(Claimed(s, k, owner, expiry))
               == BagOf(s)[id := ReadyEntry(s.ready[k]).(holder := Some(Holder(owner, expiry)))]
  {
    var t := s.ready[k];
    var l := LeasedTask(t, owner, expiry);
    At(s.ready, k);
    Remove(s.ready, k);
    LeasePut(s.inflight, t.id, l);
    MoveRight(ReadyBag(s.ready), LeasedBag(s.inflight), t.id, LeasedEntry(l));
  }

  function IdOf(t: Option<Task>): Option<TaskId> {
    if t.Some? then Some(t.value.id) else None
  }

  /** Sweeping is what the lease queue allows a dequeue to do to tasks it does not deliver. */
  lemma SweepMayLapse(s: State, now: int, order: seq<TaskId>)
    requires Valid(s) && SweepOrder(s, now, order)
    ensures forall id | id in BagOf(s) :: MayLapse(BagOf(s)[id], SweptBag(BagOf(s), order)[id], now)
    ensures forall id | id in BagOf(s) && SweptBag(BagOf(s), order)[id].holder.None? :: Free(BagOf(s)[id], now)
    ensures forall id | id in BagOf(s) && SweptBag(BagOf(s), order)[id].holder.Some? :: !Free(BagOf(s)[id], now)
  {
    forall id | id in BagOf(s)
      ensures id in order ==> Free(BagOf(s)[id], now)
      ensures id !in order && BagOf(s)[id].holder.Some? ==> !Free(BagOf(s)[id], now)
    {
      if id in s.inflight {
        assert BagOf(s)[id] == LeasedEntry(s.inflight[id]);
      } else {
        var i := Find(s.ready, id);
        At(s.ready, i);
      }
    }
  }

  lemma NothingRunnable(s: State, now: int)
    requires Valid(s) && FirstRunnable(s.ready, now) == |s.ready|
    ensures forall id | id in BagOf(s) && BagOf(s)[id].holder.None? :: !Due(BagOf(s)[id].due, now)
  {
    forall id | id in BagOf(s) && BagOf(s)[id].holder.None?
      ensures !Due(BagOf(s)[id].due, now)
    {
      if id !in s.inflight {
        var i := Find(s.ready, id);
        At(s.ready, i);
      }
    }
  }

  lemma DeliverFromSwept(b: Bag, swept: Bag, now: int, owner: string, expiry: int, id: TaskId)
    requires swept.Keys == b.Keys && id in b && Deliverable(b[id], now) && swept[id] == b[id].(holder := None)
    requires forall x | x in b :: MayLapse(b[x], swept[x], now)
    ensures DequeueNext(b, now, owner, expiry, Some(id), swept[id := swept[id].(holder := Some(Holder(owner, expiry)))])
  {
  }

  lemma DequeueSomething(s: State, now: int, owner: string, expiry: int, order: seq<TaskId>, k: nat)
    requires Valid(s) && SweepOrder(s, now, order)
    requires k < |Swept(s, order).ready| && Due(Swept(s, order).ready[k].notBefore, now)
    ensures var swept := Swept(s, order);
            var t := swept.ready[k];
            && Refines(s, Claimed(swept, k, owner, expiry), Op.Dequeue(now, owner, expiry, Some(t.id), Some(t)))
            && t.id in BagOf(s) && t == BagOf(s)[t.id].task
  {
    var b, swept := BagOf(s), Swept(s, order);
    var b1, t := SweptBag(b, order), swept.ready[k];
    var b2 := b1[t.id := ReadyEntry(t).(holder := Some(Holder(owner, expiry)))];
    assert Valid(swept) && BagOf(swept) == b1 by {
      SweepRefines(s, order);
    }
    var s' := Claimed(swept, k, owner, expiry);
    assert t.id in b1 && b1[t.id] == ReadyEntry(t) && Valid(s') && BagOf(s') == b2 by {
      ClaimRefines(swept, k, owner, expiry);
    }
    assert DequeueNext(b, now, owner, expiry, Some(t.id), b2) by {
      SweepMayLapse(s, now, order);
      DeliverFromSwept(b, b1, now, owner, expiry, t.id);
    }
  }

  lemma DequeueNothing(s: State, now: int, owner: string, expiry: int, order: seq<TaskId>)
    requires Valid(s) && SweepOrder(s, now, order)
    requires FirstRunnable(Swept(s, order).ready, now) == |Swept(s, order).ready|
    ensures Refines(s, Swept(s, order), Op.Dequeue(now, owner, expiry, None, None))
    ensures forall id | id in BagOf(s) :: !Deliverable(BagOf(s)[id], now)
  {
    var b, swept := BagOf(s), Swept(s, order);
    assert Valid(swept) && BagOf(swept) == SweptBag(b, order) by {
      SweepRefines(s, order);
    }
    assert DequeueNext(b, now, owner, expiry, None, SweptBag(b, order)) by {
      SweepMayLapse(s, now, order);
    }
    forall id | id in b ensures !Deliverable(b[id], now) {
      SweepMayLapse(s, now, order);
      NothingRunnable(swept, now);
    }
  }

  /** A dequeue delivers a task that is due, as it stands in the bag; it finds nothing only if there is nothing. */
  lemma DequeueRefines(s: State, now: int, owner: string, expiry: int, order: seq<TaskId>)
    requires Valid(s) && SweepOrder(s, now, order)
    ensures var r := Dequeued(s, now, owner, expiry, order);
            Refines(s, r.0, Op.Dequeue(now, owner, expiry, IdOf(r.1), r.1))
    ensures var got := Dequeued(s, now, owner, expiry, order).1;
            if got.Some? then got.value.id in BagOf(s) && got.value == BagOf(s)[got.value.id].task
            else forall id | id in BagOf(s) :: !Deliverable(BagOf(s)[id], now)
  {
    var swept := Swept(s, order);
    if FirstRunnable(swept.ready, now) < |swept.ready| {
      DequeueSomething(s, now, owner, expiry, order, FirstRunnable(swept.ready, now));
    } else {
      DequeueNothing(s, now, owner, expiry, order);
    }
  }

  lemma HeldAlike(s: State, id: TaskId, owner: string)
    requires Valid(s)
    ensures HeldBy(BagOf(s), id, owner) == Holds(s, id, owner)
  {
    if id in BagOf(s) && id !in s.inflight {
      var i := Find(s.ready, id);
      At(s.ready, i);
    }
  }

  lemma RenewRefines(s: State, id: TaskId, owner: string, expiry: int)
    requires Valid(s)
    ensures Refines(s, Renewed(s, id, owner, expiry), Op.Renew(id, owner, expiry, Holds(s, id, owner)))
  {
    HeldAlike(s, id, owner);
    if Holds(s, id, owner) {
      var l := s.inflight[id].(expiry := expiry);
      LeasePut(s.inflight, id, l);
      PutRight(ReadyBag(s.ready), LeasedBag(s.inflight), id, LeasedEntry(l));
    }
  }

  lemma AckRefines(s: State, id: TaskId, owner: string)
    requires Valid(s)
    ensures Refines(s, Acked(s, id, owner), Op.Ack(id, owner))
  {
    HeldAlike(s, id, owner);
    if Holds(s, id, owner) {
      LeaseDrop(s.inflight, id);
      DropRight(ReadyBag(s.ready), LeasedBag(s.inflight), id);
    }
  }

  lemma NackRefines(s: State, id: TaskId, owner: string, notBefore: When, attempts: int)
    requires Valid(s)
    ensures Refines(s, Nacked(s, id, owner, notBefore, attempts), Op.Nack(id, owner, notBefore, notBefore, attempts))
  {
    HeldAlike(s, id, owner);
    if Holds(s, id, owner) {
      var t := s.inflight[id].task.(notBefore := notBefore, attempts := attempts);
      Append(s.ready, t);
      LeaseDrop(s.inflight, id);
      MoveLeft(ReadyBag(s.ready), LeasedBag(s.inflight), id, ReadyEntry(t));
    }
  }

  // ---------- Runs ----------

  datatype Command =
    | DoEnqueue(task: Task)
    | DoDequeue(now: int, owner: string, expiry: int, order: seq<TaskId>)
    | DoRenew(id: TaskId, owner: string, expiry: int)
    | DoAck(id: TaskId, owner: string)
    | DoNack(id: TaskId, owner: string, notBefore: When, attempts: int)

  /** The command can be given in this state; an enqueued id is not in use. */
  ghost predicate Enabled(s: State, c: Command) {
    match c
    case DoEnqueue(t) => Named(s, t).id !in BagOf(s)
    case DoDequeue(now, _, _, order) => SweepOrder(s, now, order)
    case _ => true
  }

  /** The command takes s to s' and its caller sees `op`. */
  ghost predicate Step(s: State, c: Command, s': State, op: Op) {
    && Enabled(s, c)
    && match c
       case DoEnqueue(t) =>
         s' == Enqueued(s, t) && op == Op.Enqueue(Named(s, t).id, Named(s, t), t.notBefore)
       case DoDequeue(now, owner, expiry, order) =>
         var r := Dequeued(s, now, owner, expiry, order);
         s' == r.0 && op == Op.Dequeue(now, owner, expiry, IdOf(r.1), r.1)
       case DoRenew(id, owner, expiry) =>
         s' == Renewed(s, id, owner, expiry) && op == Op.Renew(id, owner, expiry, Holds(s, id, owner))
       case DoAck(id, owner) =>
         s' == Acked(s, id, owner) && op == Op.Ack(id, owner)
       case DoNack(id, owner, notBefore, attempts) =>
         s' == Nacked(s, id, owner, notBefore, attempts) && op == Op.Nack(id, owner, notBefore, notBefore, attempts)
  }

  ghost predicate IsMemoryRun(states: seq<State>, commands: seq<Command>, ops: seq<Op>) {
    && |states| == |commands| + 1 && |ops| == |commands|
    && forall k | 0 <= k < |commands| :: Step(states[k], commands[k], states[k + 1], ops[k])
  }

  lemma StepRefines(s: State, c: Command, s': State, op: Op)
    requires Valid(s) && Step(s, c, s', op)
    ensures Refines(s, s', op)
  {
    match c
    case DoEnqueue(t) => EnqueueRefines(s, t);
    case DoDequeue(now, owner, expiry, order) => DequeueRefines(s, now, owner, expiry, order);
    case DoRenew(id, owner, expiry) => RenewRefines(s, id, owner, expiry);
    case DoAck(id, owner) => AckRefines(s, id, owner);
    case DoNack(id, owner, notBefore, attempts) => NackRefines(s, id, owner, notBefore, attempts);
  }

  lemma {:induction false} RunStaysValid(states: seq<State>, commands: seq<Command>, ops: seq<Op>, k: nat)
    requires IsMemoryRun(states, commands, ops) && Valid(states[0]) && k <= |commands|
    ensures Valid(states[k])
  {
    if k > 0 {
      RunStaysValid(states, commands, ops, k - 1);
      StepRefines(states[k - 1], commands[k - 1], states[k], ops[k - 1]);
    }
  }

  function Bags(states: seq<State>): seq<Bag> {
    seq(|states|, k requires 0 <= k < |states| => BagOf(states[k]))
  }

  /** Every run of the in-memory queue is a run of the lease queue, seen alike by its callers. */
  lemma MemoryRunRefines(states: seq<State>, commands: seq<Command>, ops: seq<Op>)
    requires IsMemoryRun(states, commands, ops) && Valid(states[0])
    ensures IsRun(Bags(states), ops)
  {
    var bags := Bags(states);
    forall k | 0 <= k < |ops| ensures Next(bags[k], ops[k], bags[k + 1]) {
      RunStaysValid(states, commands, ops, k);
      StepRefines(states[k], commands[k], states[k + 1], ops[k]);
    }
  }

  /** Len is always what was there plus what was enqueued less what was acknowledged by its lease owner. */
  lemma LenConserved(states: seq<State>, commands: seq<Command>, ops: seq<Op>)
    requires IsMemoryRun(states, commands, ops) && Valid(states[0])
    ensures var last := states[|commands|];
            |last.ready| + |last.inflight|
            == |states[0].ready| + |states[0].inflight| + CountEnqueued(ops) - CountAcked(Bags(states), ops)
  {
    MemoryRunRefines(states, commands, ops);
    Conservation(Bags(states), ops);
    RunStaysValid(states, commands, ops, |commands|);
    LenIsBagSize(states[0]);
    LenIsBagSize(states[|commands|]);
  }
}
