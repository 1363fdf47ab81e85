/** The Redis task queue: two sorted sets and three hashes, changed by Lua scripts. */
module RedisQueue {
  import opened Base
  import opened LeaseQueue

  type SortedSet = map<TaskId, int>

  datatype State = State(
    ready: SortedSet,
    inflight: SortedSet,
    payload: map<TaskId, Task>,
    notBefore: map<TaskId, int>,
    owner: map<TaskId, string>)

  // ---------- Sorted-set order: by score, then by member ----------

  predicate LexLess(a: string, b: string) {
    b != [] && (a == [] || a[0] < b[0] || (a[0] == b[0] && LexLess(a[1..], b[1..])))
  }

  predicate IdLess(a: TaskId, b: TaskId) {
    if a.Text? && b.Text? then LexLess(a.text, b.text)
    else if a.Row? && b.Row? then a.number < b.number
    else a.Text? && b.Row?
  }

  predicate Precedes(z: SortedSet, a: TaskId, b: TaskId)
    requires a in z && b in z
  {
    z[a] < z[b] || (z[a] == z[b] && IdLess(a, b))
  }

  lemma {:induction false} LexTotal(a: string, b: string)
    requires a != b
    ensures LexLess(a, b) || LexLess(b, a)
    decreases |a|
  {
    if a != [] && b != [] && a[0] == b[0] {
      assert a == [a[0]] + a[1..] && b == [b[0]] + b[1..];
      LexTotal(a[1..], b[1..]);
    }
  }

  lemma {:induction false} LexTransitive(a: string, b: string, c: string)
    requires LexLess(a, b) && LexLess(b, c)
    ensures LexLess(a, c)
    decreases |a|
  {
    if a != [] && a[0] == b[0] && b[0] == c[0] {
      LexTransitive(a[1..], b[1..], c[1..]);
    }
  }

  lemma PrecedesTotal(z: SortedSet, a: TaskId, b: TaskId)
    requires a in z && b in z && a != b
    ensures Precedes(z, a, b) || Precedes(z, b, a)
  {
    if a.Text? && b.Text? {
      LexTotal(a.text, b.text);
    }
  }

  lemma PrecedesTransitive(z: SortedSet, a: TaskId, b: TaskId, c: TaskId)
    requires a in z && b in z && c in z && Precedes(z, a, b) && Precedes(z, b, c)
    ensures Precedes(z, a, c)
  {
    if a.Text? && b.Text? && c.Text? && z[a] == z[b] == z[c] {
      LexTransitive(a.text, b.text, c.text);
    }
  }

  /** `m` comes first among `members`. */
  ghost predicate IsFirst(z: SortedSet, members: set<TaskId>, m: TaskId) {
    && members <= z.Keys && m in members
    && forall x | x in members && x != m :: Precedes(z, m, x)
  }

  method First(z: SortedSet, members: set<TaskId>) returns (m: TaskId)
    requires members <= z.Keys && members != {}
    ensures IsFirst(z, members, m)
  {
    m :| m in members;
    var rest := members - {m};
    while rest != {}
      invariant rest <= members - {m} && m in members
      invariant forall x | x in members && x != m && x !in rest :: Precedes(z, m, x)
      decreases rest
    {
      var x :| x in rest;
      rest := rest - {x};
      PrecedesTotal(z, m, x);
      if z[x] < z[m] || (z[x] == z[m] && IdLess(x, m)) {
        forall y | y in members && y != x && y !in rest ensures Precedes(z, x, y) {
          if y != m {
            PrecedesTransitive(z, x, m, y);
          }
        }
        m := x;
      }
    }
  }

  function UpTo(z: SortedSet, max: int): set<TaskId> {
    set id | id in z && z[id] <= max
  }

  /** The answer of ZRANGEBYSCORE z -inf max LIMIT 0 limit: the first `limit` members in order. */
  ghost predicate IsRange(z: SortedSet, max: int, limit: nat, ids: seq<TaskId>) {
    && |ids| <= limit
    && (forall i | 0 <= i < |ids| :: ids[i] in UpTo(z, max))
    && (forall i, j | 0 <= i < j < |ids| :: ids[i] != ids[j] && Precedes(z, ids[i], ids[j]))
    && (forall i, x | 0 <= i < |ids| && x in UpTo(z, max) && x !in ids :: Precedes(z, ids[i], x))
    && (|ids| < limit ==> forall x | x in UpTo(z, max) :: x in ids)
  }

  method RangeByScore(z: SortedSet, max: int, limit: nat) returns (ids: seq<TaskId>)
    ensures IsRange(z, max, limit, ids)
  {
    ids := [];
    var rest := UpTo(z, max);
    while rest != {} && |ids| < limit
      invariant |ids| <= limit && rest <= UpTo(z, max)
      invariant forall i | 0 <= i < |ids| :: ids[i] in UpTo(z, max) && ids[i] !in rest
      invariant forall x | x in UpTo(z, max) && x !in rest :: x in ids
      invariant forall i, j | 0 <= i < j < |ids| :: ids[i] != ids[j] && Precedes(z, ids[i], ids[j])
      invariant forall i, x | 0 <= i < |ids| && x in rest :: Precedes(z, ids[i], x)
      decreases rest
    {
      var m := First(z, rest);
      rest := rest - {m};
      ids := ids + [m];
    }
  }

  // ---------- The scripts on values ----------

  /** time.Time{}.UnixNano() of the zero time. */
  const ZERO_NANOS := -6795364578871345152

  function Nanos(w: When): int {
    if w.Zero? then ZERO_NANOS else w.nanos
  }

  function Enqueued(s: State, t: Task, now: int): State {
    var score := if t.notBefore.Zero? then now else t.notBefore.nanos;
    s.(payload := s.payload[t.id := t], notBefore := s.notBefore[t.id := score], ready := s.ready[t.id := score])
  }

  /** One expired member goes back to the ready set at its own score. */
  function Requeued(s: State, id: TaskId, now: int): State {
    s.(inflight := s.inflight - {id}, owner := s.owner - {id},
       ready := s.ready[id := if id in s.notBefore then s.notBefore[id] else now])
  }

  function Swept(s: State, ids: seq<TaskId>, now: int): State
    decreases |ids|
  {
    if ids == [] then s else Requeued(Swept(s, ids[..|ids| - 1], now), ids[|ids| - 1], now)
  }

  /** HGET of the payload, decoded, with the id set by the caller. */
  function Payload(s: State, id: Option<TaskId>): Option<Task> {
    if id.Some? && id.value in s.payload then Some(s.payload[id.value].(id := id.value)) else None
  }

  function Claimed(s: State, id: TaskId, owner: string, expiry: int): State {
    s.(ready := s.ready - {id}, inflight := s.inflight[id := expiry], owner := s.owner[id := owner])
  }

  predicate Holds(s: State, id: TaskId, owner: string) {
    id in s.owner && s.owner[id] == owner
  }

  function Renewed(s: State, id: TaskId, owner: string, expiry: int): State {
    if Holds(s, id, owner) then s.(inflight := s.inflight[id := expiry]) else s
  }

  function Acked(s: State, id: TaskId, owner: string): State {
    if Holds(s, id, owner) then
      s.(inflight := s.inflight - {id}, owner := s.owner - {id}, payload := s.payload - {id},
         notBefore := s.notBefore - {id})
    else s
  }

  /** Nack rewrites the stored payload first and only then asks the script, which checks the owner. */
  function Repaid(s: State, id: TaskId, notBefore: When, attempts: int): State
    requires id in s.payload
  {
    s.(payload := s.payload[id := s.payload[id].(id := id, notBefore := notBefore, attempts := attempts)])
  }

  function Nacked(s: State, id: TaskId, owner: string, notBefore: When, attempts: int): State {
    if id !in s.payload then s
    else
      var r := Repaid(s, id, notBefore, attempts);
      if Holds(r, id, owner) then
        r.(inflight := r.inflight - {id}, owner := r.owner - {id},
           notBefore := r.notBefore[id := Nanos(notBefore)], ready := r.ready[id := Nanos(notBefore)])
      else r
  }

  // ---------- The queue object ----------

  datatype Status = Ok | BadTTL | OtherOwner

  class RedisQueue {
    var ready: SortedSet
    var inflight: SortedSet
    var payload: map<TaskId, Task>
    var notBefore: map<TaskId, int>
    var owners: map<TaskId, string>

    function Contents(): State
      reads this
    {
      State(ready, inflight, payload, notBefore, owners)
    }

    constructor ()
      ensures Contents() == State(map[], map[], map[], map[], map[])
    {
      ready, inflight, payload, notBefore, owners := map[], map[], map[], map[], map[];
    }

    /** `random` is the generated id used when the task has none. */
    method Enqueue(task: Task, random: string, now: int) returns (ghost named: Task)
      modifies this
      ensures named == if task.id == NO_ID then task.(id := Text(random)) else task
      ensures Contents() == Enqueued(old(Contents()), named, now)
    {
      var t := task;
      if t.id == NO_ID {
        t := t.(id := Text(random));
      }
      var nb := if t.notBefore.Zero? then now else t.notBefore.nanos;
      payload := payload[t.id := t];
      notBefore := notBefore[t.id := nb];
      ready := ready[t.id := nb];
      named := t;
    }

    /** The script's requeue loop. */
    method SweepExpired(ids: seq<TaskId>, now: int)
      modifies this`ready, this`inflight, this`owners
      ensures Contents() == Swept(old(Contents()), ids, now)
    {
      for i := 0 to |ids|
        invariant Contents() == Swept(old(Contents()), ids[..i], now)
      {
        var id := ids[i];
        assert ids[..i + 1][..i] == ids[..i];
        inflight := inflight - {id};
        owners := owners - {id};
        if id in notBefore {
          ready := ready[id := notBefore[id]];
        } else {
          ready := ready[id := now];
        }
      }
      assert ids[..|ids|] == ids;
    }

    /** One evaluation of the dequeue script: requeue up to 100 expired members, then claim the first runnable one. */
    method TryDequeue(owner: string, ttl: int, now: int)
      returns (status: Status, task: Option<Task>, ghost expired: seq<TaskId>, ghost got: Option<TaskId>)
      modifies this
      ensures task == Payload(old(Contents()), got)
      ensures ttl <= 0 ==> status == BadTTL && got.None? && Contents() == old(Contents())
      ensures ttl > 0 ==>
                && status == Ok && IsRange(old(inflight), now, 100, expired)
                && var swept := Swept(old(Contents()), expired, now);
                   if got.None? then Contents() == swept && UpTo(swept.ready, now) == {}
                   else IsFirst(swept.ready, UpTo(swept.ready, now), got.value)
                        && Contents() == Claimed(swept, got.value, owner, MillisAfter(now, ttl))
    {
      if ttl <= 0 {
        return BadTTL, None, [], None;
      }
      var expiry := MillisAfter(now, ttl);
      var ids := RangeByScore(inflight, now, 100);
      expired := ids;
      SweepExpired(ids, now);
      var first := RangeByScore(ready, now, 1);
      if first == [] {
        return Ok, None, expired, None;
      }
      var id := first[0];
      assert first == [id];
      ready := ready - {id};
      inflight := inflight[id := expiry];
      owners := owners[id := owner];
      task := None;
      if id in payload {
        task := Some(payload[id].(id := id));
      }
      return Ok, task, expired, Some(id);
    }

    method RenewLease(id: TaskId, owner: string, ttl: int, now: int) returns (status: Status)
      modifies this`inflight
      ensures status == if Holds(old(Contents()), id, owner) then Ok else OtherOwner
      ensures Contents() == Renewed(old(Contents()), id, owner, now + ttl)
    {
      if id !in owners || owners[id] != owner {
        return OtherOwner;
      }
      inflight := inflight[id := now + ttl];
      return Ok;
    }

    method Ack(id: TaskId, owner: string) returns (status: Status)
      modifies this
      ensures status == if id in old(owners) && old(owners)[id] != owner then OtherOwner else Ok
      ensures Contents() == Acked(old(Contents()), id, owner)
    {
      if id !in owners {
        return Ok;
      }
      if owners[id] != owner {
        return OtherOwner;
      }
      inflight := inflight - {id};
      owners := owners - {id};
      payload := payload - {id};
      notBefore := notBefore - {id};
      return Ok;
    }

    method Nack(id: TaskId, owner: string, when: When, attempts: int) returns (status: Status)
      modifies this
      ensures status == if id in old(payload) && id in old(owners) && old(owners)[id] != owner then OtherOwner else Ok
      ensures Contents() == Nacked(old(Contents()), id, owner, when, attempts)
    {
      if id !in payload {
        return Ok;
      }
      payload := payload[id := payload[id].(id := id, notBefore := when, attempts := attempts)];
      var nb := Nanos(when);
      if id !in owners {
        return Ok;
      }
      if owners[id] != owner {
        return OtherOwner;
      }
      inflight := inflight - {id};
      owners := owners - {id};
      notBefore := notBefore[id := nb];
      ready := ready[id := nb];
      return Ok;
    }

    method Len() returns (n: nat)
      ensures n == |ready| + |inflight|
    {
      n := |ready| + |inflight|;
    }
  }

  // ---------- Refinement ----------

  /** The five structures agree on `id`: a stored task is a member of exactly one sorted set, exactly the inflight ones
      have an owner, and a ready one has its own schedule as score. */
  ghost predicate Agree(s: State, id: TaskId) {
    && (id in s.payload <==> id in s.notBefore)
    && (id in s.payload <==> id in s.ready || id in s.inflight)
    && !(id in s.ready && id in s.inflight)
    && (id in s.owner <==> id in s.inflight)
    && (id in s.ready ==> s.ready[id] == s.notBefore[id])
    && (id in s.payload ==> s.payload[id].id == id)
  }

  ghost predicate Valid(s: State) {
    forall id {:trigger Agree(s, id)} :: Agree(s, id)
  }

  function EntryOf(s: State, id: TaskId): Entry
    requires id in s.payload && id in s.notBefore
  {
    Entry(s.payload[id], At(s.notBefore[id]),
          if id in s.inflight && id in s.owner then Some(Holder(s.owner[id], s.inflight[id])) else None)
  }

  function BagOf(s: State): Bag {
    map id | id in s.payload && id in s.notBefore :: EntryOf(s, id)
  }

  /** The states agree on `id` in all five structures. */
  ghost predicate SameAt(s: State, s': State, id: TaskId) {
    && (id in s.payload <==> id in s'.payload) && (id in s.payload ==> s.payload[id] == s'.payload[id])
    && (id in s.notBefore <==> id in s'.notBefore) && (id in s.notBefore ==> s.notBefore[id] == s'.notBefore[id])
    && (id in s.ready <==> id in s'.ready) && (id in s.ready ==> s.ready[id] == s'.ready[id])
    && (id in s.inflight <==> id in s'.inflight) && (id in s.inflight ==> s.inflight[id] == s'.inflight[id])
    && (id in s.owner <==> id in s'.owner) && (id in s.owner ==> s.owner[id] == s'.owner[id])
  }

  /** A script touches one task only. */
  ghost predicate OnlyAt(s: State, s': State, id: TaskId) {
    forall x {:trigger SameAt(s, s', x)} :: x != id ==> SameAt(s, s', x)
  }

  lemma ChangedAt(s: State, s': State, id: TaskId)
    requires Valid(s) && OnlyAt(s, s', id) && Agree(s', id)
    ensures Valid(s')
    ensures BagOf(s') == if id in s'.payload then BagOf(s)[id := EntryOf(s', id)] else BagOf(s) - {id}
  {
    forall x ensures Agree(s', x) {
      assert Agree(s, x);
      assert x != id ==> SameAt(s, s', x);
    }
    var b := if id in s'.payload then BagOf(s)[id := EntryOf(s', id)] else BagOf(s) - {id};
    forall x
      ensures x in BagOf(s') <==> x in b
      ensures x in b ==> BagOf(s')[x] == b[x]
    {
      assert Agree(s, x) && Agree(s', x);
      assert x != id ==> SameAt(s, s', x);
    }
  }

  ghost predicate Refines(s: State, s': State, op: Op) {
    Valid(s') && Next(BagOf(s), op, BagOf(s'))
  }

  lemma EnqueueRefines(s: State, t: Task, now: int)
    requires Valid(s) && t.id !in BagOf(s)
    ensures Refines(s, Enqueued(s, t, now), Op.Enqueue(t.id, t, Score(t, now)))
  {
    assert Agree(s, t.id);
    ChangedAt(s, Enqueued(s, t, now), t.id);
  }

  /** Requeueing loses the lease and nothing else. */
  lemma RequeueOne(s: State, id: TaskId, now: int)
    requires Valid(s) && id in s.inflight
    ensures Valid(Requeued(s, id, now)) && id in BagOf(s)
    ensures BagOf(Requeued(s, id, now)) == BagOf(s)[id := BagOf(s)[id].(holder := None)]
  {
    assert Agree(s, id);
    ChangedAt(s, Requeued(s, id, now), id);
  }

  ghost predicate SweptTo(b: Bag, ids: seq<TaskId>, b': Bag) {
    b'.Keys == b.Keys && forall id | id in b :: b'[id] == if id in ids then b[id].(holder := None) else b[id]
  }

  lemma {:induction false} SweepRefines(s: State, ids: seq<TaskId>, now: int)
    requires Valid(s) && (forall i | 0 <= i < |ids| :: ids[i] in s.inflight)
    requires forall i, j | 0 <= i < j < |ids| :: ids[i] != ids[j]
    ensures Valid(Swept(s, ids, now)) && SweptTo(BagOf(s), ids, BagOf(Swept(s, ids, now)))
    ensures forall id :: id in Swept(s, ids, now).inflight <==> id in s.inflight && id !in ids
    decreases |ids|
  {
    if ids != [] {
      var m := |ids| - 1;
      var front, id := ids[..m], ids[m];
      SweepRefines(s, front, now);
      assert id !in front;
      assert forall x :: x in ids <==> x in front || x == id;
      RequeueOne(Swept(s, front, now), id, now);
    }
  }

  lemma ClaimRefines(s: State, id: TaskId, owner: string, expiry: int)
    requires Valid(s) && id in s.ready
    ensures Valid(Claimed(s, id, owner, expiry))
    ensures id in BagOf(s) && BagOf(s)[id].holder.None? && BagOf(s)[id].due == At(s.ready[id])
    ensures BagOf(Claimed(s, id, owner, expiry)) == BagOf(s)[id := BagOf(s)[id].(holder := Some(Holder(owner, expiry)))]
  {
    assert Agree(s, id);
    ChangedAt(s, Claimed(s, id, owner, expiry), id);
  }

  lemma DeliverSwept(b: Bag, ids: seq<TaskId>, b1: Bag, now: int, owner: string, expiry: int, id: TaskId)
    requires SweptTo(b, ids, b1) && (forall x | x in ids && x in b :: Free(b[x], now))
    requires id in b && b1[id].holder.None? && Due(b1[id].due, now)
    ensures DequeueNext(b, now, owner, expiry, Some(id), b1[id := b1[id].(holder := Some(Holder(owner, expiry)))])
  {
  }

  lemma ExpiredAreFree(s: State, now: int, expired: seq<TaskId>)
    requires Valid(s) && IsRange(s.inflight, now, 100, expired)
    ensures forall i | 0 <= i < |expired| :: expired[i] in s.inflight
    ensures forall x | x in expired && x in BagOf(s) :: Free(BagOf(s)[x], now)
  {
    forall x | x in expired && x in BagOf(s) ensures Free(BagOf(s)[x], now) {
      assert Agree(s, x) && x in UpTo(s.inflight, now);
    }
  }

  /** The script's claim: a free, due task, handed out with a fresh lease. */
  lemma DequeueSomething(s: State, now: int, owner: string, expiry: int, expired: seq<TaskId>, id: TaskId)
    requires Valid(s) && IsRange(s.inflight, now, 100, expired)
    requires id in UpTo(Swept(s, expired, now).ready, now)
    ensures Refines(s, Claimed(Swept(s, expired, now), id, owner, expiry),
                    Op.Dequeue(now, owner, expiry, Some(id), Payload(s, Some(id))))
  {
    var b, swept := BagOf(s), Swept(s, expired, now);
    var b1, s' := BagOf(swept), Claimed(swept, id, owner, expiry);
    ExpiredAreFree(s, now, expired);
    assert Valid(swept) && SweptTo(b, expired, b1) by {
      SweepRefines(s, expired, now);
    }
    assert Valid(s') && id in b1 && b1[id].holder.None? && b1[id].due == At(swept.ready[id])
           && BagOf(s') == b1[id := b1[id].(holder := Some(Holder(owner, expiry)))] by {
      ClaimRefines(swept, id, owner, expiry);
    }
    DeliverSwept(b, expired, b1, now, owner, expiry, id);
    assert Payload(s, Some(id)) == TaskAt(b, Some(id)) by {
      assert Agree(s, id);
    }
  }

  /** When the script finds nothing, there is nothing to deliver, unless 100 expired leases were requeued for later. */
  lemma DequeueNothing(s: State, now: int, owner: string, expiry: int, expired: seq<TaskId>)
    requires Valid(s) && IsRange(s.inflight, now, 100, expired)
    requires UpTo(Swept(s, expired, now).ready, now) == {}
    ensures Refines(s, Swept(s, expired, now), Op.Dequeue(now, owner, expiry, None, None))
    ensures |expired| < 100 ==> forall id | id in BagOf(s) :: !Deliverable(BagOf(s)[id], now)
  {
    var b, swept := BagOf(s), Swept(s, expired, now);
    ExpiredAreFree(s, now, expired);
    SweepRefines(s, expired, now);
    if |expired| < 100 {
      forall id | id in b ensures !Deliverable(b[id], now) {
        assert Agree(s, id) && Agree(swept, id);
        if id in swept.ready {
          assert id !in UpTo(swept.ready, now);
          assert BagOf(swept)[id].due == b[id].due;
        } else {
          assert id !in expired && id !in UpTo(s.inflight, now);
        }
      }
    }
  }

  lemma RenewRefines(s: State, id: TaskId, owner: string, expiry: int)
    requires Valid(s)
    ensures Refines(s, Renewed(s, id, owner, expiry), Op.Renew(id, owner, expiry, Holds(s, id, owner)))
  {
    assert Agree(s, id);
    if Holds(s, id, owner) {
      ChangedAt(s, Renewed(s, id, owner, expiry), id);
    }
  }

  lemma AckRefines(s: State, id: TaskId, owner: string)
    requires Valid(s)
    ensures Refines(s, Acked(s, id, owner), Op.Ack(id, owner))
  {
    assert Agree(s, id);
    if Holds(s, id, owner) {
      ChangedAt(s, Acked(s, id, owner), id);
    }
  }

  /** The entry of a stored task after a Nack: rewritten for anyone, released for the holder. */
  lemma NackedEntry(s: State, id: TaskId, owner: string, notBefore: When, attempts: int)
    requires Valid(s) && id in s.payload
    ensures Valid(Nacked(s, id, owner, notBefore, attempts)) && id in BagOf(s)
    ensures var task := BagOf(s)[id].task.(notBefore := notBefore, attempts := attempts);
            BagOf(Nacked(s, id, owner, notBefore, attempts))
            == BagOf(s)[id := if Holds(s, id, owner) then Entry(task, At(Nanos(notBefore)), None)
                              else BagOf(s)[id].(task := task)]
  {
    assert Agree(s, id);
    ChangedAt(s, Nacked(s, id, owner, notBefore, attempts), id);
  }

  /** Nack meets the specification exactly when it comes from the holder, names no stored task, or asks for the schedule
      and attempt count the task already has. */
  lemma NackRefinesIff(s: State, id: TaskId, owner: string, notBefore: When, attempts: int)
    requires Valid(s)
    ensures Valid(Nacked(s, id, owner, notBefore, attempts))
    ensures Refines(s, Nacked(s, id, owner, notBefore, attempts),
                    Op.Nack(id, owner, At(Nanos(notBefore)), notBefore, attempts))
            <==> Holds(s, id, owner) || id !in s.payload
                 || (s.payload[id].notBefore == notBefore && s.payload[id].attempts == attempts)
  {
    assert Agree(s, id);
    assert HeldBy(BagOf(s), id, owner) == Holds(s, id, owner);
    if id in s.payload {
      var b := BagOf(s);
      var task := b[id].task.(notBefore := notBefore, attempts := attempts);
      NackedEntry(s, id, owner, notBefore, attempts);
      if !Holds(s, id, owner) {
        assert b[id := b[id].(task := task)] == b <==> task == b[id].task by {
          assert b[id := b[id].(task := task)][id].task == task;
        }
      }
    }
  }

  // ---------- Runs ----------

  datatype Command =
    | DoEnqueue(task: Task, now: int)
    | DoDequeue(now: int, owner: string, expiry: int, expired: seq<TaskId>, got: Option<TaskId>)
    | DoRenew(id: TaskId, owner: string, expiry: int)
    | DoAck(id: TaskId, owner: string)
    | DoNack(id: TaskId, owner: string, notBefore: When, attempts: int)

  function Score(t: Task, now: int): When {
    At(if t.notBefore.Zero? then now else t.notBefore.nanos)
  }

  /** The command takes s to s' and its caller sees `op`. Enqueued ids are unused; Nack comes from the lease holder. */
  ghost predicate Step(s: State, c: Command, s': State, op: Op) {
    match c
    case DoEnqueue(t, now) =>
      t.id !in BagOf(s) && s' == Enqueued(s, t, now) && op == Op.Enqueue(t.id, t, Score(t, now))
    case DoDequeue(now, owner, expiry, expired, got) =>
      var swept := Swept(s, expired, now);
      && IsRange(s.inflight, now, 100, expired) && op == Op.Dequeue(now, owner, expiry, got, Payload(s, got))
      && (if got.None? then UpTo(swept.ready, now) == {} && s' == swept
          else IsFirst(swept.ready, UpTo(swept.ready, now), got.value)
               && s' == Claimed(swept, got.value, owner, expiry))
    case DoRenew(id, owner, expiry) =>
      s' == Renewed(s, id, owner, expiry) && op == Op.Renew(id, owner, expiry, Holds(s, id, owner))
    case DoAck(id, owner) =>
      s' == Acked(s, id, owner) && op == Op.Ack(id, owner)
    case DoNack(id, owner, notBefore, attempts) =>
      && Holds(s, id, owner) && s' == Nacked(s, id, owner, notBefore, attempts)
      && op == Op.Nack(id, owner, At(Nanos(notBefore)), notBefore, attempts)
  }

  ghost predicate IsRedisRun(states: seq<State>, commands: seq<Command>, ops: seq<Op>) {
    && |states| == |commands| + 1 && |ops| == |commands|
    && forall k | 0 <= k < |commands| :: Step(states[k], commands[k], states[k + 1], ops[k])
  }

  lemma StepRefines(s: State, c: Command, s': State, op: Op)
    requires Valid(s) && Step(s, c, s', op)
    ensures Refines(s, s', op)
  {
    match c
    case DoEnqueue(t, now) => EnqueueRefines(s, t, now);
    case DoDequeue(now, owner, expiry, expired, got) =>
      if got.None? {
        DequeueNothing(s, now, owner, expiry, expired);
      } else {
        DequeueSomething(s, now, owner, expiry, expired, got.value);
      }
    case DoRenew(id, owner, expiry) => RenewRefines(s, id, owner, expiry);
    case DoAck(id, owner) => AckRefines(s, id, owner);
    case DoNack(id, owner, notBefore, attempts) => NackRefinesIff(s, id, owner, notBefore, attempts);
  }

  lemma {:induction false} RunStaysValid(states: seq<State>, commands: seq<Command>, ops: seq<Op>, k: nat)
    requires IsRedisRun(states, commands, ops) && Valid(states[0]) && k <= |commands|
    ensures Valid(states[k])
  {
    if k > 0 {
      RunStaysValid(states, commands, ops, k - 1);
      StepRefines(states[k - 1], commands[k - 1], states[k], ops[k - 1]);
    }
  }

  function Bags(states: seq<State>): seq<Bag> {
    seq(|states|, k requires 0 <= k < |states| => BagOf(states[k]))
  }

  /** Every run of the Redis queue is a run of the lease queue, seen alike by its callers. */
  lemma RedisRunRefines(states: seq<State>, commands: seq<Command>, ops: seq<Op>)
    requires IsRedisRun(states, commands, ops) && Valid(states[0])
    ensures IsRun(Bags(states), ops)
  {
    var bags := Bags(states);
    forall k | 0 <= k < |ops| ensures Next(bags[k], ops[k], bags[k + 1]) {
      RunStaysValid(states, commands, ops, k);
      StepRefines(states[k], commands[k], states[k + 1], ops[k]);
    }
  }

  lemma RangeOfNone(max: int)
    ensures IsRange(map[], max, 100, [])
  {
  }

  lemma RangeOfOne(id: TaskId, score: int, max: int)
    requires score <= max
    ensures UpTo(map[id := score], max) == {id}
    ensures IsRange(map[id := score], max, 100, [id]) && IsFirst(map[id := score], {id}, id)
  {
  }

  const EXAMPLE := Task(Text("t"), Job(StartWorkflow, "flow", "", "", Nil, Zero), Zero, 0)

  /** From the empty queue: the first owner takes a task at `now`, its lease runs out, the second takes the task at
      `later`. */
  lemma TakenOver(first: string, now: int, expiry: int, second: string, later: int, expiry2: int)
    returns (states: seq<State>, commands: seq<Command>, ops: seq<Op>)
    requires now <= expiry <= later
    ensures IsRedisRun(states, commands, ops) && states[0] == State(map[], map[], map[], map[], map[])
    ensures |ops| == 3 && ops[1] == Op.Dequeue(now, first, expiry, Some(EXAMPLE.id), Some(EXAMPLE))
    ensures ops[2] == Op.Dequeue(later, second, expiry2, Some(EXAMPLE.id), Some(EXAMPLE))
    ensures states[3] == State(map[], map[EXAMPLE.id := expiry2], map[EXAMPLE.id := EXAMPLE],
                               map[EXAMPLE.id := now], map[EXAMPLE.id := second])
  {
    var t, id := EXAMPLE, EXAMPLE.id;
    var none: SortedSet := map[];
    var s0 := State(none, none, map[], map[], map[]);
    var s1 := State(map[id := now], none, map[id := t], map[id := now], map[]);
    var s2 := State(none, map[id := expiry], map[id := t], map[id := now], map[id := first]);
    var s3 := State(none, map[id := expiry2], map[id := t], map[id := now], map[id := second]);
    commands := [DoEnqueue(t, now), DoDequeue(now, first, expiry, [], Some(id)),
                 DoDequeue(later, second, expiry2, [id], Some(id))];
    ops := [Op.Enqueue(id, t, At(now)), Op.Dequeue(now, first, expiry, Some(id), Some(t)),
            Op.Dequeue(later, second, expiry2, Some(id), Some(t))];
    states := [s0, s1, s2, s3];
    assert Step(s0, commands[0], s1, ops[0]);
    assert Step(s1, commands[1], s2, ops[1]) by {
      RangeOfNone(now);
      RangeOfOne(id, now, now);
      assert Swept(s1, [], now) == s1;
      assert Claimed(s1, id, first, expiry) == s2;
    }
    assert Step(s2, commands[2], s3, ops[2]) by {
      RangeOfOne(id, expiry, later);
      RangeOfOne(id, now, later);
      assert [id][..0] == [];
      assert Swept(s2, [id], later) == s1;
      assert Claimed(s1, id, second, expiry2) == s3;
    }
  }

  /** A worker whose lease has passed to another can still overwrite the other's task: from the empty queue, worker-1
      takes the task at 1, its lease runs out at 10, worker-2 takes the task at 20, and now worker-1 gives it back. */
  lemma StaleNackRewritesAttempts() returns (states: seq<State>, commands: seq<Command>, ops: seq<Op>, id: TaskId)
    ensures IsRedisRun(states, commands, ops) && |ops| == 3 && states[0] == State(map[], map[], map[], map[], map[])
    ensures ops[1].Dequeue? && ops[1].got == Some(id) && ops[1].owner == "worker-1" && ops[1].expiry == 10
    ensures ops[2].Dequeue? && ops[2].got == Some(id) && ops[2].owner == "worker-2" && ops[2].now == 20
    ensures HeldBy(BagOf(states[3]), id, "worker-2") && BagOf(states[3])[id].task.attempts == 0
    ensures var b := BagOf(Nacked(states[3], id, "worker-1", At(90), 7));
            HeldBy(b, id, "worker-2") && b[id].task.attempts == 7
  {
    id := EXAMPLE.id;
    states, commands, ops := TakenOver("worker-1", 1, 10, "worker-2", 20, 30);
  }
}
