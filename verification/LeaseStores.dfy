/** Instance leases in the in-memory store: an owner and an expiry on each instance. */
module MemoryLeases {
  import opened Base
  import opened InstanceLease

  datatype Lease = Lease(owner: string, expiresAt: When)

  type State = map<string, Lease>

  datatype Status = Ok | Refused | Locked | NotFound

  predicate MayTake(l: Lease, owner: string, now: int) {
    l.owner == "" || l.expiresAt.Zero? || l.expiresAt.nanos <= now || l.owner == owner
  }

  /** What the store answers, and the lease it keeps. */
  predicate Grants(l: Lease, u: Use) {
    match u
    case Acquire(_, owner, now, _, _) => MayTake(l, owner, now)
    case Renew(_, owner, _, _, _) => l.owner == owner
    case Release(_, owner, _) => l.owner == "" || l.owner == owner
  }

  function After(l: Lease, u: Use): Lease {
    if !Grants(l, u) then l
    else
      match u
      case Acquire(_, owner, _, expiry, _) => Lease(owner, At(expiry))
      case Renew(_, _, _, expiry, _) => l.(expiresAt := At(expiry))
      case Release(_, _, _) => Lease("", Zero)
  }

  class InMemoryLeases {
    var instances: State

    constructor (ids: set<string>)
      ensures instances == map id | id in ids :: Lease("", Zero)
    {
      instances := map id | id in ids :: Lease("", Zero);
    }

    method TryAcquireLease(id: string, owner: string, ttl: int, now: int) returns (status: Status)
      modifies this
      ensures id !in old(instances) ==> status == NotFound && instances == old(instances)
      ensures id in old(instances) ==>
                IsStep(old(instances), Acquire(id, owner, now, now + ttl, status == Ok), instances)
      ensures id in old(instances) ==> status in {Ok, Refused}
    {
      if id !in instances {
        return NotFound;
      }
      var l := instances[id];
      if l.owner == "" || l.expiresAt.Zero? || l.expiresAt.nanos <= now || l.owner == owner {
        instances := instances[id := Lease(owner, At(now + ttl))];
        return Ok;
      }
      return Refused;
    }

    method RenewLease(id: string, owner: string, ttl: int, now: int) returns (status: Status)
      modifies this
      ensures id !in old(instances) ==> status == NotFound && instances == old(instances)
      ensures id in old(instances) ==> IsStep(old(instances), Renew(id, owner, now, now + ttl, status == Ok), instances)
      ensures id in old(instances) ==> status in {Ok, Locked}
    {
      if id !in instances {
        return NotFound;
      }
      var l := instances[id];
      if l.owner != owner {
        return Locked;
      }
      instances := instances[id := l.(expiresAt := At(now + ttl))];
      return Ok;
    }

    method ReleaseLease(id: string, owner: string, now: int) returns (status: Status)
      modifies this
      ensures id !in old(instances) ==> status == NotFound && instances == old(instances)
      ensures id in old(instances) ==> IsStep(old(instances), Release(id, owner, now), instances)
      ensures id in old(instances) ==>
                status == if Grants(old(instances)[id], Release(id, owner, now)) then Ok else Locked
    {
      if id !in instances {
        return NotFound;
      }
      var l := instances[id];
      if l.owner != "" && l.owner != owner {
        return Locked;
      }
      instances := instances[id := Lease("", Zero)];
      return Ok;
    }
  }

  predicate IsStep(s: State, u: Use, s': State) {
    && u.id in s && s' == s[u.id := After(s[u.id], u)]
    && (u.Release? || u.ok == Grants(s[u.id], u))
  }

  ghost predicate IsMemoryRun(states: seq<State>, trace: seq<Use>) {
    && |states| == |trace| + 1 && (forall id | id in states[0] :: states[0][id].owner == "")
    && forall k | 0 <= k < |trace| :: IsStep(states[k], trace[k], states[k + 1])
  }

  /** A named owner always comes with an expiry. */
  predicate Dated(s: State) {
    forall id | id in s :: s[id].owner != "" ==> s[id].expiresAt.At?
  }

  /** The lease an instance stands for: none, if its owner is the empty string. */
  function CellsOf(s: State): Cells {
    map id | id in s && s[id].owner != "" && s[id].expiresAt.At? :: Holder(s[id].owner, s[id].expiresAt.nanos)
  }

  lemma StepRefines(s: State, u: Use, s': State)
    requires Dated(s) && IsStep(s, u, s')
    ensures Dated(s') && Next({""}, CellsOf(s), u, CellsOf(s'))
  {
    var cs, cs' := CellsOf(s), CellsOf(s');
    forall id | id != u.id ensures Cell(cs', id) == Cell(cs, id) {
      assert id in s' <==> id in s;
    }
    assert CellNext({""}, Cell(cs, u.id), u, Cell(cs', u.id));
  }

  lemma {:induction false} StaysDated(states: seq<State>, trace: seq<Use>, k: nat)
    requires IsMemoryRun(states, trace) && k <= |trace|
    ensures Dated(states[k])
  {
    if k > 0 {
      StaysDated(states, trace, k - 1);
      assert IsStep(states[k - 1], trace[k - 1], states[k]);
      StepRefines(states[k - 1], trace[k - 1], states[k]);
    }
  }

  function AllCells(states: seq<State>): seq<Cells> {
    seq(|states|, k requires 0 <= k < |states| => CellsOf(states[k]))
  }

  lemma MemoryLeasesRefine(states: seq<State>, trace: seq<Use>)
    requires IsMemoryRun(states, trace)
    ensures IsRun({""}, AllCells(states), trace)
  {
    var cells := AllCells(states);
    forall k | 0 <= k < |trace| ensures Next({""}, cells[k], trace[k], cells[k + 1]) {
      StaysDated(states, trace, k);
      assert IsStep(states[k], trace[k], states[k + 1]);
      StepRefines(states[k], trace[k], states[k + 1]);
    }
  }

  /** In any trace of the in-memory store, an acquire succeeds exactly when no other owner with a name has an unexpired,
      unreleased lease. */
  lemma MemoryAcquireIff(states: seq<State>, trace: seq<Use>, k: nat)
    requires IsMemoryRun(states, trace) && ClockAdvances(trace) && k < |trace| && trace[k].Acquire?
    ensures trace[k].ok <==> NoOther({""}, trace[..k], trace[k].id, trace[k].owner, trace[k].now)
  {
    MemoryLeasesRefine(states, trace);
    AcquireSucceedsIff({""}, AllCells(states), trace, k);
  }

  /** The owner "" excludes nobody: its lease is live, and another owner gets one beside it. */
  lemma EmptyOwnerExcludesNobody() returns (states: seq<State>, trace: seq<Use>)
    ensures IsMemoryRun(states, trace) && ClockAdvances(trace) && |trace| == 2
    ensures trace[0] == Acquire("i", "", 0, 10, true) && trace[1] == Acquire("i", "w", 1, 11, true)
    ensures Live(trace, "i", "", 1) && Live(trace, "i", "w", 1)
  {
    var u, v := Acquire("i", "", 0, 10, true), Acquire("i", "w", 1, 11, true);
    trace := [u, v];
    states := [map["i" := Lease("", Zero)], map["i" := Lease("", At(10))], map["i" := Lease("w", At(11))]];
    assert trace[..1] == [u] && [u][..0] == [];
    assert Grant([u], "i", "") == Some(10);
  }
}

/** Instance leases in Redis: a key per instance that holds the owner and goes away when its time is up. */
module RedisLeases {
  import opened Base
  import opened InstanceLease

  datatype Status = Ok | Refused | Locked | BadTTL | ScriptError

  /** GET: a key whose time is up is not there. */
  function Get(keys: Cells, id: string, now: int): Option<string> {
    if id in keys && now < keys[id].expiry then Some(keys[id].owner) else None
  }

  /** What the scripts answer. */
  predicate Grants(keys: Cells, u: Use) {
    var cur := Get(keys, u.id, u.now);
    if u.Acquire? then cur.None? || cur == Some(u.owner) else cur == Some(u.owner)
  }

  function After(keys: Cells, u: Use): Cells {
    if !Grants(keys, u) then keys
    else if u.Release? then keys - {u.id}
    else keys[u.id := Holder(u.owner, u.expiry)]
  }

  predicate IsStep(keys: Cells, u: Use, keys': Cells) {
    keys' == After(keys, u) && (u.Release? || u.ok == Grants(keys, u))
  }

  class RedisLeases {
    var keys: Cells

    constructor ()
      ensures keys == map[]
    {
      keys := map[];
    }

    /** The acquire script; PSETEX refuses a time to live of zero, PEXPIRE with zero ends the key at once. */
    method TryAcquireLease(id: string, owner: string, ttl: int, now: int) returns (status: Status)
      modifies this
      ensures status == BadTTL <==> ttl <= 0
      ensures status == ScriptError <==> 0 < ttl < NANOS_PER_MILLI && Get(old(keys), id, now) == None
      ensures status in {BadTTL, ScriptError} ==> keys == old(keys)
      ensures status in {Ok, Refused} ==>
                IsStep(old(keys), Acquire(id, owner, now, MillisAfter(now, ttl), status == Ok), keys)
      ensures status != Locked
    {
      if ttl <= 0 {
        return BadTTL;
      }
      var cur := Get(keys, id, now);
      var millis := Millis(ttl);
      if cur.None? {
        if millis <= 0 {
          return ScriptError;
        }
        keys := keys[id := Holder(owner, now + millis * NANOS_PER_MILLI)];
        return Ok;
      }
      if cur.value == owner {
        keys := keys[id := keys[id].(expiry := now + millis * NANOS_PER_MILLI)];
        return Ok;
      }
      return Refused;
    }

    method RenewLease(id: string, owner: string, ttl: int, now: int) returns (status: Status)
      modifies this
      ensures status == BadTTL <==> ttl <= 0
      ensures status == BadTTL ==> keys == old(keys)
      ensures status in {Ok, Locked} ==>
                IsStep(old(keys), Renew(id, owner, now, MillisAfter(now, ttl), status == Ok), keys)
      ensures status in {Ok, Locked, BadTTL}
    {
      if ttl <= 0 {
        return BadTTL;
      }
      var cur := Get(keys, id, now);
      if cur.None? {
        return Locked;
      }
      if cur.value == owner {
        keys := keys[id := keys[id].(expiry := now + Millis(ttl) * NANOS_PER_MILLI)];
        return Ok;
      }
      return Locked;
    }

    method ReleaseLease(id: string, owner: string, now: int) returns (status: Status)
      modifies this
      ensures IsStep(old(keys), Release(id, owner, now), keys)
      ensures var cur := Get(old(keys), id, now);
              status == if cur.Some? && cur.value != owner && cur.value != "" then Locked else Ok
    {
      var cur := Get(keys, id, now);
      if cur.Some? && cur.value == owner {
        keys := keys - {id};
        return Ok;
      }
      if cur.None? {
        return Ok;
      }
      if cur.value != owner && cur.value != "" {
        return Locked;
      }
      return Ok;
    }
  }

  ghost predicate IsRedisRun(states: seq<Cells>, trace: seq<Use>) {
    && |states| == |trace| + 1 && states[0] == map[]
    && forall k | 0 <= k < |trace| :: IsStep(states[k], trace[k], states[k + 1])
  }

  lemma StepRefines(keys: Cells, u: Use, keys': Cells)
    requires IsStep(keys, u, keys')
    ensures Next({}, keys, u, keys')
  {
    assert CellNext({}, Cell(keys, u.id), u, Cell(keys', u.id));
  }

  lemma RedisLeasesRefine(states: seq<Cells>, trace: seq<Use>)
    requires IsRedisRun(states, trace)
    ensures IsRun({}, states, trace)
  {
    forall k | 0 <= k < |trace| ensures Next({}, states[k], trace[k], states[k + 1]) {
      assert IsStep(states[k], trace[k], states[k + 1]);
      StepRefines(states[k], trace[k], states[k + 1]);
    }
  }

  /** In any trace of the Redis scripts, an acquire succeeds exactly when no other owner at all has an unexpired,
      unreleased lease; the empty string is an owner like any other. */
  lemma RedisAcquireIff(states: seq<Cells>, trace: seq<Use>, k: nat)
    requires IsRedisRun(states, trace) && ClockAdvances(trace) && k < |trace| && trace[k].Acquire?
    ensures trace[k].ok <==> NoOther({}, trace[..k], trace[k].id, trace[k].owner, trace[k].now)
  {
    RedisLeasesRefine(states, trace);
    AcquireSucceedsIff({}, states, trace, k);
  }
}
