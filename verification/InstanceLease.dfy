/** Leases on workflow instances: what a trace of acquire, renew and release calls means, and that both the in-memory
    timestamps and the Redis scripts exclude. */
module InstanceLease {
  import opened Base

  /** A call on the lease of one instance, at a time of the store's clock. */
  datatype Use =
    | Acquire(id: string, owner: string, now: int, expiry: int, ok: bool)
    | Renew(id: string, owner: string, now: int, expiry: int, ok: bool)
    | Release(id: string, owner: string, now: int)

  // ---------- What a trace grants ----------

  /** Until when the owner has been promised the instance, going by the calls alone: its last successful acquire or
      renewal, if it has not released since. */
  function Grant(trace: seq<Use>, id: string, owner: string): Option<int> {
    if trace == [] then None
    else
      var n := |trace| - 1;
      var u := trace[n];
      if u.id != id || u.owner != owner then Grant(trace[..n], id, owner)
      else
        match u
        case Acquire(_, _, _, expiry, ok) => if ok then Some(expiry) else Grant(trace[..n], id, owner)
        case Renew(_, _, _, expiry, ok) => if ok then Some(expiry) else Grant(trace[..n], id, owner)
        case Release(_, _, _) => None
  }

  predicate Live(trace: seq<Use>, id: string, owner: string, now: int) {
    var g := Grant(trace, id, owner);
    g.Some? && now < g.value
  }

  predicate ClockAdvances(trace: seq<Use>) {
    forall i, j | 0 <= i < j < |trace| :: trace[i].now <= trace[j].now
  }

  // ---------- The specification of a lease store ----------

  type Cells = map<string, Holder>

  predicate Lapsed(c: Option<Holder>, now: int) {
    c.Some? && c.value.expiry <= now
  }

  function Cell(cs: Cells, id: string): Option<Holder> {
    if id in cs then Some(cs[id]) else None
  }

  predicate OwnedBy(c: Option<Holder>, owner: string) {
    c.Some? && c.value.owner == owner
  }

  predicate StepFrom(c: Option<Holder>, u: Use, c': Option<Holder>) {
    match u
    case Acquire(_, owner, now, expiry, ok) =>
      && ok == (c.None? || Lapsed(c, now) || OwnedBy(c, owner))
      && c' == if ok then Some(Holder(owner, expiry)) else c
    case Renew(_, owner, now, expiry, ok) =>
      && ok == OwnedBy(c, owner)
      && c' == if ok then Some(Holder(owner, expiry)) else c
    case Release(_, owner, _) =>
      c' == if OwnedBy(c, owner) then None else c
  }

  /** An owner a store takes for nobody: its acquire is answered as anyone's would be, but leaves no lease behind. */
  predicate StepOfNobody(c: Option<Holder>, u: Use, c': Option<Holder>) {
    && (u.Acquire? ==> u.ok == (c.None? || Lapsed(c, u.now)))
    && c' == if u.Acquire? && u.ok then None else c
  }

  predicate StepBy(nobody: set<string>, c: Option<Holder>, u: Use, c': Option<Holder>) {
    if u.owner in nobody then StepOfNobody(c, u, c') else StepFrom(c, u, c')
  }

  /** A lapsed lease may be taken for gone, whether or not it is cleared away. */
  predicate CellNext(nobody: set<string>, c: Option<Holder>, u: Use, c': Option<Holder>) {
    || StepBy(nobody, c, u, c')
    || (Lapsed(c, u.now) && (StepBy(nobody, None, u, c') || (c' == c && StepBy(nobody, None, u, None))))
  }

  ghost predicate Next(nobody: set<string>, cs: Cells, u: Use, cs': Cells) {
    && CellNext(nobody, Cell(cs, u.id), u, Cell(cs', u.id))
    && (forall id | id != u.id :: Cell(cs', id) == Cell(cs, id))
  }

  /** A run of a lease store, from no leases at all. */
  ghost predicate IsRun(nobody: set<string>, states: seq<Cells>, trace: seq<Use>) {
    && |states| == |trace| + 1 && states[0] == map[]
    && forall k | 0 <= k < |trace| :: Next(nobody, states[k], trace[k], states[k + 1])
  }

  // ---------- Mutual exclusion ----------

  /** By time `now`: the owner's grant is what the store holds, unless it has run out on either side. */
  predicate Agrees(cs: Cells, trace: seq<Use>, id: string, owner: string, now: int) {
    && (Live(trace, id, owner, now) ==> Cell(cs, id) == Some(Holder(owner, Grant(trace, id, owner).value)))
    && (OwnedBy(Cell(cs, id), owner) && !Lapsed(Cell(cs, id), now) ==> Live(trace, id, owner, now))
  }

  lemma OneUse(nobody: set<string>, cs: Cells, trace: seq<Use>, u: Use, cs': Cells, id: string, owner: string)
    requires Next(nobody, cs, u, cs') && owner !in nobody
    requires Agrees(cs, trace, id, owner, u.now)
    ensures Agrees(cs', trace + [u], id, owner, u.now)
  {
    assert (trace + [u])[..|trace|] == trace;
  }

  lemma LaterToo(cs: Cells, trace: seq<Use>, id: string, owner: string, now: int, later: int)
    requires Agrees(cs, trace, id, owner, now) && now <= later
    ensures Agrees(cs, trace, id, owner, later)
  {
  }

  lemma RunPrefix(nobody: set<string>, states: seq<Cells>, trace: seq<Use>, k: nat)
    requires IsRun(nobody, states, trace) && k <= |trace|
    ensures IsRun(nobody, states[..k + 1], trace[..k])
  {
    forall i | 0 <= i < k ensures Next(nobody, states[..k + 1][i], trace[..k][i], states[..k + 1][i + 1]) {
      assert Next(nobody, states[i], trace[i], states[i + 1]);
    }
  }

  lemma {:induction false} NobodyHolds(nobody: set<string>, states: seq<Cells>, trace: seq<Use>, id: string, k: nat)
    requires IsRun(nobody, states, trace) && k <= |trace|
    ensures id in states[k] ==> states[k][id].owner !in nobody
  {
    if k > 0 {
      NobodyHolds(nobody, states, trace, id, k - 1);
      assert Next(nobody, states[k - 1], trace[k - 1], states[k]);
      assert id != trace[k - 1].id ==> Cell(states[k], id) == Cell(states[k - 1], id);
    }
  }

  /** The store's cells are what the calls so far have granted. */
  lemma {:induction false} StoreKnowsGrants(nobody: set<string>, states: seq<Cells>, trace: seq<Use>, id: string,
                                            owner: string, now: int)
    requires IsRun(nobody, states, trace) && ClockAdvances(trace) && (trace != [] ==> trace[|trace| - 1].now <= now)
    requires owner !in nobody
    ensures Agrees(states[|trace|], trace, id, owner, now)
    decreases |trace|
  {
    if trace != [] {
      var n := |trace| - 1;
      var before, u := trace[..n], trace[n];
      assert before + [u] == trace;
      RunPrefix(nobody, states, trace, n);
      StoreKnowsGrants(nobody, states[..n + 1], before, id, owner, u.now);
      assert Next(nobody, states[n], u, states[n + 1]);
      OneUse(nobody, states[n], before, u, states[n + 1], id, owner);
      LaterToo(states[n + 1], trace, id, owner, u.now, now);
    }
  }

  /** Over any trace, at any time: at most one owner has an unexpired, unreleased lease on an instance. */
  lemma AtMostOneOwner(nobody: set<string>, states: seq<Cells>, trace: seq<Use>, id: string, a: string, b: string,
                       now: int)
    requires IsRun(nobody, states, trace) && ClockAdvances(trace) && (trace != [] ==> trace[|trace| - 1].now <= now)
    requires a !in nobody && b !in nobody && Live(trace, id, a, now) && Live(trace, id, b, now)
    ensures a == b
  {
    StoreKnowsGrants(nobody, states, trace, id, a, now);
    StoreKnowsGrants(nobody, states, trace, id, b, now);
  }

  /** No one but `owner` has an unexpired, unreleased lease. */
  ghost predicate NoOther(nobody: set<string>, trace: seq<Use>, id: string, owner: string, now: int) {
    forall o | o != owner && o !in nobody :: !Live(trace, id, o, now)
  }

  /** An acquire succeeds exactly when no other owner has an unexpired, unreleased lease. */
  lemma AcquireSucceedsIff(nobody: set<string>, states: seq<Cells>, trace: seq<Use>, k: nat)
    requires IsRun(nobody, states, trace) && ClockAdvances(trace) && k < |trace| && trace[k].Acquire?
    ensures trace[k].ok <==> NoOther(nobody, trace[..k], trace[k].id, trace[k].owner, trace[k].now)
  {
    var u, before := trace[k], trace[..k];
    RunPrefix(nobody, states, trace, k);
    assert Next(nobody, states[k], u, states[k + 1]);
    forall o | o !in nobody ensures Agrees(states[k], before, u.id, o, u.now) {
      StoreKnowsGrants(nobody, states[..k + 1], before, u.id, o, u.now);
    }
    if !u.ok {
      var o := states[k][u.id].owner;
      NobodyHolds(nobody, states, trace, u.id, k);
      assert Agrees(states[k], before, u.id, o, u.now);
      assert Live(before, u.id, o, u.now);
    } else {
      forall o | o != u.owner && o !in nobody ensures !Live(before, u.id, o, u.now) {
        assert Agrees(states[k], before, u.id, o, u.now);
      }
    }
  }
}
