/** The Redis instance store: a payload per instance and index sets that only grow; and recovery over such an index. */
module RedisStore {
  import opened Base
  import opened Workflow

  datatype State = State(
    payloads: map<string, Instance>,
    all: set<string>,
    byWorkflow: map<string, set<string>>,
    byStatus: map<Status, set<string>>)

  const EMPTY := State(map[], {}, map[], map[])

  /** SMEMBERS: a key that is not there is an empty set. */
  function Members<K(==)>(index: map<K, set<string>>, key: K): set<string> {
    if key in index then index[key] else {}
  }

  function Added<K(==)>(index: map<K, set<string>>, key: K, id: string): map<K, set<string>> {
    index[key := Members(index, key) + {id}]
  }

  /** SaveInstance and UpdateInstance alike: overwrite the payload, then add to the indexes if that write gets
      through. */
  function Written(s: State, inst: Instance, indexed: bool): State {
    var s' := s.(payloads := s.payloads[inst.id := inst]);
    if !indexed then s'
    else s'.(all := s.all + {inst.id},
             byWorkflow := Added(s.byWorkflow, inst.name, inst.id),
             byStatus := Added(s.byStatus, inst.status, inst.id))
  }

  datatype Filter = Filter(workflow: string, status: Option<Status>)

  /** The ids a listing looks up. */
  function Candidates(s: State, f: Filter): set<string> {
    if f.workflow != "" && f.status.Some? then Members(s.byWorkflow, f.workflow) * Members(s.byStatus, f.status.value)
    else if f.workflow != "" then Members(s.byWorkflow, f.workflow)
    else if f.status.Some? then Members(s.byStatus, f.status.value)
    else s.all
  }

  /** The ids a listing returns: those of the candidates that have a payload, whatever it says. */
  function Listed(s: State, f: Filter): set<string> {
    set id | id in Candidates(s, f) && id in s.payloads
  }

  /** The listing, in some order: each listed instance once, as stored. */
  ghost predicate IsListing(s: State, f: Filter, ids: seq<string>, list: seq<Instance>) {
    && |ids| == |list|
    && (forall i, j | 0 <= i < j < |ids| :: ids[i] != ids[j])
    && (forall i | 0 <= i < |ids| :: ids[i] in Listed(s, f) && list[i] == s.payloads[ids[i]])
    && (forall id | id in Listed(s, f) :: id in ids)
  }

  /** How a write fares. */
  datatype Fate = Fine | IndexLost | PayloadLost

  class RedisInstanceStore {
    var payloads: map<string, Instance>
    var all: set<string>
    var byWorkflow: map<string, set<string>>
    var byStatus: map<Status, set<string>>

    function Contents(): State
      reads this
    {
      State(payloads, all, byWorkflow, byStatus)
    }

    constructor ()
      ensures Contents() == EMPTY
    {
      payloads, all, byWorkflow, byStatus := map[], {}, map[], map[];
    }

    /** SaveInstance and UpdateInstance. */
    method Write(inst: Instance, fate: Fate) returns (ok: bool)
      modifies this
      ensures ok == !fate.PayloadLost?
      ensures Contents() == if ok then Written(old(Contents()), inst, fate.Fine?) else old(Contents())
    {
      if fate.PayloadLost? {
        return false;
      }
      payloads := payloads[inst.id := inst];
      if fate.Fine? {
        all := all + {inst.id};
        byWorkflow := byWorkflow[inst.name := Members(byWorkflow, inst.name) + {inst.id}];
        byStatus := byStatus[inst.status := Members(byStatus, inst.status) + {inst.id}];
      }
      return true;
    }

    method ListInstances(f: Filter) returns (list: seq<Instance>, ghost ids: seq<string>)
      ensures IsListing(Contents(), f, ids, list)
      ensures |list| == |Listed(Contents(), f)| && forall id | id in Listed(Contents(), f) :: payloads[id] in list
    {
      var pending := Candidates(Contents(), f);
      list, ids := [], [];
      while pending != {}
        invariant pending <= Candidates(Contents(), f)
        invariant |ids| == |list|
        invariant forall i, j | 0 <= i < j < |ids| :: ids[i] != ids[j]
        invariant forall i | 0 <= i < |ids| ::
                    ids[i] !in pending && ids[i] in Listed(Contents(), f) && list[i] == payloads[ids[i]]
        invariant forall id | id in Listed(Contents(), f) :: id in pending || id in ids
        decreases pending
      {
        var id :| id in pending;
        pending := pending - {id};
        if id in payloads {
          list := list + [payloads[id]];
          ids := ids + [id];
        }
      }
      ListingIsWhole(Contents(), f, ids, list);
    }
  }

  lemma {:induction false} CountDistinct(ids: seq<string>, elements: set<string>)
    requires forall i, j | 0 <= i < j < |ids| :: ids[i] != ids[j]
    requires forall id :: id in ids <==> id in elements
    ensures |ids| == |elements|
    decreases |ids|
  {
    if ids == [] {
      assert elements == {};
    } else {
      var n := |ids| - 1;
      assert forall id | id in ids[..n] :: id in ids;
      assert forall id | id in ids :: id in ids[..n] || id == ids[n];
      assert ids[n] in elements;
      CountDistinct(ids[..n], elements - {ids[n]});
    }
  }

  lemma ListingIsWhole(s: State, f: Filter, ids: seq<string>, list: seq<Instance>)
    requires IsListing(s, f, ids, list)
    ensures |list| == |Listed(s, f)| && forall id | id in Listed(s, f) :: s.payloads[id] in list
  {
    CountDistinct(ids, Listed(s, f));
    forall id | id in Listed(s, f) ensures s.payloads[id] in list {
      var i :| 0 <= i < |ids| && ids[i] == id;
      assert list[i] == s.payloads[id];
    }
  }

  // ---------- The index is the history of what was written ----------

  datatype Writing = Writing(inst: Instance, fate: Fate)

  function WrittenOne(s: State, w: Writing): State {
    if w.fate.PayloadLost? then s else Written(s, w.inst, w.fate.Fine?)
  }

  function WrittenAll(s: State, writes: seq<Writing>): State {
    if writes == [] then s else WrittenOne(WrittenAll(s, writes[..|writes| - 1]), writes[|writes| - 1])
  }

  lemma OneMoreWrite(s: State, writes: seq<Writing>, w: Writing)
    ensures WrittenAll(s, writes + [w]) == WrittenOne(WrittenAll(s, writes), w)
  {
    assert (writes + [w])[..|writes|] == writes;
  }

  /** The store after a history of writes. */
  function After(writes: seq<Writing>): State {
    WrittenAll(EMPTY, writes)
  }

  /** Histories compose: what recovery writes, for one, only continues the history of the store. */
  lemma {:induction false} MoreWrites(s: State, first: seq<Writing>, more: seq<Writing>)
    ensures WrittenAll(WrittenAll(s, first), more) == WrittenAll(s, first + more)
    decreases |more|
  {
    if more == [] {
      assert first + more == first;
    } else {
      var n := |more| - 1;
      var front, w := more[..n], more[n];
      assert first + more == (first + front) + [w] && more == front + [w];
      MoreWrites(s, first, front);
      OneMoreWrite(s, first + front, w);
      OneMoreWrite(WrittenAll(s, first), front, w);
    }
  }

  /** Some write of the instance with that status also reached the indexes. */
  ghost predicate OnceIndexed(writes: seq<Writing>, id: string, status: Status) {
    exists k | 0 <= k < |writes| :: writes[k].fate.Fine? && writes[k].inst.id == id && writes[k].inst.status == status
  }

  /** After any writes, an instance is in a status index exactly if it has ever been indexed in that status. */
  lemma {:induction false} IndexIsHistory(writes: seq<Writing>, id: string, status: Status)
    ensures id in Members(After(writes).byStatus, status) <==> OnceIndexed(writes, id, status)
    decreases |writes|
  {
    if writes != [] {
      var n := |writes| - 1;
      var before, w := writes[..n], writes[n];
      IndexIsHistory(before, id, status);
      if OnceIndexed(before, id, status) {
        var k :| 0 <= k < |before| && before[k].fate.Fine? && before[k].inst.id == id
          && before[k].inst.status == status;
        assert writes[k] == before[k];
      }
      if OnceIndexed(writes, id, status) && !(w.fate.Fine? && w.inst.id == id && w.inst.status == status) {
        var k :| 0 <= k < |writes| && writes[k].fate.Fine? && writes[k].inst.id == id
          && writes[k].inst.status == status;
        assert before[k] == writes[k];
      }
    }
  }

  /** Some write of the instance under that workflow name also reached the indexes. */
  ghost predicate OnceNamed(writes: seq<Writing>, id: string, name: string) {
    exists k | 0 <= k < |writes| :: writes[k].fate.Fine? && writes[k].inst.id == id && writes[k].inst.name == name
  }

  ghost predicate OnceListed(writes: seq<Writing>, id: string) {
    exists k | 0 <= k < |writes| :: writes[k].fate.Fine? && writes[k].inst.id == id
  }

  lemma {:induction false} WorkflowIndexIsHistory(writes: seq<Writing>, id: string, name: string)
    ensures id in Members(After(writes).byWorkflow, name) <==> OnceNamed(writes, id, name)
    decreases |writes|
  {
    if writes != [] {
      var n := |writes| - 1;
      var before, w := writes[..n], writes[n];
      WorkflowIndexIsHistory(before, id, name);
      if OnceNamed(before, id, name) {
        var k :| 0 <= k < |before| && before[k].fate.Fine? && before[k].inst.id == id && before[k].inst.name == name;
        assert writes[k] == before[k];
      }
      if OnceNamed(writes, id, name) && !(w.fate.Fine? && w.inst.id == id && w.inst.name == name) {
        var k :| 0 <= k < |writes| && writes[k].fate.Fine? && writes[k].inst.id == id && writes[k].inst.name == name;
        assert before[k] == writes[k];
      }
    }
  }

  lemma {:induction false} FullIndexIsHistory(writes: seq<Writing>, id: string)
    ensures id in After(writes).all <==> OnceListed(writes, id)
    decreases |writes|
  {
    if writes != [] {
      var n := |writes| - 1;
      var before, w := writes[..n], writes[n];
      FullIndexIsHistory(before, id);
      if OnceListed(before, id) {
        var k :| 0 <= k < |before| && before[k].fate.Fine? && before[k].inst.id == id;
        assert writes[k] == before[k];
      }
      if OnceListed(writes, id) && !(w.fate.Fine? && w.inst.id == id) {
        var k :| 0 <= k < |writes| && writes[k].fate.Fine? && writes[k].inst.id == id;
        assert before[k] == writes[k];
      }
    }
  }

  /** What a listing returns after any writes: the stored instances that have once been indexed under every name and
      status the filter gives, or at all if it gives none. */
  lemma ListingIsHistory(writes: seq<Writing>, f: Filter, id: string)
    ensures id in Listed(After(writes), f)
            <==> && id in After(writes).payloads
                 && (f.workflow != "" ==> OnceNamed(writes, id, f.workflow))
                 && (f.status.Some? ==> OnceIndexed(writes, id, f.status.value))
                 && (f.workflow == "" && f.status.None? ==> OnceListed(writes, id))
  {
    FullIndexIsHistory(writes, id);
    WorkflowIndexIsHistory(writes, id, f.workflow);
    if f.status.Some? {
      IndexIsHistory(writes, id, f.status.value);
    }
  }

  /** The payload is that of the last write that got through. */
  lemma {:induction false} PayloadIsLastWrite(writes: seq<Writing>, id: string) returns (k: int)
    requires id in After(writes).payloads
    ensures 0 <= k < |writes| && !writes[k].fate.PayloadLost? && writes[k].inst == After(writes).payloads[id]
            && writes[k].inst.id == id
    ensures forall j | k < j < |writes| :: writes[j].fate.PayloadLost? || writes[j].inst.id != id
    decreases |writes|
  {
    var n := |writes| - 1;
    if !writes[n].fate.PayloadLost? && writes[n].inst.id == id {
      k := n;
    } else {
      k := PayloadIsLastWrite(writes[..n], id);
      forall j | k < j < |writes| ensures writes[j].fate.PayloadLost? || writes[j].inst.id != id {
        assert j < n ==> writes[j] == writes[..n][j];
      }
    }
  }

  function InStatus(s: State, status: Status): set<string> {
    set id | id in s.payloads && s.payloads[id].status == status
  }

  /** While no index write is lost, each status index holds every instance in that status. */
  lemma IndexCovers(writes: seq<Writing>, status: Status)
    requires forall k | 0 <= k < |writes| :: !writes[k].fate.IndexLost?
    ensures InStatus(After(writes), status) <= Members(After(writes).byStatus, status)
  {
    forall id | id in InStatus(After(writes), status) ensures id in Members(After(writes).byStatus, status) {
      var k := PayloadIsLastWrite(writes, id);
      assert writes[k].fate.Fine? && writes[k].inst.id == id && writes[k].inst.status == status;
      IndexIsHistory(writes, id, status);
    }
  }

  /** A listing by status returns exactly the instances in that status if and only if the indexed ones never left it and
      those in it were indexed in it. */
  lemma ListingExactIff(writes: seq<Writing>, status: Status)
    ensures Listed(After(writes), Filter("", Some(status))) == InStatus(After(writes), status)
            <==> forall id | id in After(writes).payloads ::
                   OnceIndexed(writes, id, status) <==> After(writes).payloads[id].status == status
  {
    forall id | id in After(writes).payloads
      ensures id in Listed(After(writes), Filter("", Some(status))) <==> OnceIndexed(writes, id, status)
      ensures id in InStatus(After(writes), status) <==> After(writes).payloads[id].status == status
    {
      IndexIsHistory(writes, id, status);
    }
    var listed, wanted := Listed(After(writes), Filter("", Some(status))), InStatus(After(writes), status);
    if forall id | id in After(writes).payloads ::
         OnceIndexed(writes, id, status) <==> After(writes).payloads[id].status == status
    {
      assert forall id | id in listed :: id in wanted;
      assert forall id | id in wanted :: id in listed;
    } else {
      var id :| id in After(writes).payloads
        && !(OnceIndexed(writes, id, status) <==> After(writes).payloads[id].status == status);
      assert id in listed <==> id !in wanted;
    }
  }

  /** Two ordinary writes are enough for a listing of RUNNING instances to return a COMPLETED one. */
  lemma StaleListing(inst: Instance)
    ensures var running, done := inst.(status := Running), inst.(status := Completed);
            var s := After([Writing(running, Fine), Writing(done, Fine)]);
            inst.id in Listed(s, Filter("", Some(Running))) && s.payloads[inst.id].status == Completed
  {
    var v, w := Writing(inst.(status := Running), Fine), Writing(inst.(status := Completed), Fine);
    assert [v][..0] == [] && [v, w][..1] == [v];
    assert WrittenAll(EMPTY, []) == EMPTY;
    assert After([v]) == Written(EMPTY, v.inst, true);
    assert After([v, w]) == Written(After([v]), w.inst, true);
    assert inst.id in Members(After([v]).byStatus, Running);
  }

  // ---------- Recovery ----------

  function Recovered(payloads: map<string, Instance>, ids: set<string>): map<string, Instance> {
    map id | id in payloads ::
      if id in ids then payloads[id].(status := Failed, err := Some(RecoveredAfterCrash)) else payloads[id]
  }

  /** The instances recovery can see: RUNNING, and listed under RUNNING. */
  function Stuck(s: State): set<string> {
    set id | id in Listed(s, Filter("", Some(Running))) && s.payloads[id].status == Running
  }

  lemma RecoveredOneMore(payloads: map<string, Instance>, done: set<string>, id: string)
    requires Keyed(payloads) && id in payloads
    ensures Recovered(payloads, done + {id})
            == Recovered(payloads, done)[id := payloads[id].(status := Failed, err := Some(RecoveredAfterCrash))]
  {
  }

  /** The part of a listing that has been gone through: its RUNNING instances are the ones done. */
  ghost predicate Progress(s: State, ids: seq<string>, list: seq<Instance>, i: nat, done: set<string>)
    requires |ids| == |list|
  {
    && i <= |ids| && done <= Stuck(s)
    && (forall id | id in done :: id in ids[..i])
    && (forall k | 0 <= k < i && list[k].status == Running :: ids[k] in done)
  }

  lemma ProgressSkip(s: State, ids: seq<string>, list: seq<Instance>, i: nat, done: set<string>)
    requires |ids| == |list| && i < |ids| && Progress(s, ids, list, i, done) && list[i].status != Running
    ensures Progress(s, ids, list, i + 1, done)
  {
    assert ids[..i + 1] == ids[..i] + [ids[i]];
  }

  lemma ProgressOne(s: State, ids: seq<string>, list: seq<Instance>, i: nat, done: set<string>)
    requires IsListing(s, Filter("", Some(Running)), ids, list) && i < |ids| && Progress(s, ids, list, i, done)
    requires list[i].status == Running
    ensures ids[i] !in done && ids[i] in Stuck(s) && Progress(s, ids, list, i + 1, done + {ids[i]})
  {
    assert ids[..i + 1] == ids[..i] + [ids[i]];
    assert forall k | 0 <= k < i :: ids[..i][k] != ids[i];
  }

  lemma ProgressEnd(s: State, ids: seq<string>, list: seq<Instance>, done: set<string>)
    requires IsListing(s, Filter("", Some(Running)), ids, list) && Progress(s, ids, list, |ids|, done)
    ensures done == Stuck(s)
  {
    forall id | id in Stuck(s) ensures id in done {
      assert id in ids;
    }
  }

  ghost predicate AsFated(writes: seq<Writing>, fates: nat -> Fate) {
    forall k | 0 <= k < |writes| :: writes[k].fate == fates(k)
  }

  /** Recovery has failed the instances `done`, by the given writes. */
  ghost predicate Reached(s: State, done: set<string>, writes: seq<Writing>, fates: nat -> Fate, s': State) {
    && |done| == |writes| && s'.payloads == Recovered(s.payloads, done)
    && s' == WrittenAll(s, writes) && AsFated(writes, fates)
  }

  lemma ReachedOne(s: State, done: set<string>, writes: seq<Writing>, fates: nat -> Fate, s': State, id: string,
                   w: Writing)
    requires Reached(s, done, writes, fates, s') && Keyed(s.payloads) && id in s.payloads && id !in done
    requires w.inst == s.payloads[id].(status := Failed, err := Some(RecoveredAfterCrash))
    requires w.fate == fates(|writes|) && !w.fate.PayloadLost?
    ensures Reached(s, done + {id}, writes + [w], fates, WrittenOne(s', w))
  {
    RecoveredOneMore(s.payloads, done, id);
    OneMoreWrite(s, writes, w);
  }

  /** RecoverStuckInstances. `fates(k)` is how the k-th write fares. `done` are the instances it has failed: all the
      stuck ones, unless a payload write was lost. */
  method RecoverStuckInstances(store: RedisInstanceStore, fates: nat -> Fate)
    returns (count: nat, ok: bool, ghost done: set<string>, ghost writes: seq<Writing>)
    requires Keyed(store.payloads)
    modifies store
    ensures done <= Stuck(old(store.Contents())) && count == |done|
    ensures ok <==> done == Stuck(old(store.Contents()))
    ensures !ok ==> fates(count) == PayloadLost
    ensures Reached(old(store.Contents()), done, writes, fates, store.Contents())
    ensures forall id | id in old(store.payloads) ::
              id in store.payloads
              && store.payloads[id] == if id in done
                                       then old(store.payloads)[id].(status := Failed, err := Some(RecoveredAfterCrash))
                                       else old(store.payloads)[id]
  {
    ghost var s := store.Contents();
    var instances;
    ghost var ids;
    instances, ids := store.ListInstances(Filter("", Some(Running)));
    count, done, writes := 0, {}, [];
    assert Recovered(s.payloads, {}) == s.payloads;
    for i := 0 to |instances|
      invariant count == |done| && Progress(s, ids, instances, i, done)
      invariant Reached(s, done, writes, fates, store.Contents())
    {
      var inst := instances[i];
      if inst.status != Running {
        ProgressSkip(s, ids, instances, i, done);
        continue;
      }
      inst := inst.(status := Failed, err := Some(RecoveredAfterCrash));
      ghost var s', w := store.Contents(), Writing(inst, fates(count));
      var written := store.Write(inst, fates(count));
      ProgressOne(s, ids, instances, i, done);
      if !written {
        return count, false, done, writes;
      }
      ReachedOne(s, done, writes, fates, s', ids[i], w);
      done, writes := done + {ids[i]}, writes + [w];
      count := count + 1;
    }
    ProgressEnd(s, ids, instances, done);
    ok := true;
  }

  /** Recovery leaves no RUNNING instance exactly when every RUNNING one had been indexed; no other instance changes. */
  lemma RecoveryCompleteIff(s: State)
    ensures var after := Recovered(s.payloads, Stuck(s));
            (forall id | id in after :: after[id].status != Running)
            <==> InStatus(s, Running) <= Members(s.byStatus, Running)
  {
    var after := Recovered(s.payloads, Stuck(s));
    if InStatus(s, Running) <= Members(s.byStatus, Running) {
      forall id | id in after ensures after[id].status != Running {
        assert id in InStatus(s, Running) ==> id in Stuck(s);
      }
    } else {
      var id :| id in InStatus(s, Running) && id !in Members(s.byStatus, Running);
      assert id in after && after[id].status == Running;
    }
  }

  /** After any history of writes in which no index write was lost, stale entries and all, recovery fails exactly the
      RUNNING instances. */
  lemma RecoveryOverStaleIndex(writes: seq<Writing>)
    requires forall k | 0 <= k < |writes| :: !writes[k].fate.IndexLost?
    ensures Stuck(After(writes)) == InStatus(After(writes), Running) && Keyed(After(writes).payloads)
  {
    IndexCovers(writes, Running);
    var s := After(writes);
    forall id | id in s.payloads ensures s.payloads[id].id == id {
      var _ := PayloadIsLastWrite(writes, id);
    }
    forall id ensures id in Stuck(s) <==> id in InStatus(s, Running) {
    }
  }

  /** Recovery once is enough. After any history without lost index writes, a recovery that reports success leaves the
      store in the continued history with no RUNNING instance; a second one counts nothing and changes nothing. */
  lemma RecoveryIsFinal(writes: seq<Writing>, done: set<string>, recovery: seq<Writing>, fates: nat -> Fate, s: State,
                        done2: set<string>, recovery2: seq<Writing>, fates2: nat -> Fate, s2: State)
    requires forall k | 0 <= k < |writes| :: !writes[k].fate.IndexLost?
    requires Reached(After(writes), done, recovery, fates, s) && done == Stuck(After(writes))
    requires Reached(s, done2, recovery2, fates2, s2) && done2 <= Stuck(s)
    ensures s == After(writes + recovery) && InStatus(s, Running) == {}
    ensures forall id | id in After(writes).payloads && After(writes).payloads[id].status != Running ::
              id in s.payloads && s.payloads[id] == After(writes).payloads[id]
    ensures done2 == {} && recovery2 == [] && s2 == s
  {
    MoreWrites(EMPTY, writes, recovery);
    RecoveryOverStaleIndex(writes);
    assert forall id | id in s.payloads :: s.payloads[id].status != Running;
    assert Stuck(s) == {};
  }
}
