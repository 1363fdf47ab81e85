/** A store of instances and the engine processes that come and go over it: new instances, calls on stored ones,
    registrations and restarts, in any order. A restart empties the registry and sets the id counter back to zero. */
module Deployment {
  import opened Base
  import opened Workflow
  import opened Execution
  import opened EngineRuns
  import opened Registry
  import opened Engine
  import opened Replay
  import opened Idempotence

  /** `fp` computes fingerprints. `insertOnly`: saving a new instance under a stored id fails, as in the SQL stores and
      Mongo; otherwise it replaces the stored one, as in memory and in Redis. */
  datatype Rules = Rules(fp: Definition -> string, insertOnly: bool)

  /** The stored instances, and the current process: its id counter and its registry. */
  datatype Site = Site(store: map<string, Instance>, nextID: nat, table: Table)

  datatype Deed =
    | Begin(name: string, version: string, input: Value, birth: Birth)
    | On(id: string, action: Action, cut: nat)
    | Enroll(raw: Definition)
    | LoseSave
    | Restart

  /** An effect and the instance it is about. */
  datatype Entry = Entry(id: string, effect: Effect)

  function NewId(x: Site): string { InstanceId(x.nextID + 1) }

  /** The definition the deed is carried out with. */
  function Found(x: Site, deed: Deed): Option<Definition> {
    match deed
    case Begin(name, version, _, _) => Lookup(x.table, name, version)
    case On(id, action, _) =>
      if id !in x.store then None
      else
        var d := x.store[id];
        Lookup(x.table, d.name, if action.RunInstance? then d.version else VersionOf(d))
    case _ => None
  }

  /** A new instance is saved. */
  predicate Saves(rules: Rules, x: Site, deed: Deed) {
    deed.Begin? && Found(x, deed).Some? && !(rules.insertOnly && NewId(x) in x.store)
  }

  /** The call with what it learns from the registry. */
  function Informed(rules: Rules, found: Option<Definition>, action: Action): Action {
    match action
    case RunInstance(_, _, leaseFree, env) =>
      Action.RunInstance(found.Some?, FingerprintValid(OrNothing(found), rules.fp), leaseFree, env)
    case Resume(_, leaseFree, env) => Action.Resume(found.Some?, leaseFree, env)
    case SignalNow(_, name, payload, leaseFree, env) => Action.SignalNow(found.Some?, name, payload, leaseFree, env)
    case _ => action
  }

  function Trace(rules: Rules, x: Site, deed: Deed): seq<Effect> {
    match deed
    case Begin(_, _, input, birth) =>
      if !Saves(rules, x, deed) then []
      else
        var def := Found(x, deed).value;
        [Write(Newborn(def, NewId(x), input, birth))] + FirstEffects(def, NewId(x), input, birth)
    case On(id, action, cut) =>
      if id !in x.store then []
      else
        var found := Found(x, deed);
        Cut(Effects(OrNothing(found), x.store[id], Informed(rules, found, action)), cut)
    case _ => []
  }

  function Subject(x: Site, deed: Deed): string {
    match deed
    case Begin(_, _, _, _) => NewId(x)
    case On(id, _, _) => id
    case _ => ""
  }

  function Next(rules: Rules, x: Site, deed: Deed): Site {
    match deed
    case Begin(_, _, input, birth) =>
      if Found(x, deed).None? then x
      else if !Saves(rules, x, deed) then x.(nextID := x.nextID + 1)
      else
        var born := Newborn(Found(x, deed).value, NewId(x), input, birth);
        x.(nextID := x.nextID + 1, store := x.store[NewId(x) := After(born, Trace(rules, x, deed))])
    case On(id, _, _) =>
      if id !in x.store then x else x.(store := x.store[id := After(x.store[id], Trace(rules, x, deed))])
    case Enroll(raw) => x.(table := Register(x.table, [], raw, rules.fp).1)
    case LoseSave => x.(nextID := x.nextID + 1)
    case Restart => Site(x.store, 0, map[])
  }

  function SiteAfter(rules: Rules, x: Site, deeds: seq<Deed>): Site
    decreases |deeds|
  {
    if deeds == [] then x else SiteAfter(rules, Next(rules, x, deeds[0]), deeds[1..])
  }

  function Tagged(id: string, trace: seq<Effect>): seq<Entry> {
    seq(|trace|, k requires 0 <= k < |trace| => Entry(id, trace[k]))
  }

  /** Everything the processes do, in order. */
  function Journal(rules: Rules, x: Site, deeds: seq<Deed>): seq<Entry>
    decreases |deeds|
  {
    if deeds == [] then []
    else Tagged(Subject(x, deeds[0]), Trace(rules, x, deeds[0])) + Journal(rules, Next(rules, x, deeds[0]), deeds[1..])
  }

  /** The part of a journal that is about one instance. */
  function Restrict(journal: seq<Entry>, id: string): seq<Effect> {
    if journal == [] then []
    else (if journal[0].id == id then [journal[0].effect] else []) + Restrict(journal[1..], id)
  }

  lemma {:induction false} RestrictConcat(a: seq<Entry>, b: seq<Entry>, id: string)
    ensures Restrict(a + b, id) == Restrict(a, id) + Restrict(b, id)
    decreases |a|
  {
    if a == [] {
      assert a + b == b;
    } else {
      assert (a + b)[1..] == a[1..] + b;
      RestrictConcat(a[1..], b, id);
    }
  }

  lemma {:induction false} RestrictTagged(tag: string, trace: seq<Effect>, id: string)
    ensures Restrict(Tagged(tag, trace), id) == if tag == id then trace else []
    decreases |trace|
  {
    if trace != [] {
      assert Tagged(tag, trace)[1..] == Tagged(tag, trace[1..]);
      RestrictTagged(tag, trace[1..], id);
      assert [trace[0]] + trace[1..] == trace;
    }
  }

  /** What the first deed of a history adds to the story of one instance. */
  lemma RestrictFirst(rules: Rules, x: Site, deeds: seq<Deed>, id: string)
    requires deeds != []
    ensures Restrict(Journal(rules, x, deeds), id)
            == (if Subject(x, deeds[0]) == id then Trace(rules, x, deeds[0]) else [])
               + Restrict(Journal(rules, Next(rules, x, deeds[0]), deeds[1..]), id)
  {
    var t := Tagged(Subject(x, deeds[0]), Trace(rules, x, deeds[0]));
    RestrictConcat(t, Journal(rules, Next(rules, x, deeds[0]), deeds[1..]), id);
    RestrictTagged(Subject(x, deeds[0]), Trace(rules, x, deeds[0]), id);
  }

  // ---------- The store follows the journal ----------

  lemma NewbornSame(def: Definition, id: string, input: Value, birth: Birth)
    ensures Only(FirstEffects(def, id, input, birth), Newborn(def, id, input, birth))
  {
    var born := Newborn(def, id, input, birth);
    if birth.ByRun? {
      ExecOnly(def, born, 0, input, birth.env, 0);
    }
  }

  lemma {:induction false} AfterSame(x: Instance, trace: seq<Effect>, d: Instance)
    requires Same(x, d) && Only(trace, d)
    ensures Same(After(x, trace), d)
    decreases |trace|
  {
    if trace != [] {
      assert forall q | 0 <= q < |trace[1..]| :: trace[1..][q] == trace[q + 1];
      AfterSame(if trace[0].Write? then trace[0].inst else x, trace[1..], d);
    }
  }

  /** A deed writes one instance only, and that always under its own id and definition. */
  lemma DeedWrites(rules: Rules, x: Site, deed: Deed)
    requires Keyed(x.store)
    ensures Keyed(Next(rules, x, deed).store)
    ensures Saves(rules, x, deed) ==>
              Same(Next(rules, x, deed).store[NewId(x)],
                   Newborn(Found(x, deed).value, NewId(x), deed.input, deed.birth))
    ensures deed.On? && deed.id in x.store ==> Same(Next(rules, x, deed).store[deed.id], x.store[deed.id])
  {
    if Saves(rules, x, deed) {
      var def := Found(x, deed).value;
      var born := Newborn(def, NewId(x), deed.input, deed.birth);
      NewbornSame(def, NewId(x), deed.input, deed.birth);
      AfterSame(born, Trace(rules, x, deed), born);
    } else if deed.On? && deed.id in x.store {
      var d, found := x.store[deed.id], Found(x, deed);
      EffectsOnly(OrNothing(found), d, Informed(rules, found, deed.action));
      AfterSame(d, Trace(rules, x, deed), d);
    }
  }

  // ---------- Instance ids ----------

  /** The counter is past every stored id of its own making. */
  ghost predicate Ahead(x: Site) {
    forall n: nat :: InstanceId(n) in x.store ==> n <= x.nextID
  }

  lemma InstanceIdInjective(m: nat, n: nat)
    requires InstanceId(m) == InstanceId(n)
    ensures m == n
  {
    assert InstanceId(m)[3..] == Decimal(m) && InstanceId(n)[3..] == Decimal(n);
    DecimalInjective(m, n);
  }

  lemma AheadKept(rules: Rules, x: Site, deed: Deed)
    requires Ahead(x) && !deed.Restart?
    ensures Ahead(Next(rules, x, deed)) && NewId(x) !in x.store
  {
    var x' := Next(rules, x, deed);
    forall n: nat | InstanceId(n) in x'.store ensures n <= x'.nextID {
      if InstanceId(n) == NewId(x) {
        InstanceIdInjective(n, x.nextID + 1);
      } else {
        assert InstanceId(n) in x.store;
      }
    }
  }

  /** The deed begins a new instance under the id of a stored one and replaces that one. */
  predicate Reuses(rules: Rules, x: Site, deed: Deed, id: string) {
    Saves(rules, x, deed) && NewId(x) == id && id in x.store
  }

  ghost predicate NeverReuses(rules: Rules, x: Site, deeds: seq<Deed>, id: string)
    decreases |deeds|
  {
    deeds == [] || (!Reuses(rules, x, deeds[0], id) && NeverReuses(rules, Next(rules, x, deeds[0]), deeds[1..], id))
  }

  ghost predicate OneProcess(deeds: seq<Deed>) {
    forall deed | deed in deeds :: !deed.Restart?
  }

  /** A process whose counter is past the stored ids, an engine over an empty store for one, never reuses an id. */
  lemma {:induction false} AheadNeverReuses(rules: Rules, x: Site, deeds: seq<Deed>, id: string)
    requires Ahead(x) && OneProcess(deeds)
    ensures NeverReuses(rules, x, deeds, id)
    decreases |deeds|
  {
    if deeds != [] {
      assert deeds[0] in deeds && forall deed | deed in deeds[1..] :: deed in deeds;
      AheadKept(rules, x, deeds[0]);
      AheadNeverReuses(rules, Next(rules, x, deeds[0]), deeds[1..], id);
    }
  }

  /** Nor does any process over a store that only inserts. */
  lemma {:induction false} InsertOnlyNeverReuses(rules: Rules, x: Site, deeds: seq<Deed>, id: string)
    requires rules.insertOnly
    ensures NeverReuses(rules, x, deeds, id)
    decreases |deeds|
  {
    if deeds != [] {
      InsertOnlyNeverReuses(rules, Next(rules, x, deeds[0]), deeds[1..], id);
    }
  }

  /** After a restart the counter is past the stored ids exactly if none of them is a counted one. */
  lemma AheadAfterRestartIff(rules: Rules, x: Site)
    ensures Ahead(Next(rules, x, Restart)) <==> forall n: nat | InstanceId(n) in x.store :: n == 0
  {
  }

  // ---------- Definitions ----------

  /** The call on instance `id` is refused, or runs the definition the instance was begun with. */
  ghost predicate TrueTo(rules: Rules, x: Site, deed: Deed, id: string, home: Option<Definition>) {
    deed.On? && deed.id == id && id in x.store ==>
      var found := Found(x, deed);
      && home.Some?
      && match deed.action
         case RunInstance(_, _, leaseFree, _) => StartRefusal(found, rules.fp, leaseFree).Some? || found == home
         case Resume(_, leaseFree, _) => Refusal(x.table, x.store[id], Failed, leaseFree).Some? || found == home
         case SignalNow(_, _, _, leaseFree, _) =>
           Refusal(x.table, x.store[id], Waiting, leaseFree).Some? || found == home
         case _ => true
  }

  /** The definition the instance was begun with, once it has been. */
  function HomeAfter(rules: Rules, x: Site, deed: Deed, id: string, home: Option<Definition>): Option<Definition> {
    if Saves(rules, x, deed) && NewId(x) == id then Found(x, deed) else home
  }

  ghost predicate Loyal(rules: Rules, x: Site, deeds: seq<Deed>, id: string, home: Option<Definition>)
    decreases |deeds|
  {
    deeds == [] ||
    (TrueTo(rules, x, deeds[0], id, home)
     && Loyal(rules, Next(rules, x, deeds[0]), deeds[1..], id, HomeAfter(rules, x, deeds[0], id, home)))
  }

  // ---------- The story of one instance ----------

  /** The call as it looks under the definition `def` alone. */
  ghost function Localized(rules: Rules, found: Option<Definition>, def: Definition, action: Action): Action {
    match action
    case Resume(_, leaseFree, env) => Action.Resume(found == Some(def), leaseFree, env)
    case SignalNow(_, name, payload, leaseFree, env) =>
      Action.SignalNow(found == Some(def), name, payload, leaseFree, env)
    case _ => Informed(rules, found, action)
  }

  lemma SameEffects(rules: Rules, x: Site, deed: Deed, def: Definition)
    requires deed.On? && deed.id in x.store && TrueTo(rules, x, deed, deed.id, Some(def))
    ensures var found := Found(x, deed);
            Trace(rules, x, deed)
              == Cut(Effects(def, x.store[deed.id], Localized(rules, found, def, deed.action)), deed.cut)
  {
  }

  /** A signal is sent to the instance. */
  predicate Signals(deed: Deed, id: string) {
    deed.On? && deed.id == id && (deed.action.SignalNow? || deed.action.SignalLater?)
  }

  ghost predicate NoSignals(deeds: seq<Deed>, id: string) {
    forall deed | deed in deeds :: !Signals(deed, id)
  }

  /** The only calls on the instance are deliveries of its start task. */
  ghost predicate OnlyReplays(deeds: seq<Deed>, id: string) {
    forall deed | deed in deeds && deed.On? && deed.id == id :: deed.action.RunInstance?
  }

  lemma OtherDeed(rules: Rules, x: Site, deed: Deed, id: string)
    requires !(deed.On? && deed.id == id) && !(Saves(rules, x, deed) && NewId(x) == id)
    ensures id in Next(rules, x, deed).store <==> id in x.store
    ensures id in x.store ==> Next(rules, x, deed).store[id] == x.store[id]
    ensures Subject(x, deed) == id ==> Trace(rules, x, deed) == []
  {
  }

  /** From its place in the store on, an instance goes through a history of episodes under its definition. */
  lemma {:induction false} RestOfLife(rules: Rules, x: Site, deeds: seq<Deed>, id: string, def: Definition)
    returns (episodes: seq<Episode>)
    requires id in x.store && NeverReuses(rules, x, deeds, id) && Loyal(rules, x, deeds, id, Some(def))
    ensures Restrict(Journal(rules, x, deeds), id) == History(def, x.store[id], episodes)
    ensures NoSignals(deeds, id) ==> Unsignalled(episodes)
    ensures OnlyReplays(deeds, id) ==> Redeliveries(episodes)
    decreases |deeds|
  {
    episodes := [];
    if deeds != [] {
      var deed, x' := deeds[0], Next(rules, x, deeds[0]);
      assert deed in deeds && forall e | e in deeds[1..] :: e in deeds;
      RestrictFirst(rules, x, deeds, id);
      if deed.On? && deed.id == id {
        var e := Episode(Localized(rules, Found(x, deed), def, deed.action), deed.cut);
        SameEffects(rules, x, deed, def);
        var rest := RestOfLife(rules, x', deeds[1..], id, def);
        episodes := [e] + rest;
        assert episodes[1..] == rest;
      } else {
        OtherDeed(rules, x, deed, id);
        episodes := RestOfLife(rules, x', deeds[1..], id, def);
      }
    }
  }
}
