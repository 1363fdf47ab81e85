/** Workflow registration: the in-memory definition store and RegisterWorkflow's get-then-save. */
module Registry {
  import opened Base
  import opened Workflow

  /** name -> version -> definition */
  type Table = map<string, map<string, Definition>>

  function Lookup(t: Table, name: string, version: string): Option<Definition> {
    if name in t && version in t[name] then Some(t[name][version]) else None
  }

  /** SaveWorkflow on a value: an existing version is never overwritten. */
  function Saved(t: Table, def: Definition): Table {
    if Lookup(t, def.name, def.version).Some? then t
    else t[def.name := (if def.name in t then t[def.name] else map[])[def.version := def]]
  }

  /** Definitions sit under their own name and version. */
  ghost predicate WellKeyed(t: Table) {
    forall n, v :: Lookup(t, n, v).Some? ==> Lookup(t, n, v).value.name == n && Lookup(t, n, v).value.version == v
  }

  class WorkflowStore {
    var table: Table

    constructor ()
      ensures table == map[]
    {
      table := map[];
    }

    method SaveWorkflow(def: Definition) returns (ok: bool)
      modifies this
      ensures ok <==> Lookup(old(table), def.name, def.version).None?
      ensures table == Saved(old(table), def)
    {
      var versions := map[];
      if def.name in table {
        versions := table[def.name];
      }
      if def.version in versions {
        return false;
      }
      versions := versions[def.version := def];
      table := table[def.name := versions];
      return true;
    }

    method GetWorkflow(name: string, version: string) returns (r: Option<Definition>)
      ensures r == Lookup(table, name, version)
    {
      if name !in table {
        return None;
      }
      var versions := table[name];
      if version !in versions {
        return None;
      }
      return Some(versions[version]);
    }

    /** The definition, when exactly one version is registered. */
    method GetLatestWorkflow(name: string) returns (r: Option<Definition>)
      ensures r.Some? <==> name in table && |table[name]| == 1
      ensures r.Some? ==> exists v :: Lookup(table, name, v) == r
    {
      if name !in table || |table[name]| != 1 {
        return None;
      }
      var version :| version in table[name];
      r := Some(table[name][version]);
      assert Lookup(table, name, version) == r;
    }
  }

  // ---------- Registration under interference ----------

  /** The defaults RegisterWorkflow fills in; `fp` is the strict fingerprint. */
  function Normalized(def: Definition, fp: Definition -> string): Definition {
    var versioned := if def.version == "" then def.(version := "v1") else def;
    if versioned.fingerprint == "" then versioned.(fingerprint := fp(versioned)) else versioned
  }

  /** Saves by anyone, in any order. */
  function AfterSaves(t: Table, saves: seq<Definition>): Table
    decreases |saves|
  {
    if saves == [] then t else AfterSaves(Saved(t, saves[0]), saves[1..])
  }

  datatype Answer = Accepted | AlreadyThere | Mismatch | Invalid | LostRace

  /** RegisterWorkflow's answer and the table it leaves, when its lookup sees `seen` and other engines
      perform `between` before its own save. */
  function Register(seen: Table, between: seq<Definition>, raw: Definition, fp: Definition -> string): (Answer, Table) {
    var def := Normalized(raw, fp);
    var existing := Lookup(seen, def.name, def.version);
    var now := AfterSaves(seen, between);
    if raw.name == "" || raw.steps == [] then (Invalid, now)
    else if existing.Some? && existing.value.name != "" then
      (if existing.value.fingerprint == def.fingerprint then AlreadyThere else Mismatch, now)
    else if Lookup(now, def.name, def.version).Some? then (LostRace, now)
    else (Accepted, Saved(now, def))
  }

  /** A registered definition never changes, whatever is saved afterwards. */
  lemma {:induction false} FirstAcceptedForever(t: Table, saves: seq<Definition>, name: string, version: string)
    requires Lookup(t, name, version).Some?
    ensures Lookup(AfterSaves(t, saves), name, version) == Lookup(t, name, version)
    decreases |saves|
  {
    if saves != [] {
      FirstAcceptedForever(Saved(t, saves[0]), saves[1..], name, version);
    }
  }

  lemma {:induction false} SavesKeepKeys(t: Table, saves: seq<Definition>)
    requires WellKeyed(t)
    ensures WellKeyed(AfterSaves(t, saves))
    decreases |saves|
  {
    if saves != [] {
      var t', def := Saved(t, saves[0]), saves[0];
      forall n, v | Lookup(t', n, v).Some?
        ensures Lookup(t', n, v).value.name == n && Lookup(t', n, v).value.version == v
      {
        assert Lookup(t', n, v) == Lookup(t, n, v) || (n == def.name && v == def.version);
      }
      SavesKeepKeys(t', saves[1..]);
    }
  }

  /** Registering a version that is not there yet, an empty version counting as "v1": it is accepted and found under
      that name and version, with the steps given and the fingerprint given, or else the computed one; every other
      name and version is looked up as before. */
  lemma RegistersWhatItIsGiven(t: Table, raw: Definition, fp: Definition -> string, v: string)
    requires raw.name != "" && raw.steps != [] && v == (if raw.version == "" then "v1" else raw.version)
    requires Lookup(t, raw.name, v).None?
    ensures var r := Register(t, [], raw, fp);
            var found := Lookup(r.1, raw.name, v);
            && r.0.Accepted? && found.Some?
            && found.value.name == raw.name && found.value.version == v && found.value.steps == raw.steps
            && found.value.fingerprint == (if raw.fingerprint != "" then raw.fingerprint else fp(raw.(version := v)))
    ensures var t' := Register(t, [], raw, fp).1;
            forall n, w | n != raw.name || w != v :: Lookup(t', n, w) == Lookup(t, n, w)
  {
    assert AfterSaves(t, []) == t;
    assert raw.version == v ==> raw.(version := v) == raw;
  }

  /** Registering a version that is there: nothing changes, and it is taken for the same definition exactly if the
      fingerprints agree. */
  lemma RegisteredAlready(t: Table, raw: Definition, fp: Definition -> string, v: string)
    requires raw.name != "" && raw.steps != [] && v == (if raw.version == "" then "v1" else raw.version)
    requires WellKeyed(t) && Lookup(t, raw.name, v).Some?
    ensures var r := Register(t, [], raw, fp);
            var mine := if raw.fingerprint != "" then raw.fingerprint else fp(raw.(version := v));
            && r.1 == t
            && r.0 == (if Lookup(t, raw.name, v).value.fingerprint == mine then AlreadyThere else Mismatch)
  {
    assert AfterSaves(t, []) == t;
    assert raw.version == v ==> raw.(version := v) == raw;
  }

  /** Whatever others save before, during and after: a registration that reports success is bound to its own
      fingerprint forever, and one that reports a mismatch never becomes the registered definition. */
  lemma RegistrationBinds(seen: Table, between: seq<Definition>, raw: Definition, fp: Definition -> string,
                          later: seq<Definition>)
    requires WellKeyed(seen)
    ensures var (answer, t) := Register(seen, between, raw, fp);
            var def := Normalized(raw, fp);
            var final := Lookup(AfterSaves(t, later), def.name, def.version);
            && (answer.Accepted? ==> final == Some(def))
            && (answer.AlreadyThere? ==> final.Some? && final.value.fingerprint == def.fingerprint)
            && (answer.Mismatch? ==> final.Some? && final.value.fingerprint != def.fingerprint)
            && (answer.LostRace? ==> final.Some?)
            && (answer.Invalid? <==> raw.name == "" || raw.steps == [])
            && WellKeyed(AfterSaves(t, later))
  {
    var (answer, t) := Register(seen, between, raw, fp);
    var def := Normalized(raw, fp);
    var existing := Lookup(seen, def.name, def.version);
    SavesKeepKeys(seen, between);
    if existing.Some? {
      FirstAcceptedForever(seen, between, def.name, def.version);
    }
    if answer.Accepted? {
      SavesKeepKeys(AfterSaves(seen, between), [def]);
      assert AfterSaves(AfterSaves(seen, between), [def]) == AfterSaves(t, []);
    }
    if Lookup(t, def.name, def.version).Some? {
      FirstAcceptedForever(t, later, def.name, def.version);
    }
    SavesKeepKeys(t, later);
  }
}
