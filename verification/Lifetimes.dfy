/** What holds of every instance in a deployment: its part of the journal is the life of one instance under one
    definition, as long as no new instance takes its id and no replay runs a definition it is not bound to; and when
    that is so. */
module Lifetimes {
  import opened Base
  import opened Workflow
  import opened Execution
  import opened EngineRuns
  import opened Registry
  import opened Engine
  import opened Replay
  import opened Deployment

  /** What RegisterWorkflow lets into a registry. */
  ghost predicate Proper(table: Table) {
    forall n, v :: Lookup(table, n, v).Some? ==>
                     var def := Lookup(table, n, v).value;
                     def.name == n && def.version == v && v != "" && def.steps != []
  }

  lemma ProperKept(rules: Rules, x: Site, deed: Deed)
    requires Proper(x.table)
    ensures Proper(Next(rules, x, deed).table)
  {
    var table' := Next(rules, x, deed).table;
    forall n, v | Lookup(table', n, v).Some?
      ensures var def := Lookup(table', n, v).value; def.name == n && def.version == v && v != "" && def.steps != []
    {
      if deed.Enroll? {
        var def := Normalized(deed.raw, rules.fp);
        assert Lookup(table', n, v) == Lookup(x.table, n, v) || Lookup(table', n, v) == Some(def);
      }
    }
  }

  // ---------- The story of an instance is a Life ----------

  /** What is known of an instance that was begun in the history. */
  datatype Story = Unborn | Story(def: Definition, input: Value, birth: Birth, episodes: seq<Episode>)

  ghost function Narrated(story: Story, id: string): seq<Effect> {
    if story.Unborn? then [] else Life(story.def, id, story.input, story.birth, story.episodes)
  }

  /** The k-th deed begins the instance: it saves a new one under this id, with the definition the registry then holds
      and the input it was given. */
  ghost predicate BegunBy(rules: Rules, x: Site, deeds: seq<Deed>, k: nat, id: string, def: Definition, input: Value) {
    && k < |deeds|
    && var y := SiteAfter(rules, x, deeds[..k]);
       && Saves(rules, y, deeds[k]) && NewId(y) == id
       && Found(y, deeds[k]) == Some(def) && deeds[k].input == input
  }

  lemma BegunLater(rules: Rules, x: Site, deeds: seq<Deed>, k: nat, id: string, def: Definition, input: Value)
    requires deeds != [] && BegunBy(rules, Next(rules, x, deeds[0]), deeds[1..], k, id, def, input)
    ensures BegunBy(rules, x, deeds, k + 1, id, def, input)
  {
    assert deeds[..k + 1][1..] == deeds[1..][..k] && deeds[..k + 1][0] == deeds[0];
  }

  /** The part of the journal about one instance is the life of the instance that the k-th deed begins. */
  lemma {:induction false} StoryOf(rules: Rules, x: Site, deeds: seq<Deed>, id: string) returns (story: Story, k: nat)
    requires id !in x.store && Proper(x.table)
    requires NeverReuses(rules, x, deeds, id) && Loyal(rules, x, deeds, id, None)
    ensures Restrict(Journal(rules, x, deeds), id) == Narrated(story, id)
    ensures story.Story? ==> BegunBy(rules, x, deeds, k, id, story.def, story.input)
    ensures story.Story? ==> story.def.steps != [] && (NoSignals(deeds, id) ==> Unsignalled(story.episodes))
    decreases |deeds|
  {
    story, k := Unborn, 0;
    if deeds != [] {
      var deed, x' := deeds[0], Next(rules, x, deeds[0]);
      assert deed in deeds && forall e | e in deeds[1..] :: e in deeds;
      RestrictFirst(rules, x, deeds, id);
      ProperKept(rules, x, deed);
      if Saves(rules, x, deed) && NewId(x) == id {
        var def := Found(x, deed).value;
        var episodes := RestOfLife(rules, x', deeds[1..], id, def);
        story := Story(def, deed.input, deed.birth, episodes);
        BirthOf(rules, x, deed);
        Regroup([Write(Newborn(def, id, deed.input, deed.birth))], FirstEffects(def, id, deed.input, deed.birth),
                History(def, x'.store[id], episodes));
        assert deeds[..0] == [];
      } else {
        NotYet(rules, x, deed, id);
        story, k := StoryOf(rules, x', deeds[1..], id);
        if story.Story? {
          BegunLater(rules, x, deeds, k, id, story.def, story.input);
          k := k + 1;
        }
      }
    }
  }

  lemma BirthOf(rules: Rules, x: Site, deed: Deed)
    requires Saves(rules, x, deed)
    ensures var def := Found(x, deed).value;
            var born := Newborn(def, NewId(x), deed.input, deed.birth);
            var first := FirstEffects(def, NewId(x), deed.input, deed.birth);
            Trace(rules, x, deed) == [Write(born)] + first && Next(rules, x, deed).store[NewId(x)] == After(born, first)
  {
    var def := Found(x, deed).value;
    var born := Newborn(def, NewId(x), deed.input, deed.birth);
    AfterConcat(born, [Write(born)], FirstEffects(def, NewId(x), deed.input, deed.birth));
  }

  lemma NotYet(rules: Rules, x: Site, deed: Deed, id: string)
    requires id !in x.store && !(Saves(rules, x, deed) && NewId(x) == id)
    ensures id !in Next(rules, x, deed).store && (Subject(x, deed) == id ==> Trace(rules, x, deed) == [])
  {
  }

  // ---------- The promises of a life, for a store ----------

  /** Every persisted state is a checkpoint; nothing persisted is called again or changed; completed steps climb. */
  ghost predicate Keeps(def: Definition, t: seq<Effect>) {
    && (forall q | 0 <= q < |t| && t[q].Write? :: Checkpoint(def, t[q].inst))
    && (forall p, q | 0 <= p < q < |t| && t[p].Write? :: NotAgain(t[p].inst, t[q]))
    && (forall p, q | 0 <= p < q < |t| && Completes(t[p]) && Completes(t[q]) :: t[p].step < t[q].step)
  }

  ghost predicate NotAgain(earlier: Instance, later: Effect) {
    && (later.Call? ==> later.step !in earlier.stepResults)
    && (later.Write? ==> Extends(earlier.stepResults, later.inst.stepResults))
  }

  lemma LifeKeeps(def: Definition, id: string, input: Value, birth: Birth, episodes: seq<Episode>)
    requires def.steps != []
    ensures Keeps(def, Life(def, id, input, birth, episodes))
  {
    var t := Life(def, id, input, birth, episodes);
    forall q | 0 <= q < |t| && t[q].Write? ensures Checkpoint(def, t[q].inst) {
      CheckpointInEveryPersistedState(def, id, input, birth, episodes, q);
    }
    forall p, q | 0 <= p < q < |t| && t[p].Write? ensures NotAgain(t[p].inst, t[q]) {
      NoReexecution(def, id, input, birth, episodes, t, p, q);
    }
    forall p, q | 0 <= p < q < |t| && Completes(t[p]) && Completes(t[q]) ensures t[p].step < t[q].step {
      CompletedEventsClimb(def, id, input, birth, episodes, t, p, q);
    }
  }

  /** What a write of a life without signals says: the composition's results, on the original input. */
  ghost predicate Composed(def: Definition, input: Value, w: Instance) {
    && w.input == input
    && (w.status.Completed? ==> Composition(def, input, |def.steps|) == Some(w.output))
    && (forall i: nat | i in w.stepResults ::
          i < |def.steps| && Composition(def, input, i + 1) == Some(w.stepResults[i]))
  }

  /** The instance records this definition as its own. */
  predicate OfDefinition(d: Instance, def: Definition) {
    d.name == def.name && d.version == def.version && d.fingerprint == def.fingerprint
  }

  /** Over any history of a deployment, an instance begun in it keeps its promises under the definition it was begun
      with, and computes the composition of its steps if no signal reaches it or nothing in it waits. */
  lemma InstanceKeepsPromises(rules: Rules, x: Site, deeds: seq<Deed>, id: string, t: seq<Effect>)
    returns (def: Definition, input: Value, k: nat)
    requires id !in x.store && Proper(x.table)
    requires NeverReuses(rules, x, deeds, id) && Loyal(rules, x, deeds, id, None)
    requires t == Restrict(Journal(rules, x, deeds), id)
    ensures Keeps(def, t) && (t != [] ==> BegunBy(rules, x, deeds, k, id, def, input))
    ensures NoSignals(deeds, id) || ParkFree(def) ==>
              forall q | 0 <= q < |t| && t[q].Write? :: Composed(def, input, t[q].inst)
  {
    var story;
    story, k := StoryOf(rules, x, deeds, id);
    if story.Unborn? {
      def, input := NO_DEFINITION, Nil;
    } else {
      def, input := story.def, story.input;
      LifeKeeps(def, id, input, story.birth, story.episodes);
      if NoSignals(deeds, id) || ParkFree(def) {
        forall q | 0 <= q < |t| && t[q].Write? ensures Composed(def, input, t[q].inst) {
          CrashReplayRefinement(def, id, input, story.birth, story.episodes, q);
        }
      }
    }
  }

  // ---------- When replays run the definition of the instance ----------

  /** The instance is in the store exactly if it has a home, and records it. */
  ghost predicate AtHome(x: Site, id: string, home: Option<Definition>) {
    && (id in x.store <==> home.Some?)
    && (home.Some? ==> OfDefinition(x.store[id], home.value) && home.value.version != "")
  }

  lemma AtHomeKept(rules: Rules, x: Site, deed: Deed, id: string, home: Option<Definition>)
    requires Keyed(x.store) && Proper(x.table) && AtHome(x, id, home)
    ensures Keyed(Next(rules, x, deed).store) && Proper(Next(rules, x, deed).table)
    ensures AtHome(Next(rules, x, deed), id, HomeAfter(rules, x, deed, id, home))
  {
    DeedWrites(rules, x, deed);
    ProperKept(rules, x, deed);
    if !(deed.On? && deed.id == id) && !(Saves(rules, x, deed) && NewId(x) == id) {
      OtherDeed(rules, x, deed, id);
    }
  }

  lemma LookupKept(rules: Rules, x: Site, deed: Deed, name: string, version: string)
    requires !deed.Restart? && Lookup(x.table, name, version).Some?
    ensures Lookup(Next(rules, x, deed).table, name, version) == Lookup(x.table, name, version)
  {
    if deed.Enroll? {
      var def := Normalized(deed.raw, rules.fp);
      FirstAcceptedForever(x.table, [def], name, version);
      assert AfterSaves(x.table, [def]) == Saved(x.table, def);
    }
  }

  /** Within one process the registry never changes what it holds, so every call finds the definition the instance was
      begun with. */
  lemma {:induction false} OneRegistryIsLoyal(rules: Rules, x: Site, deeds: seq<Deed>, id: string,
                                              home: Option<Definition>)
    requires Keyed(x.store) && Proper(x.table) && AtHome(x, id, home) && OneProcess(deeds)
    requires home.Some? ==> Lookup(x.table, home.value.name, home.value.version) == home
    ensures Loyal(rules, x, deeds, id, home)
    decreases |deeds|
  {
    if deeds != [] {
      var deed := deeds[0];
      assert deed in deeds && forall e | e in deeds[1..] :: e in deeds;
      AtHomeKept(rules, x, deed, id, home);
      if home.Some? {
        LookupKept(rules, x, deed, home.value.name, home.value.version);
      }
      if Saves(rules, x, deed) && NewId(x) == id {
        assert Next(rules, x, deed).table == x.table;
      }
      OneRegistryIsLoyal(rules, Next(rules, x, deed), deeds[1..], id, HomeAfter(rules, x, deed, id, home));
    }
  }

  /** One process whose counter is past the stored ids, over an empty store for one: whatever is registered, begun,
      called, cut short, recovered or lost, every instance it begins keeps its promises. */
  lemma OneProcessKeepsPromises(rules: Rules, x: Site, deeds: seq<Deed>, id: string, t: seq<Effect>)
    returns (def: Definition, input: Value, k: nat)
    requires Ahead(x) && Keyed(x.store) && Proper(x.table) && OneProcess(deeds)
    requires id !in x.store && t == Restrict(Journal(rules, x, deeds), id)
    ensures Keeps(def, t) && (t != [] ==> BegunBy(rules, x, deeds, k, id, def, input))
    ensures NoSignals(deeds, id) || ParkFree(def) ==>
              forall q | 0 <= q < |t| && t[q].Write? :: Composed(def, input, t[q].inst)
  {
    AheadNeverReuses(rules, x, deeds, id);
    OneRegistryIsLoyal(rules, x, deeds, id, None);
    def, input, k := InstanceKeepsPromises(rules, x, deeds, id, t);
  }

  // ---------- Across restarts ----------

  /** Among the definitions known to the deployment, fingerprints are never empty and tell them apart. */
  ghost predicate Telling(known: seq<Definition>) {
    && (forall i | 0 <= i < |known| :: known[i].fingerprint != "")
    && (forall i, j | 0 <= i < j < |known| :: known[i].fingerprint == known[j].fingerprint ==> known[i] == known[j])
  }

  /** Only known definitions are registered. */
  ghost predicate AllKnown(table: Table, known: seq<Definition>) {
    forall n, v :: Lookup(table, n, v).Some? ==> Lookup(table, n, v).value in known
  }

  ghost predicate EnrollsKnown(rules: Rules, deeds: seq<Deed>, known: seq<Definition>) {
    forall deed | deed in deeds && deed.Enroll? :: Normalized(deed.raw, rules.fp) in known
  }

  /** The check that resume and signal make, and RunInstance does not, recognises exactly the definition the instance
      was begun with. */
  lemma BoundIffSameDefinition(known: seq<Definition>, found: Definition, home: Definition, d: Instance)
    requires Telling(known) && found in known && home in known && d.fingerprint == home.fingerprint
    ensures Bound(found, d) <==> found == home
  {
    var i :| 0 <= i < |known| && known[i] == found;
    var j :| 0 <= j < |known| && known[j] == home;
  }

  /** The replays of queued starts find the definition the instance is bound to, if any valid one. */
  ghost predicate ReplaysBound(rules: Rules, x: Site, deeds: seq<Deed>, id: string)
    decreases |deeds|
  {
    deeds == []
      || (ReplayBound(rules, x, deeds[0], id) && ReplaysBound(rules, Next(rules, x, deeds[0]), deeds[1..], id))
  }

  ghost predicate ReplayBound(rules: Rules, x: Site, deed: Deed, id: string) {
    deed.On? && deed.id == id && id in x.store && deed.action.RunInstance? ==>
      var found := Found(x, deed);
      StartRefusal(found, rules.fp, deed.action.leaseFree).Some? || Bound(found.value, x.store[id])
  }

  lemma KnownKept(rules: Rules, x: Site, deed: Deed, known: seq<Definition>)
    requires AllKnown(x.table, known) && (deed.Enroll? ==> Normalized(deed.raw, rules.fp) in known)
    ensures AllKnown(Next(rules, x, deed).table, known)
  {
    var table' := Next(rules, x, deed).table;
    forall n, v | Lookup(table', n, v).Some? ensures Lookup(table', n, v).value in known {
      if deed.Enroll? {
        var def := Normalized(deed.raw, rules.fp);
        assert Lookup(table', n, v) == Lookup(x.table, n, v) || Lookup(table', n, v) == Some(def);
      }
    }
  }

  /** One call is true to the instance's definition exactly if it makes the fingerprint check or would pass it: resume
      and signal always are, a replay by RunInstance exactly if what it finds is bound. */
  lemma TrueToIff(rules: Rules, x: Site, deed: Deed, id: string, home: Definition, known: seq<Definition>)
    requires Telling(known) && AllKnown(x.table, known) && home in known
    requires AtHome(x, id, Some(home)) && deed.On? && deed.id == id
    ensures TrueTo(rules, x, deed, id, Some(home)) <==> ReplayBound(rules, x, deed, id)
  {
    var found := Found(x, deed);
    if found.Some? {
      assert found.value in known;
      BoundIffSameDefinition(known, found.value, home, x.store[id]);
    }
  }

  lemma {:induction false} RestartsAreLoyal(rules: Rules, x: Site, deeds: seq<Deed>, id: string,
                                            home: Option<Definition>, known: seq<Definition>)
    requires Keyed(x.store) && Proper(x.table) && AtHome(x, id, home)
    requires Telling(known) && AllKnown(x.table, known) && (home.Some? ==> home.value in known)
    requires EnrollsKnown(rules, deeds, known) && ReplaysBound(rules, x, deeds, id)
    ensures Loyal(rules, x, deeds, id, home)
    decreases |deeds|
  {
    if deeds != [] {
      var deed := deeds[0];
      assert deed in deeds && forall e | e in deeds[1..] :: e in deeds;
      if deed.On? && deed.id == id && home.Some? {
        TrueToIff(rules, x, deed, id, home.value, known);
      }
      AtHomeKept(rules, x, deed, id, home);
      KnownKept(rules, x, deed, known);
      RestartsAreLoyal(rules, Next(rules, x, deed), deeds[1..], id, HomeAfter(rules, x, deed, id, home), known);
    }
  }

  const EMPTY_SITE := Site(map[], 0, map[])

  /** Any number of processes, one after another, each with its own registrations: every instance keeps its promises,
      if no later instance takes its id (over a store that only inserts, none can), fingerprints tell the definitions
      apart, and every replay by RunInstance finds a definition the instance is bound to. */
  lemma RestartsKeepPromises(rules: Rules, deeds: seq<Deed>, known: seq<Definition>, id: string, t: seq<Effect>)
    returns (def: Definition, input: Value, k: nat)
    requires t == Restrict(Journal(rules, EMPTY_SITE, deeds), id)
    requires Telling(known) && EnrollsKnown(rules, deeds, known) && ReplaysBound(rules, EMPTY_SITE, deeds, id)
    requires rules.insertOnly || NeverReuses(rules, EMPTY_SITE, deeds, id)
    ensures Keeps(def, t) && (t != [] ==> BegunBy(rules, EMPTY_SITE, deeds, k, id, def, input))
    ensures NoSignals(deeds, id) || ParkFree(def) ==>
              forall q | 0 <= q < |t| && t[q].Write? :: Composed(def, input, t[q].inst)
  {
    if rules.insertOnly {
      InsertOnlyNeverReuses(rules, EMPTY_SITE, deeds, id);
    }
    RestartsAreLoyal(rules, EMPTY_SITE, deeds, id, None, known);
    def, input, k := InstanceKeepsPromises(rules, EMPTY_SITE, deeds, id, t);
  }
}
