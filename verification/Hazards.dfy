/** Two things the engine does not check, with the exact conditions under which they do harm: that the id of a new
    instance is unused, and that the definition RunInstance finds is the one the instance was begun with. */
module Hazards {
  import opened Base
  import opened Workflow
  import opened Execution
  import opened EngineRuns
  import opened Registry
  import opened Engine
  import opened Deployment
  import opened Lifetimes
  import opened Progress

  // ---------- The id of a new instance ----------

  /** Every stored instance is still there, as it was. */
  predicate Intact(store: map<string, Instance>, store': map<string, Instance>) {
    forall id | id in store :: id in store' && store'[id] == store[id]
  }

  /** What Run does once it has drawn an id. */
  function RunTrace(def: Definition, id: string, input: Value, env: Environment): seq<Effect> {
    var born := Created(def, id, input, Running);
    [Write(born)] + LaunchTrace(def, born, env)
  }

  lemma {:induction false} OthersUntouched(store: map<string, Instance>, trace: seq<Effect>, d: Instance)
    requires Only(trace, d) && d.id !in store
    ensures Intact(store, StoreAfter(store, trace))
    decreases |trace|
  {
    if trace != [] {
      OthersUntouched(store, trace[..|trace| - 1], d);
    }
  }

  /** Run leaves every stored instance as it was, at every moment of the call, exactly if the id it draws is unused. */
  lemma RunKeepsStoredIff(store: map<string, Instance>, nextID: nat, def: Definition, input: Value, env: Environment)
    ensures var id := InstanceId(nextID + 1);
            var t := RunTrace(def, id, input, env);
            (forall cut | 0 <= cut <= |t| :: Intact(store, StoreAfter(store, t[..cut]))) <==> id !in store
  {
    var id := InstanceId(nextID + 1);
    var born, t := Created(def, id, input, Running), RunTrace(def, id, input, env);
    ExecOnly(def, born, 0, input, env, 0);
    assert Only(t, born);
    if id !in store {
      forall cut | 0 <= cut <= |t| ensures Intact(store, StoreAfter(store, t[..cut])) {
        OthersUntouched(store, t[..cut], born);
      }
    } else {
      ReuseTouches(store, def, born, env);
    }
  }

  /** The stored instance cannot be what the new one is at first and what it is in the end. */
  lemma ReuseTouches(store: map<string, Instance>, def: Definition, born: Instance, env: Environment)
    requires born.id in store && born.status.Running?
    ensures var t := [Write(born)] + LaunchTrace(def, born, env);
            !Intact(store, StoreAfter(store, t[..1])) || !Intact(store, StoreAfter(store, t[..|t|]))
  {
    var t := [Write(born)] + LaunchTrace(def, born, env);
    assert StoreAfter(store, t[..1]) == store[born.id := born] by {
      assert t[..1] == [] + [Write(born)];
      StoreAfterOne(store, [], Write(born));
    }
    assert t[..|t|] == [] + t;
    LaunchedStore(store, [], def, born, env);
  }

  /** Whenever a process reuses the id of a stored instance, that instance's results are dropped with the first write
      and its first step is called again, whatever had been recorded. */
  lemma ReuseCallsAgain(rules: Rules, x: Site, deed: Deed)
    requires Reuses(rules, x, deed, NewId(x)) && Found(x, deed).value.steps != []
    requires deed.birth.ByRun? && !deed.birth.env(0).cancelled && deed.birth.cut >= 5
    ensures var t := Trace(rules, x, deed);
            && |t| > 5 && t[0].Write? && t[0].inst.id == NewId(x) && t[0].inst.stepResults == map[]
            && t[5] == Call(0, deed.input)
  {
    var def := Found(x, deed).value;
    var born := Newborn(def, NewId(x), deed.input, deed.birth);
    UncachedCallsIff(def, born, 0, deed.input, deed.birth.env, 0);
    var launch := LaunchTrace(def, born, deed.birth.env);
    assert launch[4] == Call(0, deed.input);
    assert FirstEffects(def, NewId(x), deed.input, deed.birth)[4] == Call(0, deed.input);
  }

  // ---------- Histories from the empty store ----------

  const STEP := StepDefinition("a", Remote((x: Value) => x), None)
  const SHORT := Definition("flow", "v1", "", [STEP])
  const LONG := Definition("flow", "v1", "", [STEP, STEP])
  const WORKS: Environment := _ => Attempt(false, Works, false)

  /** A fingerprint that tells the two definitions apart. */
  function Print(def: Definition): string { if |def.steps| == 1 then "short" else "long" }

  function Printed(def: Definition): Definition { def.(fingerprint := Print(def)) }

  /** A run of the workflow that nothing cuts short. */
  function Whole(def: Definition): Birth {
    ByRun(WORKS, |LaunchTrace(def, Created(def, "wf-1", Nil, Running), WORKS)|)
  }

  /** The first instance of a process over an empty store, run to its end. */
  lemma FirstRun(rules: Rules, x: Site, def: Definition) returns (end: Instance)
    requires x.store == map[] && x.nextID == 0 && Lookup(x.table, def.name, def.version) == Some(def) && def.steps != []
    requires CallsOutOnly(def)
    ensures Next(rules, x, Begin(def.name, def.version, Nil, Whole(def))) == Site(map["wf-1" := end], 1, x.table)
    ensures end.status.Completed? && Checkpoint(def, end) && OfDefinition(end, def)
  {
    var birth, deed := Whole(def), Begin(def.name, def.version, Nil, Whole(def));
    assert NewId(x) == "wf-1";
    var born := Newborn(def, "wf-1", Nil, birth);
    end := After(born, LaunchTrace(def, born, WORKS));
    assert FirstEffects(def, "wf-1", Nil, birth) == LaunchTrace(def, born, WORKS);
    BirthOf(rules, x, deed);
    assert Next(rules, x, deed).store == map["wf-1" := end];
    LaunchEnds(def, born, WORKS);
    WorkingRunCompletes(def, born, 0, Nil, WORKS, 0);
    FirstEffectsSound(def, "wf-1", Nil, birth);
    AfterSame(born, LaunchTrace(def, born, WORKS), born);
  }

  lemma EnrolledFirst(rules: Rules, x: Site, raw: Definition)
    requires rules.fp == Print && x.table == map[] && raw in [SHORT, LONG]
    ensures Next(rules, x, Enroll(raw)) == x.(table := map["flow" := map["v1" := Printed(raw)]])
  {
    assert AfterSaves(x.table, []) == x.table;
  }

  /** One process registers `a` and runs it to its end; the next registers `b` under the same name and version. */
  function TwoProcesses(a: Definition, b: Definition): seq<Deed> {
    [Enroll(a), Begin("flow", "v1", Nil, Whole(Printed(a))), Restart, Enroll(b)]
  }

  lemma SecondProcess(rules: Rules, a: Definition, b: Definition) returns (y: Site, end: Instance)
    requires rules.fp == Print && a in [SHORT, LONG] && b in [SHORT, LONG]
    ensures y == SiteAfter(rules, EMPTY_SITE, TwoProcesses(a, b))
    ensures y == Site(map["wf-1" := end], 0, map["flow" := map["v1" := Printed(b)]])
    ensures end.status.Completed? && Checkpoint(Printed(a), end) && OfDefinition(end, Printed(a))
  {
    var begin := Begin("flow", "v1", Nil, Whole(Printed(a)));
    EnrolledFirst(rules, EMPTY_SITE, a);
    var x1 := Next(rules, EMPTY_SITE, Enroll(a));
    end := FirstRun(rules, x1, Printed(a));
    var x2 := Next(rules, x1, begin);
    var x3 := Next(rules, x2, Restart);
    EnrolledFirst(rules, x3, b);
    y := Next(rules, x3, Enroll(b));
    FourDeeds(rules, EMPTY_SITE, Enroll(a), begin, Restart, Enroll(b));
  }

  lemma FourDeeds(rules: Rules, x: Site, a: Deed, b: Deed, c: Deed, d: Deed)
    ensures SiteAfter(rules, x, [a, b, c, d]) == Next(rules, Next(rules, Next(rules, Next(rules, x, a), b), c), d)
  {
    assert [a, b, c, d][1..] == [b, c, d] && [b, c, d][1..] == [c, d] && [c, d][1..] == [d] && [d][1..] == [];
    var x2 := Next(rules, Next(rules, x, a), b);
    assert SiteAfter(rules, x, [a, b, c, d]) == SiteAfter(rules, Next(rules, x, a), [b, c, d]);
    assert SiteAfter(rules, Next(rules, x, a), [b, c, d]) == SiteAfter(rules, x2, [c, d]);
    assert SiteAfter(rules, x2, [c, d]) == SiteAfter(rules, Next(rules, x2, c), [d]);
    assert SiteAfter(rules, Next(rules, x2, c), [d]) == SiteAfter(rules, Next(rules, Next(rules, x2, c), d), []);
  }

  /** From the empty store, over a store that overwrites: a workflow is registered and run, the process restarts and
      registers it again. The next Run is "wf-1" again: it drops the stored result and calls the step again. */
  lemma RestartReusesId() returns (rules: Rules, y: Site, again: Deed, t: seq<Effect>)
    ensures rules == Rules(Print, false) && y == SiteAfter(rules, EMPTY_SITE, TwoProcesses(SHORT, SHORT))
    ensures "wf-1" in y.store && y.store["wf-1"].status.Completed? && 0 in y.store["wf-1"].stepResults
    ensures again == Begin("flow", "v1", Nil, Whole(Printed(SHORT))) && Subject(y, again) == "wf-1"
    ensures t == Trace(rules, y, again) && |t| > 5
    ensures t[0].Write? && t[0].inst.id == "wf-1" && t[0].inst.stepResults == map[] && t[5] == Call(0, Nil)
  {
    rules := Rules(Print, false);
    var end;
    y, end := SecondProcess(rules, SHORT, SHORT);
    again := Begin("flow", "v1", Nil, Whole(Printed(SHORT)));
    t := Trace(rules, y, again);
    assert NewId(y) == "wf-1" && Found(y, again) == Some(Printed(SHORT));
    LongEnough(Printed(SHORT));
    ReuseCallsAgain(rules, y, again);
  }

  lemma LongEnough(def: Definition)
    requires def.steps != []
    ensures Whole(def).cut >= 5
  {
    UncachedCallsIff(def, Created(def, "wf-1", Nil, Running), 0, Nil, WORKS, 0);
  }

  // ---------- The definition of a replay ----------

  /** A replay by RunInstance writes only checkpoints of the definition it found exactly if that has at least as many
      steps as the instance has results; nothing checks it. */
  lemma ReplaySoundIff(def: Definition, d: Instance, env: Environment)
    requires Prefix(d.stepResults) && def.steps != []
    ensures var t := RestartTrace(def, d, WorkflowStarted, env);
            (forall q | 0 <= q < |t| && t[q].Write? :: Checkpoint(def, t[q].inst)) <==> |d.stepResults| <= |def.steps|
  {
    var t, again := RestartTrace(def, d, WorkflowStarted, env), Restarted(d);
    var rest := ExecFrom(def, again, 0, d.input, env, 0).trace;
    assert t[0] == Write(again) && t[1] == Emit(WorkflowStarted, -1);
    if |d.stepResults| <= |def.steps| {
      ExecSound(def, again, again, 0, d.input, env, 0, -1);
      forall q | 0 <= q < |t| && t[q].Write? ensures Checkpoint(def, t[q].inst) {
        if q > 0 {
          assert t[q] == rest[q - 2] && rest[q - 2..][0] == rest[q - 2];
          SoundAt(def, again, -1, rest, q - 2);
        }
      }
    }
  }

  /** A call of RunInstance calls only steps of a definition the instance is bound to exactly if it is refused, or the
      definition it found is bound, or there is no step left to call, or the context is done. */
  lemma ReplayCallsBoundIff(def: Definition, d: Instance, registered: bool, valid: bool, leaseFree: bool,
                            env: Environment)
    requires Prefix(d.stepResults)
    ensures (HasCall(Effects(def, d, Action.RunInstance(registered, valid, leaseFree, env))) ==> Bound(def, d))
            <==> !registered || !valid || !leaseFree
                 || Bound(def, d) || |d.stepResults| >= |def.steps| || env(0).cancelled
  {
    var again := Restarted(d);
    ExecCallsIff(def, again, 0, d.input, env, 0);
    HasCallConcat([Write(again)] + [Emit(WorkflowStarted, -1)], ExecFrom(def, again, 0, d.input, env, 0).trace);
  }

  /** A redelivered start task for the stored instance, undisturbed. */
  function Redelivery(def: Definition, d: Instance): Deed {
    On("wf-1", Action.RunInstance(true, true, true, WORKS), |RestartTrace(def, d, WorkflowStarted, WORKS)|)
  }

  lemma ReplayExceeds(def: Definition, d: Instance, env: Environment)
    requires |def.steps| == 1 && Prefix(d.stepResults) && |d.stepResults| == 2
    ensures var end := After(d, RestartTrace(def, d, WorkflowStarted, env));
            end.status.Completed? && end.stepResults == d.stepResults
  {
    var again := Restarted(d);
    RestartEnds(def, d, WorkflowStarted, env);
    assert 0 in d.stepResults;
    var skipped := again.(currentStep := 1);
    assert ExecFrom(def, again, 0, d.input, env, 0).inst == ExecFrom(def, skipped, 1, d.stepResults[0], env, 0).inst;
  }

  /** From the empty store: an instance is run to its end under two steps, the process restarts and another definition
      with one step is registered under the same name and version; fingerprints tell the two apart and both are valid.
      The instance is not bound to the new definition, its start task is redelivered, and it ends COMPLETED with more
      results than the definition has steps. */
  lemma ReplayUnderShorterDefinition(insertOnly: bool) returns (rules: Rules, y: Site, deed: Deed, end: Instance)
    ensures rules == Rules(Print, insertOnly) && y == SiteAfter(rules, EMPTY_SITE, TwoProcesses(LONG, SHORT))
    ensures deed.On? && deed.id == "wf-1" && deed.action.RunInstance? && "wf-1" in y.store
    ensures Found(y, deed) == Some(Printed(SHORT)) && FingerprintValid(Printed(SHORT), Print)
    ensures Checkpoint(Printed(LONG), y.store["wf-1"]) && !Bound(Printed(SHORT), y.store["wf-1"])
    ensures Next(rules, y, deed).store == map["wf-1" := end] && end.status.Completed?
    ensures |end.stepResults| == 2 > |SHORT.steps| && !Checkpoint(Printed(SHORT), end)
  {
    rules := Rules(Print, insertOnly);
    var d;
    y, d := SecondProcess(rules, LONG, SHORT);
    deed := Redelivery(Printed(SHORT), d);
    ReplayExceeds(Printed(SHORT), d, WORKS);
    end := After(d, RestartTrace(Printed(SHORT), d, WorkflowStarted, WORKS));
    assert Found(y, deed) == Some(Printed(SHORT));
    assert Trace(rules, y, deed) == RestartTrace(Printed(SHORT), d, WorkflowStarted, WORKS);
  }

  /** The other way round: completed under one step, redelivered under two, the instance has a step called of the
      definition it is not bound to. */
  lemma ReplayCallsUnbound(insertOnly: bool) returns (rules: Rules, y: Site, deed: Deed)
    ensures rules == Rules(Print, insertOnly) && y == SiteAfter(rules, EMPTY_SITE, TwoProcesses(SHORT, LONG))
    ensures deed.On? && deed.id == "wf-1" && deed.action.RunInstance? && "wf-1" in y.store
    ensures Found(y, deed) == Some(Printed(LONG)) && FingerprintValid(Printed(LONG), Print)
    ensures !Bound(Printed(LONG), y.store["wf-1"]) && HasCall(Trace(rules, y, deed))
  {
    rules := Rules(Print, insertOnly);
    var d;
    y, d := SecondProcess(rules, SHORT, LONG);
    deed := Redelivery(Printed(LONG), d);
    assert Found(y, deed) == Some(Printed(LONG));
    ReplayCallsBoundIff(Printed(LONG), d, true, true, true, WORKS);
    assert Trace(rules, y, deed) == RestartTrace(Printed(LONG), d, WorkflowStarted, WORKS);
  }
}
