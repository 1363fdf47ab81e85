/** Start tasks, from the queue through the worker to the engine: what it means that a worker is done with one. */
module Delivery {
  import opened Base
  import opened Workflow
  import opened Execution
  import opened EngineRuns
  import opened Registry
  import opened Engine
  import opened Idempotence
  import opened Deployment
  import opened Lifetimes
  import W = Worker
  import Queue = MemoryQueue

  /** A well-typed task to start the stored instance `id`. */
  predicate StartTask(task: Task, id: string) {
    task.job.kind.StartWorkflow? && task.job.payload.Start? && task.job.instanceId == id
  }

  /** The engine call a start task leads to, not cut short. */
  ghost predicate Handles(rules: Rules, x: Site, deed: Deed, id: string) {
    && deed.On? && deed.id == id && deed.action.RunInstance? && id in x.store
    && |Effects(OrNothing(Found(x, deed)), x.store[id], Informed(rules, Found(x, deed), deed.action))| <= deed.cut
  }

  /** RunInstance returns the stored instance, with an error if it was refused or did not complete. */
  ghost predicate Answers(rules: Rules, x: Site, deed: Deed, reply: W.Reply)
    requires deed.On? && deed.action.RunInstance? && deed.id in Next(rules, x, deed).store
  {
    var refusal := StartRefusal(Found(x, deed), rules.fp, deed.action.leaseFree);
    var error := if refusal.Some? then refusal else Told(Next(rules, x, deed).store[deed.id]);
    reply.instance == Some(deed.id) && (reply.error.Some? <==> error.Some?)
  }

  /** The worker acks the task and reports no error. */
  predicate CleanlyAcked(cfg: W.Config, task: Task, reply: W.Reply) {
    W.Decide(cfg, task, reply) == W.Finish && W.Report(cfg, task, reply) == None
  }

  /** A start task is acked without an error exactly if the engine took the call and the instance is COMPLETED. */
  lemma CleanAckIff(cfg: W.Config, rules: Rules, x: Site, deed: Deed, id: string, task: Task, reply: W.Reply)
    requires Handles(rules, x, deed, id) && Answers(rules, x, deed, reply) && StartTask(task, id)
    ensures CleanlyAcked(cfg, task, reply)
            <==> StartRefusal(Found(x, deed), rules.fp, deed.action.leaseFree).None?
                 && Next(rules, x, deed).store[id].status.Completed?
  {
    var found, d := Found(x, deed), x.store[id];
    assert CleanlyAcked(cfg, task, reply) <==> reply.error.None?;
    if StartRefusal(found, rules.fp, deed.action.leaseFree).None? {
      RestartEnds(found.value, d, WorkflowStarted, deed.action.env);
      assert Trace(rules, x, deed) == RestartTrace(found.value, d, WorkflowStarted, deed.action.env);
    }
  }

  /** A turn of the worker on the in-memory queue with such a task: the task leaves the queue if it is cleanly acked. */
  lemma CleanlyAckedLeaves(cfg: W.Config, s: Queue.State, now: int, expiry: int, order: seq<TaskId>, later: int,
                           engine: Task -> W.Reply, t: Task)
    requires Queue.Valid(s) && Queue.SweepOrder(s, now, order)
    requires Queue.Dequeued(s, now, cfg.workerID, expiry, order).1 == Some(t) && CleanlyAcked(cfg, t, engine(t))
    ensures t.id in Queue.BagOf(s) && t.id !in Queue.BagOf(W.Turn(cfg, s, now, expiry, order, later, engine))
  {
    var r := Queue.Dequeued(s, now, cfg.workerID, expiry, order);
    Queue.DequeueRefines(s, now, cfg.workerID, expiry, order);
    Queue.AckRefines(r.0, t.id, cfg.workerID);
    Queue.HeldAlike(r.0, t.id, cfg.workerID);
  }

  // ---------- Redelivery after that ----------

  /** The instance is stored exactly if it has a home, and then is a checkpoint of it. */
  ghost predicate Settled(x: Site, id: string, home: Option<Definition>) {
    && (id in x.store <==> home.Some?)
    && (home.Some? ==> home.value.steps != [] && Checkpoint(home.value, x.store[id]))
  }

  lemma SettledKept(rules: Rules, x: Site, deed: Deed, id: string, home: Option<Definition>)
    requires Settled(x, id, home) && Proper(x.table) && TrueTo(rules, x, deed, id, home)
    ensures Settled(Next(rules, x, deed), id, HomeAfter(rules, x, deed, id, home))
  {
    if Saves(rules, x, deed) && NewId(x) == id {
      BirthOf(rules, x, deed);
      FirstEffectsSound(Found(x, deed).value, id, deed.input, deed.birth);
    } else if deed.On? && deed.id == id && home.Some? {
      var def, d := home.value, x.store[id];
      var action := Localized(rules, Found(x, deed), def, deed.action);
      SameEffects(rules, x, deed, def);
      ActionSound(def, d, -1, action);
      CutSound(def, d, -1, Effects(def, d, action), deed.cut);
      SoundKeepsSteady(def, d, -1, Trace(rules, x, deed));
    } else if !(deed.On? && deed.id == id) {
      OtherDeed(rules, x, deed, id);
    }
  }

  /** What holds of a history holds of its continuation from any point. */
  lemma {:induction false} ContinueFrom(rules: Rules, x: Site, a: seq<Deed>, b: seq<Deed>, id: string,
                                        home: Option<Definition>) returns (home': Option<Definition>)
    requires Settled(x, id, home) && Proper(x.table)
    requires NeverReuses(rules, x, a + b, id) && Loyal(rules, x, a + b, id, home)
    ensures var y := SiteAfter(rules, x, a);
            && Settled(y, id, home') && Proper(y.table) && NeverReuses(rules, y, b, id) && Loyal(rules, y, b, id, home')
    decreases |a|
  {
    home' := home;
    if a == [] {
      assert a + b == b;
    } else {
      assert (a + b)[0] == a[0] && (a + b)[1..] == a[1..] + b;
      SettledKept(rules, x, a[0], id, home);
      ProperKept(rules, x, a[0]);
      home' := ContinueFrom(rules, Next(rules, x, a[0]), a[1..], b, id, HomeAfter(rules, x, a[0], id, home));
    }
  }

  /** A start task that a worker has cleanly acked may come back as often as leases lapse and crashes leave it in the
      queue: from the ack on no step of the instance is called any more, and every write keeps its results, its input
      and its identity. */
  lemma AckedStartStaysDone(cfg: W.Config, rules: Rules, x: Site, before: seq<Deed>, deed: Deed, after: seq<Deed>,
                            id: string, task: Task, reply: W.Reply, y: Site, z: Site, t: seq<Effect>)
    requires id !in x.store && Proper(x.table)
    requires NeverReuses(rules, x, before + ([deed] + after), id)
    requires Loyal(rules, x, before + ([deed] + after), id, None)
    requires y == SiteAfter(rules, x, before) && z == Next(rules, y, deed) && OnlyReplays(after, id)
    requires Handles(rules, y, deed, id) && Answers(rules, y, deed, reply) && StartTask(task, id)
    requires CleanlyAcked(cfg, task, reply) && t == Restrict(Journal(rules, z, after), id)
    ensures z.store[id].status.Completed?
    ensures (forall q | 0 <= q < |t| :: !t[q].Call?) && AllSameWork(t, z.store[id])
  {
    CleanAckIff(cfg, rules, y, deed, id, task, reply);
    var home := ContinueFrom(rules, x, before, [deed] + after, id, None);
    assert ([deed] + after)[0] == deed && ([deed] + after)[1..] == after;
    SettledKept(rules, y, deed, id, home);
    var home' := HomeAfter(rules, y, deed, id, home);
    var episodes := RestOfLife(rules, z, after, id, home'.value);
    RedeliveriesCallNothing(home'.value, z.store[id], z.store[id], -1, episodes);
  }
}
