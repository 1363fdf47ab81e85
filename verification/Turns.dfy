/** What one turn of a worker does to the in-memory queue, for each way the engine's call can go. */
module Turns {
  import opened Base
  import opened LeaseQueue
  import opened MemoryOrder
  import opened Drain
  import Queue = MemoryQueue
  import W = Worker

  /** The bag before and after a turn that takes t, at `now`, with the engine answering `reply`, recorded at `later`. */
  ghost predicate TakesInTurn(cfg: W.Config, s: Queue.State, now: int, expiry: int, order: seq<TaskId>, later: int,
                              engine: Task -> W.Reply, t: Task, reply: W.Reply, b: Bag, b': Bag) {
    && Queue.Valid(s) && AutoNamed(s) && Queue.SweepOrder(s, now, order)
    && Queue.Dequeued(s, now, cfg.workerID, expiry, order).1 == Some(t) && engine(t) == reply
    && b == Queue.BagOf(s) && b' == Queue.BagOf(W.Turn(cfg, s, now, expiry, order, later, engine))
  }

  /** The other tasks are as they were, but for leases that have run out. */
  ghost predicate OthersKept(b: Bag, id: TaskId, b': Bag, now: int) {
    forall x | x in b && x != id :: x in b' && MayLapse(b[x], b'[x], now)
  }

  ghost predicate Removed(b: Bag, id: TaskId, b': Bag, now: int) {
    id in b && b'.Keys == b.Keys - {id} && OthersKept(b, id, b', now)
  }

  ghost predicate Replaced(b: Bag, id: TaskId, e: Entry, b': Bag, now: int) {
    id in b && b'.Keys == b.Keys && b'[id] == e && OthersKept(b, id, b', now)
  }

  /** The two halves of the turn: the claim, and the settlement of a task that is held. */
  lemma Halves(cfg: W.Config, s: Queue.State, now: int, expiry: int, order: seq<TaskId>, later: int,
               engine: Task -> W.Reply, t: Task, reply: W.Reply, b: Bag, b': Bag) returns (s1: Queue.State)
    requires TakesInTurn(cfg, s, now, expiry, order, later, engine, t, reply, b, b')
    ensures Queue.Valid(s1) && AutoNamed(s1) && Queue.Holds(s1, t.id, cfg.workerID)
    ensures HeldBy(Queue.BagOf(s1), t.id, cfg.workerID) && t.id in b && b[t.id].task == t
    ensures Replaced(b, t.id, b[t.id].(holder := Some(Holder(cfg.workerID, expiry))), Queue.BagOf(s1), now)
    ensures b' == Queue.BagOf(W.Settled(cfg, s1, t, W.Decide(cfg, t, reply), later))
  {
    s1 := Queue.Dequeued(s, now, cfg.workerID, expiry, order).0;
    TakeStep(s, now, cfg.workerID, expiry, order);
    Queue.HeldAlike(s1, t.id, cfg.workerID);
  }

  lemma AckAfterClaim(b: Bag, b1: Bag, b': Bag, id: TaskId, e: Entry, owner: string, now: int)
    requires Replaced(b, id, e, b1, now) && HeldBy(b1, id, owner) && Next(b1, Op.Ack(id, owner), b')
    ensures Removed(b, id, b', now)
  {
  }

  lemma NackAfterClaim(b: Bag, b1: Bag, b': Bag, id: TaskId, e: Entry, owner: string, now: int, due: When,
                       attempts: int)
    requires Replaced(b, id, e, b1, now) && HeldBy(b1, id, owner)
             && Next(b1, Op.Nack(id, owner, due, due, attempts), b')
    ensures Replaced(b, id, Entry(e.task.(notBefore := due, attempts := attempts), due, None), b', now)
  {
  }

  lemma ArmAfterClaim(b: Bag, b1: Bag, mid: Bag, b': Bag, id: TaskId, e: Entry, owner: string, now: int, armed: TaskId,
                      timeout: Entry)
    requires Replaced(b, id, e, b1, now) && HeldBy(b1, id, owner) && armed !in b1 && mid == b1[armed := timeout]
    requires Next(mid, Op.Ack(id, owner), b')
    ensures armed !in b && b'.Keys == b.Keys - {id} + {armed} && b'[armed] == timeout && OthersKept(b, id, b', now)
  {
  }

  /** A turn that finishes the task takes it from the queue. */
  lemma FinishedTaskLeaves(cfg: W.Config, s: Queue.State, now: int, expiry: int, order: seq<TaskId>, later: int,
                           engine: Task -> W.Reply, t: Task, reply: W.Reply, b: Bag, b': Bag)
    requires TakesInTurn(cfg, s, now, expiry, order, later, engine, t, reply, b, b')
    requires W.Decide(cfg, t, reply) == W.Finish
    ensures Removed(b, t.id, b', now)
  {
    var s1 := Halves(cfg, s, now, expiry, order, later, engine, t, reply, b, b');
    AckStep(s1, t.id, cfg.workerID);
    AckAfterClaim(b, Queue.BagOf(s1), b', t.id, b[t.id].(holder := Some(Holder(cfg.workerID, expiry))), cfg.workerID,
                  now);
  }

  /** Success, whatever the task: it is done with. So is a timeout, a task of unknown type, whatever the engine says. */
  lemma DoneTaskLeaves(cfg: W.Config, s: Queue.State, now: int, expiry: int, order: seq<TaskId>, later: int,
                       engine: Task -> W.Reply, t: Task, reply: W.Reply, b: Bag, b': Bag)
    requires TakesInTurn(cfg, s, now, expiry, order, later, engine, t, reply, b, b')
    requires t.job.kind.StartWorkflow? ==> t.job.payload.Start?
    requires reply.error.None? || t.job.kind.Unknown? || (t.job.kind.SignalTask? && t.job.payload.Timeout?)
    ensures Removed(b, t.id, b', now)
  {
    FinishedTaskLeaves(cfg, s, now, expiry, order, later, engine, t, reply, b, b');
  }

  /** The engine fails a task that is neither a timeout nor a wait for which a timeout is armed. */
  predicate Failing(cfg: W.Config, t: Task, reply: W.Reply) {
    && reply.error.Some?
    && match t.job.kind
       case StartWorkflow =>
         t.job.payload.Start?
         && (reply.error.value.OtherError? || reply.instance.None? || cfg.defaultSignalTimeout <= 0)
       case SignalTask => !t.job.payload.Timeout?
       case Resume => true
       case Unknown(_) => false
  }

  lemma FailingDecides(cfg: W.Config, t: Task, reply: W.Reply)
    requires Failing(cfg, t, reply)
    ensures W.Decide(cfg, t, reply) == if t.attempts + 1 < cfg.maxAttempts then W.Retry else W.Finish
  {
  }

  /** A failing task with attempts left is back in the queue, unleased, with one more attempt to its name, due after the
      configured backoff. */
  lemma FailedTaskComesBack(cfg: W.Config, s: Queue.State, now: int, expiry: int, order: seq<TaskId>, later: int,
                            engine: Task -> W.Reply, t: Task, reply: W.Reply, b: Bag, b': Bag)
    requires TakesInTurn(cfg, s, now, expiry, order, later, engine, t, reply, b, b')
    requires Failing(cfg, t, reply) && t.attempts + 1 < cfg.maxAttempts
    ensures var due := At(later + Max(cfg.backoff, 0));
            Replaced(b, t.id, Entry(t.(notBefore := due, attempts := t.attempts + 1), due, None), b', now)
  {
    assert W.Decide(cfg, t, reply) == W.Retry by {
      FailingDecides(cfg, t, reply);
    }
    var s1 := Halves(cfg, s, now, expiry, order, later, engine, t, reply, b, b');
    var due := At(later + Max(cfg.backoff, 0));
    RetryIsNack(cfg, s1, t, later, due);
    NackAfterClaim(b, Queue.BagOf(s1), b', t.id, b[t.id].(holder := Some(Holder(cfg.workerID, expiry))), cfg.workerID,
                   now,
                   due, t.attempts + 1);
  }

  lemma RetryIsNack(cfg: W.Config, s1: Queue.State, t: Task, later: int, due: When)
    requires Queue.Valid(s1) && AutoNamed(s1) && Queue.Holds(s1, t.id, cfg.workerID)
    requires due == At(later + Max(cfg.backoff, 0))
    ensures Next(Queue.BagOf(s1), Op.Nack(t.id, cfg.workerID, due, due, t.attempts + 1),
                 Queue.BagOf(W.Settled(cfg, s1, t, W.Retry, later)))
  {
    assert W.Settled(cfg, s1, t, W.Retry, later) == Queue.Nacked(s1, t.id, cfg.workerID, due, t.attempts + 1);
    NackStep(s1, t.id, cfg.workerID, due, t.attempts + 1);
  }

  /** A failing task without attempts left is given up. */
  lemma FailedTaskGivenUp(cfg: W.Config, s: Queue.State, now: int, expiry: int, order: seq<TaskId>, later: int,
                          engine: Task -> W.Reply, t: Task, reply: W.Reply, b: Bag, b': Bag)
    requires TakesInTurn(cfg, s, now, expiry, order, later, engine, t, reply, b, b')
    requires Failing(cfg, t, reply) && t.attempts + 1 >= cfg.maxAttempts
    ensures Removed(b, t.id, b', now)
  {
    FinishedTaskLeaves(cfg, s, now, expiry, order, later, engine, t, reply, b, b');
  }

  /** A start task with a payload of the wrong type stays leased to the worker that walked away from it. */
  lemma BadPayloadStaysLeased(cfg: W.Config, s: Queue.State, now: int, expiry: int, order: seq<TaskId>, later: int,
                              engine: Task -> W.Reply, t: Task, reply: W.Reply, b: Bag, b': Bag)
    requires TakesInTurn(cfg, s, now, expiry, order, later, engine, t, reply, b, b')
    requires t.job.kind.StartWorkflow? && !t.job.payload.Start?
    ensures t.id in b && Replaced(b, t.id, b[t.id].(holder := Some(Holder(cfg.workerID, expiry))), b', now)
  {
    var s1 := Halves(cfg, s, now, expiry, order, later, engine, t, reply, b, b');
  }

  /** The worker reports an error exactly if the payload is bad, the type unknown, or the task given up as failed. */
  lemma ReportsIff(cfg: W.Config, t: Task, reply: W.Reply)
    ensures W.Report(cfg, t, reply).Some?
            <==> || t.job.kind.Unknown? || (t.job.kind.StartWorkflow? && !t.job.payload.Start?)
                 || (Failing(cfg, t, reply) && t.attempts + 1 >= cfg.maxAttempts)
    ensures Failing(cfg, t, reply) && t.attempts + 1 >= cfg.maxAttempts ==>
              W.Report(cfg, t, reply) == Some(W.EngineFailed(reply.error.value))
  {
  }

  // ---------- The armed timeout ----------

  /** The timeout a worker arms at `later` for an instance that waits for a signal. */
  ghost predicate IsTimeout(e: Entry, id: TaskId, instance: string, signal: string, due: int) {
    && e.due == At(due) && e.holder.None? && e.task.id == id && e.task.notBefore == At(due) && e.task.attempts == 0
    && e.task.job.kind.SignalTask? && e.task.job.instanceId == instance && e.task.job.signalName == signal
    && e.task.job.payload.Timeout?
  }

  /** A start task whose workflow comes to wait for a signal, with a default timeout configured: the task is gone, and
      exactly one new task is there, a timeout for that instance and signal, due when the timeout has passed. */
  lemma TimeoutArmed(cfg: W.Config, s: Queue.State, now: int, expiry: int, order: seq<TaskId>, later: int,
                     engine: Task -> W.Reply, t: Task, signal: string, instance: string, b: Bag, b': Bag)
    returns (id: TaskId)
    requires TakesInTurn(cfg, s, now, expiry, order, later, engine, t,
                         W.Reply(Some(instance), Some(W.WaitForSignal(signal))), b, b')
    requires t.job.kind.StartWorkflow? && t.job.payload.Start? && cfg.defaultSignalTimeout > 0
    ensures id !in b && t.id in b && b'.Keys == b.Keys - {t.id} + {id} && OthersKept(b, t.id, b', now)
    ensures IsTimeout(b'[id], id, instance, signal, later + cfg.defaultSignalTimeout)
  {
    var reply := W.Reply(Some(instance), Some(W.WaitForSignal(signal)));
    var s1 := Halves(cfg, s, now, expiry, order, later, engine, t, reply, b, b');
    id := ArmSettled(cfg, s1, t, later, signal, instance, b, b', b[t.id].(holder := Some(Holder(cfg.workerID, expiry))),
                     now);
  }

  lemma ArmSettled(cfg: W.Config, s1: Queue.State, t: Task, later: int, signal: string, instance: string, b: Bag,
                   b': Bag,
                   e: Entry, now: int) returns (id: TaskId)
    requires Queue.Valid(s1) && AutoNamed(s1) && HeldBy(Queue.BagOf(s1), t.id, cfg.workerID)
    requires Replaced(b, t.id, e, Queue.BagOf(s1), now)
    requires b' == Queue.BagOf(W.Settled(cfg, s1, t, W.FinishAndArm(signal, instance), later))
    ensures id !in b && b'.Keys == b.Keys - {t.id} + {id} && OthersKept(b, t.id, b', now)
    ensures IsTimeout(b'[id], id, instance, signal, later + cfg.defaultSignalTimeout)
  {
    var timeout := W.TimeoutTask(cfg, signal, instance, later);
    var named, me := Queue.Named(s1, timeout), cfg.workerID;
    id := named.id;
    var armed, b1 := Entry(named, timeout.notBefore, None), Queue.BagOf(s1);
    assert id !in b1 && Next(b1[id := armed], Op.Ack(t.id, me), b') by {
      ArmThenAck(s1, timeout, t.id, me);
    }
    ArmAfterClaim(b, b1, b1[id := armed], b', t.id, e, me, now, id, armed);
  }

  /** In whatever happens to the queue afterwards, no dequeue delivers the timeout before that instant, as long as no
      one who holds it gives it back. */
  lemma TimeoutNotEarly(bags: seq<Bag>, ops: seq<Op>, id: TaskId, instance: string, signal: string, due: int, n: nat)
    requires IsRun(bags, ops) && id in bags[0] && IsTimeout(bags[0][id], id, instance, signal, due) && n < |ops|
    requires ops[n].Dequeue? && ops[n].got == Some(id) && forall k | 0 <= k < n :: !Settles(bags[k], ops[k], id)
    ensures due <= ops[n].now && ops[n].delivered == Some(bags[0][id].task)
  {
    DueKept(bags, ops, id, 0, n);
    assert Next(bags[n], ops[n], bags[n + 1]);
  }

  // ---------- How often a task is tried ----------

  /** The queue with one waiting task and nothing else. */
  function OneWaiting(n: nat, t: Task): Queue.State { Queue.State(n, [t], map[]) }

  lemma LoneTaskTurn(cfg: W.Config, n: nat, t: Task, c: Call)
    requires Due(t.notBefore, c.now) && Failing(cfg, t, c.engine(t))
    ensures Queue.SweepOrder(OneWaiting(n, t), c.now, [])
    ensures var s' := W.Turn(cfg, OneWaiting(n, t), c.now, c.expiry, [], c.later, c.engine);
            if t.attempts + 1 < cfg.maxAttempts
            then s' == OneWaiting(n, t.(notBefore := W.RetryAt(cfg, c.later), attempts := t.attempts + 1))
            else s' == Queue.State(n, [], map[])
  {
    var s, me := OneWaiting(n, t), cfg.workerID;
    var held := W.OneLeased(n, t, me, c.expiry);
    assert Queue.Swept(s, []) == s;
    assert Queue.FirstRunnable([t], c.now) == 0;
    assert Queue.Claimed(s, 0, me, c.expiry) == held;
    assert Queue.Dequeued(s, c.now, me, c.expiry, []) == (held, Some(t));
    FailingDecides(cfg, t, c.engine(t));
    assert held.inflight - {t.id} == map[];
  }

  /** The engine fails every task with this job. */
  ghost predicate AlwaysFails(cfg: W.Config, job: Job, c: Call) {
    forall t: Task | t.job == job :: Failing(cfg, t, c.engine(t))
  }

  /** A task that always fails, alone in the queue, is tried exactly as often as the configuration says: after k
      turns, as long as attempts are left, it is there with k more attempts to its name; then it is gone. */
  lemma {:induction false} TriedExactly(cfg: W.Config, states: seq<Queue.State>, calls: seq<Call>, n: nat, t: Task,
                                        k: nat)
    requires IsDrain(cfg, states, calls) && states[0] == OneWaiting(n, t) && 0 <= t.attempts < cfg.maxAttempts
    requires forall j | 0 <= j < |calls| :: AlwaysFails(cfg, t.job, calls[j])
    requires k <= |calls|
    ensures if t.attempts + k < cfg.maxAttempts
            then |states[k].ready| == 1 && states[k] == OneWaiting(n, states[k].ready[0])
                 && states[k].ready[0].job == t.job && states[k].ready[0].attempts == t.attempts + k
            else states[k] == Queue.State(n, [], map[])
  {
    if k > 0 {
      TriedExactly(cfg, states, calls, n, t, k - 1);
      var s, c := states[k - 1], calls[k - 1];
      assert IsTurn(cfg, s, c, states[k]) && AlwaysFails(cfg, t.job, c);
      if s.ready != [] {
        var u := s.ready[0];
        LoneIsInBag(n, u);
        LoneTaskTurn(cfg, n, u, c);
      } else {
        assert Queue.Swept(s, []) == s;
      }
    }
  }

  lemma LoneIsInBag(n: nat, t: Task)
    ensures t.id in Queue.BagOf(OneWaiting(n, t)) && Queue.BagOf(OneWaiting(n, t))[t.id].due == t.notBefore
  {
    assert [t][..0] == [];
    assert Queue.ReadyBag([t]) == map[t.id := Queue.ReadyEntry(t)];
  }
}
