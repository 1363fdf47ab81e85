/** The worker: one task at a time from the queue to the engine, then ack, retry or arm a timeout. */
module Worker {
  import opened Base
  import opened LeaseQueue
  import opened MemoryQueue

  datatype Config = Config(
    maxAttempts: int,
    backoff: int,
    defaultSignalTimeout: int,
    workerID: string,
    leaseTTL: int,
    heartbeatInterval: int)

  const DEFAULT_LEASE_TTL := 30_000_000_000
  const MIN_HEARTBEAT := 10_000_000

  /** What NewWithConfig guarantees. */
  predicate Sane(cfg: Config) {
    cfg.maxAttempts >= 1 && cfg.workerID != "" && cfg.leaseTTL > 0 && cfg.heartbeatInterval >= 0
  }

  /** What the engine call came to. */
  datatype EngineError = WaitForSignal(name: string) | OtherError(message: string)
  datatype Reply = Reply(instance: Option<string>, error: Option<EngineError>)

  /** What ProcessOne and its error handler report. */
  datatype WorkerError =
    | EngineFailed(error: EngineError)
    | QueueRefused(status: MemoryQueue.Status)
    | BadPayload
    | UnknownType

  datatype Decision =
    | Finish
    | FinishAndArm(signal: string, instance: string)
    | Retry
    | Abandon

  /** What becomes of a dequeued task, given the engine's reply. */
  function Decide(cfg: Config, task: Task, reply: Reply): Decision {
    var onError := if task.attempts + 1 < cfg.maxAttempts then Retry else Finish;
    match task.job.kind
    case StartWorkflow =>
      if !task.job.payload.Start? then Abandon
      else if reply.error.None? then Finish
      else if reply.error.value.WaitForSignal? && reply.instance.Some? && cfg.defaultSignalTimeout > 0 then
        FinishAndArm(reply.error.value.name, reply.instance.value)
      else onError
    case SignalTask =>
      if task.job.payload.Timeout? || reply.error.None? then Finish else onError
    case Resume =>
      if reply.error.None? then Finish else onError
    case Unknown(_) => Finish
  }

  function TimeoutTask(cfg: Config, signal: string, instance: string, now: int): Task {
    Task(NO_ID, Job(SignalTask, "", instance, signal, Timeout("signal timeout"), At(now)),
         At(now + cfg.defaultSignalTimeout), 0)
  }

  function RetryAt(cfg: Config, now: int): When {
    At(if cfg.backoff > 0 then now + cfg.backoff else now)
  }

  /** The lease has passed to another worker in the meantime. */
  predicate LostTo(s: State, id: TaskId, owner: string) {
    id in s.inflight && s.inflight[id].owner != owner
  }

  /** What handleErr reports: nothing if the task was acked or will be retried, the engine's error otherwise. */
  function Reported(cfg: Config, s: State, task: Task, err: Option<EngineError>): Option<WorkerError> {
    var lost := LostTo(s, task.id, cfg.workerID);
    if err.None? then (if lost then Some(QueueRefused(OtherOwner)) else None)
    else if task.attempts + 1 < cfg.maxAttempts && !lost then None
    else Some(EngineFailed(err.value))
  }

  /** What ProcessOne reports of a task it still holds: the engine's error exactly if the task is given up for it. */
  function Report(cfg: Config, task: Task, reply: Reply): Option<WorkerError> {
    var d := Decide(cfg, task, reply);
    if d.Abandon? then Some(BadPayload)
    else if task.job.kind.Unknown? then Some(UnknownType)
    else if d.Finish? && reply.error.Some? && !(task.job.kind.SignalTask? && task.job.payload.Timeout?) then
      Some(EngineFailed(reply.error.value))
    else None
  }

  /** The queue after the claimed task has been dealt with. A retry that the queue refuses, because the lease has passed
      to another worker, falls back to enqueueing the task again under its id. */
  function Settled(cfg: Config, s: State, task: Task, d: Decision, now: int): State {
    match d
    case Finish => Acked(s, task.id, cfg.workerID)
    case FinishAndArm(signal, instance) =>
      Acked(Enqueued(s, TimeoutTask(cfg, signal, instance, now)), task.id, cfg.workerID)
    case Retry =>
      if LostTo(s, task.id, cfg.workerID) then
        Enqueued(s, task.(notBefore := RetryAt(cfg, now), attempts := task.attempts + 1))
      else Nacked(s, task.id, cfg.workerID, RetryAt(cfg, now), task.attempts + 1)
    case Abandon => s
  }

  /** The queue after a whole turn: one pass of Dequeue, the engine's answer, the outcome recorded at `later`. */
  function Turn(cfg: Config, s: State, now: int, expiry: int, order: seq<TaskId>, later: int,
                engine: Task -> Reply): State
    requires SweepOrder(s, now, order)
  {
    var r := Dequeued(s, now, cfg.workerID, expiry, order);
    if r.1.None? then r.0 else Settled(cfg, r.0, r.1.value, Decide(cfg, r.1.value, engine(r.1.value)), later)
  }

  class Worker {
    const cfg: Config
    const queue: InMemoryQueue

    /** NewWithConfig: fill in the defaults. `randomID` is used when no id is configured. */
    constructor (raw: Config, queue: InMemoryQueue, randomID: string)
      requires randomID != ""
      ensures Sane(cfg) && this.queue == queue
      ensures cfg.maxAttempts == if raw.maxAttempts > 0 then raw.maxAttempts else 1
      ensures cfg.workerID == if raw.workerID != "" then raw.workerID else randomID
      ensures cfg.leaseTTL == if raw.leaseTTL > 0 then raw.leaseTTL else 30_000_000_000
      ensures cfg.heartbeatInterval == if raw.heartbeatInterval > 0 then raw.heartbeatInterval else 0
      ensures cfg.backoff == raw.backoff && cfg.defaultSignalTimeout == raw.defaultSignalTimeout
    {
      var c := raw;
      if c.maxAttempts <= 0 {
        c := c.(maxAttempts := 1);
      }
      if c.workerID == "" {
        c := c.(workerID := randomID);
      }
      if c.leaseTTL <= 0 {
        c := c.(leaseTTL := DEFAULT_LEASE_TTL);
      }
      if c.heartbeatInterval < 0 {
        c := c.(heartbeatInterval := 0);
      }
      this.cfg := c;
      this.queue := queue;
    }

    /** handleErr: ack on success, nack while attempts remain, otherwise ack and give up. */
    method HandleErr(task: Task, err: Option<EngineError>, now: int) returns (report: Option<WorkerError>)
      modifies queue
      ensures var d := if err.Some? && task.attempts + 1 < cfg.maxAttempts then Retry else Finish;
              queue.Contents() == Settled(cfg, old(queue.Contents()), task, d, now)
      ensures report == Reported(cfg, old(queue.Contents()), task, err)
      ensures err.None? ==>
                (report.Some? <==> task.id in old(queue.inflight) && old(queue.inflight)[task.id].owner != cfg.workerID)
      ensures err.Some? && task.attempts + 1 >= cfg.maxAttempts ==> report == Some(EngineFailed(err.value))
    {
      if err.None? {
        var acked := queue.Ack(task.id, cfg.workerID);
        return if acked != Ok then Some(QueueRefused(acked)) else None;
      }
      if task.attempts + 1 < cfg.maxAttempts {
        var nb := now;
        if cfg.backoff > 0 {
          nb := nb + cfg.backoff;
        }
        var nacked := queue.Nack(task.id, cfg.workerID, At(nb), task.attempts + 1);
        if nacked != Ok {
          var _ := queue.Ack(task.id, cfg.workerID);
          var _ := queue.Enqueue(task.(attempts := task.attempts + 1, notBefore := At(nb)), false);
          return Some(EngineFailed(err.value));
        }
        return None;
      }
      var _ := queue.Ack(task.id, cfg.workerID);
      return Some(EngineFailed(err.value));
    }

    /** The rest of ProcessOne, once the task has been claimed. */
    method Process(t: Task, later: int, engine: Task -> Reply) returns (report: Option<WorkerError>)
      requires Holds(queue.Contents(), t.id, cfg.workerID)
      modifies queue
      ensures queue.Contents() == Settled(cfg, old(queue.Contents()), t, Decide(cfg, t, engine(t)), later)
      ensures report == Report(cfg, t, engine(t))
    {
      match t.job.kind
      case StartWorkflow =>
        if !t.job.payload.Start? {
          return Some(BadPayload); // neither acked nor nacked
        }
        var reply := engine(t);
        if reply.error.Some? && reply.error.value.WaitForSignal? && reply.instance.Some?
           && cfg.defaultSignalTimeout > 0
        {
          var _ := queue.Enqueue(TimeoutTask(cfg, reply.error.value.name, reply.instance.value, later), false);
          report := HandleErr(t, None, later);
          return;
        }
        report := HandleErr(t, reply.error, later);
      case SignalTask =>
        var reply := engine(t);
        if t.job.payload.Timeout? {
          var _ := queue.Ack(t.id, cfg.workerID);
          report := HandleErr(t, None, later);
          return;
        }
        report := HandleErr(t, reply.error, later);
      case Resume =>
        var reply := engine(t);
        report := HandleErr(t, reply.error, later);
      case Unknown(_) =>
        var _ := queue.Ack(t.id, cfg.workerID);
        report := Some(UnknownType);
    }

    /** ProcessOne, for one pass of the queue's polling loop at time `now`; `engine` answers the call the task leads to,
        and the outcome is recorded at time `later`. */
    method ProcessOne(now: int, later: int, engine: Task -> Reply)
      returns (processed: bool, report: Option<WorkerError>, ghost task: Option<Task>, ghost order: seq<TaskId>)
      requires Sane(cfg)
      modifies queue
      ensures SweepOrder(old(queue.Contents()), now, order)
      ensures task == Dequeued(old(queue.Contents()), now, cfg.workerID, now + cfg.leaseTTL, order).1
      ensures queue.Contents() == Turn(cfg, old(queue.Contents()), now, now + cfg.leaseTTL, order, later, engine)
      ensures processed == task.Some?
      ensures report == if task.Some? then Report(cfg, task.value, engine(task.value)) else None
    {
      ghost var before, expiry := queue.Contents(), now + cfg.leaseTTL;
      var status, taken;
      status, taken, order := queue.TryDequeue(cfg.workerID, cfg.leaseTTL, now);
      task := taken;
      ghost var claimed := queue.Contents();
      assert (claimed, taken) == Dequeued(before, now, cfg.workerID, expiry, order);
      TurnOfClaim(cfg, before, now, expiry, order, later, engine, claimed, taken);
      if taken.None? {
        return false, None, task, order;
      }
      report := Process(taken.value, later, engine);
      processed := true;
    }
  }

  lemma TurnOfClaim(cfg: Config, s: State, now: int, expiry: int, order: seq<TaskId>, later: int, engine: Task -> Reply,
                    claimed: State, taken: Option<Task>)
    requires SweepOrder(s, now, order) && (claimed, taken) == Dequeued(s, now, cfg.workerID, expiry, order)
    ensures taken.Some? ==> Holds(claimed, taken.value.id, cfg.workerID)
    ensures Turn(cfg, s, now, expiry, order, later, engine)
            == if taken.None? then claimed
               else Settled(cfg, claimed, taken.value, Decide(cfg, taken.value, engine(taken.value)), later)
  {
  }

  /** Giving a task back keeps every id in one place exactly if the lease has not passed to another worker: the fallback
      enqueues a second copy of a task that is still leased. */
  lemma RetryKeepsQueueValidIff(cfg: Config, s: State, task: Task, now: int)
    requires MemoryQueue.Valid(s) && task.id != NO_ID
    ensures MemoryQueue.Valid(Settled(cfg, s, task, Retry, now)) <==> !LostTo(s, task.id, cfg.workerID)
  {
    var again := task.(notBefore := RetryAt(cfg, now), attempts := task.attempts + 1);
    if LostTo(s, task.id, cfg.workerID) {
      Append(s.ready, again);
      assert task.id in ReadyBag(Enqueued(s, again).ready) && task.id in s.inflight;
    } else {
      NackRefines(s, task.id, cfg.workerID, RetryAt(cfg, now), task.attempts + 1);
    }
  }

  /** A queue with one leased task. */
  function OneLeased(n: nat, t: Task, owner: string, expiry: int): State {
    State(n, [], map[t.id := LeasedTask(t, owner, expiry)])
  }

  lemma FirstEnqueued(raw: Task)
    ensures var t := Named(EMPTY, raw);
            raw.id == NO_ID ==> Step(EMPTY, DoEnqueue(raw), State(1, [t], map[]), Op.Enqueue(t.id, t, raw.notBefore))
  {
    assert BagOf(EMPTY) == map[];
  }

  /** The only task in the queue is claimed, whether it waits in the ready list or its lease has run out. */
  lemma OnlyTaskTaken(s: State, t: Task, order: seq<TaskId>, now: int, owner: string, expiry: int)
    requires t.notBefore.Zero? && SweepOrder(s, now, order) && Swept(s, order) == State(s.nextID, [t], map[])
    ensures Step(s, DoDequeue(now, owner, expiry, order), OneLeased(s.nextID, t, owner, expiry),
                 Op.Dequeue(now, owner, expiry, Some(t.id), Some(t)))
  {
    var r := Dequeued(s, now, owner, expiry, order);
    assert r == (OneLeased(s.nextID, t, owner, expiry), Some(t)) by {
      var one := State(s.nextID, [t], map[]);
      assert FirstRunnable([t], now) == 0;
      assert Claimed(one, 0, owner, expiry) == OneLeased(s.nextID, t, owner, expiry);
    }
    assert IdOf(r.1) == Some(t.id);
  }

  lemma WaitingTaken(n: nat, t: Task, now: int, owner: string, expiry: int)
    requires t.notBefore.Zero?
    ensures Step(State(n, [t], map[]), DoDequeue(now, owner, expiry, []), OneLeased(n, t, owner, expiry),
                 Op.Dequeue(now, owner, expiry, Some(t.id), Some(t)))
  {
    assert Swept(State(n, [t], map[]), []) == State(n, [t], map[]);
    OnlyTaskTaken(State(n, [t], map[]), t, [], now, owner, expiry);
  }

  lemma LapsedTaken(n: nat, t: Task, owner: string, expiry: int, now: int, owner2: string, expiry2: int)
    requires t.notBefore.Zero? && expiry <= now
    ensures Step(OneLeased(n, t, owner, expiry), DoDequeue(now, owner2, expiry2, [t.id]),
                 OneLeased(n, t, owner2, expiry2), Op.Dequeue(now, owner2, expiry2, Some(t.id), Some(t)))
  {
    var s := OneLeased(n, t, owner, expiry);
    assert Swept(s, [t.id]).inflight == map[];
    assert Swept(s, [t.id]) == State(n, [t], map[]);
    OnlyTaskTaken(s, t, [t.id], now, owner2, expiry2);
  }

  const EMPTY := State(0, [], map[])

  lemma EmptyIsValid()
    ensures MemoryQueue.Valid(EMPTY)
  {
  }

  /** From the empty queue: a worker takes a task at 1, its lease runs out at 10, another takes the task at 20, and now
      the first one's engine call fails and it retries: the task is in the queue twice. */
  lemma LateRetryDuplicates(cfg: Config, raw: Task, other: string)
    returns (states: seq<State>, commands: seq<Command>, ops: seq<Op>, t: Task)
    requires cfg.workerID != other && raw.id == NO_ID && raw.notBefore.Zero?
    ensures IsMemoryRun(states, commands, ops) && |ops| == 3 && states[0] == EMPTY
    ensures ops[1] == Op.Dequeue(1, cfg.workerID, 10, Some(t.id), Some(t))
    ensures ops[2] == Op.Dequeue(20, other, 30, Some(t.id), Some(t))
    ensures LostTo(states[3], t.id, cfg.workerID) && !MemoryQueue.Valid(Settled(cfg, states[3], t, Retry, 21))
  {
    t := Named(EMPTY, raw);
    var me, s1 := cfg.workerID, State(1, [t], map[]);
    FirstEnqueued(raw);
    WaitingTaken(1, t, 1, me, 10);
    LapsedTaken(1, t, me, 10, 20, other, 30);
    states := [EMPTY, s1, OneLeased(1, t, me, 10), OneLeased(1, t, other, 30)];
    commands := [DoEnqueue(raw), DoDequeue(1, me, 10, []), DoDequeue(20, other, 30, [t.id])];
    ops := [Op.Enqueue(t.id, t, Zero), Op.Dequeue(1, me, 10, Some(t.id), Some(t)),
            Op.Dequeue(20, other, 30, Some(t.id), Some(t))];
    EmptyIsValid();
    RunStaysValid(states, commands, ops, 3);
    RetryKeepsQueueValidIff(cfg, states[3], t, 21);
  }

  // ---------- The heartbeat interval ----------

  /** The configured interval, or a third of the lease; at least the minimum, at most half the lease. */
  function Interval(cfg: Config): int {
    Min(Max(if cfg.heartbeatInterval > 0 then cfg.heartbeatInterval else cfg.leaseTTL / 3, MIN_HEARTBEAT),
        cfg.leaseTTL / 2)
  }

  /** startHeartbeat's interval. It keeps two intervals within the lease exactly when the lease is at least two
      nanoseconds long. */
  method HeartbeatInterval(cfg: Config) returns (interval: int)
    requires Sane(cfg)
    ensures interval > 0
    ensures 2 * interval <= cfg.leaseTTL <==> cfg.leaseTTL >= 2
    ensures cfg.leaseTTL >= 2 ==> interval == Interval(cfg)
    ensures 10_000_000 <= cfg.heartbeatInterval <= cfg.leaseTTL / 2 ==> interval == cfg.heartbeatInterval
    ensures cfg.heartbeatInterval <= 0 && cfg.leaseTTL >= 30_000_000 ==> interval == cfg.leaseTTL / 3
    ensures cfg.leaseTTL >= 2 ==>
              interval <= cfg.leaseTTL / 2 && (interval >= 10_000_000 || interval == cfg.leaseTTL / 2)
  {
    interval := cfg.heartbeatInterval;
    if interval <= 0 {
      interval := cfg.leaseTTL / 3;
    }
    if interval < MIN_HEARTBEAT {
      interval := MIN_HEARTBEAT;
    }
    var maxHeartbeat := cfg.leaseTTL / 2;
    if maxHeartbeat > 0 && interval > maxHeartbeat {
      interval := maxHeartbeat;
    }
  }

  /** A task claimed from the in-memory queue and renewed by a punctual heartbeat is delivered to no one else until the
      handler stops, for any other traffic on the queue and every worker whose lease is at least two nanoseconds. */
  lemma HandlerKeepsItsTask(cfg: Config, states: seq<State>, commands: seq<Command>, ops: seq<Op>, times: seq<int>,
                            id: TaskId, p: nat, n: nat)
    requires Sane(cfg) && cfg.leaseTTL >= 2
    requires IsMemoryRun(states, commands, ops) && MemoryQueue.Valid(states[0]) && |times| == |ops| && p < n <= |ops|
    requires ops[p].Dequeue? && ops[p].got == Some(id) && ops[p].owner == cfg.workerID
    requires ops[p].expiry == ops[p].now + cfg.leaseTTL
    requires OnSchedule(ops, times, id, cfg.workerID, cfg.leaseTTL, ops[p].now, Interval(cfg), 0, p + 1, n)
    ensures Holds(states[n], id, cfg.workerID)
    ensures forall k | p < k < n && ops[k].Dequeue? :: ops[k].got != Some(id)
  {
    var bags, step := Bags(states), Interval(cfg);
    assert 2 * step <= cfg.leaseTTL;
    assert IsRun(bags, ops) by {
      MemoryRunRefines(states, commands, ops);
    }
    ClaimKept(bags, ops, times, id, cfg.leaseTTL, step, ops[p].now, p, n);
    assert MemoryQueue.Valid(states[n]) by {
      RunStaysValid(states, commands, ops, n);
    }
    assert HeldBy(BagOf(states[n]), id, cfg.workerID);
    HeldAlike(states[n], id, cfg.workerID);
  }
}
