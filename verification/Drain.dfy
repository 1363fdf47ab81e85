/** Draining: workers sharing a queue, each with at most one task in hand, over any interleaving of their turns. */
module Drain {
  import opened Base
  import opened LeaseQueue
  import opened Worker
  import Queue = MemoryQueue
  import opened MemoryOrder

  // ---------- Sums over finite maps ----------

  ghost function Sum(m: map<TaskId, int>): int {
    if m == map[] then 0
    else
      var id :| id in m;
      m[id] + Sum(m - {id})
  }

  lemma {:induction false} SumOne(m: map<TaskId, int>, id: TaskId)
    requires id in m
    ensures Sum(m) == m[id] + Sum(m - {id})
    decreases |m|
  {
    var first :| first in m && Sum(m) == m[first] + Sum(m - {first});
    if first != id {
      SumOne(m - {first}, id);
      SumOne(m - {id}, first);
      assert m - {first} - {id} == m - {id} - {first};
    }
  }

  lemma SumPut(m: map<TaskId, int>, id: TaskId, v: int)
    ensures Sum(m[id := v]) == Sum(m) + v - (if id in m then m[id] else 0)
  {
    SumOne(m[id := v], id);
    assert m[id := v] - {id} == m - {id};
    if id in m {
      SumOne(m, id);
    } else {
      assert m - {id} == m;
    }
  }

  lemma {:induction false} SumPositive(m: map<TaskId, int>)
    requires forall id | id in m :: m[id] > 0
    ensures Sum(m) >= |m|
    decreases |m|
  {
    if m != map[] {
      var id :| id in m && Sum(m) == m[id] + Sum(m - {id});
      assert |(m - {id}).Keys| == |m.Keys| - 1 by {
        assert (m - {id}).Keys == m.Keys - {id};
      }
      SumPositive(m - {id});
    }
  }

  // ---------- The measure ----------

  /** How many attempts a task is still good for, a start task counting those of the timeout it may arm. */
  function Worth(t: Task, attempts: int): int {
    if t.job.kind.StartWorkflow? then (attempts - t.attempts) * (attempts + 1) else attempts - t.attempts
  }

  function Worths(b: Bag, attempts: int): map<TaskId, int> {
    map id | id in b :: Worth(b[id].task, attempts)
  }

  ghost function Weight(b: Bag, attempts: int): int {
    Sum(Worths(b, attempts))
  }

  lemma WeightPut(b: Bag, attempts: int, id: TaskId, e: Entry)
    ensures Weight(b[id := e], attempts)
            == Weight(b, attempts) + Worth(e.task, attempts) - (if id in b then Worth(b[id].task, attempts) else 0)
  {
    assert Worths(b[id := e], attempts) == Worths(b, attempts)[id := Worth(e.task, attempts)];
    SumPut(Worths(b, attempts), id, Worth(e.task, attempts));
  }

  lemma WeightDrop(b: Bag, attempts: int, id: TaskId)
    requires id in b
    ensures Weight(b - {id}, attempts) == Weight(b, attempts) - Worth(b[id].task, attempts)
  {
    assert Worths(b - {id}, attempts) == Worths(b, attempts) - {id};
    SumOne(Worths(b, attempts), id);
  }

  lemma WeightSameTasks(b: Bag, b': Bag, attempts: int)
    requires b.Keys == b'.Keys && forall id | id in b :: b'[id].task == b[id].task
    ensures Weight(b, attempts) == Weight(b', attempts)
  {
    assert Worths(b, attempts) == Worths(b', attempts);
  }

  // ---------- The system ----------

  /** The shared queue and what each worker, by id, has in hand. */
  datatype System = System(bag: Bag, hands: map<string, Task>)

  datatype Event =
    | Submit(id: TaskId, task: Task, due: When)
    | Take(worker: string, now: int, expiry: int, got: Option<TaskId>)
    | Beat(worker: string, expiry: int)
    | Settle(worker: string, reply: Reply, later: int, due: When, armed: TaskId)

  /** The payload is of the type the task's kind calls for. */
  predicate WellTyped(t: Task) {
    t.job.kind.StartWorkflow? ==> t.job.payload.Start?
  }

  /** No lease has run out by `now`. */
  predicate NoneLapsed(b: Bag, now: int) {
    forall id | id in b && b[id].holder.Some? :: now < b[id].holder.value.expiry
  }

  /** The bag after a worker has dealt with the task it holds. An armed timeout gets the unused id `armed`. */
  ghost predicate SettleNext(cfg: Config, b: Bag, worker: string, t: Task, d: Decision, later: int, due: When,
                             armed: TaskId, b': Bag) {
    match d
    case Finish => Next(b, Op.Ack(t.id, worker), b')
    case FinishAndArm(signal, instance) =>
      var timeout := TimeoutTask(cfg, signal, instance, later).(id := armed);
      var mid := b[armed := Entry(timeout, due, None)];
      Next(b, Op.Enqueue(armed, timeout, due), mid) && Next(mid, Op.Ack(t.id, worker), b')
    case Retry => Next(b, Op.Nack(t.id, worker, due, RetryAt(cfg, later), t.attempts + 1), b')
    case Abandon => b' == b
  }

  ghost predicate Happens(cfg: Config, x: System, e: Event, x': System) {
    match e
    case Submit(id, task, due) =>
      && task.id == id && task.attempts == 0 && WellTyped(task)
      && x'.hands == x.hands && Next(x.bag, Op.Enqueue(id, task, due), x'.bag)
    case Take(worker, now, expiry, got) =>
      && worker !in x.hands && NoneLapsed(x.bag, now)
         && Next(x.bag, Op.Dequeue(now, worker, expiry, got, TaskAt(x.bag, got)), x'.bag)
      && (got.Some? ==> got.value in x.bag)
      && x'.hands == if got.Some? then x.hands[worker := x.bag[got.value].task] else x.hands
    case Beat(worker, expiry) =>
      && worker in x.hands && x'.hands == x.hands
      && Next(x.bag, Op.Renew(x.hands[worker].id, worker, expiry, true), x'.bag)
    case Settle(worker, reply, later, due, armed) =>
      && worker in x.hands && x'.hands == x.hands - {worker}
      && SettleNext(cfg, x.bag, worker, x.hands[worker], Decide(cfg, x.hands[worker], reply), later, due, armed, x'.bag)
  }

  /** Every task has attempts left and a payload its kind calls for. */
  predicate Fit(cfg: Config, t: Task) {
    0 <= t.attempts < cfg.maxAttempts && WellTyped(t)
  }

  predicate AllFit(cfg: Config, b: Bag) {
    forall id | id in b :: b[id].task.id == id && Fit(cfg, b[id].task)
  }

  /** What a worker has in hand is leased to it, as delivered. */
  predicate InHand(b: Bag, worker: string, t: Task) {
    HeldBy(b, t.id, worker) && b[t.id].task == t
  }

  /** A leased task is in its holder's hand. */
  predicate Accounted(x: System, id: TaskId) {
    id in x.bag && x.bag[id].holder.Some? ==>
      x.bag[id].holder.value.owner in x.hands && x.hands[x.bag[id].holder.value.owner].id == id
  }

  ghost predicate Consistent(cfg: Config, x: System) {
    && AllFit(cfg, x.bag)
    && (forall w | w in x.hands :: InHand(x.bag, w, x.hands[w]))
    && (forall id :: Accounted(x, id))
  }

  /** A worker dealing with the task it holds makes the queue lighter, unless it walks away from a bad payload. */
  lemma SettleLightens(cfg: Config, b: Bag, worker: string, t: Task, reply: Reply, later: int, due: When, armed: TaskId,
                       b': Bag)
    requires InHand(b, worker, t) && 0 <= t.attempts < cfg.maxAttempts
    requires SettleNext(cfg, b, worker, t, Decide(cfg, t, reply), later, due, armed, b')
    ensures Weight(b', cfg.maxAttempts) < Weight(b, cfg.maxAttempts) <==> WellTyped(t)
    ensures !WellTyped(t) ==> b' == b
  {
    var m := cfg.maxAttempts;
    match Decide(cfg, t, reply)
    case Finish =>
      WeightDrop(b, m, t.id);
      WorthPositive(t, m);
    case FinishAndArm(signal, instance) =>
      var timeout := TimeoutTask(cfg, signal, instance, later).(id := armed);
      var mid := b[armed := Entry(timeout, due, None)];
      WeightPut(b, m, armed, Entry(timeout, due, None));
      WeightDrop(mid, m, t.id);
      StartOutweighsTimeout(t, m);
    case Retry =>
      var e := Entry(b[t.id].task.(notBefore := RetryAt(cfg, later), attempts := t.attempts + 1), due, None);
      WeightPut(b, m, t.id, e);
      RetryWorthLess(t, e.task, m);
    case Abandon =>
  }

  lemma WorthPositive(t: Task, m: int)
    requires 0 <= t.attempts < m
    ensures Worth(t, m) > 0
  {
    if t.job.kind.StartWorkflow? {
      assert (m - t.attempts) * (m + 1) > 0;
    }
  }

  lemma StartOutweighsTimeout(t: Task, m: int)
    requires t.job.kind.StartWorkflow? && 0 <= t.attempts < m
    ensures Worth(t, m) > m
  {
    var spare := m - t.attempts - 1;
    assert (spare + 1) * (m + 1) == spare * (m + 1) + (m + 1);
    assert spare * (m + 1) >= 0;
  }

  lemma RetryWorthLess(t: Task, t': Task, m: int)
    requires t'.job == t.job && t'.attempts == t.attempts + 1 && m >= 1
    ensures Worth(t', m) < Worth(t, m)
  {
    if t.job.kind.StartWorkflow? {
      assert (m - t.attempts) * (m + 1) == (m - t'.attempts) * (m + 1) + (m + 1);
    }
  }

  /** The other events leave the weight alone, but for what is submitted. */
  lemma OthersKeepWeight(cfg: Config, x: System, e: Event, x': System)
    requires Happens(cfg, x, e, x') && !e.Settle?
    ensures Weight(x'.bag, cfg.maxAttempts)
            == Weight(x.bag, cfg.maxAttempts) + if e.Submit? then Worth(e.task, cfg.maxAttempts) else 0
  {
    match e
    case Submit(id, task, due) => WeightPut(x.bag, cfg.maxAttempts, id, Entry(task, due, None));
    case Take(_, _, _, _) => WeightSameTasks(x.bag, x'.bag, cfg.maxAttempts);
    case Beat(_, _) => WeightSameTasks(x.bag, x'.bag, cfg.maxAttempts);
    case Settle(_, _, _, _, _) =>
  }

  // ---------- Invariants ----------

  lemma FitKept(cfg: Config, x: System, e: Event, x': System)
    requires cfg.maxAttempts >= 1 && Consistent(cfg, x) && Happens(cfg, x, e, x')
    ensures AllFit(cfg, x'.bag)
  {
    if e.Settle? {
      var t := x.hands[e.worker];
      assert InHand(x.bag, e.worker, t);
      assert Fit(cfg, x.bag[t.id].task);
    }
  }

  lemma HandsKept(cfg: Config, x: System, e: Event, x': System)
    requires Consistent(cfg, x) && Happens(cfg, x, e, x')
    ensures forall w | w in x'.hands :: InHand(x'.bag, w, x'.hands[w])
  {
    if e.Settle? {
      assert InHand(x.bag, e.worker, x.hands[e.worker]);
    }
    forall w | w in x'.hands ensures InHand(x'.bag, w, x'.hands[w]) {
      if w in x.hands {
        assert InHand(x.bag, w, x.hands[w]);
      }
    }
  }

  lemma AccountedKept(cfg: Config, x: System, e: Event, x': System, id: TaskId)
    requires Consistent(cfg, x) && Happens(cfg, x, e, x')
    requires e.Settle? ==> WellTyped(x.hands[e.worker])
    ensures Accounted(x', id)
  {
    assert Accounted(x, id);
    if e.Settle? {
      assert InHand(x.bag, e.worker, x.hands[e.worker]);
    }
  }

  lemma ConsistentKept(cfg: Config, x: System, e: Event, x': System)
    requires cfg.maxAttempts >= 1 && Consistent(cfg, x) && Happens(cfg, x, e, x')
    ensures Consistent(cfg, x')
    ensures Weight(x'.bag, cfg.maxAttempts) <= Weight(x.bag, cfg.maxAttempts) + Brought(cfg, [e]) - Settlements([e])
  {
    FitKept(cfg, x, e, x');
    HandsKept(cfg, x, e, x');
    if e.Settle? {
      var t := x.hands[e.worker];
      assert InHand(x.bag, e.worker, t) && Fit(cfg, x.bag[t.id].task);
      SettleLightens(cfg, x.bag, e.worker, t, e.reply, e.later, e.due, e.armed, x'.bag);
    } else {
      OthersKeepWeight(cfg, x, e, x');
    }
    forall id ensures Accounted(x', id) {
      AccountedKept(cfg, x, e, x', id);
    }
  }

  // ---------- Runs ----------

  ghost predicate IsWorkerRun(cfg: Config, xs: seq<System>, events: seq<Event>) {
    |xs| == |events| + 1 && forall k | 0 <= k < |events| :: Happens(cfg, xs[k], events[k], xs[k + 1])
  }

  /** How many tasks have been dealt with. */
  function Settlements(events: seq<Event>): nat {
    if events == [] then 0 else Settlements(events[..|events| - 1]) + if events[|events| - 1].Settle? then 1 else 0
  }

  /** What the submissions from outside have added to the weight. */
  function Brought(cfg: Config, events: seq<Event>): int {
    if events == [] then 0
    else
      var e := events[|events| - 1];
      Brought(cfg, events[..|events| - 1]) + if e.Submit? then Worth(e.task, cfg.maxAttempts) else 0
  }

  /** Whatever the workers do, in whatever order, and however the engine answers: attempts stay below the maximum,
      every task in hand is leased to its worker, and each task dealt with makes the queue lighter by at least one. */
  lemma {:induction false} DrainInvariant(cfg: Config, xs: seq<System>, events: seq<Event>)
    requires cfg.maxAttempts >= 1 && IsWorkerRun(cfg, xs, events) && Consistent(cfg, xs[0])
    ensures Consistent(cfg, xs[|events|])
    ensures Weight(xs[|events|].bag, cfg.maxAttempts) + Settlements(events)
            <= Weight(xs[0].bag, cfg.maxAttempts) + Brought(cfg, events)
    decreases |events|
  {
    if events != [] {
      var n := |events| - 1;
      var before, xs', e := events[..n], xs[..n + 1], events[n];
      assert IsWorkerRun(cfg, xs', before) by {
        forall k | 0 <= k < n ensures Happens(cfg, xs'[k], before[k], xs'[k + 1]) {
          assert Happens(cfg, xs[k], events[k], xs[k + 1]);
        }
      }
      DrainInvariant(cfg, xs', before);
      assert Happens(cfg, xs[n], e, xs[n + 1]);
      ConsistentKept(cfg, xs[n], e, xs[n + 1]);
      assert [e][..0] == [];
    }
  }

  /** The drain ends: the tasks dealt with never outnumber the initial weight plus what was submitted; and when as many
      have been dealt with, the queue is empty. */
  lemma DrainTerminates(cfg: Config, xs: seq<System>, events: seq<Event>)
    requires cfg.maxAttempts >= 1 && IsWorkerRun(cfg, xs, events) && Consistent(cfg, xs[0])
    ensures Settlements(events) + |xs[|events|].bag| <= Weight(xs[0].bag, cfg.maxAttempts) + Brought(cfg, events)
    ensures forall id | id in xs[|events|].bag :: 0 <= xs[|events|].bag[id].task.attempts < cfg.maxAttempts
  {
    DrainInvariant(cfg, xs, events);
    WeightCoversTasks(cfg, xs[|events|].bag);
  }

  lemma WeightCoversTasks(cfg: Config, b: Bag)
    requires AllFit(cfg, b)
    ensures Weight(b, cfg.maxAttempts) >= |b|
  {
    var m := Worths(b, cfg.maxAttempts);
    forall id | id in m ensures m[id] > 0 {
      assert Fit(cfg, b[id].task);
      WorthPositive(b[id].task, cfg.maxAttempts);
    }
    SumPositive(m);
    assert m.Keys == b.Keys;
  }

  // ---------- One worker alone on the in-memory queue ----------

  /** Between the turns of a worker that has the in-memory queue to itself. */
  ghost predicate AtRest(cfg: Config, s: Queue.State) {
    Queue.Valid(s) && AutoNamed(s) && s.inflight == map[] && AllFit(cfg, Queue.BagOf(s))
  }

  /** The worker's settlement on the in-memory queue is the settlement of the drain. */
  lemma SettledIsSettleNext(cfg: Config, s: Queue.State, t: Task, d: Decision, later: int, s': Queue.State)
    returns (due: When, armed: TaskId)
    requires Queue.Valid(s) && AutoNamed(s) && Queue.Holds(s, t.id, cfg.workerID) && s' == Settled(cfg, s, t, d, later)
    ensures Queue.Valid(s') && AutoNamed(s')
    ensures SettleNext(cfg, Queue.BagOf(s), cfg.workerID, t, d, later, due, armed, Queue.BagOf(s'))
  {
    due, armed := Zero, NO_ID;
    match d {
      case Finish =>
        assert s' == Queue.Acked(s, t.id, cfg.workerID);
        AckStep(s, t.id, cfg.workerID);
      case FinishAndArm(signal, instance) =>
        var timeout := TimeoutTask(cfg, signal, instance, later);
        due, armed := timeout.notBefore, Queue.Named(s, timeout).id;
        assert s' == Queue.Acked(Queue.Enqueued(s, timeout), t.id, cfg.workerID);
        assert Queue.Named(s, timeout) == timeout.(id := armed);
        ArmThenAck(s, timeout, t.id, cfg.workerID);
      case Retry =>
        due := RetryAt(cfg, later);
        var attempts := t.attempts + 1;
        assert s' == Queue.Nacked(s, t.id, cfg.workerID, due, attempts);
        NackStep(s, t.id, cfg.workerID, due, attempts);
      case Abandon =>
    }
  }

  lemma AckStep(s: Queue.State, id: TaskId, owner: string)
    requires Queue.Valid(s) && AutoNamed(s)
    ensures Queue.Refines(s, Queue.Acked(s, id, owner), Op.Ack(id, owner))
    ensures AutoNamed(Queue.Acked(s, id, owner))
  {
    Queue.AckRefines(s, id, owner);
    AutoNamedKept(s, Queue.DoAck(id, owner), Queue.Acked(s, id, owner), Op.Ack(id, owner));
  }

  lemma NackStep(s: Queue.State, id: TaskId, owner: string, notBefore: When, attempts: int)
    requires Queue.Valid(s) && AutoNamed(s)
    ensures Queue.Refines(s, Queue.Nacked(s, id, owner, notBefore, attempts),
                          Op.Nack(id, owner, notBefore, notBefore, attempts))
    ensures AutoNamed(Queue.Nacked(s, id, owner, notBefore, attempts))
  {
    Queue.NackRefines(s, id, owner, notBefore, attempts);
    AutoNamedKept(s, Queue.DoNack(id, owner, notBefore, attempts), Queue.Nacked(s, id, owner, notBefore, attempts),
                              Op.Nack(id, owner, notBefore, notBefore, attempts));
  }

  lemma ArmStep(s: Queue.State, t: Task)
    requires Queue.Valid(s) && AutoNamed(s) && t.id == NO_ID
    ensures Queue.Refines(s, Queue.Enqueued(s, t), Op.Enqueue(Queue.Named(s, t).id, Queue.Named(s, t), t.notBefore))
    ensures AutoNamed(Queue.Enqueued(s, t))
  {
    GeneratedIdIsFresh(s, t);
    Queue.EnqueueRefines(s, t);
    AutoNamedKept(s, Queue.DoEnqueue(t), Queue.Enqueued(s, t),
                              Op.Enqueue(Queue.Named(s, t).id, Queue.Named(s, t), t.notBefore));
  }

  lemma ArmThenAck(s: Queue.State, t: Task, id: TaskId, owner: string)
    requires Queue.Valid(s) && AutoNamed(s) && t.id == NO_ID
    ensures var n := Queue.Named(s, t);
            var s' := Queue.Acked(Queue.Enqueued(s, t), id, owner);
            var mid := Queue.BagOf(s)[n.id := Entry(n, t.notBefore, None)];
            && Next(Queue.BagOf(s), Op.Enqueue(n.id, n, t.notBefore), mid)
            && Next(mid, Op.Ack(id, owner), Queue.BagOf(s')) && Queue.Valid(s') && AutoNamed(s')
  {
    ArmStep(s, t);
    AckStep(Queue.Enqueued(s, t), id, owner);
  }

  lemma TakeStep(s: Queue.State, now: int, owner: string, expiry: int, order: seq<TaskId>)
    requires Queue.Valid(s) && AutoNamed(s) && Queue.SweepOrder(s, now, order)
    ensures var r := Queue.Dequeued(s, now, owner, expiry, order);
            && Queue.Refines(s, r.0, Op.Dequeue(now, owner, expiry, Queue.IdOf(r.1), r.1))
            && AutoNamed(r.0)
            && if r.1.Some? then r.1.value.id in Queue.BagOf(s) && Queue.BagOf(s)[r.1.value.id].task == r.1.value
               else forall id | id in Queue.BagOf(s) :: !Deliverable(Queue.BagOf(s)[id], now)
  {
    var r := Queue.Dequeued(s, now, owner, expiry, order);
    Queue.DequeueRefines(s, now, owner, expiry, order);
    AutoNamedKept(s, Queue.DoDequeue(now, owner, expiry, order), r.0,
                  Op.Dequeue(now, owner, expiry, Queue.IdOf(r.1), r.1));
  }

  lemma AtRestIsConsistent(cfg: Config, s: Queue.State)
    requires AtRest(cfg, s)
    ensures Consistent(cfg, System(Queue.BagOf(s), map[]))
    ensures forall id | id in Queue.BagOf(s) :: Queue.BagOf(s)[id].holder.None?
  {
    forall id | id in Queue.BagOf(s) ensures Queue.BagOf(s)[id].holder.None? {
      var i := Queue.Find(s.ready, id);
      Queue.At(s.ready, i);
    }
  }

  /** The two halves of a turn as steps of the system of workers. */
  lemma TurnIsTakeAndSettle(cfg: Config, s: Queue.State, now: int, expiry: int, later: int, engine: Task -> Reply)
    returns (x: System, take: Event, settle: Event, x': System)
    requires AtRest(cfg, s) && Queue.Dequeued(s, now, cfg.workerID, expiry, []).1.Some?
    ensures take.Take? && Happens(cfg, System(Queue.BagOf(s), map[]), take, x)
    ensures settle.Settle? && Happens(cfg, x, settle, x')
    ensures x' == System(Queue.BagOf(Turn(cfg, s, now, expiry, [], later, engine)), map[])
    ensures Queue.Valid(Turn(cfg, s, now, expiry, [], later, engine))
            && AutoNamed(Turn(cfg, s, now, expiry, [], later, engine))
  {
    var r := Queue.Dequeued(s, now, cfg.workerID, expiry, []);
    var t, w := r.1.value, cfg.workerID;
    var last := Turn(cfg, s, now, expiry, [], later, engine);
    TakeStep(s, now, w, expiry, []);
    AtRestIsConsistent(cfg, s);
    take := Take(w, now, expiry, Some(t.id));
    x := System(Queue.BagOf(r.0), map[w := t]);
    var due, armed := SettledIsSettleNext(cfg, r.0, t, Decide(cfg, t, engine(t)), later, last);
    settle := Settle(w, engine(t), later, due, armed);
    x' := System(Queue.BagOf(last), map[]);
    assert map[w := t] - {w} == map[];
  }

  /** The worker puts down what it took up. */
  lemma NothingLeftInflight(cfg: Config, s: Queue.State, now: int, expiry: int, later: int, engine: Task -> Reply)
    requires AtRest(cfg, s)
    ensures Turn(cfg, s, now, expiry, [], later, engine).inflight == map[]
  {
    var r := Queue.Dequeued(s, now, cfg.workerID, expiry, []);
    assert Queue.Swept(s, []).inflight == map[] && Queue.Swept(s, []).ready == s.ready;
    if r.1.Some? {
      var t := r.1.value;
      assert r.0.inflight == map[t.id := Queue.LeasedTask(t, cfg.workerID, expiry)];
      var k := Queue.FirstRunnable(s.ready, now);
      Queue.At(s.ready, k);
      assert Fit(cfg, Queue.BagOf(s)[t.id].task);
      assert r.0.inflight - {t.id} == map[];
    }
  }

  /** One call of ProcessOne, whatever the engine answers: it finds nothing only if nothing is due, and otherwise the
      queue is lighter and still in order. */
  lemma TurnLightens(cfg: Config, s: Queue.State, now: int, expiry: int, later: int, engine: Task -> Reply)
    requires Sane(cfg) && AtRest(cfg, s)
    ensures AtRest(cfg, Turn(cfg, s, now, expiry, [], later, engine))
    ensures var s' := Turn(cfg, s, now, expiry, [], later, engine);
            || Weight(Queue.BagOf(s'), cfg.maxAttempts) < Weight(Queue.BagOf(s), cfg.maxAttempts)
            || (s' == s && forall id | id in Queue.BagOf(s) :: !Due(Queue.BagOf(s)[id].due, now))
  {
    NothingLeftInflight(cfg, s, now, expiry, later, engine);
    if Queue.Dequeued(s, now, cfg.workerID, expiry, []).1.Some? {
      AtRestIsConsistent(cfg, s);
      var x, take, settle, x' := TurnIsTakeAndSettle(cfg, s, now, expiry, later, engine);
      ConsistentKept(cfg, System(Queue.BagOf(s), map[]), take, x);
      ConsistentKept(cfg, x, settle, x');
      OneEvent(cfg, take);
      OneEvent(cfg, settle);
    } else {
      assert Queue.Swept(s, []).ready == s.ready;
      TakeStep(s, now, cfg.workerID, expiry, []);
      AtRestIsConsistent(cfg, s);
    }
  }

  lemma OneEvent(cfg: Config, e: Event)
    ensures !e.Submit? ==> Brought(cfg, [e]) == 0
    ensures Settlements([e]) == if e.Settle? then 1 else 0
  {
    assert [e][..0] == [];
  }

  /** When and how one call of ProcessOne goes. */
  datatype Call = Call(now: int, expiry: int, later: int, engine: Task -> Reply)

  /** The states of a worker's loop: every call comes when whatever is in the queue has become due. */
  ghost predicate IsDrain(cfg: Config, states: seq<Queue.State>, calls: seq<Call>) {
    && |states| == |calls| + 1
    && forall k | 0 <= k < |calls| :: IsTurn(cfg, states[k], calls[k], states[k + 1])
  }

  ghost predicate IsTurn(cfg: Config, s: Queue.State, c: Call, s': Queue.State) {
    && (forall id | id in Queue.BagOf(s) :: Due(Queue.BagOf(s)[id].due, c.now))
    && Queue.SweepOrder(s, c.now, [])
    && s' == Turn(cfg, s, c.now, c.expiry, [], c.later, c.engine)
  }

  ghost function WeightOf(cfg: Config, s: Queue.State): int {
    Weight(Queue.BagOf(s), cfg.maxAttempts)
  }

  lemma WeightlessIsEmpty(cfg: Config, s: Queue.State)
    requires AtRest(cfg, s)
    ensures WeightOf(cfg, s) >= |s.ready|
  {
    WeightCoversTasks(cfg, Queue.BagOf(s));
    Queue.LenIsBagSize(s);
  }

  lemma TurnOrEmpty(cfg: Config, s: Queue.State, c: Call, s': Queue.State)
    requires Sane(cfg) && AtRest(cfg, s) && IsTurn(cfg, s, c, s')
    ensures AtRest(cfg, s')
    ensures WeightOf(cfg, s') < WeightOf(cfg, s) || (s' == s && s.ready == [])
  {
    TurnLightens(cfg, s, c.now, c.expiry, c.later, c.engine);
    if s.ready != [] {
      Queue.At(s.ready, 0);
      assert s.ready[0].id in Queue.BagOf(s);
    }
  }

  /** A worker alone on a queue empties it, timeouts it armed itself included, within as many calls as the queue
      weighs. */
  lemma {:induction false} DrainEmpties(cfg: Config, states: seq<Queue.State>, calls: seq<Call>, n: nat)
    requires Sane(cfg) && IsDrain(cfg, states, calls) && AtRest(cfg, states[0]) && n <= |calls|
    ensures AtRest(cfg, states[n])
    ensures states[n].ready == [] || WeightOf(cfg, states[n]) + n <= WeightOf(cfg, states[0])
    ensures n >= WeightOf(cfg, states[0]) ==> states[n].ready == []
  {
    if n > 0 {
      DrainEmpties(cfg, states, calls, n - 1);
      assert IsTurn(cfg, states[n - 1], calls[n - 1], states[n]);
      TurnOrEmpty(cfg, states[n - 1], calls[n - 1], states[n]);
      EmptyWeighsNothing(cfg, states[n - 1]);
    }
    WeightlessIsEmpty(cfg, states[n]);
  }

  lemma EmptyWeighsNothing(cfg: Config, s: Queue.State)
    requires AtRest(cfg, s)
    ensures s.ready == [] ==> WeightOf(cfg, s) == 0
  {
  }
}
