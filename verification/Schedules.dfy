/** Scheduled tasks, from what the caller of each queue says to what its workers get. */
module Schedules {
  import opened Base
  import opened LeaseQueue
  import Memory = MemoryQueue
  import Redis = RedisQueue
  import Sqlite = SqliteQueue

  /** Between p and n nobody who holds the task acks it or gives it back. */
  ghost predicate Unsettled(bags: seq<Bag>, ops: seq<Op>, id: TaskId, p: nat, n: nat)
    requires |bags| == |ops| + 1 && n <= |ops|
  {
    forall k | p < k < n :: !Settles(bags[k], ops[k], id)
  }

  predicate Delivers(op: Op, id: TaskId) {
    op.Dequeue? && op.got == Some(id)
  }

  /** What was enqueued is what is delivered, and not before it is due. */
  lemma EnqueuedThenDelivered(bags: seq<Bag>, ops: seq<Op>, p: nat, n: nat)
    requires IsRun(bags, ops) && p < n < |ops| && ops[p].Enqueue? && Delivers(ops[n], ops[p].id)
    requires Unsettled(bags, ops, ops[p].id, p, n)
    ensures Due(ops[p].due, ops[n].now) && ops[n].delivered == Some(ops[p].task)
  {
    assert Next(bags[p], ops[p], bags[p + 1]);
    NotBeforeRespected(bags, ops, ops[p].id, p, n);
  }

  /** What its holder gave back is delivered with the new schedule and attempts, and not before it is due. */
  lemma NackedThenDelivered(bags: seq<Bag>, ops: seq<Op>, p: nat, n: nat)
    requires IsRun(bags, ops) && p < n < |ops| && ops[p].Nack? && HeldBy(bags[p], ops[p].id, ops[p].owner)
    requires Delivers(ops[n], ops[p].id) && Unsettled(bags, ops, ops[p].id, p, n)
    ensures Due(ops[p].due, ops[n].now) && ops[n].delivered.Some?
    ensures ops[n].delivered.value.attempts == ops[p].attempts && ops[n].delivered.value.notBefore == ops[p].notBefore
    ensures ops[n].delivered.value.job == bags[p][ops[p].id].task.job
  {
    assert Next(bags[p], ops[p], bags[p + 1]);
    NotBeforeRespected(bags, ops, ops[p].id, p, n);
  }

  // ---------- In memory ----------

  /** A task that its caller enqueues for x is delivered no earlier, and as it was enqueued. */
  lemma MemoryEnqueueHonoured(states: seq<Memory.State>, commands: seq<Memory.Command>, ops: seq<Op>, t: Task, p: nat,
                              n: nat)
    requires Memory.IsMemoryRun(states, commands, ops) && Memory.Valid(states[0]) && p < n < |ops|
    requires commands[p] == Memory.DoEnqueue(t) && ops[p].Enqueue? && Delivers(ops[n], ops[p].id)
    requires Unsettled(Memory.Bags(states), ops, ops[p].id, p, n)
    ensures t.notBefore.At? ==> t.notBefore.nanos <= ops[n].now
    ensures ops[n].delivered == Some(t.(id := ops[p].id))
  {
    Memory.MemoryRunRefines(states, commands, ops);
    assert Memory.Step(states[p], commands[p], states[p + 1], ops[p]);
    EnqueuedThenDelivered(Memory.Bags(states), ops, p, n);
  }

  lemma MemoryNackHonoured(states: seq<Memory.State>, commands: seq<Memory.Command>, ops: seq<Op>, id: TaskId,
                           owner: string,
                           x: int, attempts: int, p: nat, n: nat)
    requires Memory.IsMemoryRun(states, commands, ops) && Memory.Valid(states[0]) && p < n < |ops|
    requires commands[p] == Memory.DoNack(id, owner, At(x), attempts) && HeldBy(Memory.BagOf(states[p]), id, owner)
    requires Delivers(ops[n], id) && Unsettled(Memory.Bags(states), ops, id, p, n)
    ensures x <= ops[n].now && ops[n].delivered.Some? && ops[n].delivered.value.attempts == attempts
  {
    Memory.MemoryRunRefines(states, commands, ops);
    assert Memory.Step(states[p], commands[p], states[p + 1], ops[p]);
    NackedThenDelivered(Memory.Bags(states), ops, p, n);
  }

  // ---------- In Redis ----------

  lemma RedisEnqueueHonoured(states: seq<Redis.State>, commands: seq<Redis.Command>, ops: seq<Op>, t: Task, now: int,
                             p: nat, n: nat)
    requires Redis.IsRedisRun(states, commands, ops) && Redis.Valid(states[0]) && p < n < |ops|
    requires commands[p] == Redis.DoEnqueue(t, now) && Delivers(ops[n], t.id)
    requires Unsettled(Redis.Bags(states), ops, t.id, p, n)
    ensures (if t.notBefore.At? then t.notBefore.nanos else now) <= ops[n].now && ops[n].delivered == Some(t)
  {
    Redis.RedisRunRefines(states, commands, ops);
    assert Redis.Step(states[p], commands[p], states[p + 1], ops[p]);
    EnqueuedThenDelivered(Redis.Bags(states), ops, p, n);
  }

  lemma RedisNackHonoured(states: seq<Redis.State>, commands: seq<Redis.Command>, ops: seq<Op>, id: TaskId,
                          owner: string,
                          x: int, attempts: int, p: nat, n: nat)
    requires Redis.IsRedisRun(states, commands, ops) && Redis.Valid(states[0]) && p < n < |ops|
    requires commands[p] == Redis.DoNack(id, owner, At(x), attempts) && HeldBy(Redis.BagOf(states[p]), id, owner)
    requires Delivers(ops[n], id) && Unsettled(Redis.Bags(states), ops, id, p, n)
    ensures x <= ops[n].now && ops[n].delivered.Some? && ops[n].delivered.value.attempts == attempts
  {
    Redis.RedisRunRefines(states, commands, ops);
    assert Redis.Step(states[p], commands[p], states[p + 1], ops[p]);
    NackedThenDelivered(Redis.Bags(states), ops, p, n);
  }

  /** Giving a task back without a schedule makes it due at once, at any time since 1970. */
  lemma RedisNackAtOnce(id: TaskId, owner: string, attempts: int, s: Redis.State, s': Redis.State, op: Op, now: int)
    requires Redis.Step(s, Redis.DoNack(id, owner, Zero, attempts), s', op) && now >= 0
    ensures op.Nack? && Due(op.due, now)
  {
  }

  // ---------- In the table ----------

  lemma SqliteEnqueueHonoured(states: seq<Sqlite.State>, commands: seq<Sqlite.Command>, ops: seq<Op>, t: Task, now: int,
                              p: nat, n: nat)
    requires Sqlite.IsSqliteRun(states, commands, ops) && Sqlite.Valid(states[0]) && p < n < |ops|
    requires commands[p] == Sqlite.DoEnqueue(t, now) && Delivers(ops[n], Row(states[p].last + 1))
    requires Unsettled(Sqlite.Bags(states), ops, Row(states[p].last + 1), p, n)
    ensures (if t.notBefore.At? then t.notBefore.nanos else now) <= ops[n].now && ops[n].delivered.Some?
    ensures ops[n].delivered.value.job == t.job.(enqueuedAt := At(now)) && ops[n].delivered.value.attempts == t.attempts
  {
    Sqlite.SqliteRunRefines(states, commands, ops);
    assert Sqlite.Step(states[p], commands[p], states[p + 1], ops[p]);
    EnqueuedThenDelivered(Sqlite.Bags(states), ops, p, n);
  }

  lemma SqliteNackHonoured(states: seq<Sqlite.State>, commands: seq<Sqlite.Command>, ops: seq<Op>, id: TaskId,
                           owner: string,
                           x: int, attempts: int, p: nat, n: nat)
    requires Sqlite.IsSqliteRun(states, commands, ops) && Sqlite.Valid(states[0]) && p < n < |ops|
    requires commands[p] == Sqlite.DoNack(id, owner, x, attempts) && HeldBy(Sqlite.BagOf(states[p]), id, owner)
    requires Delivers(ops[n], id) && Unsettled(Sqlite.Bags(states), ops, id, p, n)
    ensures x <= ops[n].now && ops[n].delivered.Some? && ops[n].delivered.value.attempts == attempts
  {
    Sqlite.SqliteRunRefines(states, commands, ops);
    assert Sqlite.Step(states[p], commands[p], states[p + 1], ops[p]);
    NackedThenDelivered(Sqlite.Bags(states), ops, p, n);
  }
}
