/** The heartbeat over the table and over Redis, where the first lease is rounded down to a millisecond. */
module Heartbeats {
  import opened Base
  import opened LeaseQueue
  import opened Worker
  import Redis = RedisQueue
  import Sqlite = SqliteQueue

  /** In this part of a run the worker has claimed task `id` at p, under a lease that ends at `expiry`, and renews it
      punctually, at the interval startHeartbeat settles on, up to n. */
  ghost predicate Punctual(cfg: Config, ops: seq<Op>, times: seq<int>, id: TaskId, expiry: int, p: nat, n: nat) {
    && |times| == |ops| && p < n <= |ops|
    && ops[p].Dequeue? && ops[p].got == Some(id) && ops[p].owner == cfg.workerID && ops[p].expiry == expiry
    && OnSchedule(ops, times, id, cfg.workerID, cfg.leaseTTL, ops[p].now, Interval(cfg), 0, p + 1, n)
  }

  /** No one else is handed the task in between. */
  ghost predicate Undisturbed(ops: seq<Op>, id: TaskId, p: nat, n: nat)
    requires n <= |ops|
  {
    forall k | p < k < n && ops[k].Dequeue? :: ops[k].got != Some(id)
  }

  /** A task claimed from the table and renewed punctually is delivered to no one else. */
  lemma SqliteHandlerKeepsItsTask(cfg: Config, states: seq<Sqlite.State>, commands: seq<Sqlite.Command>, ops: seq<Op>,
                                  times: seq<int>, id: TaskId, p: nat, n: nat)
    requires Sane(cfg) && cfg.leaseTTL >= 2 && Sqlite.IsSqliteRun(states, commands, ops) && Sqlite.Valid(states[0])
    requires p < |ops| && ops[p].Dequeue? && Punctual(cfg, ops, times, id, ops[p].now + cfg.leaseTTL, p, n)
    ensures HeldBy(Sqlite.BagOf(states[n]), id, cfg.workerID) && Undisturbed(ops, id, p, n)
  {
    var bags := Sqlite.Bags(states);
    assert IsRun(bags, ops) by {
      Sqlite.SqliteRunRefines(states, commands, ops);
    }
    ClaimKept(bags, ops, times, id, cfg.leaseTTL, Interval(cfg), ops[p].now, p, n);
  }

  /** Two intervals fit into the lease that Redis grants. */
  predicate FitsRedis(cfg: Config) {
    2 * Interval(cfg) <= Millis(cfg.leaseTTL) * NANOS_PER_MILLI
  }

  /** A run of the Redis queue in which the worker handles a task under a punctual heartbeat. */
  ghost predicate RedisHandling(cfg: Config, states: seq<Redis.State>, commands: seq<Redis.Command>, ops: seq<Op>,
                                times: seq<int>, id: TaskId, p: nat, n: nat) {
    && Redis.IsRedisRun(states, commands, ops) && Redis.Valid(states[0])
    && p < |ops| && ops[p].Dequeue? && Punctual(cfg, ops, times, id, MillisAfter(ops[p].now, cfg.leaseTTL), p, n)
  }

  lemma RedisHandlerKeepsItsTask(cfg: Config, states: seq<Redis.State>, commands: seq<Redis.Command>, ops: seq<Op>,
                                 times: seq<int>, id: TaskId, p: nat, n: nat)
    requires Sane(cfg) && cfg.leaseTTL >= 2 && FitsRedis(cfg)
    requires RedisHandling(cfg, states, commands, ops, times, id, p, n)
    ensures HeldBy(Redis.BagOf(states[n]), id, cfg.workerID) && Undisturbed(ops, id, p, n)
  {
    var bags := Redis.Bags(states);
    assert IsRun(bags, ops) by {
      Redis.RedisRunRefines(states, commands, ops);
    }
    ClaimKept(bags, ops, times, id, cfg.leaseTTL, Interval(cfg), ops[p].now, p, n);
  }

  /** If they do not fit, there is a run from the empty queue in which the heartbeat is punctual, its first renewal not
      yet overdue, and the task goes to another worker. */
  lemma RedisHandlerLosesItsTask(cfg: Config)
    returns (states: seq<Redis.State>, commands: seq<Redis.Command>, ops: seq<Op>, times: seq<int>, id: TaskId)
    requires Sane(cfg) && cfg.leaseTTL >= 2 && !FitsRedis(cfg)
    ensures RedisHandling(cfg, states, commands, ops, times, id, 1, 3) && !Undisturbed(ops, id, 1, 3)
  {
    var expiry := MillisAfter(0, cfg.leaseTTL);
    id := Redis.EXAMPLE.id;
    states, commands, ops := Redis.TakenOver(cfg.workerID, 0, expiry, cfg.workerID + "'", expiry, expiry + 1);
    times := [0, 0, expiry];
    forall x ensures Redis.Agree(states[0], x) {
    }
    assert OnSchedule(ops, times, id, cfg.workerID, cfg.leaseTTL, 0, Interval(cfg), 0, 3, 3);
    assert OnSchedule(ops, times, id, cfg.workerID, cfg.leaseTTL, 0, Interval(cfg), 0, 2, 3);
    assert ops[2].Dequeue? && ops[2].got == Some(id);
  }

  /** On Redis every punctual heartbeat keeps its task, whatever else happens to the queue, exactly if two intervals fit
      into the lease rounded down to a millisecond; a lease of 1999999 nanoseconds, for one, is too short. */
  lemma RedisHeartbeatSafeIff(cfg: Config)
    requires Sane(cfg) && cfg.leaseTTL >= 2
    ensures (forall states, commands, ops, times, id, p: nat, n: nat ::
               RedisHandling(cfg, states, commands, ops, times, id, p, n) ==> Undisturbed(ops, id, p, n))
            <==> FitsRedis(cfg)
  {
    if FitsRedis(cfg) {
      forall states, commands, ops, times, id, p: nat, n: nat
        | RedisHandling(cfg, states, commands, ops, times, id, p, n)
        ensures Undisturbed(ops, id, p, n)
      {
        RedisHandlerKeepsItsTask(cfg, states, commands, ops, times, id, p, n);
      }
    } else {
      var states, commands, ops, times, id := RedisHandlerLosesItsTask(cfg);
      assert RedisHandling(cfg, states, commands, ops, times, id, 1, 3);
    }
  }

  lemma TooShortForRedis(cfg: Config)
    requires Sane(cfg) && cfg.leaseTTL == 1_999_999
    ensures Interval(cfg) == 999_999 && MillisAfter(0, cfg.leaseTTL) == 1_000_000 && !FitsRedis(cfg)
  {
  }
}
