/** The SQLite task queue: one table, leases in two columns, lapsed leases simply claimed over. */
module SqliteQueue {
  import opened Base
  import opened LeaseQueue

  /** A row of `tasks`; `leasedBy` is empty for a row no one holds. */
  datatype Record = Record(job: Job, notBefore: int, attempts: int, leasedBy: string, leaseExpiresAt: int)

  /** `last` is the highest row number ever assigned. */
  datatype State = State(last: nat, rows: map<TaskId, Record>)

  // ---------- The statements on values ----------

  function Inserted(s: State, t: Task, now: int): State {
    var notBefore := if t.notBefore.Zero? then now else t.notBefore.nanos;
    var record := Record(t.job.(enqueuedAt := At(now)), notBefore, t.attempts, "", 0);
    State(s.last + 1, s.rows[Row(s.last + 1) := record])
  }

  /** The WHERE clause of the claim query. */
  predicate Claimable(r: Record, now: int) {
    r.notBefore <= now && (r.leasedBy == "" || r.leaseExpiresAt <= now)
  }

  function Candidates(s: State, now: int): set<TaskId> {
    set id | id in s.rows && Claimable(s.rows[id], now)
  }

  /** ORDER BY not_before, id. */
  predicate Earlier(s: State, a: TaskId, b: TaskId)
    requires a in s.rows && b in s.rows
  {
    s.rows[a].notBefore < s.rows[b].notBefore
    || (s.rows[a].notBefore == s.rows[b].notBefore && a.Row? && b.Row? && a.number < b.number)
  }

  ghost predicate IsNext(s: State, now: int, id: TaskId) {
    && id in Candidates(s, now)
    && forall x | x in Candidates(s, now) && x != id :: Earlier(s, id, x)
  }

  function Claimed(s: State, id: TaskId, owner: string, expiry: int): State
    requires id in s.rows
  {
    s.(rows := s.rows[id := s.rows[id].(leasedBy := owner, leaseExpiresAt := expiry)])
  }

  /** WHERE id = ? AND leased_by = ? */
  predicate Matches(s: State, id: TaskId, owner: string) {
    id in s.rows && s.rows[id].leasedBy == owner
  }

  function Renewed(s: State, id: TaskId, owner: string, expiry: int): State {
    if Matches(s, id, owner) then s.(rows := s.rows[id := s.rows[id].(leaseExpiresAt := expiry)]) else s
  }

  function Deleted(s: State, id: TaskId, owner: string): State {
    if Matches(s, id, owner) then s.(rows := s.rows - {id}) else s
  }

  function Released(s: State, id: TaskId, owner: string, notBefore: int, attempts: int): State {
    if !Matches(s, id, owner) then s
    else s.(rows := s.rows[id := s.rows[id].(leasedBy := "", leaseExpiresAt := 0, notBefore := notBefore,
                                             attempts := attempts)])
  }

  // ---------- The queue object ----------

  class SqliteQueue {
    var last: nat
    var rows: map<TaskId, Record>

    function Contents(): State
      reads this
    {
      State(last, rows)
    }

    constructor ()
      ensures Contents() == State(0, map[])
    {
      last, rows := 0, map[];
    }

    method Enqueue(t: Task, now: int)
      modifies this
      ensures Contents() == Inserted(old(Contents()), t, now)
    {
      var notBefore;
      if t.notBefore.Zero? {
        notBefore := now;
      } else {
        notBefore := t.notBefore.nanos;
      }
      last := last + 1;
      rows := rows[Row(last) := Record(t.job.(enqueuedAt := At(now)), notBefore, t.attempts, "", 0)];
    }

    /** The sub-select: the first claimable row in order. */
    method Select(now: int) returns (got: Option<TaskId>)
      requires Valid(Contents())
      ensures got.None? ==> Candidates(Contents(), now) == {}
      ensures got.Some? ==> IsNext(Contents(), now, got.value)
    {
      got := None;
      var rest := rows.Keys;
      while rest != {}
        invariant rest <= rows.Keys
        invariant got.None? ==> forall x | x in rows && x !in rest :: !Claimable(rows[x], now)
        invariant got.Some? ==>
                    && got.value in Candidates(Contents(), now) && got.value !in rest
                    && forall x | x in Candidates(Contents(), now) && x !in rest && x != got.value ::
                         Earlier(Contents(), got.value, x)
        decreases rest
      {
        var id :| id in rest;
        rest := rest - {id};
        if rows[id].notBefore <= now && (rows[id].leasedBy == "" || rows[id].leaseExpiresAt <= now) {
          if got.None? || rows[id].notBefore < rows[got.value].notBefore
             || (rows[id].notBefore == rows[got.value].notBefore && id.number < got.value.number)
          {
            got := Some(id);
          }
        }
      }
    }

    /** One pass of the polling loop: the claim UPDATE. */
    method TryDequeue(owner: string, ttl: int, now: int)
      returns (ok: bool, task: Option<Task>, ghost got: Option<TaskId>)
      requires Valid(Contents())
      modifies this
      ensures ok <==> ttl > 0
      ensures task == TaskAt(BagOf(old(Contents())), got)
      ensures !ok || got.None? ==> Contents() == old(Contents())
      ensures ok && got.None? ==> Candidates(old(Contents()), now) == {}
      ensures ok && got.Some? ==> IsNext(old(Contents()), now, got.value)
                                  && Contents() == Claimed(old(Contents()), got.value, owner, now + ttl)
    {
      if ttl <= 0 {
        return false, None, None;
      }
      var selected := Select(now);
      ok, task, got := true, None, selected;
      if selected.Some? {
        var id, row := selected.value, rows[selected.value];
        rows := rows[id := row.(leasedBy := owner, leaseExpiresAt := now + ttl)];
        task := Some(Task(id, row.job, At(row.notBefore), row.attempts));
      }
    }

    method RenewLease(id: TaskId, owner: string, ttl: int, now: int) returns (ok: bool)
      modifies this`rows
      ensures ok == Matches(old(Contents()), id, owner)
      ensures Contents() == Renewed(old(Contents()), id, owner, now + ttl)
    {
      ok := id in rows && rows[id].leasedBy == owner;
      if ok {
        rows := rows[id := rows[id].(leaseExpiresAt := now + ttl)];
      }
    }

    method Ack(id: TaskId, owner: string)
      modifies this`rows
      ensures Contents() == Deleted(old(Contents()), id, owner)
    {
      if id in rows && rows[id].leasedBy == owner {
        rows := rows - {id};
      }
    }

    method Nack(id: TaskId, owner: string, notBefore: int, attempts: int)
      modifies this`rows
      ensures Contents() == Released(old(Contents()), id, owner, notBefore, attempts)
    {
      if id in rows && rows[id].leasedBy == owner {
        rows := rows[id := rows[id].(leasedBy := "", leaseExpiresAt := 0, notBefore := notBefore,
                                     attempts := attempts)];
      }
    }

    method Len() returns (n: nat)
      ensures n == |rows| == |BagOf(Contents())|
    {
      n := |rows|;
      assert BagOf(Contents()).Keys == rows.Keys;
    }
  }

  // ---------- Refinement ----------

  /** Row numbers are never reused. */
  ghost predicate Valid(s: State) {
    forall id | id in s.rows :: id.Row? && 1 <= id.number <= s.last
  }

  function TaskOf(id: TaskId, r: Record): Task {
    Task(id, r.job, At(r.notBefore), r.attempts)
  }

  function EntryOf(id: TaskId, r: Record): Entry {
    Entry(TaskOf(id, r), At(r.notBefore), if r.leasedBy == "" then None else Some(Holder(r.leasedBy, r.leaseExpiresAt)))
  }

  function BagOf(s: State): Bag {
    map id | id in s.rows :: EntryOf(id, s.rows[id])
  }

  ghost predicate Refines(s: State, s': State, op: Op) {
    Valid(s') && Next(BagOf(s), op, BagOf(s'))
  }

  lemma PutRow(s: State, id: TaskId, r: Record)
    ensures BagOf(s.(rows := s.rows[id := r])) == BagOf(s)[id := EntryOf(id, r)]
  {
  }

  /** What a caller that enqueues t at `now` asks for: the task under its new row number, due when the caller says, at
      once if it does not say. */
  function Enqueuing(s: State, t: Task, now: int): Op {
    var id, due := Row(s.last + 1), At(if t.notBefore.Zero? then now else t.notBefore.nanos);
    Op.Enqueue(id, Task(id, t.job.(enqueuedAt := At(now)), due, t.attempts), due)
  }

  lemma EnqueueRefines(s: State, t: Task, now: int)
    requires Valid(s)
    ensures Refines(s, Inserted(s, t, now), Enqueuing(s, t, now))
  {
    var id := Row(s.last + 1);
    var s' := Inserted(s, t, now);
    PutRow(s, id, s'.rows[id]);
    assert BagOf(s') == BagOf(s.(rows := s'.rows));
  }

  lemma ClaimableIsDeliverable(id: TaskId, r: Record, now: int)
    ensures Claimable(r, now) <==> Deliverable(EntryOf(id, r), now)
  {
  }

  /** The claim is a lease-queue dequeue exactly when the owner has a name: an empty one leaves no lease behind. */
  lemma ClaimRefinesIff(s: State, now: int, id: TaskId, owner: string, expiry: int)
    requires Valid(s) && IsNext(s, now, id)
    ensures Refines(s, Claimed(s, id, owner, expiry),
                    Op.Dequeue(now, owner, expiry, Some(id), TaskAt(BagOf(s), Some(id))))
            <==> owner != ""
  {
    var r := s.rows[id].(leasedBy := owner, leaseExpiresAt := expiry);
    PutRow(s, id, r);
    ClaimableIsDeliverable(id, s.rows[id], now);
    var b, b' := BagOf(s), BagOf(s)[id := EntryOf(id, r)];
    assert b'[id].holder == if owner == "" then None else Some(Holder(owner, expiry));
    if owner != "" {
      assert b'[id] == b[id].(holder := Some(Holder(owner, expiry)));
    }
  }

  lemma NothingToClaim(s: State, now: int, owner: string, expiry: int)
    requires Valid(s) && Candidates(s, now) == {}
    ensures Refines(s, s, Op.Dequeue(now, owner, expiry, None, None))
    ensures forall id | id in BagOf(s) :: !Deliverable(BagOf(s)[id], now)
  {
    forall id | id in BagOf(s) ensures !Deliverable(BagOf(s)[id], now) {
      ClaimableIsDeliverable(id, s.rows[id], now);
      assert id !in Candidates(s, now);
    }
  }

  /** The row is held by no one, and the caller gives no name: the WHERE clause matches it all the same. */
  predicate Anonymous(s: State, id: TaskId, owner: string) {
    owner == "" && Matches(s, id, owner)
  }

  lemma RenewRefinesIff(s: State, id: TaskId, owner: string, expiry: int)
    requires Valid(s)
    ensures Refines(s, Renewed(s, id, owner, expiry), Op.Renew(id, owner, expiry, Matches(s, id, owner)))
            <==> !Anonymous(s, id, owner)
  {
    if Matches(s, id, owner) {
      PutRow(s, id, s.rows[id].(leaseExpiresAt := expiry));
    }
  }

  /** Ack removes a task on behalf of its lease owner, except that an unnamed caller can remove a ready task. */
  lemma AckRefinesIff(s: State, id: TaskId, owner: string)
    requires Valid(s)
    ensures Refines(s, Deleted(s, id, owner), Op.Ack(id, owner)) <==> !Anonymous(s, id, owner)
  {
    if Matches(s, id, owner) {
      assert BagOf(Deleted(s, id, owner)) == BagOf(s) - {id};
      assert id in BagOf(s) && id !in BagOf(Deleted(s, id, owner));
    }
  }

  /** Nack gives a task back on behalf of its lease owner, except that an unnamed caller can reschedule a ready task. */
  lemma NackRefinesIff(s: State, id: TaskId, owner: string, notBefore: int, attempts: int)
    requires Valid(s)
    ensures Refines(s, Released(s, id, owner, notBefore, attempts),
                    Op.Nack(id, owner, At(notBefore), At(notBefore), attempts))
            <==> !Anonymous(s, id, owner) || (s.rows[id].notBefore == notBefore && s.rows[id].attempts == attempts)
  {
    if Matches(s, id, owner) {
      var r := s.rows[id].(leasedBy := "", leaseExpiresAt := 0, notBefore := notBefore, attempts := attempts);
      PutRow(s, id, r);
      assert BagOf(s)[id := EntryOf(id, r)][id] == EntryOf(id, r);
    }
  }

  // ---------- Runs ----------

  datatype Command =
    | DoEnqueue(task: Task, now: int)
    | DoDequeue(now: int, owner: string, expiry: int, got: Option<TaskId>)
    | DoRenew(id: TaskId, owner: string, expiry: int)
    | DoAck(id: TaskId, owner: string)
    | DoNack(id: TaskId, owner: string, notBefore: int, attempts: int)

  /** The command takes s to s' and its caller sees `op`. Callers have a name, as every worker does. */
  ghost predicate Step(s: State, c: Command, s': State, op: Op) {
    && (c.DoEnqueue? || c.owner != "")
    && match c
       case DoEnqueue(t, now) =>
         s' == Inserted(s, t, now) && op == Enqueuing(s, t, now)
       case DoDequeue(now, owner, expiry, got) =>
         && op == Op.Dequeue(now, owner, expiry, got, TaskAt(BagOf(s), got))
         && (if got.None? then Candidates(s, now) == {} && s' == s
             else IsNext(s, now, got.value) && s' == Claimed(s, got.value, owner, expiry))
       case DoRenew(id, owner, expiry) =>
         s' == Renewed(s, id, owner, expiry) && op == Op.Renew(id, owner, expiry, Matches(s, id, owner))
       case DoAck(id, owner) =>
         s' == Deleted(s, id, owner) && op == Op.Ack(id, owner)
       case DoNack(id, owner, notBefore, attempts) =>
         s' == Released(s, id, owner, notBefore, attempts)
           && op == Op.Nack(id, owner, At(notBefore), At(notBefore), attempts)
  }

  ghost predicate IsSqliteRun(states: seq<State>, commands: seq<Command>, ops: seq<Op>) {
    && |states| == |commands| + 1 && |ops| == |commands|
    && forall k | 0 <= k < |commands| :: Step(states[k], commands[k], states[k + 1], ops[k])
  }

  lemma StepRefines(s: State, c: Command, s': State, op: Op)
    requires Valid(s) && Step(s, c, s', op)
    ensures Refines(s, s', op)
  {
    match c
    case DoEnqueue(t, now) => EnqueueRefines(s, t, now);
    case DoDequeue(now, owner, expiry, got) =>
      if got.None? {
        NothingToClaim(s, now, owner, expiry);
      } else {
        ClaimRefinesIff(s, now, got.value, owner, expiry);
      }
    case DoRenew(id, owner, expiry) => RenewRefinesIff(s, id, owner, expiry);
    case DoAck(id, owner) => AckRefinesIff(s, id, owner);
    case DoNack(id, owner, notBefore, attempts) => NackRefinesIff(s, id, owner, notBefore, attempts);
  }

  lemma {:induction false} RunStaysValid(states: seq<State>, commands: seq<Command>, ops: seq<Op>, k: nat)
    requires IsSqliteRun(states, commands, ops) && Valid(states[0]) && k <= |commands|
    ensures Valid(states[k])
  {
    if k > 0 {
      RunStaysValid(states, commands, ops, k - 1);
      StepRefines(states[k - 1], commands[k - 1], states[k], ops[k - 1]);
    }
  }

  function Bags(states: seq<State>): seq<Bag> {
    seq(|states|, k requires 0 <= k < |states| => BagOf(states[k]))
  }

  /** Every run of the SQLite queue is a run of the lease queue, seen alike by its callers. */
  lemma SqliteRunRefines(states: seq<State>, commands: seq<Command>, ops: seq<Op>)
    requires IsSqliteRun(states, commands, ops) && Valid(states[0])
    ensures IsRun(Bags(states), ops)
  {
    var bags := Bags(states);
    forall k | 0 <= k < |ops| ensures Next(bags[k], ops[k], bags[k + 1]) {
      RunStaysValid(states, commands, ops, k);
      StepRefines(states[k], commands[k], states[k + 1], ops[k]);
    }
  }

  /** Without a name: a claim by "" leaves the task free for the next caller, and an Ack by "" deletes a task that no
      one holds. From the empty table, with one task enqueued. */
  lemma UnnamedCallers() returns (s: State, id: TaskId, claimed: State)
    ensures s == Inserted(State(0, map[]), UNNAMED_EXAMPLE, 0) && Valid(s) && IsNext(s, 1, id)
    ensures claimed == Claimed(s, id, "", 10) && IsNext(claimed, 2, id)
    ensures BagOf(s)[id].holder.None? && BagOf(Deleted(s, id, "")) == map[]
  {
    id := Row(1);
    s := Inserted(State(0, map[]), UNNAMED_EXAMPLE, 0);
    claimed := Claimed(s, id, "", 10);
    assert Candidates(s, 1) == {id} && Candidates(claimed, 2) == {id};
    assert Deleted(s, id, "").rows == map[];
  }

  const UNNAMED_EXAMPLE := Task(NO_ID, Job(Resume, "", "wf-1", "", Nil, Zero), Zero, 0)
}
