/** Vocabulary shared by the engine, the queues and the worker. */
module Base {

  datatype Option<+T> = None | Some(value: T)

  /** The dynamic values that flow between steps. Application data is opaque (`Data`);
      only the wrapper types the engine and the worker inspect are told apart. */
  datatype Value =
    | Nil
    | Data(content: seq<int>)
    | Signal(name: string, data: Value)
    | Start(input: Value)
    | Timeout(reason: string)
    | WaitMeta(kind: string, returnPayload: bool)

  /** Go's time.Time: the zero value, or an instant in nanoseconds. */
  datatype When = Zero | At(nanos: int)

  predicate Due(w: When, now: int) {
    w.Zero? || w.nanos <= now
  }

  datatype TaskType = StartWorkflow | SignalTask | Resume | Unknown(tag: string)

  /** A task id: text, or the row number of a table-backed queue. The empty text asks the queue for an id. */
  datatype TaskId = Text(text: string) | Row(number: int)

  const NO_ID := Text("")

  /** What a task asks a worker to do; no queue looks inside. */
  datatype Job = Job(
    kind: TaskType,
    workflowName: string,
    instanceId: string,
    signalName: string,
    payload: Value,
    enqueuedAt: When)

  datatype Task = Task(id: TaskId, job: Job, notBefore: When, attempts: int)

  function Max(a: int, b: int): int { if a < b then b else a }

  function Min(a: int, b: int): int { if a < b then a else b }

  const NANOS_PER_MILLI := 1_000_000

  /** Duration.Milliseconds, which rounds toward zero. */
  function Millis(ttl: int): int {
    if ttl >= 0 then ttl / NANOS_PER_MILLI else -((-ttl) / NANOS_PER_MILLI)
  }

  /** The end of a lease that lasts whole milliseconds. */
  function MillisAfter(now: int, ttl: int): (end: int)
    ensures ttl >= 0 ==> now + ttl - NANOS_PER_MILLI < end <= now + ttl && (end - now) % NANOS_PER_MILLI == 0
  {
    now + Millis(ttl) * NANOS_PER_MILLI
  }

  /** Who has a lease, and until when. */
  datatype Holder = Holder(owner: string, expiry: int)

  /** strconv.FormatInt(n, 10) for natural numbers. */
  function Decimal(n: nat): (s: string)
    ensures s != "" && (s[0] == '0' ==> n == 0) && forall c | c in s :: '0' <= c <= '9'
    ensures n == 0 ==> s == "0"
  {
    if n < 10 then [Digit(n)] else Decimal(n / 10) + [Digit(n % 10)]
  }

  function Digit(d: nat): char
    requires d < 10
  {
    '0' + d as char
  }

  lemma {:induction false} DecimalInjective(m: nat, n: nat)
    requires Decimal(m) == Decimal(n)
    ensures m == n
    decreases m
  {
    var s, t := Decimal(m), Decimal(n);
    assert s[|s| - 1] == Digit(m % 10) && t[|t| - 1] == Digit(n % 10);
    if m >= 10 {
      assert s[..|s| - 1] == Decimal(m / 10) && t[..|t| - 1] == Decimal(n / 10);
      DecimalInjective(m / 10, n / 10);
    }
  }
}
