/** Workflow definitions, instances and step functions (pkg/api/workflow.go). */
module Workflow {
  import opened Base

  datatype Status = Pending | Running | Completed | Failed | Waiting

  datatype Error =
    | StepError(message: string)
    | ContextDone
    | DefinitionMismatch
    | InstanceLocked
    | NotFound
    | WrongStatus(status: Status)
    | RecoveredAfterCrash
    | WaitRequested
    | EnqueueFailed

  /** Durations are nanoseconds; the multiplier is an exact real. */
  datatype RetryPolicy = RetryPolicy(
    maxAttempts: int,
    backoff: int,
    initialBackoff: int,
    maxBackoff: int,
    multiplier: real)

  /** What one call of a step function gives back to the engine. */
  datatype Reply =
    | Done(value: Value)
    | AwaitSignal(signal: string, returnPayload: bool)
    | AwaitChildren
    | AwaitAnyChild
    | Fault(error: Error)

  /** A step function.
      `Local` is a pure function of its input: the signal waits, and branches over them.
      `Remote` is a deterministic oracle whose calls may fail: a success returns fn(input).
      `Join` additionally may ask to be parked until child workflows are done. */
  datatype StepFn =
    | Local(reply: Value -> Reply)
    | Remote(fn: Value -> Value)
    | Join(fn: Value -> Value, any: bool)

  datatype StepDefinition = StepDefinition(name: string, fn: StepFn, retry: Option<RetryPolicy>)

  datatype Definition = Definition(
    name: string,
    version: string,
    fingerprint: string,
    steps: seq<StepDefinition>)

  datatype Instance = Instance(
    id: string,
    name: string,
    version: string,
    fingerprint: string,
    status: Status,
    output: Value,
    err: Option<Error>,
    input: Value,
    currentStep: nat,
    stepResults: map<int, Value>)

  /** Each instance is stored under its own id. */
  predicate Keyed(store: map<string, Instance>) {
    forall id | id in store :: store[id].id == id
  }

  /** How the world answers one call: it works, it fails, or the children are not done yet. */
  datatype World = Works | Breaks(error: Error) | ChildrenPending

  function Invoke(fn: StepFn, input: Value, world: World): (reply: Reply)
    ensures fn.Local? ==> reply == fn.reply(input)
    ensures reply.Done? ==> Produces(fn, input, reply.value)
  {
    match fn
    case Local(f) => f(input)
    case Remote(f) =>
      if world.Breaks? then Fault(world.error) else Done(f(input))
    case Join(f, anyChild) =>
      if world.Breaks? then Fault(world.error)
      else if world.ChildrenPending? then (if anyChild then AwaitAnyChild else AwaitChildren)
      else Done(f(input))
  }

  /** `value` is the result the definition assigns to `fn` on `input`, whatever the world did before. */
  ghost predicate Produces(fn: StepFn, input: Value, value: Value) {
    match fn
    case Local(f) => f(input) == Done(value)
    case Remote(f) => f(input) == value
    case Join(f, _) => f(input) == value
  }

  /** The step never parks the workflow. */
  ghost predicate NeverParks(fn: StepFn) {
    match fn
    case Local(f) => forall x :: f(x).Done? || f(x).Fault?
    case Remote(_) => true
    case Join(_, _) => false
  }

  /** WaitForSignalStep: accept the payload of the named signal, otherwise ask to wait. */
  function WaitForSignalStep(name: string): StepFn {
    Local((input: Value) =>
            if input.Signal? && input.name == name then Done(input.data) else AwaitSignal(name, false))
  }

  /** WaitForAnySignalStep: accept any of the named signals whole, otherwise wait for the first. */
  function WaitForAnySignalStep(names: seq<string>): StepFn {
    if names == [] then
      Local((input: Value) => AwaitSignal("unknown", false))
    else
      Local((input: Value) =>
              if input.Signal? && input.name in names then Done(input) else AwaitSignal(names[0], true))
  }
}
