/** What the scheduler knows of a node and what it tells the event sink. */
module Events {
  import opened Wrappers
  import opened Text
  import opened Dag

  datatype Status = Pending | Running | Done | Failed | Blocked

  predicate IsTerminal(status: Status) {
    status == Done || status == Failed || status == Blocked
  }

  datatype NodeState = NodeState(status: Status, model: Option<string>, attempts: nat, output: Option<string>)

  datatype Event =
    | DagSubmitted
    | DagDone(successful: nat, failed: nat)
    | NodeDispatched(id: Id, model: string, attempt: nat)
    | NodeDone(id: Id, model: string, output: string)
    | NodeFailed(id: Id, error: string)
    | NodeBlocked(id: Id)
    | NodeRetry(id: Id, reason: string)
    | ProviderFallback(id: Id, fromModel: string, toModel: string)
    | NodeVerifyFailed(id: Id, workerClaim: string, verifyOutput: string)
    | BudgetUpdated(modelCalls: nat, totalTokens: nat)
    | BudgetBreached(message: string)

  /** What one dispatch reports about its own course. */
  datatype DispatchEvent =
    | Retry(attempt: nat)
    | BackoffRetry(attempt: nat)
    | Fallback(fromModel: string, toModel: string)
    | RetryExhausted(model: string)
    | CriticDispatched(model: string)
    | CountersUpdated(modelCalls: nat, totalTokens: nat)
    | CeilingTripped(message: string)

  /** What a finished task hands back to the loop. */
  datatype TaskResult = TaskResult(
    taskModel: Option<string>,
    attempt: nat,
    state: NodeState,
    modelUsed: Option<string>,
    events: seq<DispatchEvent>,
    verifyFailed: bool)
  {
    /** A task ends Done or Failed; only a Failed one, with its combined text, failed its verification. */
    predicate Valid() {
      && (state.status == Done || state.status == Failed)
      && (verifyFailed ==> state.status == Failed && state.output.Some?)
    }
  }

  function OrEmpty(s: Option<string>): string {
    match s
    case None => ""
    case Some(v) => v
  }

  const MAX_ERROR_LEN: nat := 8192

  function Truncated(s: string): string {
    if |s| > MAX_ERROR_LEN then
      s[..MAX_ERROR_LEN] + "\U{2026} [truncated " + Decimal(|s| - MAX_ERROR_LEN) + " bytes]"
    else s
  }

  function ErrorText(output: Option<string>): string {
    if OrEmpty(output) == "" then "execution failed" else Truncated(output.value)
  }

  const VERIFY_MARK: string := "\nverify: "
  const WORKER_MARK: string := "worker: "

  /** The two halves of a failed verification's artifact. */
  function VerifyParts(output: string): (string, string) {
    match Find(output, VERIFY_MARK)
    case None => (output, "")
    case Some(k) =>
      var claim := output[..k];
      (if WORKER_MARK <= claim then claim[|WORKER_MARK|..] else "", output[k + |VERIFY_MARK|..])
  }

  /** The run event for a dispatch event; breaches are announced by the loop, once. */
  function Translate(id: Id, e: DispatchEvent): seq<Event> {
    match e
    case Retry(_) => [NodeRetry(id, "attempt failed")]
    case BackoffRetry(_) => [NodeRetry(id, "429 backoff")]
    case Fallback(f, t) => [ProviderFallback(id, f, t)]
    case RetryExhausted(_) => []
    case CriticDispatched(m) => [NodeDispatched(id + "::verify", m, 1)]
    case CountersUpdated(c, t) => [BudgetUpdated(c, t)]
    case CeilingTripped(m) => [BudgetBreached(m)]
  }
}
