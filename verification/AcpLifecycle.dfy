// The prompt lifecycle of one ACP session as a state machine over atomic steps.
//
// A step is one stretch of code between two `await`s of `AcpSession.prompt`, of the
// settlement coroutine, of the update chain, or one synchronous listener call. Any enabled
// step may come next, so a run is any interleaving the event loop can produce (and some more:
// a wait on `agent.whenIdle()` may wake at any moment).
module AcpLifecycle {
  import opened Basics

  /** How a harness turn ended (`TurnEndReason`). */
  datatype EndReason =
    | Completed | MaxTokens | AbortedTurn | Interrupted | Blocked | Forked
    | Failed(message: string)

  /** ACP's terminal reasons that this bridge can report. */
  datatype StopReason = EndTurn | OutOfTokens | Cancelled

  function TurnEndToStopReason(reason: EndReason): StopReason {
    match reason
    case MaxTokens => OutOfTokens
    case Interrupted => Cancelled
    case _ => EndTurn
  }

  /** What the caller of one admitted prompt finally gets. */
  datatype Outcome =
    | Resolved(stop: StopReason)
    | Refused(detail: string)          // the admission failed and `prompt` throws
    | OutputFailed(message: string)
    | TurnFailed(message: string)
    | SettlementFailed                 // the quiescence wait itself rejected

  /** Where the `prompt` coroutine is suspended. */
  datatype Admission = ReadingContent | Routing | AwaitingCompletion | Returned

  /** Where the settlement coroutine is suspended. */
  datatype Settlement =
    | NotStarted
    | AwaitAdmission
    | AwaitIdle
    | AwaitChildren(idleSeq: nat)
    | AwaitOutput(idleSeq: nat, tail: nat)
    | AwaitCancelled
    | Quiescent
    | WaitRejected
    | Finished

  /** The `cancellationDone` promise: unresolved, locked to an update chain of some length, or rejected. */
  datatype CancellationDone = Unresolved | Follows(tail: nat) | Broken

  /**
   * One `InflightPrompt` record together with its two suspended coroutines. `delivered` says that
   * `agent.followup` accepted the message, `settlementRuns` counts settlement coroutines, and
   * `outcomes` lists every resolve, reject or throw made for this prompt.
   */
  datatype Prompt = Prompt(
    messageId: Option<nat>,
    messageQueued: bool,
    turn: Option<int>,
    endReason: Option<EndReason>,
    admissionDone: bool,
    aborted: bool,
    cancellation: CancellationDone,
    idleFallback: bool,
    cancelStartedIdle: bool,
    settlementStarted: bool,
    outputError: Option<string>,
    agentError: Option<string>,
    admission: Admission,
    settlement: Settlement,
    delivered: bool,
    settlementRuns: nat,
    outcomes: seq<Outcome>)

  const FRESH_PROMPT := Prompt(None, false, None, None, false, false, Unresolved, false, false, false,
                              None, None, ReadingContent, NotStarted, false, 0, [])

  /**
   * One session. `prompts` lists every admitted prompt in admission order; `inflight` is the slot.
   * `deliveries` is the update chain, one entry per link with the prompt whose record the link
   * captured, and `drained` of them have settled. `idle` and `seq` are the agent's status and the
   * session log's length.
   */
  datatype Session = Session(
    inflight: Option<nat>,
    prompts: seq<Prompt>,
    closing: bool,
    idle: bool,
    seqNo: nat,
    deliveries: seq<Option<nat>>,
    drained: nat)

  const FRESH_SESSION := Session(None, [], false, true, 0, [], 0)

  datatype Event =
    | TurnStart(turn: int)
    | TurnEnd(turn: int, reason: EndReason)
    | AssistantMessage(turn: int)
    | ToolCall
    | ToolResult
    | OtherEvent

  datatype ContentResult = Admitted(messageId: nat) | Rejected(detail: string)

  datatype Step =
    | CallPrompt(signalAborted: bool, agentGone: bool)
    | ContentRead(p: nat, content: ContentResult, agentGone: bool)
    | RouteReturned(p: nat, routeFailure: Option<string>, followupFailure: Option<string>)
    | CancelRequested
    | RequestAborted(p: nat)
    | CloseRequested
    | EventCommitted(event: Event)
    | InboxClaimed(messageId: nat, turn: int)
    | AgentFailed(message: string)
    | StatusChanged(emittedIdle: bool, idleNow: bool)
    | IdleFallbackFired(p: nat, rejected: bool)
    | TopologyChanged
    | UpdateDelivered(failure: Option<string>)
    | AdmissionObserved(p: nat)
    | IdleObserved(p: nat)
    | ChildrenObserved(p: nat, any: bool)
    | OutputObserved(p: nat)
    | CancellationObserved(p: nat)
    | WaitFailed(p: nat)
    | SlotCleared(p: nat)
    | FailureCaught(p: nat)
    | PromptReturned(p: nat)

  // ---------------------------------------------------------------- one prompt record

  /** `settleAfterQuiescence` up to its first await: the latch admits one coroutine. */
  function StartSettlement(pr: Prompt): Prompt {
    if pr.settlementStarted then pr
    else pr.(settlementStarted := true, settlement := AwaitAdmission, settlementRuns := pr.settlementRuns + 1)
  }

  /** A promise keeps the first resolution it was given. */
  function Lock(done: CancellationDone, next: CancellationDone): CancellationDone {
    if done.Unresolved? then next else done
  }

  /** `requestPromptCancellation`: abort, start settlement, and arm the fallback for a queued prompt. */
  function RequestCancellation(pr: Prompt, agentIdle: bool): Prompt {
    var first := !pr.aborted;
    var marked := pr.(aborted := true, cancelStartedIdle := if first then agentIdle else pr.cancelStartedIdle);
    var settling := StartSettlement(marked);
    if !settling.messageQueued then
      settling.(cancellation := Lock(settling.cancellation, Follows(0)))
    else
      settling.(idleFallback := settling.idleFallback || first)
  }

  /** `noteAgentError`. */
  function NoteAgentError(pr: Prompt, message: string): Prompt {
    if !pr.messageQueued then pr else StartSettlement(pr.(agentError := Some(message)))
  }

  /** `settleCancelledOnStatus`. */
  function SettleCancelledOnStatus(pr: Prompt, emittedIdle: bool, tail: nat): Prompt {
    if !pr.messageQueued || !pr.aborted then pr
    else if emittedIdle || pr.cancelStartedIdle then pr.(cancellation := Lock(pr.cancellation, Follows(tail)))
    else pr
  }

  /** The `agent.whenIdle()` continuation armed by the first cancellation. */
  function FallbackFired(pr: Prompt, rejected: bool, tail: nat): Prompt {
    pr.(idleFallback := false, cancellation := Lock(pr.cancellation, if rejected then Broken else Follows(tail)))
  }

  /** The prompt side of `onSessionEvent`. */
  function NoteEvent(pr: Prompt, event: Event): Prompt {
    match event
    case TurnStart(t) => if pr.turn.Some? then pr.(turn := Some(t), endReason := None) else pr
    case TurnEnd(t, reason) =>
      if pr.turn == Some(t) then pr.(endReason := Some(reason), agentError := None) else pr
    case _ => pr
  }

  /** The order in which a settled prompt's causes are reported. */
  function Decide(pr: Prompt): Outcome {
    if pr.aborted then Resolved(Cancelled)
    else if pr.outputError.Some? then OutputFailed(pr.outputError.value)
    else if pr.agentError.Some? then TurnFailed(pr.agentError.value)
    else if pr.endReason.None? then Resolved(Cancelled)
    else if pr.endReason.value.Failed? then TurnFailed(pr.endReason.value.message)
    else Resolved(TurnEndToStopReason(pr.endReason.value))
  }

  /** The `cancellationDone` promise has settled (either way) once the chain it follows has drained. */
  predicate CancellationSettled(s: Session, pr: Prompt) {
    match pr.cancellation
    case Unresolved => false
    case Follows(tail) => tail <= s.drained
    case Broken => true
  }

  // ---------------------------------------------------------------- one session

  function With(s: Session, p: nat, pr: Prompt): Session
    requires p < |s.prompts|
  {
    s.(prompts := s.prompts[p := pr])
  }

  /** `cancelPrompt`: acts on whichever prompt holds the slot. */
  function CancelPrompt(s: Session): Session {
    match s.inflight
    case Some(p) => if p < |s.prompts| then With(s, p, RequestCancellation(s.prompts[p], s.idle)) else s
    case None => s
  }

  /** The record after its admission attempt: settling, or refused when nothing aborted it meanwhile. */
  function FinishedRecord(pr: Prompt, failure: Option<string>): Prompt {
    var done := pr.(admissionDone := true);
    if pr.aborted || failure.None? then StartSettlement(done).(admission := AwaitingCompletion)
    else done.(admission := Returned, outcomes := pr.outcomes + [Refused(failure.value)])
  }

  /** The rest of `prompt` after the admission attempt: from `finishAdmission` to the next await or throw. */
  function FinishAdmission(s: Session, p: nat, failure: Option<string>): Session
    requires p < |s.prompts|
  {
    With(s, p, FinishedRecord(s.prompts[p], failure))
      .(inflight := if s.prompts[p].aborted || failure.None? then s.inflight else None)
  }

  const AGENT_GONE := "prompt was not queued: the agent was disposed outside the bridge"
  const ABORTED_IN_ADMISSION := "the admission signal is aborted"

  /** Entry of `prompt` when the slot is free: claim it and run to the first await. */
  function BeginPrompt(s: Session, signalAborted: bool, agentGone: bool): Session {
    var p := |s.prompts|;
    var claimed := s.(inflight := Some(p), prompts := s.prompts + [FRESH_PROMPT]);
    var noted := if signalAborted then CancelPrompt(claimed) else claimed;
    if agentGone then FinishAdmission(noted, p, Some(AGENT_GONE)) else noted
  }

  /** `prompt` resumes after `admitAcpPrompt`. */
  function AdmitContent(s: Session, p: nat, content: ContentResult, agentGone: bool): Session
    requires p < |s.prompts|
  {
    var pr := s.prompts[p];
    if content.Rejected? then FinishAdmission(s, p, Some(content.detail))
    else if pr.aborted then FinishAdmission(s, p, Some(ABORTED_IN_ADMISSION))
    else if agentGone then FinishAdmission(s, p, Some(AGENT_GONE))
    else With(s, p, pr.(messageId := Some(content.messageId), messageQueued := true, admission := Routing))
  }

  /** `prompt` resumes after `routeBeforeAdmission`; the abort flag is not read again before `followup`. */
  function DeliverMessage(s: Session, p: nat, routeFailure: Option<string>, followupFailure: Option<string>): Session
    requires p < |s.prompts|
  {
    if routeFailure.Some? then FinishAdmission(s, p, routeFailure)
    else if followupFailure.Some? then
      FinishAdmission(With(s, p, s.prompts[p].(messageQueued := false)), p, followupFailure)
    else FinishAdmission(With(s, p, s.prompts[p].(delivered := true)), p, None)
  }

  /** `onSessionEvent`: correlate turns and queue the standard updates. */
  function CommitEvent(s: Session, event: Event): Session {
    var noted := match s.inflight
      case Some(p) => if p < |s.prompts| then With(s, p, NoteEvent(s.prompts[p], event)) else s
      case None => s;
    var owner := match s.inflight
      case Some(p) =>
        if p < |s.prompts| && event.AssistantMessage? && s.prompts[p].turn == Some(event.turn) then Some(p) else None
      case None => None;
    var queued := if event.AssistantMessage? || event.ToolCall? || event.ToolResult?
      then noted.(deliveries := noted.deliveries + [owner]) else noted;
    queued.(seqNo := queued.seqNo + 1)
  }

  /** `onInboxClaimed`. */
  function ClaimInbox(s: Session, messageId: nat, turn: int): Session {
    match s.inflight
    case Some(p) =>
      if p < |s.prompts| && s.prompts[p].messageId == Some(messageId)
      then With(s, p, s.prompts[p].(turn := Some(turn))) else s
    case None => s
  }

  /** `onAgentError`. */
  function FailAgent(s: Session, message: string): Session {
    match s.inflight
    case Some(p) => if p < |s.prompts| then With(s, p, NoteAgentError(s.prompts[p], message)) else s
    case None => s
  }

  /** An `agent/status` emission; the agent may have moved on by the time listeners run. */
  function ChangeStatus(s: Session, emittedIdle: bool, idleNow: bool): Session {
    var t := s.(idle := idleNow);
    match t.inflight
    case Some(p) =>
      if p < |t.prompts| then With(t, p, SettleCancelledOnStatus(t.prompts[p], emittedIdle, |t.deliveries|)) else t
    case None => t
  }

  /** One link of the update chain settles; a failed assistant link keeps the first failure on its captured record. */
  function DeliverUpdate(s: Session, failure: Option<string>): Session
    requires s.drained < |s.deliveries|
  {
    var t := s.(drained := s.drained + 1);
    match s.deliveries[s.drained]
    case Some(q) =>
      if failure.Some? && q < |t.prompts| && t.prompts[q].outputError.None?
      then With(t, q, t.prompts[q].(outputError := failure)) else t
    case None => t
  }

  /** `idleAt` inside `awaitQuiescence`. */
  predicate IdleAt(s: Session, seqNo: nat) { s.idle && s.seqNo == seqNo }

  /** The settlement coroutine resumes after the root driver wait. */
  function ObserveIdle(s: Session, p: nat): Session
    requires p < |s.prompts|
  {
    var pr := s.prompts[p];
    With(s, p, pr.(settlement := if pr.aborted then AwaitCancelled else AwaitChildren(s.seqNo)))
  }

  function ObserveChildren(s: Session, p: nat, any: bool): Session
    requires p < |s.prompts| && s.prompts[p].settlement.AwaitChildren?
  {
    var pr := s.prompts[p];
    var idleSeq := pr.settlement.idleSeq;
    With(s, p, pr.(settlement :=
      if pr.aborted then AwaitCancelled
      else if any || !IdleAt(s, idleSeq) then AwaitIdle
      else AwaitOutput(idleSeq, |s.deliveries|)))
  }

  function ObserveOutput(s: Session, p: nat): Session
    requires p < |s.prompts| && s.prompts[p].settlement.AwaitOutput?
  {
    var pr := s.prompts[p];
    With(s, p, pr.(settlement :=
      if pr.aborted then AwaitCancelled
      else if IdleAt(s, pr.settlement.idleSeq) then Quiescent
      else AwaitIdle))
  }

  /** The settlement coroutine's last stretch: release the slot and report, unless the slot is no longer its own. */
  function Settle(s: Session, p: nat, outcome: Outcome): Session
    requires p < |s.prompts|
  {
    var pr := s.prompts[p].(settlement := Finished);
    if s.inflight != Some(p) then With(s, p, pr)
    else With(s, p, pr.(outcomes := pr.outcomes + [outcome])).(inflight := None)
  }

  function ObserveAdmission(s: Session, p: nat): Session
    requires p < |s.prompts|
  {
    var pr := s.prompts[p];
    if pr.messageQueued then With(s, p, pr.(settlement := AwaitIdle))
    else Settle(s, p, Decide(pr))
  }

  /** Which steps the event loop can take next. */
  predicate Enabled(s: Session, step: Step) {
    match step
    case CallPrompt(_, _) => true
    case ContentRead(p, _, _) => p < |s.prompts| && s.prompts[p].admission == ReadingContent
    case RouteReturned(p, _, _) => p < |s.prompts| && s.prompts[p].admission == Routing
    case RequestAborted(p) => p < |s.prompts| && s.prompts[p].admission != Returned
    case IdleFallbackFired(p, _) => p < |s.prompts| && s.prompts[p].idleFallback
    case UpdateDelivered(_) => s.drained < |s.deliveries|
    case AdmissionObserved(p) =>
      p < |s.prompts| && s.prompts[p].settlement == AwaitAdmission && s.prompts[p].admissionDone
    case IdleObserved(p) => p < |s.prompts| && s.prompts[p].settlement == AwaitIdle
    case ChildrenObserved(p, _) => p < |s.prompts| && s.prompts[p].settlement.AwaitChildren?
    case OutputObserved(p) =>
      p < |s.prompts| && s.prompts[p].settlement.AwaitOutput? && s.prompts[p].settlement.tail <= s.drained
    case CancellationObserved(p) =>
      p < |s.prompts| && s.prompts[p].settlement == AwaitCancelled && CancellationSettled(s, s.prompts[p])
    case WaitFailed(p) =>
      p < |s.prompts| && (s.prompts[p].settlement == AwaitIdle || s.prompts[p].settlement.AwaitChildren?)
    case SlotCleared(p) => p < |s.prompts| && s.prompts[p].settlement == Quiescent
    case FailureCaught(p) => p < |s.prompts| && s.prompts[p].settlement == WaitRejected
    case PromptReturned(p) =>
      p < |s.prompts| && s.prompts[p].admission == AwaitingCompletion && s.prompts[p].outcomes != []
    case _ => true
  }

  /** The state after one enabled step. */
  function Next(s: Session, step: Step): Session
    requires Enabled(s, step)
  {
    match step
    case CallPrompt(signalAborted, agentGone) =>
      if s.closing || s.inflight.Some? then s else BeginPrompt(s, signalAborted, agentGone)
    case ContentRead(p, content, agentGone) => AdmitContent(s, p, content, agentGone)
    case RouteReturned(p, routeFailure, followupFailure) => DeliverMessage(s, p, routeFailure, followupFailure)
    case CancelRequested => CancelPrompt(s)
    case RequestAborted(p) => CancelPrompt(s)
    case CloseRequested => if s.closing then s else CancelPrompt(s.(closing := true))
    case EventCommitted(event) => CommitEvent(s, event)
    case InboxClaimed(messageId, turn) => ClaimInbox(s, messageId, turn)
    case AgentFailed(message) => FailAgent(s, message)
    case StatusChanged(emittedIdle, idleNow) => ChangeStatus(s, emittedIdle, idleNow)
    case IdleFallbackFired(p, rejected) => With(s, p, FallbackFired(s.prompts[p], rejected, |s.deliveries|))
    case TopologyChanged => if s.closing then s else s.(deliveries := s.deliveries + [None])
    case UpdateDelivered(failure) => DeliverUpdate(s, failure)
    case AdmissionObserved(p) => ObserveAdmission(s, p)
    case IdleObserved(p) => ObserveIdle(s, p)
    case ChildrenObserved(p, any) => ObserveChildren(s, p, any)
    case OutputObserved(p) => ObserveOutput(s, p)
    case CancellationObserved(p) =>
      With(s, p, s.prompts[p].(settlement := if s.prompts[p].cancellation.Broken? then WaitRejected else Quiescent))
    case WaitFailed(p) => With(s, p, s.prompts[p].(settlement := WaitRejected))
    case SlotCleared(p) => Settle(s, p, Decide(s.prompts[p]))
    case FailureCaught(p) => Settle(s, p, SettlementFailed)
    case PromptReturned(p) => With(s, p, s.prompts[p].(admission := Returned))
  }
}
