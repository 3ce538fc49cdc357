/** Whole runs of one ACP session: at most one outcome, abort precedence, quiescence, and the reported turn end. */
module AcpRuns {
  import opened Basics
  import opened AcpLifecycle
  import opened AcpTheorems

  /** A session nobody has prompted yet; the agent may be mid-work and the log may hold old events. */
  ghost predicate Initial(s: Session) {
    s.inflight.None? && s.prompts == [] && !s.closing && s.deliveries == [] && s.drained == 0
  }

  /** Any interleaving of enabled steps. */
  ghost predicate Run(states: seq<Session>, steps: seq<Step>) {
    && |states| == |steps| + 1
    && Initial(states[0])
    && forall i :: 0 <= i < |steps| ==> Enabled(states[i], steps[i]) && states[i + 1] == Next(states[i], steps[i])
  }

  lemma {:induction false} RunKeepsInv(states: seq<Session>, steps: seq<Step>, i: nat)
    requires Run(states, steps) && i < |states|
    ensures Inv(states[i])
  {
    if i == 0 {
    } else {
      RunKeepsInv(states, steps, i - 1);
      StepKeepsInv(states[i - 1], steps[i - 1]);
    }
  }

  // ---------------------------------------------------------------- what one step may do to one record

  /** The steps in which prompt `p`'s own settlement coroutine runs. */
  predicate Drives(step: Step, p: nat) {
    (step.AdmissionObserved? || step.IdleObserved? || step.ChildrenObserved? || step.OutputObserved?
     || step.CancellationObserved? || step.WaitFailed? || step.SlotCleared? || step.FailureCaught?)
    && step.p == p
  }

  /** The steps in which a turn can be claimed, started or ended for the prompt in flight. */
  predicate Correlates(step: Step) { step.EventCommitted? || step.InboxClaimed? }

  /**
   * No step takes back an outcome, an abort, a delivery or an end of admission; and unless the settlement
   * coroutine itself runs (`driven`), it stays where it is suspended or has just been started. Only a correlating
   * step touches the turn and its end.
   */
  ghost predicate Forward(pr: Prompt, after: Prompt, driven: bool, correlated: bool) {
    && (driven || after.settlement == pr.settlement
        || (!pr.settlementStarted && after.settlement == AwaitAdmission))
    && (pr.settlementStarted ==> after.settlementStarted)
    && (correlated || (after.turn == pr.turn && after.endReason == pr.endReason))
    && pr.outcomes <= after.outcomes
    && (pr.aborted ==> after.aborted)
    && (pr.delivered ==> after.delivered)
    && pr.settlementRuns <= after.settlementRuns
    && (pr.outputError.Some? ==> after.outputError == pr.outputError)
    && (after.delivered && !pr.delivered ==> pr.admission == Routing)
    && (pr.aborted && pr.admission != Routing ==> after.admission != Routing)
  }

  /** Record `q` exists in both states and only moved forward. */
  ghost predicate ForwardAt(s: Session, t: Session, q: nat, driven: bool, correlated: bool) {
    q < |s.prompts| && q < |t.prompts| && Forward(s.prompts[q], t.prompts[q], driven, correlated)
  }

  lemma ForwardTransitive(a: Prompt, b: Prompt, c: Prompt)
    requires Forward(a, b, false, false) && Forward(b, c, false, false) && (b.admission == Routing ==> a.admission == Routing)
    ensures Forward(a, c, false, false)
  {
  }

  lemma FinishedRecordForward(pr: Prompt, failure: Option<string>)
    ensures Forward(pr, FinishedRecord(pr, failure), false, false)
  {
  }

  lemma FinishAdmissionForward(s: Session, p: nat, failure: Option<string>, q: nat)
    requires p < |s.prompts| && q < |s.prompts|
    ensures ForwardAt(s, FinishAdmission(s, p, failure), q, false, false)
  {
    hide Forward, FinishedRecord;
    ForwardReflexive(s.prompts[q]);
    FinishedRecordForward(s.prompts[p], failure);
  }

  lemma ForwardReflexive(pr: Prompt)
    ensures Forward(pr, pr, false, false)
  {
  }

  lemma CancellationForward(pr: Prompt, agentIdle: bool)
    ensures Forward(pr, pr, false, false) && Forward(pr, RequestCancellation(pr, agentIdle), false, false)
  {
  }

  lemma CancelForward(s: Session, q: nat)
    requires q < |s.prompts|
    ensures ForwardAt(s, CancelPrompt(s), q, false, false)
  {
    hide Forward, RequestCancellation;
    CancellationForward(s.prompts[q], s.idle);
  }

  lemma BeginForward(s: Session, signalAborted: bool, agentGone: bool, q: nat)
    requires q < |s.prompts|
    ensures ForwardAt(s, BeginPrompt(s, signalAborted, agentGone), q, false, false)
  {
  }

  lemma AdmitForward(s: Session, p: nat, content: ContentResult, agentGone: bool, q: nat)
    requires p < |s.prompts| && q < |s.prompts|
    ensures ForwardAt(s, AdmitContent(s, p, content, agentGone), q, false, false)
  {
    var pr := s.prompts[p];
    if content.Rejected? { FinishAdmissionForward(s, p, Some(content.detail), q); }
    else if pr.aborted { FinishAdmissionForward(s, p, Some(ABORTED_IN_ADMISSION), q); }
    else if agentGone { FinishAdmissionForward(s, p, Some(AGENT_GONE), q); }
  }

  lemma RoutingFlagsForward(pr: Prompt)
    requires pr.admission == Routing
    ensures Forward(pr, pr.(messageQueued := false), false, false) && Forward(pr, pr.(delivered := true), false, false)
  {
  }

  lemma DeliverForward(s: Session, p: nat, routeFailure: Option<string>, followupFailure: Option<string>, q: nat)
    requires p < |s.prompts| && q < |s.prompts| && s.prompts[p].admission == Routing
    ensures ForwardAt(s, DeliverMessage(s, p, routeFailure, followupFailure), q, false, false)
  {
    hide Forward, FinishAdmission;
    var pr := s.prompts[p];
    var unqueued := With(s, p, pr.(messageQueued := false));
    var delivered := With(s, p, pr.(delivered := true));
    ForwardReflexive(s.prompts[q]);
    RoutingFlagsForward(pr);
    FinishAdmissionForward(s, p, routeFailure, q);
    FinishAdmissionForward(unqueued, p, followupFailure, q);
    FinishAdmissionForward(delivered, p, None, q);
    if routeFailure.None? {
      var middle := if followupFailure.Some? then unqueued else delivered;
      ForwardTransitive(s.prompts[q], middle.prompts[q],
                        DeliverMessage(s, p, routeFailure, followupFailure).prompts[q]);
    }
  }

  lemma NoteEventForward(pr: Prompt, event: Event)
    ensures Forward(pr, NoteEvent(pr, event), false, true) && Forward(pr, pr, false, true)
  {
    hide Forward;
    TurnFieldsForward(pr, pr.turn, pr.endReason, pr.agentError);
    match event
    case TurnStart(t) => TurnFieldsForward(pr, Some(t), None, pr.agentError);
    case TurnEnd(t, reason) => TurnFieldsForward(pr, pr.turn, Some(reason), None);
    case _ =>
  }

  lemma TurnFieldsForward(pr: Prompt, turn: Option<int>, endReason: Option<EndReason>, agentError: Option<string>)
    ensures Forward(pr, pr.(turn := turn, endReason := endReason, agentError := agentError), false, true)
    ensures pr.(turn := pr.turn, endReason := pr.endReason, agentError := pr.agentError) == pr
    ensures pr.(agentError := pr.agentError) == pr
  {
  }

  lemma EventForward(s: Session, event: Event, q: nat)
    requires q < |s.prompts|
    ensures ForwardAt(s, CommitEvent(s, event), q, false, true)
  {
    hide Forward, NoteEvent;
    NoteEventForward(s.prompts[q], event);
  }

  lemma ClaimForward(s: Session, messageId: nat, turn: int, q: nat)
    requires q < |s.prompts|
    ensures ForwardAt(s, ClaimInbox(s, messageId, turn), q, false, true)
  {
  }

  lemma AgentFailureForward(s: Session, message: string, q: nat)
    requires q < |s.prompts|
    ensures ForwardAt(s, FailAgent(s, message), q, false, false)
  {
  }

  lemma StatusForward(s: Session, emittedIdle: bool, idleNow: bool, q: nat)
    requires q < |s.prompts|
    ensures ForwardAt(s, ChangeStatus(s, emittedIdle, idleNow), q, false, false)
  {
  }

  lemma DeliveryForward(s: Session, failure: Option<string>, q: nat)
    requires q < |s.prompts| && s.drained < |s.deliveries|
    ensures ForwardAt(s, DeliverUpdate(s, failure), q, false, false)
  {
  }

  lemma SettleForward(s: Session, p: nat, outcome: Outcome, q: nat)
    requires p < |s.prompts| && q < |s.prompts|
    ensures ForwardAt(s, Settle(s, p, outcome), q, q == p, false)
  {
  }

  lemma AdmissionObservedForward(s: Session, p: nat, q: nat)
    requires p < |s.prompts| && q < |s.prompts|
    ensures ForwardAt(s, ObserveAdmission(s, p), q, q == p, false)
  {
    SettleForward(s, p, Decide(s.prompts[p]), q);
  }

  /** Steps that only move the prompt's own settlement or return its answer. */
  lemma MoveForward(s: Session, step: Step, q: nat)
    requires Enabled(s, step) && q < |s.prompts|
    requires step.IdleFallbackFired? || step.IdleObserved? || step.ChildrenObserved? || step.OutputObserved?
          || step.CancellationObserved? || step.WaitFailed? || step.PromptReturned?
    ensures ForwardAt(s, Next(s, step), q, Drives(step, q), Correlates(step))
  {
  }

  lemma StepIsForward(s: Session, step: Step, q: nat)
    requires Enabled(s, step) && q < |s.prompts|
    ensures ForwardAt(s, Next(s, step), q, Drives(step, q), Correlates(step))
  {
    hide Forward, CancelPrompt, FinishAdmission, BeginPrompt, AdmitContent, DeliverMessage, CommitEvent, ClaimInbox,
         FailAgent, ChangeStatus, DeliverUpdate, Settle, ObserveAdmission, ObserveIdle, ObserveChildren, ObserveOutput, FallbackFired,
         Decide;
    ForwardReflexive(s.prompts[q]);
    match step
    case CallPrompt(signalAborted, agentGone) => BeginForward(s, signalAborted, agentGone, q);
    case ContentRead(p, content, agentGone) => AdmitForward(s, p, content, agentGone, q);
    case RouteReturned(p, routeFailure, followupFailure) => DeliverForward(s, p, routeFailure, followupFailure, q);
    case CancelRequested => CancelForward(s, q);
    case RequestAborted(_) => CancelForward(s, q);
    case CloseRequested => CancelForward(s.(closing := true), q);
    case EventCommitted(event) => EventForward(s, event, q);
    case InboxClaimed(messageId, turn) => ClaimForward(s, messageId, turn, q);
    case AgentFailed(message) => AgentFailureForward(s, message, q);
    case StatusChanged(emittedIdle, idleNow) => StatusForward(s, emittedIdle, idleNow, q);
    case TopologyChanged =>
    case UpdateDelivered(failure) => DeliveryForward(s, failure, q);
    case AdmissionObserved(p) => AdmissionObservedForward(s, p, q);
    case SlotCleared(p) => SettleForward(s, p, Decide(s.prompts[p]), q);
    case FailureCaught(p) => SettleForward(s, p, SettlementFailed, q);
    case _ => MoveForward(s, step, q);
  }

  /** Only a call of `prompt` adds a record, one at a time, and only when it finds the slot free in an open session. */
  lemma NewRecordComesFromCall(s: Session, step: Step, p: nat)
    requires Enabled(s, step) && |s.prompts| <= p < |Next(s, step).prompts|
    ensures step.CallPrompt? && Next(s, step) == BeginPrompt(s, step.signalAborted, step.agentGone)
    ensures s.inflight.None? && !s.closing
    ensures p == |s.prompts| && |Next(s, step).prompts| == |s.prompts| + 1
  {
    hide BeginPrompt, Decide, FinishedRecord, NoteEvent, RequestCancellation, NoteAgentError, SettleCancelledOnStatus;
    if step.CallPrompt? { BeginAddsOne(s, step.signalAborted, step.agentGone); }
  }

  lemma BeginAddsOne(s: Session, signalAborted: bool, agentGone: bool)
    ensures |BeginPrompt(s, signalAborted, agentGone).prompts| == |s.prompts| + 1
  {
    hide FinishedRecord, RequestCancellation;
  }

  lemma {:induction false} RunIsForward(states: seq<Session>, steps: seq<Step>, i: nat, j: nat, p: nat)
    requires Run(states, steps) && i <= j < |states| && p < |states[i].prompts|
    ensures p < |states[j].prompts|
    ensures states[i].prompts[p].outcomes <= states[j].prompts[p].outcomes
    ensures states[i].prompts[p].aborted ==> states[j].prompts[p].aborted
    ensures states[i].prompts[p].aborted && states[i].prompts[p].admission != Routing ==>
      states[j].prompts[p].admission != Routing && states[j].prompts[p].delivered == states[i].prompts[p].delivered
    decreases j
  {
    if i == j {
    } else {
      RunIsForward(states, steps, i, j - 1, p);
      StepIsForward(states[j - 1], steps[j - 1], p);
    }
  }

  // ---------------------------------------------------------------- exactly one outcome

  /**
   * In every interleaving, an admitted prompt has no outcome exactly while it holds the slot, gets at most one,
   * keeps it forever, and at most one settlement coroutine is ever started for it.
   */
  lemma AtMostOneOutcome(states: seq<Session>, steps: seq<Step>, i: nat, j: nat, p: nat)
    requires Run(states, steps) && i <= j < |states| && p < |states[i].prompts|
    ensures p < |states[j].prompts|
    ensures |states[i].prompts[p].outcomes| <= 1
    ensures states[i].inflight == Some(p) <==> states[i].prompts[p].outcomes == []
    ensures states[i].prompts[p].outcomes != [] ==> states[j].prompts[p].outcomes == states[i].prompts[p].outcomes
    ensures states[i].prompts[p].settlementRuns <= 1
  {
    RunKeepsInv(states, steps, i);
    RunKeepsInv(states, steps, j);
    RunIsForward(states, steps, i, j, p);
    assert PromptInv(states[i].prompts[p], states[i].inflight == Some(p));
    assert PromptInv(states[j].prompts[p], states[j].inflight == Some(p));
  }

  /** A prompt whose caller still waits has a live settlement coroutine: nobody is left waiting for a finished one. */
  lemma WaitingPromptIsBeingSettled(states: seq<Session>, steps: seq<Step>, i: nat, p: nat)
    requires Run(states, steps) && i < |states| && p < |states[i].prompts|
    requires states[i].prompts[p].admission == AwaitingCompletion && states[i].prompts[p].outcomes == []
    ensures states[i].prompts[p].settlement != NotStarted && states[i].prompts[p].settlement != Finished
    ensures states[i].prompts[p].admissionDone
  {
    RunKeepsInv(states, steps, i);
    assert PromptInv(states[i].prompts[p], states[i].inflight == Some(p));
  }

  /**
   * An abort recorded while a prompt holds the slot decides its outcome: whatever output error, agent error or
   * turn end is on the record, the caller gets `cancelled`, unless the quiescence wait itself rejected.
   */
  lemma AbortWins(states: seq<Session>, steps: seq<Step>, i: nat, j: nat, p: nat)
    requires Run(states, steps) && i <= j < |states| && p < |states[i].prompts|
    requires states[i].prompts[p].aborted
    requires p < |states[j].prompts| && states[j].prompts[p].outcomes != []
    ensures states[j].prompts[p].outcomes == [Resolved(Cancelled)] || states[j].prompts[p].outcomes == [SettlementFailed]
  {
    RunKeepsInv(states, steps, j);
    RunIsForward(states, steps, i, j, p);
    assert PromptInv(states[j].prompts[p], states[j].inflight == Some(p));
  }

  /** What an outcome says about the record it was decided on, for a prompt that was never aborted. */
  lemma UnabortedOutcomeIsExplained(states: seq<Session>, steps: seq<Step>, j: nat, p: nat)
    requires Run(states, steps) && j < |states| && p < |states[j].prompts|
    requires !states[j].prompts[p].aborted && states[j].prompts[p].outcomes != []
    ensures var pr := states[j].prompts[p];
      match pr.outcomes[0]
      case OutputFailed(m) => pr.outputError == Some(m)
      case TurnFailed(m) => pr.agentError == Some(m) || (pr.agentError.None? && pr.endReason == Some(Failed(m)))
      case Resolved(stop) =>
        pr.agentError.None? &&
        (if pr.endReason.None? then stop == Cancelled
         else !pr.endReason.value.Failed? && stop == TurnEndToStopReason(pr.endReason.value))
      case _ => true
  {
    RunKeepsInv(states, steps, j);
    assert PromptInv(states[j].prompts[p], states[j].inflight == Some(p));
  }
}
