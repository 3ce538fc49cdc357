/** What every interleaving of one ACP session keeps: see `AcpLifecycle` for the steps. */
module AcpTheorems {
  import opened Basics
  import opened AcpLifecycle

  // ---------------------------------------------------------------- the invariant

  /** What one prompt record and its two coroutines satisfy, given whether it holds the slot. */
  ghost predicate PromptInv(pr: Prompt, holdsSlot: bool) {
    && |pr.outcomes| <= 1
    && (holdsSlot <==> pr.outcomes == [])
    && (pr.settlementStarted <==> pr.settlement != NotStarted)
    && pr.settlementRuns == (if pr.settlementStarted then 1 else 0)
    && (pr.admissionDone <==> pr.admission == AwaitingCompletion || pr.admission == Returned)
    && (pr.admission == ReadingContent ==> !pr.messageQueued && !pr.delivered && pr.messageId.None?)
    && (pr.admission == AwaitingCompletion ==> pr.settlementStarted)
    && (pr.admission == Returned ==> pr.outcomes != [])
    && (!pr.admissionDone ==> pr.outcomes == [])
    && (pr.settlement != NotStarted && pr.settlement != AwaitAdmission ==> pr.admissionDone)
    && (pr.settlement == Finished ==> pr.outcomes != [])
    && (pr.aborted ==> pr.settlementStarted)
    && (pr.settlement == AwaitCancelled ==> pr.aborted)
    && (pr.admission == Routing ==> pr.messageQueued)
    && (pr.admission == AwaitingCompletion && !pr.aborted ==> pr.messageQueued && pr.delivered)
    && (pr.outcomes != [] && !pr.outcomes[0].Refused? ==> pr.aborted || pr.delivered)
    && OutcomeExplained(pr)
  }

  /** How the one outcome relates to the causes on the record. */
  ghost predicate OutcomeExplained(pr: Prompt) {
    pr.outcomes == [] ||
    match pr.outcomes[0]
    case Refused(_) => !pr.aborted
    case SettlementFailed => true
    case OutputFailed(m) => !pr.aborted && pr.outputError == Some(m)
    case TurnFailed(m) =>
      !pr.aborted &&
      (pr.agentError == Some(m) || (pr.agentError.None? && pr.endReason == Some(Failed(m))))
    case Resolved(stop) =>
      || (pr.aborted && stop == Cancelled)
      || (!pr.aborted && pr.agentError.None? && pr.endReason.None? && stop == Cancelled)
      || (!pr.aborted && pr.agentError.None? && pr.endReason.Some? && !pr.endReason.value.Failed?
          && stop == TurnEndToStopReason(pr.endReason.value))
  }

  ghost predicate Inv(s: Session) {
    && (s.inflight.Some? ==> s.inflight.value < |s.prompts|)
    && s.drained <= |s.deliveries|
    && (forall p :: 0 <= p < |s.prompts| ==> PromptInv(s.prompts[p], s.inflight == Some(p)))
  }

  // ---------------------------------------------------------------- steps keep it

  lemma SettledRecordKeepsInv(pr: Prompt, outcome: Outcome)
    requires PromptInv(pr, true) && pr.settlement != NotStarted && pr.admissionDone
    requires outcome == Decide(pr) || outcome == SettlementFailed
    ensures PromptInv(pr.(settlement := Finished, outcomes := pr.outcomes + [outcome]), false)
  {
    var after := pr.(settlement := Finished, outcomes := pr.outcomes + [outcome]);
    assert after.outcomes == [outcome];
    assert OutcomeExplained(after);
  }

  lemma StaleRecordKeepsInv(pr: Prompt)
    requires PromptInv(pr, false) && pr.settlement != NotStarted && pr.admissionDone
    ensures PromptInv(pr.(settlement := Finished), false)
  {
  }

  /** A step that rewrites one record, and takes the slot from it at most, keeps the invariant. */
  lemma OneRecordKeepsInv(s: Session, t: Session, p: nat)
    requires Inv(s) && p < |s.prompts| && |t.prompts| == |s.prompts|
    requires t.prompts == s.prompts[p := t.prompts[p]]
    requires t.inflight == s.inflight || (s.inflight == Some(p) && t.inflight == None)
    requires t.drained <= |t.deliveries|
    requires PromptInv(t.prompts[p], t.inflight == Some(p))
    ensures Inv(t)
  {
    forall q | 0 <= q < |t.prompts| ensures PromptInv(t.prompts[q], t.inflight == Some(q)) {
      assert PromptInv(s.prompts[q], s.inflight == Some(q));
    }
  }

  /** `Settle` on a prompt that holds the slot, and on one that does not. */
  lemma SettleShape(s: Session, p: nat, outcome: Outcome)
    requires p < |s.prompts|
    ensures var t, pr := Settle(s, p, outcome), s.prompts[p];
      && t.prompts == s.prompts[p := t.prompts[p]]
      && t.deliveries == s.deliveries && t.drained == s.drained
      && (s.inflight == Some(p) ==>
          t.inflight == None
          && t.prompts[p] == pr.(settlement := Finished, outcomes := pr.outcomes + [outcome]))
      && (s.inflight != Some(p) ==> t.inflight == s.inflight && t.prompts[p] == pr.(settlement := Finished))
  {
  }

  lemma SettleKeepsInv(s: Session, p: nat, outcome: Outcome)
    requires Inv(s) && p < |s.prompts|
    requires s.prompts[p].settlement != NotStarted && s.prompts[p].admissionDone
    requires outcome == Decide(s.prompts[p]) || outcome == SettlementFailed
    ensures Inv(Settle(s, p, outcome))
  {
    SettleShape(s, p, outcome);
    if s.inflight == Some(p) {
      SettledRecordKeepsInv(s.prompts[p], outcome);
    } else {
      StaleRecordKeepsInv(s.prompts[p]);
    }
    OneRecordKeepsInv(s, Settle(s, p, outcome), p);
  }

  /** The end of an admission attempt, reached after `before` marked the message as queued and delivered or not. */
  lemma FinishAdmissionKeepsInv(before: Session, p: nat, queued: bool, delivered: bool, failure: Option<string>)
    requires Inv(before) && p < |before.prompts|
    requires before.prompts[p].admission == ReadingContent || before.prompts[p].admission == Routing
    requires failure.None? ==> queued && delivered
    ensures Inv(FinishAdmission(With(before, p, before.prompts[p].(messageQueued := queued, delivered := delivered)),
                                p, failure))
  {
    assert PromptInv(before.prompts[p], before.inflight == Some(p));
    var s := With(before, p, before.prompts[p].(messageQueued := queued, delivered := delivered));
    OneRecordKeepsInv(before, FinishAdmission(s, p, failure), p);
  }

  lemma CancelKeepsInv(s: Session)
    requires Inv(s)
    ensures Inv(CancelPrompt(s))
  {
    if s.inflight.Some? {
      assert PromptInv(s.prompts[s.inflight.value], true);
      OneRecordKeepsInv(s, CancelPrompt(s), s.inflight.value);
    }
  }

  lemma BeginKeepsInv(s: Session, signalAborted: bool, agentGone: bool)
    requires Inv(s) && s.inflight.None?
    ensures Inv(BeginPrompt(s, signalAborted, agentGone))
  {
    var p := |s.prompts|;
    var claimed := s.(inflight := Some(p), prompts := s.prompts + [FRESH_PROMPT]);
    forall q | 0 <= q < |claimed.prompts| ensures PromptInv(claimed.prompts[q], claimed.inflight == Some(q)) {
      if q < p { assert PromptInv(s.prompts[q], s.inflight == Some(q)); }
    }
    CancelKeepsInv(claimed);
    if agentGone {
      var noted := if signalAborted then CancelPrompt(claimed) else claimed;
      Unmarked(noted, p);
      FinishAdmissionKeepsInv(noted, p, noted.prompts[p].messageQueued, noted.prompts[p].delivered, Some(AGENT_GONE));
    }
  }

  /** Marking a record with the flags it already has changes nothing. */
  lemma Unmarked(s: Session, p: nat)
    requires p < |s.prompts|
    ensures With(s, p, s.prompts[p].(messageQueued := s.prompts[p].messageQueued, delivered := s.prompts[p].delivered)) == s
  {
  }

  lemma AdmitKeepsInv(s: Session, p: nat, content: ContentResult, agentGone: bool)
    requires Inv(s) && p < |s.prompts| && s.prompts[p].admission == ReadingContent
    ensures Inv(AdmitContent(s, p, content, agentGone))
  {
    var pr := s.prompts[p];
    assert PromptInv(pr, s.inflight == Some(p));
    Unmarked(s, p);
    if content.Rejected? || pr.aborted || agentGone {
      var failure := if content.Rejected? then content.detail else if pr.aborted then ABORTED_IN_ADMISSION else AGENT_GONE;
      FinishAdmissionKeepsInv(s, p, pr.messageQueued, pr.delivered, Some(failure));
    } else {
      OneRecordKeepsInv(s, AdmitContent(s, p, content, agentGone), p);
    }
  }

  lemma DeliverKeepsInv(s: Session, p: nat, routeFailure: Option<string>, followupFailure: Option<string>)
    requires Inv(s) && p < |s.prompts| && s.prompts[p].admission == Routing
    ensures Inv(DeliverMessage(s, p, routeFailure, followupFailure))
  {
    hide FinishAdmission;
    var pr := s.prompts[p];
    assert PromptInv(pr, s.inflight == Some(p));
    if routeFailure.Some? {
      Unmarked(s, p);
      FinishAdmissionKeepsInv(s, p, pr.messageQueued, pr.delivered, routeFailure);
    } else if followupFailure.Some? {
      assert pr.(messageQueued := false) == pr.(messageQueued := false, delivered := pr.delivered);
      FinishAdmissionKeepsInv(s, p, false, pr.delivered, followupFailure);
    } else {
      assert pr.(delivered := true) == pr.(messageQueued := true, delivered := true);
      FinishAdmissionKeepsInv(s, p, true, true, None);
    }
  }

  /** The listeners rewrite only the record that holds the slot, and keep it well formed. */
  lemma NotedRecordKeepsInv(pr: Prompt, event: Event, turn: int, message: string)
    requires PromptInv(pr, true)
    ensures PromptInv(NoteEvent(pr, event), true)
    ensures PromptInv(pr.(turn := Some(turn)), true)
    ensures PromptInv(NoteAgentError(pr, message), true)
  {
  }

  lemma EventKeepsInv(s: Session, event: Event)
    requires Inv(s)
    ensures Inv(CommitEvent(s, event))
  {
    if s.inflight.Some? {
      NotedRecordKeepsInv(s.prompts[s.inflight.value], event, 0, "");
      OneRecordKeepsInv(s, CommitEvent(s, event), s.inflight.value);
    }
  }

  lemma ClaimKeepsInv(s: Session, messageId: nat, turn: int)
    requires Inv(s)
    ensures Inv(ClaimInbox(s, messageId, turn))
  {
    if s.inflight.Some? {
      NotedRecordKeepsInv(s.prompts[s.inflight.value], OtherEvent, turn, "");
      OneRecordKeepsInv(s, ClaimInbox(s, messageId, turn), s.inflight.value);
    }
  }

  lemma AgentFailureKeepsInv(s: Session, message: string)
    requires Inv(s)
    ensures Inv(FailAgent(s, message))
  {
    if s.inflight.Some? {
      NotedRecordKeepsInv(s.prompts[s.inflight.value], OtherEvent, 0, message);
      OneRecordKeepsInv(s, FailAgent(s, message), s.inflight.value);
    }
  }

  lemma StatusKeepsInv(s: Session, emittedIdle: bool, idleNow: bool)
    requires Inv(s)
    ensures Inv(ChangeStatus(s, emittedIdle, idleNow))
  {
    if s.inflight.Some? {
      assert PromptInv(s.prompts[s.inflight.value], true);
      OneRecordKeepsInv(s, ChangeStatus(s, emittedIdle, idleNow), s.inflight.value);
    }
  }

  lemma DeliveryKeepsInv(s: Session, failure: Option<string>)
    requires Inv(s) && s.drained < |s.deliveries|
    ensures Inv(DeliverUpdate(s, failure))
  {
    var owner := s.deliveries[s.drained];
    if owner.Some? && owner.value < |s.prompts| {
      assert PromptInv(s.prompts[owner.value], s.inflight == owner);
      OneRecordKeepsInv(s, DeliverUpdate(s, failure), owner.value);
    }
  }

  lemma CoroutineMoveKeepsInv(s: Session, step: Step)
    requires Inv(s) && Enabled(s, step)
    requires step.IdleFallbackFired? || step.PromptReturned?
    ensures Inv(Next(s, step))
  {
    assert PromptInv(s.prompts[step.p], s.inflight == Some(step.p));
    OneRecordKeepsInv(s, Next(s, step), step.p);
  }

  lemma WaitStepsKeepInv(s: Session, step: Step)
    requires Inv(s) && Enabled(s, step)
    requires step.AdmissionObserved? || step.IdleObserved? || step.ChildrenObserved? || step.OutputObserved?
          || step.CancellationObserved? || step.WaitFailed? || step.SlotCleared? || step.FailureCaught?
    ensures Inv(Next(s, step))
  {
    hide DeliverMessage, AdmitContent, BeginPrompt, CancelPrompt, CommitEvent, ClaimInbox, FailAgent, ChangeStatus;
    hide DeliverUpdate, FallbackFired, Decide;
    var p := step.p;
    assert PromptInv(s.prompts[p], s.inflight == Some(p));
    if step.SlotCleared? || step.FailureCaught? || (step.AdmissionObserved? && !s.prompts[p].messageQueued) {
      SettleKeepsInv(s, p, if step.FailureCaught? then SettlementFailed else Decide(s.prompts[p]));
    } else {
      OneRecordKeepsInv(s, Next(s, step), p);
    }
  }

  lemma StepKeepsInv(s: Session, step: Step)
    requires Inv(s) && Enabled(s, step)
    ensures Inv(Next(s, step))
  {
    match step
    case CallPrompt(signalAborted, agentGone) =>
      if !s.closing && s.inflight.None? { BeginKeepsInv(s, signalAborted, agentGone); }
    case ContentRead(p, content, agentGone) => AdmitKeepsInv(s, p, content, agentGone);
    case RouteReturned(p, routeFailure, followupFailure) => DeliverKeepsInv(s, p, routeFailure, followupFailure);
    case CancelRequested => CancelKeepsInv(s);
    case RequestAborted(_) => CancelKeepsInv(s);
    case CloseRequested => CancelKeepsInv(s.(closing := true));
    case EventCommitted(event) => EventKeepsInv(s, event);
    case InboxClaimed(messageId, turn) => ClaimKeepsInv(s, messageId, turn);
    case AgentFailed(message) => AgentFailureKeepsInv(s, message);
    case StatusChanged(emittedIdle, idleNow) => StatusKeepsInv(s, emittedIdle, idleNow);
    case IdleFallbackFired(_, _) => CoroutineMoveKeepsInv(s, step);
    case TopologyChanged =>
    case UpdateDelivered(failure) => DeliveryKeepsInv(s, failure);
    case PromptReturned(_) => CoroutineMoveKeepsInv(s, step);
    case _ => WaitStepsKeepInv(s, step);
  }
}
