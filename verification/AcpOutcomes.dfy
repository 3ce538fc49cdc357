/** When the outcome of an ACP prompt is decided, and in which order its causes are looked at. */
module AcpOutcomes {
  import opened Basics
  import opened AcpLifecycle
  import opened AcpTheorems
  import opened AcpRuns
  import opened AcpWindows

  /** A record's outcomes stay, or a refusal is added. */
  predicate OnlyRefused(pr: Prompt, after: Prompt) {
    || after.outcomes == pr.outcomes
    || (|after.outcomes| == |pr.outcomes| + 1 && after.outcomes[..|pr.outcomes|] == pr.outcomes
        && after.outcomes[|pr.outcomes|].Refused?)
  }

  predicate OnlyRefusedAt(s: Session, t: Session, q: nat) {
    q < |s.prompts| && q < |t.prompts| && OnlyRefused(s.prompts[q], t.prompts[q])
  }

  lemma FinishOnlyRefuses(s: Session, p: nat, failure: Option<string>, q: nat)
    requires p < |s.prompts| && q < |s.prompts|
    ensures OnlyRefusedAt(s, FinishAdmission(s, p, failure), q)
  {
  }

  lemma CancelOnlyRefuses(s: Session, q: nat)
    requires q < |s.prompts|
    ensures OnlyRefusedAt(s, CancelPrompt(s), q)
  {
  }

  lemma AdmitOnlyRefuses(s: Session, p: nat, content: ContentResult, agentGone: bool, q: nat)
    requires p < |s.prompts| && q < |s.prompts|
    ensures OnlyRefusedAt(s, AdmitContent(s, p, content, agentGone), q)
  {
    hide FinishAdmission;
    FinishOnlyRefuses(s, p, Some(if content.Rejected? then content.detail else AGENT_GONE), q);
    FinishOnlyRefuses(s, p, Some(ABORTED_IN_ADMISSION), q);
  }

  lemma DeliverOnlyRefuses(s: Session, p: nat, routeFailure: Option<string>, followupFailure: Option<string>, q: nat)
    requires p < |s.prompts| && q < |s.prompts|
    ensures OnlyRefusedAt(s, DeliverMessage(s, p, routeFailure, followupFailure), q)
  {
    hide FinishAdmission;
    FinishOnlyRefuses(s, p, routeFailure, q);
    FinishOnlyRefuses(With(s, p, s.prompts[p].(messageQueued := false)), p, followupFailure, q);
    FinishOnlyRefuses(With(s, p, s.prompts[p].(delivered := true)), p, None, q);
  }

  lemma BeginOnlyRefuses(s: Session, signalAborted: bool, agentGone: bool, q: nat)
    requires q < |s.prompts|
    ensures OnlyRefusedAt(s, BeginPrompt(s, signalAborted, agentGone), q)
  {
    hide FinishAdmission;
    var p := |s.prompts|;
    var claimed := s.(inflight := Some(p), prompts := s.prompts + [FRESH_PROMPT]);
    var noted := if signalAborted then CancelPrompt(claimed) else claimed;
    FinishOnlyRefuses(noted, p, Some(AGENT_GONE), q);
  }

  lemma EventOnlyRefuses(s: Session, event: Event, q: nat)
    requires q < |s.prompts|
    ensures OnlyRefusedAt(s, CommitEvent(s, event), q)
  {
  }

  lemma SignalOnlyRefuses(s: Session, step: Step, q: nat)
    requires Enabled(s, step) && q < |s.prompts|
    requires step.InboxClaimed? || step.AgentFailed? || step.StatusChanged? || step.TopologyChanged?
          || step.UpdateDelivered? || step.IdleFallbackFired? || step.PromptReturned?
    ensures OnlyRefusedAt(s, Next(s, step), q)
  {
    hide CancelPrompt, FinishAdmission, Settle, ObserveAdmission, Decide, CommitEvent, BeginPrompt;
  }

  /** Steps other than those of prompt `q`'s own settlement never answer its caller, but by refusing it. */
  lemma OthersOnlyRefuse(s: Session, step: Step, q: nat)
    requires Enabled(s, step) && q < |s.prompts| && !Drives(step, q)
    ensures OnlyRefusedAt(s, Next(s, step), q)
  {
    hide CancelPrompt, FinishAdmission, BeginPrompt, AdmitContent, DeliverMessage, Settle, ObserveAdmission, ObserveIdle,
         ObserveChildren, ObserveOutput, FallbackFired, Decide, CommitEvent, ClaimInbox, FailAgent, ChangeStatus, DeliverUpdate;
    match step
    case CallPrompt(signalAborted, agentGone) => BeginOnlyRefuses(s, signalAborted, agentGone, q);
    case ContentRead(p, content, agentGone) => AdmitOnlyRefuses(s, p, content, agentGone, q);
    case RouteReturned(p, routeFailure, followupFailure) => DeliverOnlyRefuses(s, p, routeFailure, followupFailure, q);
    case CancelRequested => CancelOnlyRefuses(s, q);
    case RequestAborted(_) => CancelOnlyRefuses(s, q);
    case CloseRequested => CancelOnlyRefuses(s.(closing := true), q);
    case AdmissionObserved(p) => SettlementTouchesOnlyItsOwn(s, step, p);
    case IdleObserved(p) => SettlementTouchesOnlyItsOwn(s, step, p);
    case ChildrenObserved(p, _) => SettlementTouchesOnlyItsOwn(s, step, p);
    case OutputObserved(p) => SettlementTouchesOnlyItsOwn(s, step, p);
    case CancellationObserved(p) => SettlementTouchesOnlyItsOwn(s, step, p);
    case WaitFailed(p) => SettlementTouchesOnlyItsOwn(s, step, p);
    case SlotCleared(p) => SettlementTouchesOnlyItsOwn(s, step, p);
    case FailureCaught(p) => SettlementTouchesOnlyItsOwn(s, step, p);
    case EventCommitted(event) => EventOnlyRefuses(s, event, q);
    case _ => SignalOnlyRefuses(s, step, q);
  }

  /** A record is left unanswered, or answered with one more outcome while it holds the slot. */
  predicate Answered(s: Session, t: Session, p: nat, outcome: Outcome) {
    && p < |s.prompts| && p < |t.prompts|
    && (t.prompts[p].outcomes == s.prompts[p].outcomes
        || (s.inflight == Some(p) && t.prompts[p].outcomes == s.prompts[p].outcomes + [outcome]))
  }

  lemma SettleAnswers(s: Session, p: nat, outcome: Outcome)
    requires p < |s.prompts|
    ensures Answered(s, Settle(s, p, outcome), p, outcome)
  {
    hide Settle;
    SettleShape(s, p, outcome);
  }

  /** A settlement step answers with the decision on its prompt's record, or with the failure of its wait. */
  lemma SettlementAnswers(s: Session, step: Step, p: nat)
    requires Enabled(s, step) && Drives(step, p)
    ensures Answered(s, Next(s, step), p, if step.FailureCaught? then SettlementFailed else Decide(s.prompts[p]))
  {
    hide Decide, Settle, Answered, CancelPrompt, FinishAdmission, BeginPrompt, AdmitContent, DeliverMessage, CommitEvent,
         ObserveIdle, ObserveChildren, ObserveOutput;
    SettleAnswers(s, p, Decide(s.prompts[p]));
    SettleAnswers(s, p, SettlementFailed);
    if step.AdmissionObserved? { AdmissionAnswers(s, p); }
    else if !step.SlotCleared? && !step.FailureCaught? { WaitingAnswersNobody(s, step, p); }
  }

  lemma AdmissionAnswers(s: Session, p: nat)
    requires p < |s.prompts|
    ensures Answered(s, ObserveAdmission(s, p), p, Decide(s.prompts[p]))
  {
    hide Decide, Settle;
    SettleAnswers(s, p, Decide(s.prompts[p]));
  }

  lemma WaitingAnswersNobody(s: Session, step: Step, p: nat)
    requires Enabled(s, step) && Drives(step, p)
    requires !step.SlotCleared? && !step.FailureCaught? && !step.AdmissionObserved?
    ensures Answered(s, Next(s, step), p, Decide(s.prompts[p]))
  {
    hide Decide, Settle, CancelPrompt, FinishAdmission, BeginPrompt, AdmitContent, DeliverMessage, CommitEvent;
  }

  /** The causes of an outcome in their order of precedence. */
  predicate Ranked(pr: Prompt, outcome: Outcome) {
    && (pr.aborted ==> outcome == Resolved(Cancelled))
    && (!pr.aborted && pr.outputError.Some? ==> outcome == OutputFailed(pr.outputError.value))
    && (!pr.aborted && pr.outputError.None? && pr.agentError.Some? ==> outcome == TurnFailed(pr.agentError.value))
    && (!pr.aborted && pr.outputError.None? && pr.agentError.None? ==>
          outcome == match pr.endReason
            case None => Resolved(Cancelled)
            case Some(Failed(m)) => TurnFailed(m)
            case Some(reason) => Resolved(TurnEndToStopReason(reason)))
  }

  lemma DecisionIsRanked(pr: Prompt)
    ensures Ranked(pr, Decide(pr))
  {
  }

  /**
   * Every outcome other than a refusal was decided in one instant, while the prompt still held the slot: either its
   * quiescence wait had failed, or the causes then on its record were looked at in their order of precedence.
   */
  lemma {:induction false} OutcomeIsDecidedOnce(states: seq<Session>, steps: seq<Step>, j: nat, p: nat) returns (i: nat)
    requires Run(states, steps) && j < |states| && p < |states[j].prompts|
    requires states[j].prompts[p].outcomes != [] && !states[j].prompts[p].outcomes[0].Refused?
    ensures i < j && Drives(steps[i], p) && p < |states[i].prompts| && states[i].inflight == Some(p)
    ensures p < |states[i + 1].prompts| && states[i + 1].prompts[p].outcomes == states[j].prompts[p].outcomes
    ensures if steps[i].FailureCaught? then states[j].prompts[p].outcomes == [SettlementFailed]
            else Ranked(states[i].prompts[p], states[j].prompts[p].outcomes[0])
    decreases j
  {
    hide Next, Enabled, Decide, Ranked, Inv, Forward, Correlates;
    var before, step := states[j - 1], steps[j - 1];
    if p >= |before.prompts| {
      NewRecordIsSilent(before, step, p);
    } else {
      StepIsForward(before, step, p);
      AtMostOneOutcome(states, steps, j - 1, j, p);
      AtMostOneOutcome(states, steps, j, j, p);
      if before.prompts[p].outcomes != [] {
        i := OutcomeIsDecidedOnce(states, steps, j - 1, p);
      } else if Drives(step, p) {
        SettlementAnswers(before, step, p);
        DecisionIsRanked(before.prompts[p]);
        i := j - 1;
      } else {
        OthersOnlyRefuse(before, step, p);
      }
    }
  }

  /** A new record is at most refused at once. */
  lemma NewRecordIsSilent(s: Session, step: Step, p: nat)
    requires Enabled(s, step) && |s.prompts| <= p < |Next(s, step).prompts|
    ensures var outcomes := Next(s, step).prompts[p].outcomes; outcomes == [] || outcomes[0].Refused?
  {
    NewRecordComesFromCall(s, step, p);
    hide Next;
  }
}
