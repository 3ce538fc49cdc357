/** No interleaving wedges a prompt: it can always go on, and in a quiet surrounding every schedule ends in its outcome. */
module AcpProgress {
  import opened Basics
  import opened AcpLifecycle
  import opened AcpTheorems
  import opened AcpRuns
  import opened AcpWindows

  // ---------------------------------------------------------------- every wait has something that ends it

  /** Whatever a record waits for is either there already or about to come. */
  ghost predicate Awaitable(pr: Prompt, queued: nat) {
    && (pr.settlement.AwaitOutput? ==> pr.settlement.tail <= queued)
    && (pr.cancellation.Follows? ==> pr.cancellation.tail <= queued)
    && (pr.aborted && pr.cancellation.Unresolved? ==> pr.idleFallback)
  }

  ghost predicate NothingLost(s: Session) {
    forall p :: 0 <= p < |s.prompts| ==> Awaitable(s.prompts[p], |s.deliveries|)
  }

  lemma FinishLosesNothing(s: Session, p: nat, failure: Option<string>)
    requires NothingLost(s) && p < |s.prompts|
    ensures NothingLost(FinishAdmission(s, p, failure))
  {
  }

  lemma CancelLosesNothing(s: Session)
    requires NothingLost(s)
    ensures NothingLost(CancelPrompt(s))
  {
  }

  lemma BeginLosesNothing(s: Session, signalAborted: bool, agentGone: bool)
    requires NothingLost(s)
    ensures NothingLost(BeginPrompt(s, signalAborted, agentGone))
  {
    hide FinishAdmission, CancelPrompt;
    var p := |s.prompts|;
    var claimed := s.(inflight := Some(p), prompts := s.prompts + [FRESH_PROMPT]);
    CancelLosesNothing(claimed);
    var noted := if signalAborted then CancelPrompt(claimed) else claimed;
    CancelForward(claimed, p);
    FinishLosesNothing(noted, p, Some(AGENT_GONE));
  }

  lemma AdmissionLosesNothing(s: Session, p: nat, content: ContentResult, agentGone: bool)
    requires NothingLost(s) && p < |s.prompts|
    ensures NothingLost(AdmitContent(s, p, content, agentGone))
  {
    hide FinishAdmission;
    FinishLosesNothing(s, p, Some(if content.Rejected? then content.detail else AGENT_GONE));
    FinishLosesNothing(s, p, Some(ABORTED_IN_ADMISSION));
  }

  lemma DeliveryLosesNothing(s: Session, p: nat, routeFailure: Option<string>, followupFailure: Option<string>)
    requires NothingLost(s) && p < |s.prompts|
    ensures NothingLost(DeliverMessage(s, p, routeFailure, followupFailure))
  {
    hide FinishAdmission;
    FinishLosesNothing(s, p, routeFailure);
    FinishLosesNothing(With(s, p, s.prompts[p].(messageQueued := false)), p, followupFailure);
    FinishLosesNothing(With(s, p, s.prompts[p].(delivered := true)), p, None);
  }

  lemma EventLosesNothing(s: Session, event: Event)
    requires NothingLost(s)
    ensures NothingLost(CommitEvent(s, event))
  {
  }

  lemma StatusLosesNothing(s: Session, emittedIdle: bool, idleNow: bool)
    requires NothingLost(s)
    ensures NothingLost(ChangeStatus(s, emittedIdle, idleNow))
  {
  }

  lemma ListenersLoseNothing(s: Session, messageId: nat, turn: int, message: string)
    requires NothingLost(s)
    ensures NothingLost(ClaimInbox(s, messageId, turn)) && NothingLost(FailAgent(s, message))
  {
  }

  lemma UpdateLosesNothing(s: Session, failure: Option<string>)
    requires NothingLost(s) && s.drained < |s.deliveries|
    ensures NothingLost(DeliverUpdate(s, failure))
  {
  }

  lemma SettleLosesNothing(s: Session, p: nat, outcome: Outcome)
    requires NothingLost(s) && p < |s.prompts|
    ensures NothingLost(Settle(s, p, outcome))
  {
  }

  lemma WaitLosesNothing(s: Session, step: Step)
    requires NothingLost(s) && Enabled(s, step)
    requires step.IdleObserved? || step.ChildrenObserved? || step.OutputObserved? || step.CancellationObserved?
          || step.WaitFailed? || step.IdleFallbackFired? || step.PromptReturned? || step.TopologyChanged?
    ensures NothingLost(Next(s, step))
  {
  }

  lemma StepLosesNothing(s: Session, step: Step)
    requires NothingLost(s) && Enabled(s, step)
    ensures NothingLost(Next(s, step))
  {
    hide NothingLost, CancelPrompt, BeginPrompt, AdmitContent, DeliverMessage, CommitEvent, ClaimInbox, FailAgent,
         ChangeStatus, DeliverUpdate, Settle, Decide;
    match step
    case CallPrompt(signalAborted, agentGone) => BeginLosesNothing(s, signalAborted, agentGone);
    case ContentRead(p, content, agentGone) => AdmissionLosesNothing(s, p, content, agentGone);
    case RouteReturned(p, a, b) => DeliveryLosesNothing(s, p, a, b);
    case CancelRequested => CancelLosesNothing(s);
    case RequestAborted(_) => CancelLosesNothing(s);
    case CloseRequested => ClosingLosesNothing(s);
    case EventCommitted(event) => EventLosesNothing(s, event);
    case InboxClaimed(messageId, turn) => ListenersLoseNothing(s, messageId, turn, "");
    case AgentFailed(message) => ListenersLoseNothing(s, 0, 0, message);
    case StatusChanged(a, b) => StatusLosesNothing(s, a, b);
    case UpdateDelivered(failure) => UpdateLosesNothing(s, failure);
    case AdmissionObserved(p) => AdmissionWaitLosesNothing(s, p);
    case SlotCleared(p) => SettleLosesNothing(s, p, Decide(s.prompts[p]));
    case FailureCaught(p) => SettleLosesNothing(s, p, SettlementFailed);
    case _ => WaitLosesNothing(s, step);
  }

  lemma ClosingLosesNothing(s: Session)
    requires NothingLost(s)
    ensures NothingLost(CancelPrompt(s.(closing := true)))
  {
    hide CancelPrompt;
    CancelLosesNothing(s.(closing := true));
  }

  lemma AdmissionWaitLosesNothing(s: Session, p: nat)
    requires NothingLost(s) && p < |s.prompts|
    ensures NothingLost(ObserveAdmission(s, p))
  {
    hide Settle, Decide;
    SettleLosesNothing(s, p, Decide(s.prompts[p]));
  }

  lemma {:induction false} RunLosesNothing(states: seq<Session>, steps: seq<Step>, i: nat)
    requires Run(states, steps) && i < |states|
    ensures NothingLost(states[i])
  {
    hide NothingLost, Next, Enabled;
    if i == 0 {
      assert NothingLost(states[0]) by { FreshLosesNothing(states[0]); }
    } else {
      RunLosesNothing(states, steps, i - 1);
      StepLosesNothing(states[i - 1], steps[i - 1]);
    }
  }

  lemma FreshLosesNothing(s: Session)
    requires Initial(s)
    ensures NothingLost(s)
  {
  }

  // ---------------------------------------------------------------- the prompt's own steps

  /** The steps of one prompt's two coroutines and of the update chain, while its agent has no live descendants. */
  predicate Own(step: Step, p: nat) {
    match step
    case ContentRead(q, _, _) => q == p
    case RouteReturned(q, _, _) => q == p
    case IdleFallbackFired(q, _) => q == p
    case UpdateDelivered(_) => true
    case ChildrenObserved(q, any) => q == p && !any
    case _ => Drives(step, p)
  }

  /** The step with which a prompt's coroutine, or what it waits for, goes on. */
  function Onward(s: Session, p: nat): Step
    requires p < |s.prompts|
  {
    var pr := s.prompts[p];
    match pr.admission
    case ReadingContent => ContentRead(p, Admitted(0), false)
    case Routing => RouteReturned(p, None, None)
    case _ =>
      match pr.settlement
      case AwaitIdle => IdleObserved(p)
      case AwaitChildren(_) => ChildrenObserved(p, false)
      case AwaitOutput(_, tail) => if tail <= s.drained then OutputObserved(p) else UpdateDelivered(None)
      case AwaitCancelled =>
        if CancellationSettled(s, pr) then CancellationObserved(p)
        else if pr.cancellation.Unresolved? then IdleFallbackFired(p, false)
        else UpdateDelivered(None)
      case Quiescent => SlotCleared(p)
      case WaitRejected => FailureCaught(p)
      case _ => AdmissionObserved(p)
  }

  /** A prompt without an outcome is never stuck: one of its own steps is enabled. */
  lemma OnwardIsEnabled(s: Session, p: nat)
    requires Inv(s) && NothingLost(s) && p < |s.prompts| && s.prompts[p].outcomes == []
    ensures Own(Onward(s, p), p) && Enabled(s, Onward(s, p))
  {
    assert PromptInv(s.prompts[p], s.inflight == Some(p));
    assert Awaitable(s.prompts[p], |s.deliveries|);
  }

  /** At every point of every run a prompt without an outcome has an own step that can happen next. */
  lemma NeverStuck(states: seq<Session>, steps: seq<Step>, i: nat, p: nat)
    requires Run(states, steps) && i < |states| && p < |states[i].prompts| && states[i].prompts[p].outcomes == []
    ensures exists step :: Own(step, p) && Enabled(states[i], step)
  {
    hide Inv, NothingLost, Enabled, Own, Onward, Next;
    RunKeepsInv(states, steps, i);
    RunLosesNothing(states, steps, i);
    OnwardIsEnabled(states[i], p);
    assert Own(Onward(states[i], p), p);
  }

  // ---------------------------------------------------------------- how far it still is

  function AdmissionRank(admission: Admission): nat {
    match admission case ReadingContent => 3 case Routing => 2 case AwaitingCompletion => 1 case Returned => 0
  }

  /** How far a settlement still has to go; one that read a log position since passed must go round once more. */
  function SettlementRank(settlement: Settlement, seqNo: nat): nat {
    match settlement
    case NotStarted => 9
    case AwaitAdmission => 9
    case AwaitOutput(idleSeq, _) => if idleSeq == seqNo then 4 else 8
    case AwaitChildren(idleSeq) => if idleSeq == seqNo then 5 else 7
    case AwaitIdle => 6
    case AwaitCancelled => 3
    case Quiescent => 2
    case WaitRejected => 2
    case Finished => 0
  }

  function RecordRank(pr: Prompt, seqNo: nat): nat {
    AdmissionRank(pr.admission) + SettlementRank(pr.settlement, seqNo) + if pr.idleFallback then 1 else 0
  }

  /** An upper bound on the own steps a prompt still takes while the agent stays idle. */
  function Distance(s: Session, p: nat): nat
    requires p < |s.prompts| && s.drained <= |s.deliveries|
  {
    RecordRank(s.prompts[p], s.seqNo) + |s.deliveries| - s.drained
  }

  /** The surroundings of a prompt's record stay as they are but for updates that settle. */
  ghost predicate Nearer(s: Session, t: Session, p: nat) {
    && t.idle == s.idle && t.seqNo == s.seqNo && t.deliveries == s.deliveries
    && p < |s.prompts| && p < |t.prompts|
    && s.drained <= |s.deliveries| && t.drained <= |t.deliveries|
    && Distance(t, p) < Distance(s, p)
  }

  lemma FinishComesNearer(s: Session, p: nat, failure: Option<string>, rank: nat)
    requires p < |s.prompts| && s.drained <= |s.deliveries| && rank > 1
    requires s.prompts[p].settlementStarted <==> s.prompts[p].settlement != NotStarted
    ensures var t := FinishAdmission(s, p, failure);
      && t.idle == s.idle && t.seqNo == s.seqNo && t.deliveries == s.deliveries && t.drained == s.drained
      && p < |t.prompts|
      && AdmissionRank(t.prompts[p].admission) < rank
      && SettlementRank(t.prompts[p].settlement, s.seqNo) == SettlementRank(s.prompts[p].settlement, s.seqNo)
      && t.prompts[p].idleFallback == s.prompts[p].idleFallback
  {
  }

  lemma AdmissionComesNearer(s: Session, p: nat, content: ContentResult, agentGone: bool)
    requires Inv(s) && p < |s.prompts| && s.prompts[p].admission == ReadingContent
    ensures Nearer(s, AdmitContent(s, p, content, agentGone), p)
  {
    hide FinishAdmission;
    assert PromptInv(s.prompts[p], s.inflight == Some(p));
    FinishComesNearer(s, p, Some(if content.Rejected? then content.detail else AGENT_GONE), 3);
    FinishComesNearer(s, p, Some(ABORTED_IN_ADMISSION), 3);
  }

  lemma DeliveryComesNearer(s: Session, p: nat, routeFailure: Option<string>, followupFailure: Option<string>)
    requires Inv(s) && p < |s.prompts| && s.prompts[p].admission == Routing
    ensures Nearer(s, DeliverMessage(s, p, routeFailure, followupFailure), p)
  {
    hide FinishAdmission;
    assert PromptInv(s.prompts[p], s.inflight == Some(p));
    FinishComesNearer(s, p, routeFailure, 2);
    FinishComesNearer(With(s, p, s.prompts[p].(messageQueued := false)), p, followupFailure, 2);
    FinishComesNearer(With(s, p, s.prompts[p].(delivered := true)), p, None, 2);
  }

  lemma UpdateComesNearer(s: Session, failure: Option<string>, p: nat)
    requires Inv(s) && p < |s.prompts| && s.drained < |s.deliveries|
    ensures Nearer(s, DeliverUpdate(s, failure), p)
  {
  }

  lemma SettleComesNearer(s: Session, p: nat, outcome: Outcome)
    requires Inv(s) && p < |s.prompts| && SettlementRank(s.prompts[p].settlement, s.seqNo) > 0
    ensures Nearer(s, Settle(s, p, outcome), p)
  {
    hide Settle;
    SettleShape(s, p, outcome);
    SettleKeepsSurroundings(s, p, outcome);
  }

  lemma SettleKeepsSurroundings(s: Session, p: nat, outcome: Outcome)
    requires p < |s.prompts|
    ensures Settle(s, p, outcome).idle == s.idle && Settle(s, p, outcome).seqNo == s.seqNo
  {
  }

  lemma AdmissionWaitComesNearer(s: Session, p: nat)
    requires Inv(s) && p < |s.prompts| && s.prompts[p].settlement == AwaitAdmission
    ensures Nearer(s, ObserveAdmission(s, p), p)
  {
    hide Settle, Decide;
    SettleComesNearer(s, p, Decide(s.prompts[p]));
  }

  lemma WaitComesNearer(s: Session, step: Step, p: nat)
    requires Inv(s) && s.idle && Enabled(s, step) && Own(step, p)
    requires step.IdleObserved? || step.ChildrenObserved? || step.OutputObserved? || step.CancellationObserved?
          || step.WaitFailed? || step.IdleFallbackFired?
    ensures Nearer(s, Next(s, step), p)
  {
    hide PromptInv;
  }

  /** With an idle agent every own step brings a prompt nearer to its outcome, whichever way the step turns out. */
  lemma OwnStepComesNearer(s: Session, step: Step, p: nat)
    requires Inv(s) && s.idle && p < |s.prompts| && Enabled(s, step) && Own(step, p)
    ensures Nearer(s, Next(s, step), p)
  {
    hide Inv, Nearer, AdmitContent, DeliverMessage, DeliverUpdate, Settle, ObserveAdmission, Decide, CancelPrompt, BeginPrompt,
         CommitEvent;
    match step
    case ContentRead(_, content, agentGone) => AdmissionComesNearer(s, p, content, agentGone);
    case RouteReturned(_, a, b) => DeliveryComesNearer(s, p, a, b);
    case UpdateDelivered(failure) => UpdateComesNearer(s, failure, p);
    case AdmissionObserved(_) => AdmissionWaitComesNearer(s, p);
    case SlotCleared(_) => SettleComesNearer(s, p, Decide(s.prompts[p]));
    case FailureCaught(_) => SettleComesNearer(s, p, SettlementFailed);
    case _ => WaitComesNearer(s, step, p);
  }

  // ---------------------------------------------------------------- quiet schedules

  /** From one point of a run on, the agent is idle and only own steps of one prompt are taken. */
  ghost predicate Quiet(states: seq<Session>, steps: seq<Step>, i: nat, p: nat) {
    && i < |states| && |states| == |steps| + 1 && p < |states[i].prompts| && states[i].idle
    && forall m :: i <= m < |steps| ==> Own(steps[m], p)
  }

  /** A prompt without an outcome is at a positive distance from it. */
  lemma UnansweredIsAway(s: Session, p: nat)
    requires Inv(s) && p < |s.prompts| && s.prompts[p].outcomes == []
    ensures s.drained <= |s.deliveries| && Distance(s, p) > 0
  {
    assert PromptInv(s.prompts[p], s.inflight == Some(p));
  }

  lemma {:induction false} QuietComesNearer(states: seq<Session>, steps: seq<Step>, i: nat, j: nat, p: nat)
    requires Run(states, steps) && Quiet(states, steps, i, p) && i <= j < |states|
    ensures states[j].idle && p < |states[j].prompts|
    ensures states[i].drained <= |states[i].deliveries| && states[j].drained <= |states[j].deliveries|
    ensures Distance(states[j], p) + (j - i) <= Distance(states[i], p)
    decreases j
  {
    hide Next, Enabled, Own, Distance, PromptInv;
    RunKeepsInv(states, steps, i);
    RunKeepsInv(states, steps, j);
    if i == j {
    } else {
      QuietComesNearer(states, steps, i, j - 1, p);
      RunKeepsInv(states, steps, j - 1);
      OwnStepComesNearer(states[j - 1], steps[j - 1], p);
    }
  }

  /**
   * Once the agent is idle and nothing new comes in, every schedule of a prompt's own steps answers it within its distance,
   * however the reads, the routing, the updates and the waits turn out.
   */
  lemma EveryQuietScheduleSettles(states: seq<Session>, steps: seq<Step>, i: nat, p: nat)
    requires Run(states, steps) && Quiet(states, steps, i, p)
    requires states[i].drained <= |states[i].deliveries| && |steps| - i >= Distance(states[i], p)
    ensures p < |states[|steps|].prompts| && |states[|steps|].prompts[p].outcomes| == 1
  {
    hide Next, Enabled, Own, Distance, Inv;
    QuietComesNearer(states, steps, i, |steps|, p);
    RunKeepsInv(states, steps, |steps|);
    AtMostOneOutcome(states, steps, |steps|, |steps|, p);
    if states[|steps|].prompts[p].outcomes == [] { UnansweredIsAway(states[|steps|], p); }
  }

  /** The distance is bounded: thirteen steps and the updates that have not settled. */
  lemma DistanceIsBounded(s: Session, p: nat)
    requires p < |s.prompts| && s.drained <= |s.deliveries|
    ensures Distance(s, p) <= 13 + |s.deliveries| - s.drained
  {
  }

  /** From an idle point on, own steps alone lead to the outcome. */
  lemma IdleRunSettles(states: seq<Session>, steps: seq<Step>, p: nat) returns (more: seq<Session>, taken: seq<Step>)
    requires Run(states, steps) && p < |states[|steps|].prompts| && states[|steps|].idle
    requires states[|steps|].drained <= |states[|steps|].deliveries|
    ensures Run(more, taken) && states <= more && steps <= taken
    ensures forall m :: |steps| <= m < |taken| ==> Own(taken[m], p)
    ensures p < |more[|taken|].prompts| && |more[|taken|].prompts[p].outcomes| == 1
    decreases Distance(states[|steps|], p)
  {
    hide Next, Enabled, Own, Distance, Inv, NothingLost, Onward, PromptInv;
    var s := states[|steps|];
    AtMostOneOutcome(states, steps, |steps|, |steps|, p);
    if s.prompts[p].outcomes != [] {
      more, taken := states, steps;
    } else {
      RunKeepsInv(states, steps, |steps|);
      RunLosesNothing(states, steps, |steps|);
      OnwardIsEnabled(s, p);
      OwnStepComesNearer(s, Onward(s, p), p);
      RunExtends(states, steps, Onward(s, p));
      more, taken := IdleRunSettles(states + [Next(s, Onward(s, p))], steps + [Onward(s, p)], p);
      assert taken[|steps|] == (steps + [Onward(s, p)])[|steps|];
    }
  }

  /**
   * Every admitted prompt can always still get its one outcome: any run goes on, with the agent going idle if it is busy and
   * then own steps of the prompt only, to a state in which the prompt has exactly one outcome.
   */
  lemma EveryPromptCanSettle(states: seq<Session>, steps: seq<Step>, p: nat) returns (more: seq<Session>, taken: seq<Step>)
    requires Run(states, steps) && p < |states[|steps|].prompts|
    ensures Run(more, taken) && states <= more && steps <= taken
    ensures p < |more[|taken|].prompts| && |more[|taken|].prompts[p].outcomes| == 1
    ensures forall m :: |steps| <= m < |taken| ==>
      Own(taken[m], p) || (m == |steps| && !states[m].idle && taken[m] == StatusChanged(true, true))
  {
    hide Next, Enabled, Own, Inv;
    var s := states[|steps|];
    RunKeepsInv(states, steps, |steps|);
    ChainIsDrainedSoFar(s);
    if s.idle {
      more, taken := IdleRunSettles(states, steps, p);
    } else {
      var goesIdle := StatusChanged(true, true);
      GoingIdle(s, p);
      RunExtends(states, steps, goesIdle);
      more, taken := IdleRunSettles(states + [Next(s, goesIdle)], steps + [goesIdle], p);
      assert taken[|steps|] == (steps + [goesIdle])[|steps|];
    }
  }

  lemma ChainIsDrainedSoFar(s: Session)
    requires Inv(s)
    ensures s.drained <= |s.deliveries|
  {
  }

  lemma GoingIdle(s: Session, p: nat)
    requires Inv(s) && p < |s.prompts|
    ensures var step := StatusChanged(true, true);
      Enabled(s, step) && Next(s, step).idle && |Next(s, step).prompts| == |s.prompts|
      && Next(s, step).drained <= |Next(s, step).deliveries|
  {
    hide SettleCancelledOnStatus;
  }
}
