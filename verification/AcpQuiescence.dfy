/** When the settlement of a prompt that nobody cancelled may report: only after a stable, drained, idle instant. */
module AcpQuiescence {
  import opened Basics
  import opened AcpLifecycle
  import opened AcpTheorems
  import opened AcpRuns

  /** The only ways into the later suspension points of `awaitQuiescence`. */
  ghost predicate MovesProperly(s: Session, step: Step, before: Settlement, after: Settlement, p: nat) {
    && (after.AwaitChildren? ==> step == IdleObserved(p) && after.idleSeq == s.seqNo)
    && (after.AwaitOutput? ==>
        step == ChildrenObserved(p, false) && before == AwaitChildren(after.idleSeq)
        && IdleAt(s, after.idleSeq) && after.tail == |s.deliveries|)
    && (after == Quiescent && step.OutputObserved? ==>
        before.AwaitOutput? && IdleAt(s, before.idleSeq) && before.tail <= s.drained)
    && (after == Quiescent && !step.OutputObserved? ==> before == AwaitCancelled)
  }

  lemma SettleMoves(s: Session, step: Step, p: nat)
    requires Enabled(s, step) && Drives(step, p)
    requires step.AdmissionObserved? || step.SlotCleared? || step.FailureCaught?
    ensures MovesProperly(s, step, s.prompts[p].settlement, Next(s, step).prompts[p].settlement, p)
  {
    hide Decide, Settle;
    SettleShape(s, p, if step.FailureCaught? then SettlementFailed else Decide(s.prompts[p]));
  }

  lemma WaitMoves(s: Session, step: Step, p: nat)
    requires Enabled(s, step) && Drives(step, p)
    requires step.IdleObserved? || step.ChildrenObserved? || step.OutputObserved?
          || step.CancellationObserved? || step.WaitFailed?
    ensures MovesProperly(s, step, s.prompts[p].settlement, Next(s, step).prompts[p].settlement, p)
  {
  }

  lemma SettlementMoves(s: Session, step: Step, p: nat)
    requires Enabled(s, step) && Drives(step, p)
    ensures MovesProperly(s, step, s.prompts[p].settlement, Next(s, step).prompts[p].settlement, p)
  {
    hide Next, MovesProperly;
    if step.AdmissionObserved? || step.SlotCleared? || step.FailureCaught? {
      SettleMoves(s, step, p);
    } else {
      WaitMoves(s, step, p);
    }
  }

  /** A record that did not exist before a step is not yet past the start of its settlement. */
  lemma NewRecordIsUnsettled(s: Session, step: Step, p: nat)
    requires Enabled(s, step) && |s.prompts| <= p < |Next(s, step).prompts|
    ensures Next(s, step).prompts[p].settlement == NotStarted || Next(s, step).prompts[p].settlement == AwaitAdmission
  {
    hide Next;
    NewRecordComesFromCall(s, step, p);
    if step.CallPrompt? { BegunPromptIsUnsettled(s, step.signalAborted, step.agentGone); }
  }

  lemma BegunPromptIsUnsettled(s: Session, signalAborted: bool, agentGone: bool)
    ensures var t := BeginPrompt(s, signalAborted, agentGone);
      && |t.prompts| == |s.prompts| + 1
      && (t.prompts[|s.prompts|].settlement == NotStarted || t.prompts[|s.prompts|].settlement == AwaitAdmission)
  {
  }

  /** The step that put prompt `p`'s settlement where it is suspended in state `i`. */
  lemma {:induction false} LastMove(states: seq<Session>, steps: seq<Step>, i: nat, p: nat) returns (k: nat)
    requires Run(states, steps) && i < |states| && p < |states[i].prompts|
    requires states[i].prompts[p].settlement != NotStarted && states[i].prompts[p].settlement != AwaitAdmission
    ensures k < i && Drives(steps[k], p) && p < |states[k].prompts| && p < |states[k + 1].prompts|
    ensures states[k + 1].prompts[p].settlement == states[i].prompts[p].settlement
  {
    hide Next, Forward;
    if i == 0 {
      assert false;
    } else if p >= |states[i - 1].prompts| {
      NewRecordIsUnsettled(states[i - 1], steps[i - 1], p);
      assert false;
    } else if Drives(steps[i - 1], p) {
      k := i - 1;
    } else {
      UndrivenStays(states[i - 1], steps[i - 1], p);
      k := LastMove(states, steps, i - 1, p);
    }
  }

  lemma UndrivenStays(s: Session, step: Step, p: nat)
    requires Enabled(s, step) && p < |s.prompts| && !Drives(step, p)
    requires p < |Next(s, step).prompts| && Next(s, step).prompts[p].settlement != AwaitAdmission
    ensures Next(s, step).prompts[p].settlement == s.prompts[p].settlement
  {
    hide Next;
    StepIsForward(s, step, p);
  }

  // ---------------------------------------------------------------- the log and the update chain only grow

  ghost predicate SameLog(s: Session, t: Session) { t.seqNo == s.seqNo && t.drained == s.drained && t.deliveries == s.deliveries }

  lemma AdmissionKeepsLog(s: Session, p: nat, content: ContentResult, gone: bool, a: Option<string>, b: Option<string>)
    requires p < |s.prompts|
    ensures SameLog(s, AdmitContent(s, p, content, gone)) && SameLog(s, DeliverMessage(s, p, a, b))
  {
  }

  lemma BeginKeepsLog(s: Session, signalAborted: bool, agentGone: bool)
    ensures SameLog(s, CancelPrompt(s)) && SameLog(s, BeginPrompt(s, signalAborted, agentGone))
  {
  }

  lemma ListenersKeepLog(s: Session, messageId: nat, turn: int, message: string, a: bool, b: bool)
    ensures SameLog(s, ClaimInbox(s, messageId, turn)) && SameLog(s, FailAgent(s, message))
    ensures SameLog(s, ChangeStatus(s, a, b))
  {
  }

  lemma CommitGrows(s: Session, event: Event)
    ensures CommitEvent(s, event).seqNo == s.seqNo + 1 && CommitEvent(s, event).drained == s.drained
    ensures s.deliveries <= CommitEvent(s, event).deliveries
  {
  }

  lemma DeliveryGrows(s: Session, failure: Option<string>)
    requires s.drained < |s.deliveries|
    ensures DeliverUpdate(s, failure).seqNo == s.seqNo && DeliverUpdate(s, failure).drained == s.drained + 1
    ensures DeliverUpdate(s, failure).deliveries == s.deliveries
  {
  }

  lemma WaitsKeepLog(s: Session, step: Step, p: nat)
    requires Enabled(s, step) && (Drives(step, p) || step.IdleFallbackFired? || step.PromptReturned?)
    ensures SameLog(s, Next(s, step))
  {
    hide Decide, FallbackFired;
  }

  lemma StepGrows(s: Session, step: Step)
    requires Enabled(s, step)
    ensures Next(s, step).seqNo == s.seqNo + (if step.EventCommitted? then 1 else 0)
    ensures s.drained <= Next(s, step).drained && s.deliveries <= Next(s, step).deliveries
  {
    hide CancelPrompt, BeginPrompt, AdmitContent, DeliverMessage, CommitEvent, ClaimInbox, FailAgent, ChangeStatus,
         DeliverUpdate, Settle, ObserveAdmission, ObserveIdle, ObserveChildren, ObserveOutput, FallbackFired, Decide;
    match step
    case CallPrompt(signalAborted, agentGone) => BeginKeepsLog(s, signalAborted, agentGone);
    case ContentRead(p, content, agentGone) => AdmissionKeepsLog(s, p, content, agentGone, None, None);
    case RouteReturned(p, a, b) => AdmissionKeepsLog(s, p, Rejected(""), false, a, b);
    case CancelRequested => BeginKeepsLog(s, false, false);
    case RequestAborted(_) => BeginKeepsLog(s, false, false);
    case CloseRequested => BeginKeepsLog(s.(closing := true), false, false);
    case EventCommitted(event) => CommitGrows(s, event);
    case InboxClaimed(messageId, turn) => ListenersKeepLog(s, messageId, turn, "", false, false);
    case AgentFailed(message) => ListenersKeepLog(s, 0, 0, message, false, false);
    case StatusChanged(emittedIdle, idleNow) => ListenersKeepLog(s, 0, 0, "", emittedIdle, idleNow);
    case TopologyChanged =>
    case UpdateDelivered(failure) => DeliveryGrows(s, failure);
    case _ => WaitsKeepLog(s, step, step.p);
  }

  /** If the log is no longer in state `j` than in state `i`, no event was committed in between. */
  lemma {:induction false} LogGrows(states: seq<Session>, steps: seq<Step>, i: nat, j: nat)
    requires Run(states, steps) && i <= j < |states|
    ensures states[i].seqNo <= states[j].seqNo && states[i].drained <= states[j].drained
    ensures states[i].deliveries <= states[j].deliveries
    ensures states[i].seqNo == states[j].seqNo ==> forall m :: i <= m < j ==> !steps[m].EventCommitted?
    decreases j
  {
    hide Next;
    if i == j {
    } else {
      LogGrows(states, steps, i, j - 1);
      StepGrows(states[j - 1], steps[j - 1]);
    }
  }

  /**
   * In every run, an uncancelled prompt's slot is cleared only after three moments `read < checked < seen`: the
   * log length was read, descendants were found absent while the agent was idle at that length, and the agent was
   * idle at that same length once every update queued by the check had drained. No event was committed in between.
   */
  lemma UncancelledSettlementWasQuiescent(states: seq<Session>, steps: seq<Step>, i: nat, p: nat)
      returns (read: nat, checked: nat, seen: nat)
    requires Run(states, steps) && i < |steps| && steps[i] == SlotCleared(p) && !states[i].prompts[p].aborted
    ensures read < checked < seen < i
    ensures steps[read] == IdleObserved(p) && steps[checked] == ChildrenObserved(p, false) && steps[seen] == OutputObserved(p)
    ensures states[checked].idle && states[seen].idle
    ensures states[read].seqNo == states[checked].seqNo == states[seen].seqNo
    ensures |states[checked].deliveries| <= states[seen].drained
    ensures forall m :: read <= m < seen ==> !steps[m].EventCommitted?
  {
    hide Next, Forward;
    seen := LastMove(states, steps, i, p);
    SettlementMoves(states[seen], steps[seen], p);
    if !steps[seen].OutputObserved? {
      RunKeepsInv(states, steps, seen);
      assert PromptInv(states[seen].prompts[p], states[seen].inflight == Some(p));
      RunIsForward(states, steps, seen, i, p);
      assert false;
    }
    checked := LastMove(states, steps, seen, p);
    SettlementMoves(states[checked], steps[checked], p);
    read := LastMove(states, steps, checked, p);
    SettlementMoves(states[read], steps[read], p);
    LogGrows(states, steps, read, seen);
  }

  /** Only a cancelled prompt, or one that lost the slot, can be settled without that wait. */
  lemma UnqueuedSettlementIsCancelled(states: seq<Session>, steps: seq<Step>, i: nat, p: nat)
    requires Run(states, steps) && i < |steps| && steps[i] == AdmissionObserved(p)
    requires states[i].inflight == Some(p) && !states[i].prompts[p].messageQueued
    ensures states[i].prompts[p].aborted
  {
    RunKeepsInv(states, steps, i);
    assert PromptInv(states[i].prompts[p], true);
  }
}
