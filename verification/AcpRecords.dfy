/** Which steps write which field of a prompt's record, and nothing else does. */
module AcpRecords {
  import opened Basics
  import opened AcpLifecycle
  import opened AcpTheorems
  import opened AcpRuns

  /** The step cancels prompt `q`: a cancellation of any kind that finds it in flight. */
  predicate Cancels(s: Session, step: Step, q: nat) {
    s.inflight == Some(q) && (step.CancelRequested? || step.RequestAborted? || (step.CloseRequested? && !s.closing))
  }

  /** The step queues prompt `q`'s message: its content has been read, in time, for an agent that is there. */
  predicate Queues(step: Step, pr: Prompt, q: nat) {
    step.ContentRead? && step.p == q && step.content.Admitted? && !step.agentGone && !pr.aborted
  }

  /** The update that settles belongs to prompt `q` and failed. */
  predicate FailsOwn(s: Session, step: Step, q: nat) {
    step.UpdateDelivered? && step.failure.Some? && s.drained < |s.deliveries| && s.deliveries[s.drained] == Some(q)
  }

  /** An agent failure that prompt `q` hears of. */
  predicate Blames(s: Session, step: Step, q: nat) {
    step.AgentFailed? && s.inflight == Some(q) && q < |s.prompts| && s.prompts[q].messageQueued
  }

  /** The end of prompt `q`'s own turn. */
  predicate EndsTurn(s: Session, step: Step, q: nat) {
    step.EventCommitted? && step.event.TurnEnd? && s.inflight == Some(q) && q < |s.prompts|
    && s.prompts[q].turn == Some(step.event.turn)
  }

  /** A status emission that releases a cancelled prompt. */
  predicate StatusReleases(s: Session, step: Step, q: nat) {
    step.StatusChanged? && s.inflight == Some(q) && q < |s.prompts| && s.prompts[q].messageQueued && s.prompts[q].aborted
    && (step.emittedIdle || s.prompts[q].cancelStartedIdle)
  }

  /** What becomes of the promise that a cancelled prompt waits for. */
  function Released(s: Session, step: Step, q: nat): CancellationDone
    requires q < |s.prompts|
  {
    var pr := s.prompts[q];
    if !pr.cancellation.Unresolved? then pr.cancellation
    else if Cancels(s, step, q) && !pr.messageQueued then Follows(0)
    else if StatusReleases(s, step, q) then Follows(|s.deliveries|)
    else if step.IdleFallbackFired? && step.p == q then (if step.rejected then Broken else Follows(|s.deliveries|))
    else Unresolved
  }

  /** Every write to the causes of an outcome and to the cancellation of one record. */
  ghost predicate Writes(s: Session, step: Step, q: nat, after: Prompt)
    requires q < |s.prompts|
  {
    var pr := s.prompts[q];
    && after.outputError == (if FailsOwn(s, step, q) && pr.outputError.None? then step.failure else pr.outputError)
    && after.agentError == (if Blames(s, step, q) then Some(step.message) else if EndsTurn(s, step, q) then None else pr.agentError)
    && after.aborted == (pr.aborted || Cancels(s, step, q))
    && after.cancelStartedIdle == (if Cancels(s, step, q) && !pr.aborted then s.idle else pr.cancelStartedIdle)
    && after.cancellation == Released(s, step, q)
    && after.idleFallback == ((pr.idleFallback && !(step.IdleFallbackFired? && step.p == q))
                              || (Cancels(s, step, q) && pr.messageQueued && !pr.aborted))
    && after.messageId == (if Queues(step, pr, q) then Some(step.content.messageId) else pr.messageId)
    && after.messageQueued == ((pr.messageQueued || Queues(step, pr, q)) && !Unqueues(step, q))
    && after.delivered == (pr.delivered || (step.RouteReturned? && step.p == q && step.routeFailure.None? && step.followupFailure.None?))
  }

  /** The agent rejects the message in `followup`. */
  predicate Unqueues(step: Step, q: nat) {
    step.RouteReturned? && step.p == q && step.routeFailure.None? && step.followupFailure.Some?
  }

  /** None of these fields has changed. */
  predicate Unwritten(pr: Prompt, after: Prompt) {
    && after.outputError == pr.outputError && after.agentError == pr.agentError && after.aborted == pr.aborted
    && after.cancelStartedIdle == pr.cancelStartedIdle && after.cancellation == pr.cancellation
    && after.idleFallback == pr.idleFallback && after.messageId == pr.messageId && after.messageQueued == pr.messageQueued
    && after.delivered == pr.delivered
  }

  /** A step of one of the settlement or delivery kinds, which touches none of them. */
  predicate Inert(step: Step) {
    step.AdmissionObserved? || step.IdleObserved? || step.ChildrenObserved? || step.OutputObserved? || step.CancellationObserved?
    || step.WaitFailed? || step.SlotCleared? || step.FailureCaught? || step.PromptReturned? || step.TopologyChanged?
    || step.CallPrompt? || step.InboxClaimed?
  }

  lemma FinishWritesNothing(s: Session, p: nat, failure: Option<string>, q: nat)
    requires p < |s.prompts| && q < |s.prompts|
    ensures q < |FinishAdmission(s, p, failure).prompts| && Unwritten(s.prompts[q], FinishAdmission(s, p, failure).prompts[q])
  {
  }

  lemma SettleWritesNothing(s: Session, p: nat, outcome: Outcome, q: nat)
    requires p < |s.prompts| && q < |s.prompts|
    ensures q < |Settle(s, p, outcome).prompts| && Unwritten(s.prompts[q], Settle(s, p, outcome).prompts[q])
  {
  }

  lemma BeginWritesNothing(s: Session, signalAborted: bool, agentGone: bool, q: nat)
    requires q < |s.prompts|
    ensures var t := BeginPrompt(s, signalAborted, agentGone); q < |t.prompts| && Unwritten(s.prompts[q], t.prompts[q])
  {
    hide FinishAdmission, RequestCancellation, Unwritten;
    var p := |s.prompts|;
    var claimed := s.(inflight := Some(p), prompts := s.prompts + [FRESH_PROMPT]);
    var noted := if signalAborted then CancelPrompt(claimed) else claimed;
    FinishWritesNothing(noted, p, Some(AGENT_GONE), q);
    Same(s.prompts[q]);
  }

  lemma Same(pr: Prompt)
    ensures Unwritten(pr, pr)
  {
  }

  lemma InertWritesNothing(s: Session, step: Step, q: nat)
    requires Enabled(s, step) && q < |s.prompts| && Inert(step)
    ensures q < |Next(s, step).prompts| && Unwritten(s.prompts[q], Next(s, step).prompts[q])
  {
    hide BeginPrompt, Settle, Decide, Unwritten;
    if step.CallPrompt? {
      BeginWritesNothing(s, step.signalAborted, step.agentGone, q);
      Same(s.prompts[q]);
    } else if step.AdmissionObserved? || step.SlotCleared? || step.FailureCaught? {
      SettleWritesNothing(s, step.p, if step.FailureCaught? then SettlementFailed else Decide(s.prompts[step.p]), q);
      if step.AdmissionObserved? { Moves(s.prompts[step.p], AwaitIdle, None); }
      Same(s.prompts[q]);
    } else {
      MoveWritesNothing(s, step, q);
    }
  }

  lemma Moves(pr: Prompt, settlement: Settlement, turn: Option<int>)
    ensures Unwritten(pr, pr.(settlement := settlement))
    ensures Unwritten(pr, pr.(admission := Returned)) && Unwritten(pr, pr.(turn := turn))
  {
  }

  lemma MoveWritesNothing(s: Session, step: Step, q: nat)
    requires Enabled(s, step) && q < |s.prompts| && Inert(step)
    requires !step.CallPrompt? && !step.AdmissionObserved? && !step.SlotCleared? && !step.FailureCaught?
    ensures q < |Next(s, step).prompts| && Unwritten(s.prompts[q], Next(s, step).prompts[q])
  {
    hide BeginPrompt, FinishAdmission, Settle, Decide, CancelPrompt, CommitEvent, AdmitContent, DeliverMessage, ChangeStatus, FailAgent,
         DeliverUpdate, ObserveAdmission, Unwritten;
    Same(s.prompts[q]);
    forall settlement, turn
      ensures Unwritten(s.prompts[q], s.prompts[q].(settlement := settlement))
      ensures Unwritten(s.prompts[q], s.prompts[q].(admission := Returned))
      ensures Unwritten(s.prompts[q], s.prompts[q].(turn := turn))
    {
      Moves(s.prompts[q], settlement, turn);
    }
  }

  lemma CancelledRecord(s: Session, step: Step, q: nat)
    requires q < |s.prompts| && (step.CancelRequested? || step.RequestAborted? || step.CloseRequested?) && Enabled(s, step)
    ensures q < |Next(s, step).prompts|
    ensures Next(s, step).prompts[q] == if Cancels(s, step, q) then RequestCancellation(s.prompts[q], s.idle) else s.prompts[q]
  {
    hide BeginPrompt, FinishAdmission, Settle, CommitEvent, AdmitContent, DeliverMessage, ChangeStatus, FailAgent, DeliverUpdate,
         RequestCancellation;
  }

  lemma CancelWrites(s: Session, step: Step, q: nat)
    requires q < |s.prompts| && (step.CancelRequested? || step.RequestAborted? || step.CloseRequested?) && Enabled(s, step)
    ensures q < |Next(s, step).prompts| && Writes(s, step, q, Next(s, step).prompts[q])
  {
    hide Next, Enabled, Inv, FailsOwn, Blames, EndsTurn, StatusReleases, Queues, Unqueues, RequestCancellation;
    CancelledRecord(s, step, q);
    CancelIsNothingElse(s, step, q);
    CancelledFields(s.prompts[q], s.idle);
  }

  lemma CancelIsNothingElse(s: Session, step: Step, q: nat)
    requires q < |s.prompts| && (step.CancelRequested? || step.RequestAborted? || step.CloseRequested?)
    ensures !FailsOwn(s, step, q) && !Blames(s, step, q) && !EndsTurn(s, step, q) && !StatusReleases(s, step, q)
    ensures !Queues(step, s.prompts[q], q) && !Unqueues(step, q)
  {
  }

  lemma CancelledFields(pr: Prompt, agentIdle: bool)
    ensures var after := RequestCancellation(pr, agentIdle);
      && after.aborted && after.cancelStartedIdle == (if pr.aborted then pr.cancelStartedIdle else agentIdle)
      && after.outputError == pr.outputError && after.agentError == pr.agentError && after.messageId == pr.messageId
      && after.messageQueued == pr.messageQueued && after.delivered == pr.delivered
      && after.cancellation == (if pr.cancellation.Unresolved? && !pr.messageQueued then Follows(0) else pr.cancellation)
      && after.idleFallback == (pr.idleFallback || (pr.messageQueued && !pr.aborted))
  {
    hide StartSettlement;
    StartWritesNothing(pr.(aborted := true, cancelStartedIdle := if pr.aborted then pr.cancelStartedIdle else agentIdle));
  }

  lemma StartWritesNothing(pr: Prompt)
    ensures Unwritten(pr, StartSettlement(pr))
  {
  }

  /** The rest of an admission leaves these fields as they are, so that what was written before it stays. */
  lemma FinishKeepsWrites(s: Session, step: Step, q: nat, middle: Prompt, after: Prompt)
    requires q < |s.prompts| && Writes(s, step, q, middle) && Unwritten(middle, after)
    ensures Writes(s, step, q, after)
  {
  }

  /** Before the rest of the admission: the message is queued, or nothing is written. */
  lemma AdmitWritesMiddle(s: Session, step: Step, q: nat)
    requires q < |s.prompts| && step.ContentRead? && Enabled(s, step) && Inv(s)
    ensures if Queues(step, s.prompts[step.p], step.p)
            then Writes(s, step, q, if q == step.p
                                    then s.prompts[q].(messageId := Some(step.content.messageId), messageQueued := true, admission := Routing)
                                    else s.prompts[q])
            else Writes(s, step, q, s.prompts[q])
  {
    assert PromptInv(s.prompts[step.p], s.inflight == Some(step.p));
  }

  lemma AdmitWrites(s: Session, step: Step, q: nat)
    requires q < |s.prompts| && step.ContentRead? && Enabled(s, step) && Inv(s)
    ensures q < |Next(s, step).prompts| && Writes(s, step, q, Next(s, step).prompts[q])
  {
    hide BeginPrompt, FinishAdmission, Settle, Decide, CommitEvent, CancelPrompt, DeliverMessage, ChangeStatus, FailAgent, DeliverUpdate,
         Writes, Unwritten, Inv;
    var p := step.p;
    AdmitWritesMiddle(s, step, q);
    if !Queues(step, s.prompts[p], p) {
      FinishWritesNothing(s, p, if step.content.Rejected? then Some(step.content.detail)
                                else if s.prompts[p].aborted then Some(ABORTED_IN_ADMISSION) else Some(AGENT_GONE), q);
      FinishKeepsWrites(s, step, q, s.prompts[q], Next(s, step).prompts[q]);
    }
  }

  lemma RouteWrites(s: Session, step: Step, q: nat)
    requires q < |s.prompts| && step.RouteReturned? && Enabled(s, step) && Inv(s)
    ensures q < |Next(s, step).prompts| && Writes(s, step, q, Next(s, step).prompts[q])
  {
    hide BeginPrompt, FinishAdmission, Settle, Decide, CommitEvent, CancelPrompt, AdmitContent, ChangeStatus, FailAgent, DeliverUpdate,
         Writes, Unwritten, Inv;
    var p := step.p;
    var middle := if step.routeFailure.Some? then s.prompts[p]
                  else if step.followupFailure.Some? then s.prompts[p].(messageQueued := false)
                  else s.prompts[p].(delivered := true);
    assert With(s, p, s.prompts[p]) == s;
    var t := With(s, p, middle);
    FinishWritesNothing(t, p, if step.routeFailure.Some? then step.routeFailure else step.followupFailure, q);
    RouteWritesMiddle(s, step, q, middle);
    FinishKeepsWrites(s, step, q, t.prompts[q], Next(s, step).prompts[q]);
  }

  lemma RouteWritesMiddle(s: Session, step: Step, q: nat, middle: Prompt)
    requires q < |s.prompts| && step.RouteReturned? && Enabled(s, step) && Inv(s)
    requires middle == if step.routeFailure.Some? then s.prompts[step.p]
                       else if step.followupFailure.Some? then s.prompts[step.p].(messageQueued := false)
                       else s.prompts[step.p].(delivered := true)
    ensures Writes(s, step, q, if q == step.p then middle else s.prompts[q])
  {
    assert PromptInv(s.prompts[q], s.inflight == Some(q));
  }

  /** The listeners rewrite the record that holds the slot, by the function for their signal. */
  lemma ListenersRewrite(s: Session, event: Event, message: string, emittedIdle: bool, idleNow: bool, q: nat)
    requires q < |s.prompts|
    ensures var pr, held := s.prompts[q], s.inflight == Some(q);
      var events, failures, statuses := CommitEvent(s, event).prompts, FailAgent(s, message).prompts, ChangeStatus(s, emittedIdle, idleNow).prompts;
      && |events| == |failures| == |statuses| == |s.prompts|
      && events[q] == (if held then NoteEvent(pr, event) else pr)
      && failures[q] == (if held then NoteAgentError(pr, message) else pr)
      && statuses[q] == (if held then SettleCancelledOnStatus(pr, emittedIdle, |s.deliveries|) else pr)
  {
    hide NoteEvent, NoteAgentError, SettleCancelledOnStatus;
  }

  lemma EventWrites(s: Session, event: Event, q: nat, after: Prompt)
    requires q < |s.prompts| && after == if s.inflight == Some(q) then NoteEvent(s.prompts[q], event) else s.prompts[q]
    ensures Writes(s, EventCommitted(event), q, after)
  {
  }

  lemma FailureWrites(s: Session, message: string, q: nat, after: Prompt)
    requires q < |s.prompts| && after == if s.inflight == Some(q) then NoteAgentError(s.prompts[q], message) else s.prompts[q]
    ensures Writes(s, AgentFailed(message), q, after)
  {
  }

  lemma StatusWrites(s: Session, emittedIdle: bool, idleNow: bool, q: nat, after: Prompt)
    requires q < |s.prompts|
    requires after == if s.inflight == Some(q) then SettleCancelledOnStatus(s.prompts[q], emittedIdle, |s.deliveries|) else s.prompts[q]
    ensures Writes(s, StatusChanged(emittedIdle, idleNow), q, after)
  {
  }

  lemma DeliveryWrites(s: Session, failure: Option<string>, q: nat)
    requires q < |s.prompts| && s.drained < |s.deliveries|
    ensures q < |DeliverUpdate(s, failure).prompts| && Writes(s, UpdateDelivered(failure), q, DeliverUpdate(s, failure).prompts[q])
  {
  }

  lemma FallbackWrites(s: Session, p: nat, rejected: bool, q: nat)
    requires q < |s.prompts| && p < |s.prompts|
    ensures Writes(s, IdleFallbackFired(p, rejected), q,
                   if q == p then FallbackFired(s.prompts[p], rejected, |s.deliveries|) else s.prompts[q])
  {
  }

  lemma SignalWrites(s: Session, step: Step, q: nat)
    requires q < |s.prompts| && Enabled(s, step)
    requires step.EventCommitted? || step.AgentFailed? || step.StatusChanged? || step.IdleFallbackFired? || step.UpdateDelivered?
    ensures q < |Next(s, step).prompts| && Writes(s, step, q, Next(s, step).prompts[q])
  {
    hide BeginPrompt, FinishAdmission, Settle, Decide, CancelPrompt, AdmitContent, DeliverMessage, CommitEvent, FailAgent, ChangeStatus,
         DeliverUpdate, FallbackFired, NoteEvent, NoteAgentError, SettleCancelledOnStatus, Writes, ObserveAdmission;
    match step
    case EventCommitted(event) =>
      ListenersRewrite(s, event, "", false, false, q);
      EventWrites(s, event, q, CommitEvent(s, event).prompts[q]);
    case AgentFailed(message) =>
      ListenersRewrite(s, OtherEvent, message, false, false, q);
      FailureWrites(s, message, q, FailAgent(s, message).prompts[q]);
    case StatusChanged(emittedIdle, idleNow) =>
      ListenersRewrite(s, OtherEvent, "", emittedIdle, idleNow, q);
      StatusWrites(s, emittedIdle, idleNow, q, ChangeStatus(s, emittedIdle, idleNow).prompts[q]);
    case IdleFallbackFired(p, rejected) => FallbackWrites(s, p, rejected, q);
    case UpdateDelivered(failure) => DeliveryWrites(s, failure, q);
    case _ =>
  }

  /** Every step writes exactly this to a record that exists. */
  lemma StepWrites(s: Session, step: Step, q: nat)
    requires Inv(s) && Enabled(s, step) && q < |s.prompts|
    ensures q < |Next(s, step).prompts| && Writes(s, step, q, Next(s, step).prompts[q])
  {
    hide Next, Unwritten, Writes, Inv;
    if Inert(step) {
      InertWritesNothing(s, step, q);
      InertIsUnwritten(s, step, q, Next(s, step).prompts[q]);
    } else if step.CancelRequested? || step.RequestAborted? || step.CloseRequested? {
      CancelWrites(s, step, q);
    } else if step.ContentRead? {
      AdmitWrites(s, step, q);
    } else if step.RouteReturned? {
      RouteWrites(s, step, q);
    } else {
      SignalWrites(s, step, q);
    }
  }

  lemma InertIsUnwritten(s: Session, step: Step, q: nat, after: Prompt)
    requires q < |s.prompts| && Inert(step) && Unwritten(s.prompts[q], after)
    ensures Writes(s, step, q, after)
  {
  }

  /** A record that a call creates starts without causes; it is cancelled at once if its request's signal is already aborted. */
  lemma NewRecord(s: Session, step: Step, p: nat)
    requires Enabled(s, step) && |s.prompts| <= p < |Next(s, step).prompts|
    ensures step.CallPrompt?
    ensures var pr := Next(s, step).prompts[p];
      && pr.outputError.None? && pr.agentError.None? && !pr.messageQueued && pr.messageId.None? && !pr.delivered && !pr.idleFallback
      && pr.aborted == step.signalAborted && pr.cancelStartedIdle == (step.signalAborted && s.idle)
      && pr.cancellation == (if step.signalAborted then Follows(0) else Unresolved)
  {
    hide Next;
    NewRecordComesFromCall(s, step, p);
    BegunRecord(s, step.signalAborted, step.agentGone);
  }

  lemma BegunRecord(s: Session, signalAborted: bool, agentGone: bool)
    ensures var t := BeginPrompt(s, signalAborted, agentGone);
      && |t.prompts| == |s.prompts| + 1
      && var pr := t.prompts[|s.prompts|];
      && pr.outputError.None? && pr.agentError.None? && !pr.messageQueued && pr.messageId.None? && !pr.delivered && !pr.idleFallback
      && pr.aborted == signalAborted && pr.cancelStartedIdle == (signalAborted && s.idle)
      && pr.cancellation == (if signalAborted then Follows(0) else Unresolved)
  {
  }

  // ---------------------------------------------------------------- the update chain

  /** The links a step adds to the update chain, each with the prompt it belongs to. */
  function NewLinks(s: Session, step: Step): seq<Option<nat>> {
    if step.TopologyChanged? && !s.closing then [None]
    else if step.EventCommitted? && (step.event.ToolCall? || step.event.ToolResult?) then [None]
    else if step.EventCommitted? && step.event.AssistantMessage? then
      if s.inflight.Some? && s.inflight.value < |s.prompts| && s.prompts[s.inflight.value].turn == Some(step.event.turn)
      then [s.inflight] else [None]
    else []
  }

  ghost predicate SameChain(s: Session, t: Session) { t.deliveries == s.deliveries && t.drained == s.drained }

  lemma AdmissionKeepsChain(s: Session, step: Step)
    requires Enabled(s, step) && (step.ContentRead? || step.RouteReturned? || step.CallPrompt?)
    ensures SameChain(s, Next(s, step))
  {
    hide Decide, RequestCancellation, FinishedRecord;
  }

  lemma OthersKeepChain(s: Session, step: Step)
    requires Enabled(s, step) && !step.ContentRead? && !step.RouteReturned? && !step.CallPrompt?
    requires !step.EventCommitted? && !step.TopologyChanged? && !step.UpdateDelivered?
    ensures SameChain(s, Next(s, step))
  {
    hide Decide, RequestCancellation, FinishedRecord, AdmitContent, DeliverMessage, BeginPrompt, CommitEvent;
  }

  /** The chain grows by these links only, and settles one link at a time. */
  lemma StepLinks(s: Session, step: Step)
    requires Enabled(s, step)
    ensures Next(s, step).deliveries == s.deliveries + NewLinks(s, step)
    ensures Next(s, step).drained == s.drained + (if step.UpdateDelivered? then 1 else 0)
  {
    if step.ContentRead? || step.RouteReturned? || step.CallPrompt? {
      hide Next;
      AdmissionKeepsChain(s, step);
    } else if step.EventCommitted? || step.TopologyChanged? || step.UpdateDelivered? {
      hide NoteEvent;
    } else {
      hide Next;
      OthersKeepChain(s, step);
    }
  }
}
