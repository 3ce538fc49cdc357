/** The mutable objects of `session.ts` and `cancellation-status.ts`, proved against the steps of `AcpLifecycle`. */
module AcpSessionObjects {
  import opened Basics
  import L = AcpLifecycle

  /** The settlement is suspended inside the loop of `awaitQuiescence`. */
  predicate InWait(pr: L.Prompt) {
    pr.settlement == L.AwaitIdle || pr.settlement.AwaitChildren? || pr.settlement.AwaitOutput?
  }

  /** The session after one resumption of that loop. */
  function ResumedWait(s: L.Session, p: nat, children: bool): L.Session
    requires p < |s.prompts| && InWait(s.prompts[p])
  {
    if s.prompts[p].settlement == L.AwaitIdle then L.ObserveIdle(s, p)
    else if s.prompts[p].settlement.AwaitChildren? then L.ObserveChildren(s, p, children)
    else L.ObserveOutput(s, p)
  }

  /** One in-flight prompt record and the suspension points of its two coroutines. */
  class InflightPrompt {
    /** Position among the admitted prompts; only the specification reads it. */
    ghost const index: nat
    var messageId: Option<nat>
    var messageQueued: bool
    var turn: Option<int>
    var endReason: Option<L.EndReason>
    var admissionDone: bool
    var aborted: bool
    var cancellation: L.CancellationDone
    var idleFallback: bool
    var cancelStartedIdle: bool
    var settlementStarted: bool
    var outputError: Option<string>
    var agentError: Option<string>
    var admission: L.Admission
    var settlement: L.Settlement
    var delivered: bool
    var settlementRuns: nat
    var outcomes: seq<L.Outcome>

    ghost function View(): L.Prompt
      reads this
    {
      L.Prompt(messageId, messageQueued, turn, endReason, admissionDone, aborted, cancellation, idleFallback,
               cancelStartedIdle, settlementStarted, outputError, agentError, admission, settlement, delivered,
               settlementRuns, outcomes)
    }

    constructor (ghost index: nat)
      ensures View() == L.FRESH_PROMPT && this.index == index
    {
      this.index := index;
      messageId, messageQueued, turn, endReason := None, false, None, None;
      admissionDone, aborted, cancellation, idleFallback := false, false, L.Unresolved, false;
      cancelStartedIdle, settlementStarted, outputError, agentError := false, false, None, None;
      admission, settlement, delivered, settlementRuns, outcomes := L.ReadingContent, L.NotStarted, false, 0, [];
    }

    method SettleAfterQuiescence()
      modifies this`settlementStarted, this`settlement, this`settlementRuns
      ensures View() == L.StartSettlement(old(View()))
    {
      if settlementStarted { return; }
      settlementStarted := true;
      settlement := L.AwaitAdmission;
      settlementRuns := settlementRuns + 1;
    }

    method ResolveCancellation(done: L.CancellationDone)
      modifies this`cancellation
      ensures cancellation == L.Lock(old(cancellation), done)
    {
      if cancellation.Unresolved? { cancellation := done; }
    }

    method NoteAgentError(message: string)
      modifies this
      ensures View() == L.NoteAgentError(old(View()), message)
    {
      if !messageQueued { return; }
      agentError := Some(message);
      SettleAfterQuiescence();
    }

    method SettleCancelledOnStatus(emittedIdle: bool, outputTail: nat)
      modifies this
      ensures View() == L.SettleCancelledOnStatus(old(View()), emittedIdle, outputTail)
    {
      if !messageQueued || !aborted { return; }
      if emittedIdle || cancelStartedIdle { ResolveCancellation(L.Follows(outputTail)); }
    }

    method RequestCancellation(agentIdle: bool)
      modifies this
      ensures View() == L.RequestCancellation(old(View()), agentIdle)
    {
      hide L.StartSettlement;
      var firstCancellation := !aborted;
      if firstCancellation { cancelStartedIdle := agentIdle; }
      aborted := true;
      SettleAfterQuiescence();
      if !messageQueued {
        ResolveCancellation(L.Follows(0));
        return;
      }
      if firstCancellation { idleFallback := true; }
    }

    /** `finishAdmission` and what `prompt` does with the record after it. */
    method FinishAdmission(failure: Option<string>)
      modifies this
      ensures View() == L.FinishedRecord(old(View()), failure)
    {
      admissionDone := true;
      if aborted || failure.None? {
        SettleAfterQuiescence();
        admission := L.AwaitingCompletion;
      } else {
        admission := L.Returned;
        outcomes := outcomes + [L.Refused(failure.value)];
      }
    }

    /** The prompt side of `onSessionEvent`. */
    method NoteEvent(event: L.Event)
      modifies this`turn, this`endReason, this`agentError
      ensures View() == L.NoteEvent(old(View()), event)
    {
      if event.TurnStart? && turn.Some? {
        turn := Some(event.turn);
        endReason := None;
      } else if event.TurnEnd? && turn == Some(event.turn) {
        endReason := Some(event.reason);
        agentError := None;
      }
    }

    /** The causes of a settled prompt, in the order the code tests them. */
    method Decide() returns (outcome: L.Outcome)
      ensures outcome == L.Decide(View())
    {
      if aborted { return L.Resolved(L.Cancelled); }
      if outputError.Some? { return L.OutputFailed(outputError.value); }
      if agentError.Some? { return L.TurnFailed(agentError.value); }
      var end := endReason;
      if end.None? { return L.Resolved(L.Cancelled); }
      if end.value.Failed? { return L.TurnFailed(end.value.message); }
      return L.Resolved(L.TurnEndToStopReason(end.value));
    }

    /** One turn of the `awaitQuiescence` loop: the suspension point to which the session `s` that holds this record goes on. */
    method NextSuspension(ghost s: L.Session, agentIdle: bool, seqNo: nat, outputTail: nat, children: bool)
      returns (next: L.Settlement)
      requires InWait(View())
      requires index < |s.prompts| && s.prompts[index] == View()
      requires s.idle == agentIdle && s.seqNo == seqNo && |s.deliveries| == outputTail
      ensures L.With(s, index, View().(settlement := next)) == ResumedWait(s, index, children)
    {
      if aborted { return L.AwaitCancelled; }
      match settlement {
        case AwaitIdle => return L.AwaitChildren(seqNo);
        case AwaitChildren(idleSeq) =>
          if children || !(agentIdle && seqNo == idleSeq) { return L.AwaitIdle; }
          return L.AwaitOutput(idleSeq, outputTail);
        case AwaitOutput(idleSeq, _) =>
          return if agentIdle && seqNo == idleSeq then L.Quiescent else L.AwaitIdle;
      }
    }
  }

  /** One ACP session: the slot, the closing latch, and the update chain. */
  class AcpSession {
    var inflight: InflightPrompt?
    var closing: bool
    var agentIdle: bool
    var seqNo: nat
    var outputTail: seq<InflightPrompt?>
    var drained: nat
    /** Every record ever admitted, in order; only the specification reads it. */
    ghost var admitted: seq<InflightPrompt>

    ghost predicate Valid()
      reads this
    {
      && (forall i :: 0 <= i < |admitted| ==> admitted[i].index == i)
      && (inflight != null ==> inflight.index < |admitted| && admitted[inflight.index] == inflight)
      && (forall k :: 0 <= k < |outputTail| ==>
            outputTail[k] == null || (outputTail[k].index < |admitted| && admitted[outputTail[k].index] == outputTail[k]))
      && drained <= |outputTail|
    }

    ghost predicate Holds(p: InflightPrompt)
      reads this
    {
      p.index < |admitted| && admitted[p.index] == p
    }

    ghost function Slot(): Option<nat>
      reads this
    {
      if inflight == null then None else Some(inflight.index)
    }

    ghost function View(): L.Session
      reads this, admitted
    {
      L.Session(Slot(), seq(|admitted|, i requires 0 <= i < |admitted| reads this, admitted => admitted[i].View()),
                closing, agentIdle, seqNo,
                seq(|outputTail|, k requires 0 <= k < |outputTail| reads this =>
                  if outputTail[k] == null then None else Some(outputTail[k].index)),
                drained)
    }

    /** When at most one record changed, so did at most one entry of the abstract session. */
    twostate lemma RecordChanged(p: InflightPrompt)
      requires old(Valid()) && old(Holds(p)) && admitted == old(admitted)
      requires forall q :: q in admitted && q != p ==> unchanged(q)
      ensures View().prompts == old(View()).prompts[p.index := p.View()]
    {
      forall i | 0 <= i < |admitted| && i != p.index ensures View().prompts[i] == old(View()).prompts[i] {
        assert admitted[i] in admitted && admitted[i] != p;
      }
    }

    constructor (agentIdle: bool, seqNo: nat)
      ensures Valid() && admitted == []
      ensures View() == L.FRESH_SESSION.(idle := agentIdle, seqNo := seqNo)
    {
      inflight, closing, this.agentIdle, this.seqNo := null, false, agentIdle, seqNo;
      outputTail, drained, admitted := [], 0, [];
    }

    method CancelPrompt()
      requires Valid()
      modifies inflight
      ensures Valid() && View() == L.CancelPrompt(old(View()))
    {
      if inflight == null { return; }
      inflight.RequestCancellation(agentIdle);
    }
  
    /** Entry of `prompt`: refuse when closing or busy, otherwise claim the slot and run to the first await. */
    method BeginPrompt(signalAborted: bool, agentGone: bool) returns (p: InflightPrompt?)
      requires Valid()
      modifies this
      ensures Valid() && View() == L.Next(old(View()), L.CallPrompt(signalAborted, agentGone))
      ensures p == null <==> old(closing || inflight != null)
      ensures p != null ==> fresh(p) && admitted == old(admitted) + [p]
    {
      if closing || inflight != null { return null; }
      p := new InflightPrompt(|admitted|);
      inflight := p;
      admitted := admitted + [p];
      ghost var claimed := old(View()).(inflight := Some(p.index), prompts := old(View()).prompts + [L.FRESH_PROMPT]);
      assert View() == claimed;
      if signalAborted { CancelPrompt(); }
      if agentGone { FinishAdmission(p, Some(L.AGENT_GONE)); }
    }

    lemma AbortedIsViewed(p: InflightPrompt)
      ensures p.View().aborted == p.aborted
    {
    }

    /** From `finishAdmission` to the next await or throw. */
    method FinishAdmission(p: InflightPrompt, failure: Option<string>)
      requires Valid() && Holds(p)
      modifies this`inflight, p
      ensures Valid() && View() == L.FinishAdmission(old(View()), p.index, failure)
    {
      hide InflightPrompt.View, L.FinishedRecord;
      AbortedIsViewed(p);
      if !p.aborted && failure.Some? { inflight := null; }
      p.FinishAdmission(failure);
      RecordChanged(p);
    }

    /** `prompt` resumes after `admitAcpPrompt`. */
    method ResumeAfterContent(p: InflightPrompt, content: L.ContentResult, agentGone: bool)
      requires Valid() && Holds(p)
      modifies this`inflight, p
      ensures Valid() && View() == L.AdmitContent(old(View()), p.index, content, agentGone)
    {
      if content.Rejected? {
        FinishAdmission(p, Some(content.detail));
      } else if p.aborted {
        FinishAdmission(p, Some(L.ABORTED_IN_ADMISSION));
      } else if agentGone {
        FinishAdmission(p, Some(L.AGENT_GONE));
      } else {
        p.messageId := Some(content.messageId);
        p.messageQueued := true;
        p.admission := L.Routing;
      }
    }

    /** `prompt` resumes after `routeBeforeAdmission` and calls `followup`. */
    method ResumeAfterRouting(p: InflightPrompt, routeFailure: Option<string>, followupFailure: Option<string>)
      requires Valid() && Holds(p)
      modifies this`inflight, p
      ensures Valid() && View() == L.DeliverMessage(old(View()), p.index, routeFailure, followupFailure)
    {
      hide L.FinishAdmission;
      if routeFailure.Some? {
        FinishAdmission(p, routeFailure);
      } else if followupFailure.Some? {
        p.messageQueued := false;
        RecordChanged(p);
        assert View() == L.With(old(View()), p.index, old(p.View()).(messageQueued := false));
        FinishAdmission(p, followupFailure);
      } else {
        p.delivered := true;
        RecordChanged(p);
        assert View() == L.With(old(View()), p.index, old(p.View()).(delivered := true));
        FinishAdmission(p, None);
      }
    }

    /** The first stretch of `close`: latch and cancel whatever is in flight. */
    method Close()
      requires Valid()
      modifies this`closing, inflight
      ensures Valid() && View() == L.Next(old(View()), L.CloseRequested)
    {
      if closing { return; }
      closing := true;
      CancelPrompt();
    }

    method OnInboxClaimed(messageId: nat, turn: int)
      requires Valid()
      modifies inflight
      ensures Valid() && View() == L.ClaimInbox(old(View()), messageId, turn)
    {
      if inflight != null && inflight.messageId == Some(messageId) { inflight.turn := Some(turn); }
    }

    method OnAgentError(message: string)
      requires Valid()
      modifies inflight
      ensures Valid() && View() == L.FailAgent(old(View()), message)
    {
      if inflight == null { return; }
      inflight.NoteAgentError(message);
    }

    method OnAgentStatus(emittedIdle: bool, idleNow: bool)
      requires Valid()
      modifies this`agentIdle, inflight
      ensures Valid() && View() == L.ChangeStatus(old(View()), emittedIdle, idleNow)
    {
      agentIdle := idleNow;
      if inflight == null { return; }
      inflight.SettleCancelledOnStatus(emittedIdle, |outputTail|);
    }

    method OnSessionEvent(event: L.Event)
      requires Valid()
      modifies this`seqNo, this`outputTail, inflight
      ensures Valid() && View() == L.CommitEvent(old(View()), event)
    {
      hide L.NoteEvent;
      seqNo := seqNo + 1;
      if event.AssistantMessage? {
        var owner := if inflight != null && inflight.turn == Some(event.turn) then inflight else null;
        outputTail := outputTail + [owner];
      } else if event.ToolCall? || event.ToolResult? {
        outputTail := outputTail + [null];
      }
      if inflight != null {
        inflight.NoteEvent(event);
        RecordChanged(inflight);
      }
    }

    /** The next link of the update chain settles. */
    method DeliverUpdate(failure: Option<string>)
      requires Valid() && drained < |outputTail|
      modifies this`drained, outputTail[drained]
      ensures Valid() && View() == L.DeliverUpdate(old(View()), failure)
    {
      var owner := outputTail[drained];
      drained := drained + 1;
      if owner != null && failure.Some? && owner.outputError.None? { owner.outputError := failure; }
    }

    /** The settlement coroutine's last stretch. */
    method Settle(p: InflightPrompt, outcome: L.Outcome)
      requires Valid() && Holds(p)
      modifies this`inflight, p
      ensures Valid() && View() == L.Settle(old(View()), p.index, outcome)
    {
      p.settlement := L.Finished;
      if inflight != p {
        RecordChanged(p);
        return;
      }
      inflight := null;
      p.outcomes := p.outcomes + [outcome];
      RecordChanged(p);
    }

    /** The settlement coroutine resumes after `admissionDone`. */
    method ResumeAfterAdmission(p: InflightPrompt)
      requires Valid() && Holds(p)
      modifies this`inflight, p
      ensures Valid() && View() == L.ObserveAdmission(old(View()), p.index)
    {
      if p.messageQueued {
        p.settlement := L.AwaitIdle;
      } else {
        var outcome := p.Decide();
        Settle(p, outcome);
      }
    }

    /** One turn of the `awaitQuiescence` loop, from one suspension point to the next. */
    method ResumeQuiescence(p: InflightPrompt, children: bool)
      requires Valid() && Holds(p)
      requires InWait(p.View())
      modifies p
      ensures Valid()
      ensures View() == ResumedWait(old(View()), p.index, children)
    {
      hide L.ObserveIdle, L.ObserveChildren, L.ObserveOutput;
      p.settlement := p.NextSuspension(View(), agentIdle, seqNo, |outputTail|, children);
      RecordChanged(p);
    }
  }
}
