/** The end reason on a prompt's record as a statement about the session log, for every run. */
module AcpTurnEnd {
  import opened Basics
  import opened AcpLifecycle
  import opened AcpTheorems
  import opened AcpRuns

  /** What the session log and the inbox tell about turns while one prompt is in flight. */
  datatype TurnFact = Claimed(turn: int) | Started(turn: int) | Ended(turn: int, reason: EndReason)

  function FactOf(s: Session, step: Step, p: nat): seq<TurnFact> {
    if s.inflight != Some(p) || p >= |s.prompts| then []
    else match step
      case EventCommitted(TurnStart(t)) => [Started(t)]
      case EventCommitted(TurnEnd(t, reason)) => [Ended(t, reason)]
      case InboxClaimed(messageId, t) => if s.prompts[p].messageId == Some(messageId) then [Claimed(t)] else []
      case _ => []
  }

  /** The facts that the first `n` steps of a run produced for prompt `p`, in order. */
  ghost function Facts(states: seq<Session>, steps: seq<Step>, n: nat, p: nat): seq<TurnFact>
    requires Run(states, steps) && n < |states|
  {
    if n == 0 then [] else Facts(states, steps, n - 1, p) + FactOf(states[n - 1], steps[n - 1], p)
  }

  /** The turn the prompt belongs to after some facts: set by its claim, moved on by every later turn start. */
  function TurnAt(h: seq<TurnFact>): Option<int> {
    if h == [] then None
    else
      var earlier := TurnAt(h[..|h| - 1]);
      match h[|h| - 1]
      case Claimed(t) => Some(t)
      case Started(t) => if earlier.Some? then Some(t) else None
      case Ended(_, _) => earlier
  }

  /** Fact `k` ends the prompt's own turn. */
  predicate EndsItsTurn(h: seq<TurnFact>, k: nat) {
    k < |h| && h[k].Ended? && TurnAt(h[..k]) == Some(h[k].turn)
  }

  /** Fact `k` opens a turn for a prompt that was already claimed. */
  predicate OpensTurn(h: seq<TurnFact>, k: nat) {
    k < |h| && h[k].Started? && TurnAt(h[..k]).Some?
  }

  /** `k` is the last end of the prompt's own turn, and no turn was opened after it. */
  ghost predicate LastEnd(h: seq<TurnFact>, k: nat) {
    EndsItsTurn(h, k) && forall m :: k < m < |h| ==> !EndsItsTurn(h, m) && !OpensTurn(h, m)
  }

  /** `end` is the reason of that last end, or absent when there is none. */
  ghost predicate ReportedEnd(h: seq<TurnFact>, end: Option<EndReason>) {
    match end
    case Some(reason) => exists k: nat :: LastEnd(h, k) && h[k].reason == reason
    case None => forall k: nat :: !LastEnd(h, k)
  }

  lemma AppendedFacts(h: seq<TurnFact>, fact: TurnFact)
    ensures var g := h + [fact];
      && TurnAt(g) == (match fact case Claimed(t) => Some(t)
                       case Started(t) => (if TurnAt(h).Some? then Some(t) else None) case Ended(_, _) => TurnAt(h))
      && (forall k: nat :: k < |h| ==> (EndsItsTurn(g, k) <==> EndsItsTurn(h, k)) && (OpensTurn(g, k) <==> OpensTurn(h, k)))
      && (EndsItsTurn(g, |h|) <==> fact.Ended? && TurnAt(h) == Some(fact.turn))
      && (OpensTurn(g, |h|) <==> fact.Started? && TurnAt(h).Some?)
  {
    var g := h + [fact];
    assert g[..|g| - 1] == h;
    assert g[..|h|] == h;
    forall k: nat | k < |h|
      ensures (EndsItsTurn(g, k) <==> EndsItsTurn(h, k)) && (OpensTurn(g, k) <==> OpensTurn(h, k))
    {
      assert g[..k] == h[..k];
    }
  }

  /** One more fact: the reported end as the listener code updates it is the reported end of the longer history. */
  lemma ReportedEndExtends(h: seq<TurnFact>, fact: TurnFact, end: Option<EndReason>)
    requires ReportedEnd(h, end)
    ensures ReportedEnd(h + [fact],
      if fact.Started? && TurnAt(h).Some? then None
      else if fact.Ended? && TurnAt(h) == Some(fact.turn) then Some(fact.reason)
      else end)
  {
    hide TurnAt, OpensTurn;
    var g := h + [fact];
    AppendedFacts(h, fact);
    if OpensTurn(g, |h|) {
      assert forall k: nat :: k < |h| ==> !LastEnd(g, k);
      assert !EndsItsTurn(g, |h|);
      NoEndBeyond(g);
    } else if EndsItsTurn(g, |h|) {
      assert LastEnd(g, |h|);
    } else {
      NoEndBeyond(g);
      NoEndBeyond(h);
      forall k: nat ensures LastEnd(g, k) <==> LastEnd(h, k) {
        if k < |h| { assert EndsItsTurn(g, k) <==> EndsItsTurn(h, k); }
      }
      if end.Some? {
        var k: nat :| LastEnd(h, k) && h[k].reason == end.value;
        assert LastEnd(g, k) && g[k].reason == end.value;
      }
    }
  }

  lemma NoEndBeyond(h: seq<TurnFact>)
    ensures forall k: nat :: k >= |h| ==> !LastEnd(h, k) && !EndsItsTurn(h, k)
  {
  }

  /** The record side of one correlating step. */
  lemma CorrelatingStep(s: Session, step: Step, p: nat)
    requires p < |s.prompts| && Correlates(step)
    ensures var pr, after := s.prompts[p], Next(s, step).prompts;
      && p < |after|
      && (FactOf(s, step, p) == [] ==> after[p].turn == pr.turn && after[p].endReason == pr.endReason)
      && (FactOf(s, step, p) != [] ==>
          var fact := FactOf(s, step, p)[0];
          && FactOf(s, step, p) == [fact]
          && after[p].turn == (match fact case Claimed(t) => Some(t)
                               case Started(t) => (if pr.turn.Some? then Some(t) else None) case Ended(_, _) => pr.turn)
          && after[p].endReason ==
             (if fact.Started? && pr.turn.Some? then None
              else if fact.Ended? && pr.turn == Some(fact.turn) then Some(fact.reason)
              else pr.endReason))
  {
  }

  /** A prompt starts with no facts and no turn. */
  lemma NewPromptHasNoTurn(s: Session, step: Step, p: nat)
    requires Enabled(s, step) && |s.prompts| <= p < |Next(s, step).prompts|
    ensures Next(s, step).prompts[p].turn.None? && Next(s, step).prompts[p].endReason.None?
  {
    hide Next;
    NewRecordComesFromCall(s, step, p);
    if step.CallPrompt? { BegunPromptHasNoTurn(s, step.signalAborted, step.agentGone); }
  }

  lemma BegunPromptHasNoTurn(s: Session, signalAborted: bool, agentGone: bool)
    ensures var t := BeginPrompt(s, signalAborted, agentGone);
      |t.prompts| == |s.prompts| + 1 && t.prompts[|s.prompts|].turn.None? && t.prompts[|s.prompts|].endReason.None?
  {
  }

  lemma {:induction false} FactsBeforeAdmission(states: seq<Session>, steps: seq<Step>, n: nat, p: nat)
    requires Run(states, steps) && n < |states| && p >= |states[n].prompts|
    ensures Facts(states, steps, n, p) == []
  {
    hide Next;
    if n == 0 {
    } else {
      if p < |states[n - 1].prompts| { StepIsForward(states[n - 1], steps[n - 1], p); }
      FactsBeforeAdmission(states, steps, n - 1, p);
    }
  }

  /**
   * In every run, a prompt's turn and end reason are the fold of the facts observed while it was in flight: the end
   * reason is that of the last end of its own turn, and none if a later turn was opened (or no such end came).
   */
  lemma {:induction false} EndReasonIsTheLogs(states: seq<Session>, steps: seq<Step>, n: nat, p: nat)
    requires Run(states, steps) && n < |states| && p < |states[n].prompts|
    ensures states[n].prompts[p].turn == TurnAt(Facts(states, steps, n, p))
    ensures ReportedEnd(Facts(states, steps, n, p), states[n].prompts[p].endReason)
  {
    hide Next, ReportedEnd, TurnAt, Forward;
    if n == 0 {
    } else {
      var s, step := states[n - 1], steps[n - 1];
      if p >= |s.prompts| {
        FactsBeforeAdmission(states, steps, n - 1, p);
        NewPromptHasNoTurn(s, step, p);
        assert Facts(states, steps, n, p) == [];
        NothingReported();
      } else {
        EndReasonIsTheLogs(states, steps, n - 1, p);
        var h := Facts(states, steps, n - 1, p);
        if Correlates(step) {
          CorrelatingStep(s, step, p);
          if FactOf(s, step, p) != [] {
            var fact := FactOf(s, step, p)[0];
            AppendedFacts(h, fact);
            ReportedEndExtends(h, fact, s.prompts[p].endReason);
          } else {
            assert h + FactOf(s, step, p) == h;
          }
        } else {
          UncorrelatedStep(s, step, p);
          assert h + FactOf(s, step, p) == h;
        }
      }
    }
  }

  lemma NothingReported()
    ensures TurnAt([]) == None && ReportedEnd([], None)
  {
  }

  lemma UncorrelatedStep(s: Session, step: Step, p: nat)
    requires Enabled(s, step) && p < |s.prompts| && !Correlates(step)
    ensures p < |Next(s, step).prompts| && FactOf(s, step, p) == []
    ensures Next(s, step).prompts[p].turn == s.prompts[p].turn
    ensures Next(s, step).prompts[p].endReason == s.prompts[p].endReason
  {
    hide Next;
    StepIsForward(s, step, p);
  }

  /** What the caller of a settled, never aborted prompt is told is what the log says about its turns. */
  lemma ReportedStopIsTheLogs(states: seq<Session>, steps: seq<Step>, n: nat, p: nat, stop: StopReason)
      returns (end: Option<EndReason>)
    requires Run(states, steps) && n < |states| && p < |states[n].prompts|
    requires !states[n].prompts[p].aborted && states[n].prompts[p].outcomes == [Resolved(stop)]
    ensures ReportedEnd(Facts(states, steps, n, p), end)
    ensures stop == match end
      case None => Cancelled
      case Some(Interrupted) => Cancelled
      case Some(MaxTokens) => OutOfTokens
      case Some(_) => EndTurn
    ensures end.Some? ==> !end.value.Failed?
    ensures states[n].prompts[p].delivered
  {
    hide ReportedEnd;
    end := states[n].prompts[p].endReason;
    EndReasonIsTheLogs(states, steps, n, p);
    UnabortedOutcomeIsExplained(states, steps, n, p);
    RunKeepsInv(states, steps, n);
    assert PromptInv(states[n].prompts[p], states[n].inflight == Some(p));
  }
}
