/** The causes of an outcome as statements about the log, the update chain and the agent's failures, for every run. */
module AcpCauses {
  import opened Basics
  import opened AcpLifecycle
  import opened AcpTheorems
  import opened AcpRuns
  import opened AcpTurnEnd
  import opened AcpOutcomes
  import opened AcpRecords

  // ---------------------------------------------------------------- failed updates

  /** Step `i` commits an assistant message of the turn that prompt `p` is in, while `p` is in flight. */
  ghost predicate Speaks(states: seq<Session>, steps: seq<Step>, i: nat, p: nat)
    requires Run(states, steps) && i < |steps|
  {
    steps[i].EventCommitted? && steps[i].event.AssistantMessage? && states[i].inflight == Some(p)
    && TurnAt(Facts(states, steps, i, p)) == Some(steps[i].event.turn)
  }

  /** Step `i` adds a link to the update chain. */
  predicate AddsLink(s: Session, step: Step) {
    || (step.EventCommitted? && (step.event.AssistantMessage? || step.event.ToolCall? || step.event.ToolResult?))
    || (step.TopologyChanged? && !s.closing)
  }

  /** The links of the update chain in their order, each with whether it brings an assistant message of `p`'s turn. */
  ghost function Links(states: seq<Session>, steps: seq<Step>, n: nat, p: nat): seq<bool>
    requires Run(states, steps) && n < |states|
  {
    if n == 0 then []
    else Links(states, steps, n - 1, p) + if AddsLink(states[n - 1], steps[n - 1]) then [Speaks(states, steps, n - 1, p)] else []
  }

  /** How the links that have settled did so, in their order. */
  function Settled(steps: seq<Step>): seq<Option<string>> {
    if steps == [] then []
    else
      var last := steps[|steps| - 1];
      Settled(steps[..|steps| - 1]) + if last.UpdateDelivered? then [last.failure] else []
  }

  /** `error` is the failure of the first settled link of the prompt's own that failed, or absent if none did. */
  ghost predicate FirstFailure(links: seq<bool>, settled: seq<Option<string>>, error: Option<string>)
    requires |settled| <= |links|
  {
    match error
    case None => forall k :: 0 <= k < |settled| && links[k] ==> settled[k].None?
    case Some(m) =>
      exists k :: 0 <= k < |settled| && links[k] && settled[k] == Some(m) && forall j :: 0 <= j < k && links[j] ==> settled[j].None?
  }

  /** One more settled link. */
  lemma FirstFailureExtends(links: seq<bool>, settled: seq<Option<string>>, error: Option<string>, last: Option<string>)
    requires |settled| < |links| && FirstFailure(links, settled, error)
    ensures FirstFailure(links, settled + [last], if links[|settled|] && last.Some? && error.None? then last else error)
  {
    var g := settled + [last];
    if error.Some? {
      var k :| 0 <= k < |settled| && links[k] && settled[k] == error && forall j :: 0 <= j < k && links[j] ==> settled[j].None?;
      assert g[k] == error;
    } else if links[|settled|] && last.Some? {
      assert g[|settled|] == last;
    }
  }

  lemma FirstFailureIgnores(links: seq<bool>, settled: seq<Option<string>>, error: Option<string>, more: seq<bool>)
    requires |settled| <= |links|
    ensures FirstFailure(links + more, settled, error) <==> FirstFailure(links, settled, error)
  {
    var g := links + more;
    assert forall k :: 0 <= k < |settled| ==> g[k] == links[k];
  }

  lemma NoneFailed(links: seq<bool>, settled: seq<Option<string>>)
    requires |settled| <= |links| && forall k :: 0 <= k < |links| ==> !links[k]
    ensures FirstFailure(links, settled, None)
  {
  }

  /** The chain of every state is the log's: a link belongs to `p` exactly if it brings a message of `p`'s turn. */
  lemma {:induction false} ChainIsTheLogs(states: seq<Session>, steps: seq<Step>, n: nat, p: nat)
    requires Run(states, steps) && n < |states|
    ensures |states[n].deliveries| == |Links(states, steps, n, p)|
    ensures forall k :: 0 <= k < |states[n].deliveries| ==> (states[n].deliveries[k] == Some(p) <==> Links(states, steps, n, p)[k])
    ensures |Settled(steps[..n])| == states[n].drained <= |states[n].deliveries|
  {
    hide Next, Enabled, Inv, Facts, TurnAt;
    if n == 0 {
    } else {
      var s, step := states[n - 1], steps[n - 1];
      ChainIsTheLogs(states, steps, n - 1, p);
      RunKeepsInv(states, steps, n - 1);
      RunKeepsInv(states, steps, n);
      StepLinks(s, step);
      assert steps[..n][..n - 1] == steps[..n - 1];
      NewLinksAreTheLogs(states, steps, n - 1, p);
      assert Inv(states[n]);
      DrainedWithin(states[n]);
    }
  }

  lemma DrainedWithin(s: Session)
    requires Inv(s)
    ensures s.drained <= |s.deliveries|
  {
  }

  lemma NewLinksAreTheLogs(states: seq<Session>, steps: seq<Step>, i: nat, p: nat)
    requires Run(states, steps) && i < |steps|
    ensures |NewLinks(states[i], steps[i])| == if AddsLink(states[i], steps[i]) then 1 else 0
    ensures NewLinks(states[i], steps[i]) != [] ==> (NewLinks(states[i], steps[i])[0] == Some(p) <==> Speaks(states, steps, i, p))
  {
    hide Next, Enabled, Facts, TurnAt, ReportedEnd, PromptInv;
    RunKeepsInv(states, steps, i);
    if states[i].inflight == Some(p) { EndReasonIsTheLogs(states, steps, i, p); }
  }

  /** A prompt that does not exist yet has no links. */
  lemma {:induction false} NoLinksYet(states: seq<Session>, steps: seq<Step>, n: nat, p: nat)
    requires Run(states, steps) && n < |states| && p >= |states[n].prompts|
    ensures forall k :: 0 <= k < |Links(states, steps, n, p)| ==> !Links(states, steps, n, p)[k]
  {
    hide Next, Enabled, Facts, TurnAt, PromptInv, Forward;
    if n == 0 {
    } else {
      if p < |states[n - 1].prompts| { StepIsForward(states[n - 1], steps[n - 1], p); }
      NoLinksYet(states, steps, n - 1, p);
      RunKeepsInv(states, steps, n - 1);
    }
  }

  /** In every run, a record's output error is that of the first failed update of its own that has settled. */
  lemma {:induction false} OutputErrorIsTheFirst(states: seq<Session>, steps: seq<Step>, n: nat, p: nat)
    requires Run(states, steps) && n < |states| && p < |states[n].prompts|
    ensures |Settled(steps[..n])| <= |Links(states, steps, n, p)|
    ensures FirstFailure(Links(states, steps, n, p), Settled(steps[..n]), states[n].prompts[p].outputError)
  {
    hide Next, Enabled, Inv, FirstFailure, Writes, AddsLink, Speaks;
    ChainIsTheLogs(states, steps, n, p);
    if n == 0 {
    } else {
      var s, step := states[n - 1], steps[n - 1];
      ChainIsTheLogs(states, steps, n - 1, p);
      RunKeepsInv(states, steps, n - 1);
      var links, settled := Links(states, steps, n - 1, p), Settled(steps[..n - 1]);
      assert steps[..n][..n - 1] == steps[..n - 1];
      if p >= |s.prompts| {
        NewRecord(s, step, p);
        NoLinksYet(states, steps, n - 1, p);
        CallAddsNoLink(states, steps, n - 1, p);
        NoneFailed(Links(states, steps, n, p), Settled(steps[..n]));
      } else {
        OutputErrorIsTheFirst(states, steps, n - 1, p);
        StepWrites(s, step, p);
        OutputErrorWritten(s, step, p, states[n].prompts[p]);
        if step.UpdateDelivered? {
          UpdateIsEnabled(s, step);
          DeliveryAddsNoLink(s, step);
          FirstFailureExtends(links, settled, s.prompts[p].outputError, step.failure);
          assert Links(states, steps, n, p) == links;
          assert Settled(steps[..n]) == settled + [step.failure];
          assert FailsOwn(s, step, p) <==> step.failure.Some? && links[|settled|];
        } else {
          var more := if AddsLink(s, step) then [Speaks(states, steps, n - 1, p)] else [];
          FirstFailureIgnores(links, settled, s.prompts[p].outputError, more);
          assert Links(states, steps, n, p) == links + more;
          assert Settled(steps[..n]) == settled;
          assert states[n].prompts[p].outputError == s.prompts[p].outputError;
        }
      }
    }
  }

  lemma CallAddsNoLink(states: seq<Session>, steps: seq<Step>, i: nat, p: nat)
    requires Run(states, steps) && i < |steps| && steps[i].CallPrompt?
    ensures Links(states, steps, i + 1, p) == Links(states, steps, i, p)
  {
    hide Next, Enabled;
  }

  lemma DeliveryAddsNoLink(s: Session, step: Step)
    requires step.UpdateDelivered?
    ensures !AddsLink(s, step)
  {
  }

  lemma UpdateIsEnabled(s: Session, step: Step)
    requires Enabled(s, step) && step.UpdateDelivered?
    ensures s.drained < |s.deliveries|
  {
  }

  lemma OutputErrorWritten(s: Session, step: Step, q: nat, after: Prompt)
    requires q < |s.prompts| && Writes(s, step, q, after)
    ensures after.outputError == if FailsOwn(s, step, q) && s.prompts[q].outputError.None? then step.failure else s.prompts[q].outputError
  {
  }

  // ---------------------------------------------------------------- agent failures

  /** Step `i` ends the turn that prompt `p` is in. */
  ghost predicate Ends(states: seq<Session>, steps: seq<Step>, i: nat, p: nat)
    requires Run(states, steps) && i < |steps|
  {
    steps[i].EventCommitted? && steps[i].event.TurnEnd? && states[i].inflight == Some(p)
    && TurnAt(Facts(states, steps, i, p)) == Some(steps[i].event.turn)
  }

  /** Among the first `n` steps, the last failure that `p` heard of is `i`, and no end of its turn came after it. */
  ghost predicate Stands(states: seq<Session>, steps: seq<Step>, n: nat, p: nat, i: nat)
    requires Run(states, steps) && n < |states|
  {
    i < n && Blames(states[i], steps[i], p) && forall j :: i < j < n ==> !Blames(states[j], steps[j], p) && !Ends(states, steps, j, p)
  }

  /** `error` is the message of the failure that stands, or absent if every failure was followed by an end of the turn. */
  ghost predicate StandingError(states: seq<Session>, steps: seq<Step>, n: nat, p: nat, error: Option<string>)
    requires Run(states, steps) && n < |states|
  {
    match error
    case Some(m) => exists i: nat :: Stands(states, steps, n, p, i) && steps[i].message == m
    case None => forall i: nat :: !Stands(states, steps, n, p, i)
  }

  /** In every run, a record's agent error is that of the last failure it heard of, until its turn ends. */
  lemma {:induction false} AgentErrorStands(states: seq<Session>, steps: seq<Step>, n: nat, p: nat)
    requires Run(states, steps) && n < |states| && p < |states[n].prompts|
    ensures StandingError(states, steps, n, p, states[n].prompts[p].agentError)
  {
    hide Next, Enabled, Inv, Writes, Ends;
    if n == 0 {
    } else {
      var s, step := states[n - 1], steps[n - 1];
      RunKeepsInv(states, steps, n - 1);
      if p >= |s.prompts| {
        NewRecord(s, step, p);
        forall i: nat | i < n ensures !Blames(states[i], steps[i], p) { NotThereYet(states, steps, i, n - 1, p); }
      } else {
        AgentErrorStands(states, steps, n - 1, p);
        StepWrites(s, step, p);
        AgentErrorWritten(states, steps, n - 1, p);
        StandsStep(states, steps, n, p);
        if Blames(s, step, p) {
          assert Stands(states, steps, n, p, n - 1);
        } else if s.prompts[p].agentError.Some? {
          var i: nat :| Stands(states, steps, n - 1, p, i) && steps[i].message == s.prompts[p].agentError.value;
        }
      }
    }
  }

  lemma StandsStep(states: seq<Session>, steps: seq<Step>, n: nat, p: nat)
    requires Run(states, steps) && 0 < n < |states|
    ensures forall i: nat :: Stands(states, steps, n, p, i) <==>
      if i == n - 1 then Blames(states[i], steps[i], p)
      else Stands(states, steps, n - 1, p, i) && !Blames(states[n - 1], steps[n - 1], p) && !Ends(states, steps, n - 1, p)
  {
    hide Run, Blames, Ends;
  }

  lemma NotThereYet(states: seq<Session>, steps: seq<Step>, i: nat, n: nat, p: nat)
    requires Run(states, steps) && i <= n < |states| && p >= |states[n].prompts|
    ensures p >= |states[i].prompts|
    ensures i < |steps| ==> !Blames(states[i], steps[i], p)
  {
    hide Next, Enabled;
    if p < |states[i].prompts| { RunIsForward(states, steps, i, n, p); }
  }

  lemma AgentErrorWritten(states: seq<Session>, steps: seq<Step>, i: nat, p: nat)
    requires Run(states, steps) && i < |steps| && p < |states[i].prompts| && p < |states[i + 1].prompts|
    requires Writes(states[i], steps[i], p, states[i + 1].prompts[p])
    ensures states[i + 1].prompts[p].agentError ==
      if Blames(states[i], steps[i], p) then Some(steps[i].message) else if Ends(states, steps, i, p) then None
      else states[i].prompts[p].agentError
  {
    hide Next, Enabled, Facts, TurnAt, ReportedEnd;
    EndReasonIsTheLogs(states, steps, i, p);
  }

  // ---------------------------------------------------------------- the outcome

  /** What the caller gets for an uncancelled prompt, by its output error, its agent error and the end of its turn. */
  predicate Reports(outcome: Outcome, output: Option<string>, agent: Option<string>, end: Option<EndReason>) {
    match (output, agent, end)
    case (Some(m), _, _) => outcome == OutputFailed(m)
    case (None, Some(m), _) => outcome == TurnFailed(m)
    case (None, None, None) => outcome == Resolved(Cancelled)
    case (None, None, Some(Failed(m))) => outcome == TurnFailed(m)
    case (None, None, Some(MaxTokens)) => outcome == Resolved(OutOfTokens)
    case (None, None, Some(Interrupted)) => outcome == Resolved(Cancelled)
    case (None, None, Some(_)) => outcome == Resolved(EndTurn)
  }

  lemma RankedReports(pr: Prompt, outcome: Outcome)
    requires Ranked(pr, outcome)
    ensures if pr.aborted then outcome == Resolved(Cancelled) else Reports(outcome, pr.outputError, pr.agentError, pr.endReason)
  {
  }

  /**
   * Every outcome but a refusal is decided in one instant, in which the prompt still holds the slot, and is what the log says
   * there: the first failed update of the prompt's own, else the agent failure that stands, else the end of its turn.
   * A prompt that has been cancelled by then is reported as cancelled.
   */
  lemma OutcomeIsTheLogs(states: seq<Session>, steps: seq<Step>, j: nat, p: nat)
      returns (i: nat, output: Option<string>, agent: Option<string>, end: Option<EndReason>)
    requires Run(states, steps) && j < |states| && p < |states[j].prompts|
    requires states[j].prompts[p].outcomes != [] && !states[j].prompts[p].outcomes[0].Refused?
    ensures i < j && Drives(steps[i], p) && p < |states[i].prompts| && states[i].inflight == Some(p)
    ensures |Settled(steps[..i])| <= |Links(states, steps, i, p)| && FirstFailure(Links(states, steps, i, p), Settled(steps[..i]), output)
    ensures StandingError(states, steps, i, p, agent)
    ensures ReportedEnd(Facts(states, steps, i, p), end)
    ensures var outcome := states[j].prompts[p].outcomes[0];
      if steps[i].FailureCaught? then outcome == SettlementFailed
      else if states[i].prompts[p].aborted then outcome == Resolved(Cancelled)
      else Reports(outcome, output, agent, end)
  {
    hide Next, Enabled, Ranked, FirstFailure, StandingError, ReportedEnd, Facts, Links, Reports, Settled;
    i := OutcomeIsDecidedOnce(states, steps, j, p);
    var pr := states[i].prompts[p];
    output, agent, end := pr.outputError, pr.agentError, pr.endReason;
    OutputErrorIsTheFirst(states, steps, i, p);
    AgentErrorStands(states, steps, i, p);
    EndReasonIsTheLogs(states, steps, i, p);
    if !steps[i].FailureCaught? { RankedReports(pr, states[j].prompts[p].outcomes[0]); }
  }

  lemma {:induction false} OutputErrorStays(states: seq<Session>, steps: seq<Step>, m: nat, i: nat, p: nat)
    requires Run(states, steps) && m <= i < |states| && p < |states[m].prompts| && states[m].prompts[p].outputError.Some?
    ensures p < |states[i].prompts| && states[i].prompts[p].outputError == states[m].prompts[p].outputError
    decreases i
  {
    hide Next, Enabled;
    if i == m {
    } else {
      OutputErrorStays(states, steps, m, i - 1, p);
      StepIsForward(states[i - 1], steps[i - 1], p);
    }
  }

  /** An uncancelled prompt, one of whose own updates has failed while it was in flight, is rejected with the first such failure. */
  lemma FailedUpdateIsReported(states: seq<Session>, steps: seq<Step>, m: nat, j: nat, p: nat, k: nat) returns (error: string)
    requires Run(states, steps) && m <= j < |states| && p < |states[j].prompts|
    requires p < |states[m].prompts| && states[m].inflight == Some(p)
    requires k < |Settled(steps[..m])| <= |Links(states, steps, m, p)|
    requires Links(states, steps, m, p)[k] && Settled(steps[..m])[k].Some?
    requires !states[j].prompts[p].aborted && states[j].prompts[p].outcomes != [] && !states[j].prompts[p].outcomes[0].Refused?
    ensures FirstFailure(Links(states, steps, m, p), Settled(steps[..m]), Some(error))
    ensures states[j].prompts[p].outcomes == [OutputFailed(error)] || states[j].prompts[p].outcomes == [SettlementFailed]
  {
    hide Next, Enabled, Ranked, Facts, Links, Settled, Inv;
    OutputErrorIsTheFirst(states, steps, m, p);
    error := states[m].prompts[p].outputError.value;
    var i := OutcomeIsDecidedOnce(states, steps, j, p);
    AtMostOneOutcome(states, steps, m, m, p);
    AtMostOneOutcome(states, steps, j, j, p);
    if i + 1 <= m { RunIsForward(states, steps, i + 1, m, p); }
    OutputErrorStays(states, steps, m, i, p);
    RunIsForward(states, steps, i, j, p);
    if !steps[i].FailureCaught? { RankedReports(states[i].prompts[p], states[j].prompts[p].outcomes[0]); }
  }
}
