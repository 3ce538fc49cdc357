/** Two windows of the lifecycle: a cancellation during `routeBeforeAdmission`, and a settlement that outlives its prompt. */
module AcpWindows {
  import opened Basics
  import opened AcpLifecycle
  import opened AcpRuns

  /** A prompt aborted at any moment other than during `routeBeforeAdmission` is never delivered later. */
  lemma CancelledPromptIsNotDelivered(states: seq<Session>, steps: seq<Step>, i: nat, j: nat, p: nat)
    requires Run(states, steps) && i <= j < |states| && p < |states[i].prompts|
    requires states[i].prompts[p].aborted && !states[i].prompts[p].delivered
    requires states[i].prompts[p].admission != Routing
    ensures p < |states[j].prompts| && !states[j].prompts[p].delivered
  {
    RunIsForward(states, steps, i, j, p);
  }

  /** Extending a run by one enabled step gives a run. */
  lemma RunExtends(states: seq<Session>, steps: seq<Step>, step: Step)
    requires Run(states, steps) && Enabled(states[|steps|], step)
    ensures Run(states + [Next(states[|steps|], step)], steps + [step])
  {
    hide Next, Enabled;
    var more, taken := states + [Next(states[|steps|], step)], steps + [step];
    forall i | 0 <= i < |taken| ensures Enabled(more[i], taken[i]) && more[i + 1] == Next(more[i], taken[i]) {
      if i < |steps| { assert more[i] == states[i] && more[i + 1] == states[i + 1] && taken[i] == steps[i]; }
    }
  }

  /** And in that window the abort does not stop the message: the run continues with its delivery. */
  lemma CancelledPromptIsDelivered(states: seq<Session>, steps: seq<Step>, p: nat)
    requires Run(states, steps) && p < |states[|steps|].prompts|
    requires states[|steps|].prompts[p].admission == Routing
    ensures var step := RouteReturned(p, None, None);
      && Enabled(states[|steps|], step)
      && Run(states + [Next(states[|steps|], step)], steps + [step])
      && Next(states[|steps|], step).prompts[p].delivered
  {
    RunExtends(states, steps, RouteReturned(p, None, None));
  }

  const QUEUED := FRESH_PROMPT.(messageId := Some(7), messageQueued := true, admission := Routing)

  /** After one prompt's content was admitted: the message is marked as queued, routing is awaited. */
  const ROUTING_SESSION := FRESH_SESSION.(inflight := Some(0), prompts := [QUEUED])

  lemma RoutingIsReachable()
    ensures Run([FRESH_SESSION, FRESH_SESSION.(inflight := Some(0), prompts := [FRESH_PROMPT]), ROUTING_SESSION],
                [CallPrompt(false, false), ContentRead(0, Admitted(7), false)])
  {
    var claimed := FRESH_SESSION.(inflight := Some(0), prompts := [FRESH_PROMPT]);
    assert Next(FRESH_SESSION, CallPrompt(false, false)) == claimed;
    assert Next(claimed, ContentRead(0, Admitted(7), false)) == ROUTING_SESSION;
  }

  /** The window is reachable: a run in which the abort is recorded and the message is delivered afterwards. */
  lemma AbortThenDelivery() returns (states: seq<Session>, steps: seq<Step>, p: nat)
    ensures Run(states, steps) && |steps| == 4
    ensures p < |states[3].prompts| && states[3].prompts[p].aborted && !states[3].prompts[p].delivered
    ensures p < |states[4].prompts| && states[4].prompts[p].aborted && states[4].prompts[p].delivered
  {
    RoutingIsReachable();
    p := 0;
    var claimed := FRESH_SESSION.(inflight := Some(0), prompts := [FRESH_PROMPT]);
    states, steps := [FRESH_SESSION, claimed, ROUTING_SESSION], [CallPrompt(false, false), ContentRead(0, Admitted(7), false)];
    var cancelled := RequestCancellation(QUEUED, true);
    assert Next(ROUTING_SESSION, CancelRequested) == ROUTING_SESSION.(prompts := [cancelled]);
    RunExtends(states, steps, CancelRequested);
    states, steps := states + [ROUTING_SESSION.(prompts := [cancelled])], steps + [CancelRequested];
    CancelledPromptIsDelivered(states, steps, 0);
    var step := RouteReturned(0, None, None);
    DeliveryKeepsAbort(ROUTING_SESSION.(prompts := [cancelled]), 0);
    states, steps := states + [Next(ROUTING_SESSION.(prompts := [cancelled]), step)], steps + [step];
  }

  lemma DeliveryKeepsAbort(s: Session, p: nat)
    requires p < |s.prompts| && s.prompts[p].aborted && s.prompts[p].admission == Routing
    ensures var t := Next(s, RouteReturned(p, None, None));
      p < |t.prompts| && t.prompts[p].aborted && t.prompts[p].delivered
  {
  }

  // ---------------------------------------------------------------- stale settlements

  /** A settlement step rewrites nothing but its own record, and moves the slot only off itself. */
  lemma SettlementTouchesOnlyItsOwn(s: Session, step: Step, p: nat)
    requires Enabled(s, step) && Drives(step, p)
    ensures var t := Next(s, step);
      && t.prompts == s.prompts[p := t.prompts[p]]
      && (t.inflight == s.inflight || (s.inflight == Some(p) && t.inflight == None))
      && t.deliveries == s.deliveries && t.closing == s.closing
  {
    hide Decide, DeliverMessage, AdmitContent, BeginPrompt, CancelPrompt, CommitEvent, ClaimInbox, FailAgent, ChangeStatus;
    hide DeliverUpdate, FallbackFired;
  }

  /** A settlement whose prompt no longer holds the slot changes its own suspension point and nothing else. */
  lemma StaleSettlementIsInert(s: Session, step: Step, p: nat)
    requires Enabled(s, step) && Drives(step, p) && s.inflight != Some(p)
    ensures var t := Next(s, step);
      t == s.(prompts := s.prompts[p := s.prompts[p].(settlement := t.prompts[p].settlement)])
  {
    hide Decide, DeliverMessage, AdmitContent, BeginPrompt, CancelPrompt, CommitEvent, ClaimInbox, FailAgent, ChangeStatus;
    hide DeliverUpdate, FallbackFired;
  }

  const COMPLAINT := "agent rejected the message"

  /** A prompt whose settlement an agent error started while routing was awaited. */
  const FAILING := QUEUED.(agentError := Some("interval failed"), settlementStarted := true,
                           settlement := AwaitAdmission, settlementRuns := 1)

  /** The same prompt after `followup` threw: refused, while its settlement still waits for the admission. */
  const ABANDONED := FAILING.(messageQueued := false, admissionDone := true, admission := Returned,
                              outcomes := [Refused(COMPLAINT)])

  lemma FailingSteps()
    ensures Next(ROUTING_SESSION, AgentFailed("interval failed")) == ROUTING_SESSION.(prompts := [FAILING])
    ensures Next(ROUTING_SESSION.(prompts := [FAILING]), RouteReturned(0, None, Some(COMPLAINT)))
         == FRESH_SESSION.(prompts := [ABANDONED])
  {
    assert NoteAgentError(QUEUED, "interval failed") == FAILING;
    assert FAILING.(messageQueued := false).outcomes + [Refused(COMPLAINT)] == [Refused(COMPLAINT)];
  }

  lemma AbandonedSteps()
    ensures var s := FRESH_SESSION.(prompts := [ABANDONED]);
            var t := FRESH_SESSION.(inflight := Some(1), prompts := [ABANDONED, FRESH_PROMPT]);
      && Next(s, CallPrompt(false, false)) == t
      && Enabled(t, AdmissionObserved(0))
      && Next(t, AdmissionObserved(0)) == t.(prompts := [ABANDONED.(settlement := Finished), FRESH_PROMPT])
  {
    assert [ABANDONED] + [FRESH_PROMPT] == [ABANDONED, FRESH_PROMPT];
  }

  /**
   * A stale settlement does occur: an agent error during `routeBeforeAdmission` starts the settlement of a prompt
   * whose `followup` then throws, and it resumes while a newer prompt holds the slot.
   */
  lemma StaleSettlementHappens() returns (states: seq<Session>, steps: seq<Step>, p: nat)
    ensures Run(states, steps) && |steps| == 6
    ensures steps[5] == AdmissionObserved(p) && p < |states[5].prompts|
    ensures states[5].inflight.Some? && states[5].inflight != Some(p) && states[6].inflight == states[5].inflight
    ensures states[5].prompts[p].settlement == AwaitAdmission && states[5].prompts[p].outcomes == [Refused(COMPLAINT)]
  {
    hide Next, Enabled;
    RoutingIsReachable();
    FailingSteps();
    AbandonedSteps();
    RoutingStepsEnabled();
    p := 0;
    var s1 := FRESH_SESSION.(inflight := Some(0), prompts := [FRESH_PROMPT]);
    var s3 := ROUTING_SESSION.(prompts := [FAILING]);
    var s4 := FRESH_SESSION.(prompts := [ABANDONED]);
    var s5 := FRESH_SESSION.(inflight := Some(1), prompts := [ABANDONED, FRESH_PROMPT]);
    states, steps := [FRESH_SESSION, s1, ROUTING_SESSION], [CallPrompt(false, false), ContentRead(0, Admitted(7), false)];
    RunExtends(states, steps, AgentFailed("interval failed"));
    states, steps := states + [s3], steps + [AgentFailed("interval failed")];
    RunExtends(states, steps, RouteReturned(0, None, Some(COMPLAINT)));
    states, steps := states + [s4], steps + [RouteReturned(0, None, Some(COMPLAINT))];
    RunExtends(states, steps, CallPrompt(false, false));
    states, steps := states + [s5], steps + [CallPrompt(false, false)];
    RunExtends(states, steps, AdmissionObserved(0));
    states, steps := states + [Next(s5, AdmissionObserved(0))], steps + [AdmissionObserved(0)];
  }

  lemma RoutingStepsEnabled()
    ensures Enabled(ROUTING_SESSION, AgentFailed("interval failed"))
    ensures Enabled(ROUTING_SESSION.(prompts := [FAILING]), RouteReturned(0, None, Some(COMPLAINT)))
    ensures Enabled(FRESH_SESSION.(prompts := [ABANDONED]), CallPrompt(false, false))
  {
  }
}
