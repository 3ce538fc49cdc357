/** When a prompt counts as cancelled, and what ends the wait of a cancelled prompt, over whole runs. */
module AcpCancellation {
  import opened Basics
  import opened AcpLifecycle
  import opened AcpTheorems
  import opened AcpRuns
  import opened AcpRecords

  /** Step `k` cancels prompt `p`, which is in flight or is called with an aborted signal. */
  ghost predicate CancelledAt(states: seq<Session>, steps: seq<Step>, k: nat, p: nat)
    requires Run(states, steps) && k < |steps|
  {
    || (p < |states[k].prompts| && states[k].inflight == Some(p)
        && (steps[k].CancelRequested? || steps[k].RequestAborted? || (steps[k].CloseRequested? && !states[k].closing)))
    || (p == |states[k].prompts| && p < |states[k + 1].prompts| && steps[k].CallPrompt? && steps[k].signalAborted)
  }

  ghost predicate CancelledBefore(states: seq<Session>, steps: seq<Step>, n: nat, p: nat)
    requires Run(states, steps) && n < |states|
  {
    exists k: nat :: k < n && CancelledAt(states, steps, k, p)
  }

  /** The first cancellation of `p` found the agent idle. */
  ghost predicate CancelledIdle(states: seq<Session>, steps: seq<Step>, n: nat, p: nat)
    requires Run(states, steps) && n < |states|
  {
    exists k: nat :: k < n && CancelledAt(states, steps, k, p) && !CancelledBefore(states, steps, k, p) && states[k].idle
  }

  lemma NoCancelBefore(states: seq<Session>, steps: seq<Step>, n: nat, p: nat)
    requires Run(states, steps) && n < |states| && p >= |states[n].prompts|
    ensures !CancelledBefore(states, steps, n, p)
  {
    hide Next, Enabled;
    forall k: nat | k < n ensures !CancelledAt(states, steps, k, p) {
      if p < |states[k].prompts| { RunIsForward(states, steps, k, n, p); }
      if p < |states[k + 1].prompts| { RunIsForward(states, steps, k + 1, n, p); }
    }
  }

  lemma CancelledStep(states: seq<Session>, steps: seq<Step>, n: nat, p: nat)
    requires Run(states, steps) && n < |steps|
    ensures CancelledBefore(states, steps, n + 1, p) <==> CancelledBefore(states, steps, n, p) || CancelledAt(states, steps, n, p)
    ensures CancelledIdle(states, steps, n + 1, p) <==>
      CancelledIdle(states, steps, n, p)
      || (CancelledAt(states, steps, n, p) && !CancelledBefore(states, steps, n, p) && states[n].idle)
    ensures CancelledIdle(states, steps, n, p) ==> CancelledBefore(states, steps, n, p)
  {
    hide CancelledAt, Next, Enabled;
    if CancelledBefore(states, steps, n, p) {
      var k: nat :| k < n && CancelledAt(states, steps, k, p);
      assert k < n + 1;
    }
    if CancelledIdle(states, steps, n, p) {
      var k: nat :| k < n && CancelledAt(states, steps, k, p) && !CancelledBefore(states, steps, k, p) && states[k].idle;
      assert k < n + 1;
    }
  }

  /** A prompt is marked as aborted exactly if it has been cancelled, and as idle then exactly if its first cancellation found it so. */
  lemma {:induction false} AbortedMeansCancelled(states: seq<Session>, steps: seq<Step>, n: nat, p: nat)
    requires Run(states, steps) && n < |states| && p < |states[n].prompts|
    ensures states[n].prompts[p].aborted <==> CancelledBefore(states, steps, n, p)
    ensures states[n].prompts[p].cancelStartedIdle <==> CancelledIdle(states, steps, n, p)
  {
    hide Next, Enabled, Inv, Writes, CancelledAt, CancelledBefore, CancelledIdle;
    if n == 0 {
    } else {
      var s, step := states[n - 1], steps[n - 1];
      RunKeepsInv(states, steps, n - 1);
      CancelledStep(states, steps, n - 1, p);
      if p >= |s.prompts| {
        NewRecord(s, step, p);
        NewRecordComesFromCall(s, step, p);
        NoCancelBefore(states, steps, n - 1, p);
        NewlyCancelled(states, steps, n - 1, p);
      } else {
        AbortedMeansCancelled(states, steps, n - 1, p);
        StepWrites(s, step, p);
        AbortWritten(states, steps, n - 1, p);
      }
    }
  }

  lemma NewlyCancelled(states: seq<Session>, steps: seq<Step>, n: nat, p: nat)
    requires Run(states, steps) && n < |steps| && p == |states[n].prompts| && p < |states[n + 1].prompts| && steps[n].CallPrompt?
    requires !CancelledBefore(states, steps, n, p)
    ensures CancelledAt(states, steps, n, p) <==> steps[n].signalAborted
    ensures !CancelledIdle(states, steps, n, p)
  {
    hide Next, Enabled;
  }

  lemma AbortWritten(states: seq<Session>, steps: seq<Step>, n: nat, p: nat)
    requires Run(states, steps) && n < |steps| && p < |states[n].prompts| && p < |states[n + 1].prompts|
    requires Writes(states[n], steps[n], p, states[n + 1].prompts[p])
    ensures var pr, after := states[n].prompts[p], states[n + 1].prompts[p];
      && after.aborted == (pr.aborted || CancelledAt(states, steps, n, p))
      && after.cancelStartedIdle == (if CancelledAt(states, steps, n, p) && !pr.aborted then states[n].idle else pr.cancelStartedIdle)
  {
    hide Next, Enabled;
  }

  // ---------------------------------------------------------------- release

  /**
   * What step `k` would make of the promise that a cancelled prompt waits for, if nothing did so before: a cancellation
   * without a queued message resolves it at once; with one queued, an idle emission does (or any emission, if the first
   * cancellation found the agent idle), behind all updates queued by then; so does the fallback, which can also fail.
   */
  ghost function ReleaseAt(states: seq<Session>, steps: seq<Step>, k: nat, p: nat): CancellationDone
    requires Run(states, steps) && k < |steps|
  {
    var s, step := states[k], steps[k];
    var queued := p < |s.prompts| && s.prompts[p].messageQueued;
    if CancelledAt(states, steps, k, p) && !queued then Follows(0)
    else if step.StatusChanged? && s.inflight == Some(p) && queued && CancelledBefore(states, steps, k, p)
            && (step.emittedIdle || CancelledIdle(states, steps, k, p)) then Follows(|s.deliveries|)
    else if step.IdleFallbackFired? && step.p == p then (if step.rejected then Broken else Follows(|s.deliveries|))
    else Unresolved
  }

  /** Step `k` is the first of the first `n` steps that releases `p`. */
  ghost predicate FirstRelease(states: seq<Session>, steps: seq<Step>, n: nat, p: nat, k: nat)
    requires Run(states, steps) && n < |states|
  {
    k < n && ReleaseAt(states, steps, k, p) != Unresolved && forall i :: 0 <= i < k ==> ReleaseAt(states, steps, i, p) == Unresolved
  }

  /** The promise is what its first release made of it, and unresolved without one. */
  ghost predicate FirstReleased(states: seq<Session>, steps: seq<Step>, n: nat, p: nat, done: CancellationDone)
    requires Run(states, steps) && n < |states|
  {
    if done.Unresolved? then forall k :: 0 <= k < n ==> ReleaseAt(states, steps, k, p) == Unresolved
    else exists k: nat :: FirstRelease(states, steps, n, p, k) && ReleaseAt(states, steps, k, p) == done
  }

  lemma {:induction false} CancellationIsTheFirstRelease(states: seq<Session>, steps: seq<Step>, n: nat, p: nat)
    requires Run(states, steps) && n < |states| && p < |states[n].prompts|
    ensures FirstReleased(states, steps, n, p, states[n].prompts[p].cancellation)
  {
    hide Next, Enabled, Inv, Writes, CancelledAt, CancelledBefore, CancelledIdle, ReleaseAt;
    if n == 0 {
    } else {
      var s, step := states[n - 1], steps[n - 1];
      RunKeepsInv(states, steps, n - 1);
      if p >= |s.prompts| {
        NewRecord(s, step, p);
        NewRecordComesFromCall(s, step, p);
        NoCancelBefore(states, steps, n - 1, p);
        NewlyCancelled(states, steps, n - 1, p);
        NewlyReleased(states, steps, n - 1, p);
        NothingReleasedYet(states, steps, n - 1, p);
        if step.signalAborted { assert FirstRelease(states, steps, n, p, n - 1); }
      } else {
        CancellationIsTheFirstRelease(states, steps, n - 1, p);
        AbortedMeansCancelled(states, steps, n - 1, p);
        StepWrites(s, step, p);
        ReleaseWritten(states, steps, n - 1, p);
        ReleasedStep(states, steps, n - 1, p, s.prompts[p].cancellation);
      }
    }
  }

  lemma ReleasedStep(states: seq<Session>, steps: seq<Step>, n: nat, p: nat, done: CancellationDone)
    requires Run(states, steps) && n < |steps| && FirstReleased(states, steps, n, p, done)
    ensures FirstReleased(states, steps, n + 1, p, if done.Unresolved? then ReleaseAt(states, steps, n, p) else done)
  {
    hide ReleaseAt, Next, Enabled;
    if done.Unresolved? {
      if ReleaseAt(states, steps, n, p) != Unresolved { assert FirstRelease(states, steps, n + 1, p, n); }
    } else {
      var k: nat :| FirstRelease(states, steps, n, p, k) && ReleaseAt(states, steps, k, p) == done;
      assert FirstRelease(states, steps, n + 1, p, k);
    }
  }

  lemma ReleaseWritten(states: seq<Session>, steps: seq<Step>, n: nat, p: nat)
    requires Run(states, steps) && n < |steps| && p < |states[n].prompts| && p < |states[n + 1].prompts|
    requires Writes(states[n], steps[n], p, states[n + 1].prompts[p])
    requires states[n].prompts[p].aborted <==> CancelledBefore(states, steps, n, p)
    requires states[n].prompts[p].cancelStartedIdle <==> CancelledIdle(states, steps, n, p)
    ensures states[n + 1].prompts[p].cancellation ==
      if states[n].prompts[p].cancellation.Unresolved? then ReleaseAt(states, steps, n, p) else states[n].prompts[p].cancellation
  {
    hide Next, Enabled, CancelledBefore, CancelledIdle;
  }

  lemma NewlyReleased(states: seq<Session>, steps: seq<Step>, n: nat, p: nat)
    requires Run(states, steps) && n < |steps| && p == |states[n].prompts| && steps[n].CallPrompt?
    ensures ReleaseAt(states, steps, n, p) == if CancelledAt(states, steps, n, p) then Follows(0) else Unresolved
  {
    hide Next, Enabled, CancelledAt;
  }

  lemma NothingReleasedYet(states: seq<Session>, steps: seq<Step>, n: nat, p: nat)
    requires Run(states, steps) && n < |states| && p >= |states[n].prompts|
    ensures forall k :: 0 <= k < n ==> ReleaseAt(states, steps, k, p) == Unresolved
  {
    hide Next, Inv, CancelledAt, CancelledIdle;
    NoCancelBefore(states, steps, n, p);
    forall k: nat | k < n ensures ReleaseAt(states, steps, k, p) == Unresolved {
      assert !CancelledAt(states, steps, k, p);
      if p < |states[k].prompts| { RunIsForward(states, steps, k, n, p); }
      assert Enabled(states[k], steps[k]);
      assert !CancelledBefore(states, steps, k, p);
    }
  }

  /**
   * The wait of a cancelled prompt ends with a release of it: an emission or the fallback after a cancellation, or a
   * cancellation that found no message queued. Unless the fallback failed, every update queued by then has settled.
   */
  lemma CancelledWaitWasReleased(states: seq<Session>, steps: seq<Step>, n: nat, p: nat) returns (k: nat)
    requires Run(states, steps) && n < |steps| && steps[n] == CancellationObserved(p)
    ensures FirstRelease(states, steps, n, p, k)
    ensures CancelledBefore(states, steps, n, p)
    ensures var release := ReleaseAt(states, steps, k, p);
      release.Broken? || (release.Follows? && release.tail <= states[n].drained)
    ensures states[n + 1].prompts != [] && p < |states[n + 1].prompts|
    ensures states[n + 1].prompts[p].settlement == if ReleaseAt(states, steps, k, p).Broken? then WaitRejected else Quiescent
  {
    hide ReleaseAt, CancelledBefore, CancelledAt;
    assert Enabled(states[n], steps[n]);
    RunKeepsInv(states, steps, n);
    assert PromptInv(states[n].prompts[p], states[n].inflight == Some(p));
    AbortedMeansCancelled(states, steps, n, p);
    CancellationIsTheFirstRelease(states, steps, n, p);
    var done := states[n].prompts[p].cancellation;
    k :| FirstRelease(states, steps, n, p, k) && ReleaseAt(states, steps, k, p) == done;
  }
}
