/** The cost gate's state of one latched root session, over whole runs of its observations and idle evaluations. */
module CostGateRuns {
  import opened Basics
  import opened CostGate

  /** A compaction under way, with what its success will record. */
  datatype InFlight = InFlight(contextTokens: real, rewriteCost: real)

  datatype Gate = Gate(
    armed: bool, requests: nat, completedSteps: nat, snapshot: Snapshot, lastShrink: Option<real>, before: Option<real>,
    debt: seq<Debt>, cooldownUntil: int, failures: nat, paused: bool, inFlight: Option<InFlight>)

  const NEW := Gate(false, 0, 0, map[], None, None, [], 0, 0, false, None)

  /** What an idle evaluation reads: the settings, the clock, the surface's size, the engine's presence and the price. */
  datatype Reading = Reading(
    enabled: bool, dryRun: bool, margin: real, windowPressure: Option<real>, now: int, contextTokens: real, engine: bool,
    price: Option<Price>)

  /** How a compaction ends; busy and cancelled are expected and count toward nothing. */
  datatype End = Succeeded(now: int, cooldownMs: int) | Expected | Failed

  datatype Event = Stream | Todos(todos: seq<Todo>) | Idle(reading: Reading) | Ended(end: End)

  // ---------------------------------------------------------------- the machine

  /** The measured shrink of the last compaction, taken at the first enabled idle evaluation after it. */
  function Measure(g: Gate, r: Reading): Gate {
    if g.before.Some? && g.before.value > 0.0 then
      var shrink := (g.before.value - r.contextTokens) / g.before.value;
      g.(lastShrink := Some(if shrink > 0.0 then shrink else 0.0), before := None)
    else g
  }

  function InputOf(g: Gate, r: Reading): GateInput {
    GateInput(r.contextTokens, g.requests, g.completedSteps, PendingIn(g.snapshot), g.lastShrink, g.debt, r.margin, r.price,
              r.windowPressure)
  }

  /** The evaluation gets as far as the gate arithmetic. */
  predicate Evaluates(g: Gate, r: Reading) { r.enabled && g.armed && !g.paused && r.now >= g.cooldownUntil && r.engine }

  /** The evaluation starts a compaction. */
  predicate Starts(g: Gate, r: Reading) { Evaluates(g, r) && Passes(InputOf(Measure(g, r), r)) && !r.dryRun }

  /** `evaluateIdle` up to its one await. */
  function EvaluateIdle(g: Gate, r: Reading): Gate {
    if !r.enabled then g
    else
      var m := Measure(g, r).(armed := false);
      if Starts(g, r) then m.(inFlight := Some(InFlight(r.contextTokens, RewriteCost(InputOf(Measure(g, r), r))))) else m
  }

  /** The rest of `compactNow`. */
  function EndCompaction(g: Gate, end: End): Gate
    requires g.inFlight.Some?
  {
    var done := g.(inFlight := None);
    match end
    case Succeeded(now, cooldownMs) =>
      done.(failures := 0, cooldownUntil := now + cooldownMs, debt := g.debt + [Debt(g.inFlight.value.rewriteCost, 0)],
            before := Some(g.inFlight.value.contextTokens))
    case Expected => done
    case Failed => done.(failures := g.failures + 1, paused := g.paused || g.failures + 1 >= FAILURE_FUSE)
  }

  function Amortized(debt: seq<Debt>): (r: seq<Debt>)
    ensures |r| == |debt| && forall i :: 0 <= i < |r| ==> r[i] == Debt(debt[i].tokens, debt[i].requestsSince + 1)
  {
    seq(|debt|, i requires 0 <= i < |debt| => Debt(debt[i].tokens, debt[i].requestsSince + 1))
  }

  /** Evaluations are sequential: none starts while a compaction is under way. */
  predicate Enabled(g: Gate, e: Event) { match e case Idle(_) => g.inFlight.None? case Ended(_) => g.inFlight.Some? case _ => true }

  function Next(g: Gate, e: Event): Gate
    requires Enabled(g, e)
  {
    match e
    case Stream => g.(requests := g.requests + 1, debt := Amortized(g.debt))
    case Todos(todos) =>
      var snapshot := SnapshotOf(todos);
      g.(armed := g.armed || Arms(g.snapshot, todos), snapshot := snapshot, completedSteps := CompletedIn(snapshot))
    case Idle(reading) => EvaluateIdle(g, reading)
    case Ended(end) => EndCompaction(g, end)
  }

  ghost predicate IsRun(states: seq<Gate>, events: seq<Event>) {
    && |states| == |events| + 1 && states[0] == NEW
    && forall i :: 0 <= i < |events| ==> Enabled(states[i], events[i]) && states[i + 1] == Next(states[i], events[i])
  }

  lemma RunStep(states: seq<Gate>, events: seq<Event>, i: nat)
    requires IsRun(states, events) && i < |events|
    ensures Enabled(states[i], events[i]) && states[i + 1] == Next(states[i], events[i])
  {
  }

  // ---------------------------------------------------------------- one evaluation per boundary

  /** The event is a todo list that newly completes something. */
  predicate IsArming(states: seq<Gate>, events: seq<Event>, i: nat)
    requires i < |events| && |states| == |events| + 1
  {
    events[i].Todos? && Arms(states[i].snapshot, events[i].todos)
  }

  predicate IsEvaluation(states: seq<Gate>, events: seq<Event>, i: nat)
    requires i < |events| && |states| == |events| + 1
  {
    events[i].Idle? && Evaluates(states[i], events[i].reading)
  }

  predicate IsStart(states: seq<Gate>, events: seq<Event>, i: nat)
    requires i < |events| && |states| == |events| + 1
  {
    events[i].Idle? && Starts(states[i], events[i].reading)
  }

  /** An armed gate was armed since any earlier point at which it was not. */
  lemma {:induction false} ArmedSince(states: seq<Gate>, events: seq<Event>, i: nat, j: nat)
    requires IsRun(states, events) && i <= j <= |events| && !states[i].armed && states[j].armed
    ensures exists k :: i <= k < j && IsArming(states, events, k)
    decreases j
  {
    RunStep(states, events, j - 1);
    if states[j - 1].armed { ArmedSince(states, events, i, j - 1); } else { assert IsArming(states, events, j - 1); }
  }

  /** Each armed boundary is evaluated at most once: between two evaluations a todo list armed the gate again. */
  lemma OneEvaluationPerBoundary(states: seq<Gate>, events: seq<Event>, i: nat, j: nat)
    requires IsRun(states, events) && i < j < |events|
    requires IsEvaluation(states, events, i) && IsEvaluation(states, events, j)
    ensures exists k :: i < k < j && IsArming(states, events, k)
  {
    hide IsArming;
    RunStep(states, events, i);
    ArmedSince(states, events, i + 1, j);
  }

  // ---------------------------------------------------------------- cooldown

  predicate IsSuccess(e: Event) { e.Ended? && e.end.Succeeded? }

  /** A cooldown stands until the next success. */
  lemma {:induction false} CooldownStands(states: seq<Gate>, events: seq<Event>, i: nat, j: nat)
    requires IsRun(states, events) && i < j <= |events| && IsSuccess(events[i])
    requires forall k :: i < k < j ==> !IsSuccess(events[k])
    ensures states[j].cooldownUntil == events[i].end.now + events[i].end.cooldownMs
    decreases j
  {
    RunStep(states, events, j - 1);
    if j == i + 1 {
    } else {
      assert !IsSuccess(events[j - 1]);
      CooldownStands(states, events, i, j - 1);
    }
  }

  /** The next compaction after a successful one starts only when that one's cooldown is over. */
  lemma SuccessesAreApart(states: seq<Gate>, events: seq<Event>, i: nat, j: nat)
    requires IsRun(states, events) && i < j < |events| && IsSuccess(events[i]) && IsStart(states, events, j)
    requires forall k :: i < k < j ==> !IsSuccess(events[k])
    ensures events[j].reading.now >= events[i].end.now + events[i].end.cooldownMs
  {
    CooldownStands(states, events, i, j);
  }

  // ---------------------------------------------------------------- the fuse

  /** Real failures since the last success. */
  function FailuresSince(events: seq<Event>, n: nat): nat
    requires n <= |events|
  {
    if n == 0 then 0
    else
      var before := FailuresSince(events, n - 1);
      if !events[n - 1].Ended? then before
      else match events[n - 1].end case Succeeded(_, _) => 0 case Expected => before case Failed => before + 1
  }

  /** The fuse has blown exactly if three real failures have come with no success between them. */
  lemma {:induction false} FuseCountsFailures(states: seq<Gate>, events: seq<Event>, n: nat)
    requires IsRun(states, events) && n <= |events|
    ensures states[n].failures == FailuresSince(events, n)
    ensures states[n].paused <==> FailuresSince(events, n) >= FAILURE_FUSE
    ensures states[n].paused ==> states[n].inFlight.None?
    decreases n
  {
    hide Passes, RewriteCost, Amortized;
    if n == 0 {
    } else {
      RunStep(states, events, n - 1);
      FuseCountsFailures(states, events, n - 1);
    }
  }

  /** Once blown, nothing is ever compacted again, and the fuse stays blown. */
  lemma {:induction false} BlownForGood(states: seq<Gate>, events: seq<Event>, i: nat, j: nat)
    requires IsRun(states, events) && i <= j < |events| && FailuresSince(events, i) >= FAILURE_FUSE
    ensures states[j].paused && states[j].inFlight.None? && !IsStart(states, events, j)
    decreases j
  {
    hide Passes, RewriteCost, Amortized;
    if i == j {
      FuseCountsFailures(states, events, i);
    } else {
      BlownForGood(states, events, i, j - 1);
      RunStep(states, events, j - 1);
    }
  }

  // ---------------------------------------------------------------- when an evaluation takes place

  /** When the cooldown of the last success is over. */
  function CooldownEnd(events: seq<Event>, n: nat): int
    requires n <= |events|
  {
    if n == 0 then 0
    else if IsSuccess(events[n - 1]) then events[n - 1].end.now + events[n - 1].end.cooldownMs
    else CooldownEnd(events, n - 1)
  }

  lemma {:induction false} CooldownIsHistory(states: seq<Gate>, events: seq<Event>, n: nat)
    requires IsRun(states, events) && n <= |events|
    ensures states[n].cooldownUntil == CooldownEnd(events, n)
    decreases n
  {
    hide Passes, RewriteCost, Amortized;
    if n == 0 {
    } else {
      RunStep(states, events, n - 1);
      CooldownIsHistory(states, events, n - 1);
    }
  }

  /** An event armed the gate and no enabled idle evaluation has come since. */
  ghost predicate ArmedBy(states: seq<Gate>, events: seq<Event>, k: int, n: nat)
    requires n <= |events| && |states| == |events| + 1
  {
    0 <= k < n && IsArming(states, events, k) && forall m :: k < m < n ==> !(events[m].Idle? && events[m].reading.enabled)
  }

  lemma {:induction false} ArmedIsHistory(states: seq<Gate>, events: seq<Event>, n: nat)
    requires IsRun(states, events) && n <= |events|
    ensures states[n].armed <==> exists k :: ArmedBy(states, events, k, n)
    decreases n
  {
    hide Arms, Passes, RewriteCost, Amortized;
    if n == 0 {
    } else {
      RunStep(states, events, n - 1);
      ArmedIsHistory(states, events, n - 1);
      forall k | k < n - 1 && ArmedBy(states, events, k, n) ensures ArmedBy(states, events, k, n - 1) {}
      if IsArming(states, events, n - 1) { assert ArmedBy(states, events, n - 1, n); }
      else if states[n].armed {
        var k :| ArmedBy(states, events, k, n - 1);
        assert ArmedBy(states, events, k, n);
      }
    }
  }

  /**
   * Over the whole history: an idle event gets as far as the gate exactly if a completed todo armed it and no idle
   * evaluation was made since, the fuse has not blown, the last success's cooldown is over and an engine is there.
   */
  lemma EvaluationIsDue(states: seq<Gate>, events: seq<Event>, n: nat)
    requires IsRun(states, events) && n < |events|
    ensures IsEvaluation(states, events, n) <==>
      && events[n].Idle? && events[n].reading.enabled && events[n].reading.engine
      && (exists k :: ArmedBy(states, events, k, n))
      && FailuresSince(events, n) < FAILURE_FUSE
      && events[n].reading.now >= CooldownEnd(events, n)
  {
    hide ArmedBy, FailuresSince, CooldownEnd, IsRun;
    ArmedIsHistory(states, events, n);
    FuseCountsFailures(states, events, n);
    CooldownIsHistory(states, events, n);
    RunLength(states, events);
  }

  // ---------------------------------------------------------------- debt

  /** The successes among the first events, oldest first. */
  function Successes(events: seq<Event>, n: nat): (s: seq<nat>)
    requires n <= |events|
    ensures forall i :: 0 <= i < |s| ==> s[i] < n
  {
    if n == 0 then [] else Successes(events, n - 1) + if IsSuccess(events[n - 1]) then [n - 1] else []
  }

  /** The counted requests after an event. */
  function LaterRequests(events: seq<Event>, i: nat, n: nat): nat
    requires i < n <= |events|
  {
    if n == i + 1 then 0 else LaterRequests(events, i, n - 1) + if events[n - 1].Stream? then 1 else 0
  }

  /** What the compaction that ends at an event set out to rewrite. */
  function PriceOf(states: seq<Gate>, i: nat): real
    requires i < |states|
  {
    if states[i].inFlight.Some? then states[i].inFlight.value.rewriteCost else 0.0
  }

  /** The debt that a success has become by now. */
  function DebtOf(states: seq<Gate>, events: seq<Event>, i: nat, n: nat): Debt
    requires i < n <= |events| && |states| == |events| + 1
  {
    Debt(PriceOf(states, i), LaterRequests(events, i, n))
  }

  /** One debt per success, at the price it started with, aged by exactly the requests counted since. */
  ghost predicate History(states: seq<Gate>, events: seq<Event>, n: nat)
    requires n <= |events| && |states| == |events| + 1
  {
    && |states[n].debt| == |Successes(events, n)|
    && forall k :: 0 <= k < |states[n].debt| ==> states[n].debt[k] == DebtOf(states, events, Successes(events, n)[k], n)
  }

  lemma {:induction false} DebtIsHistory(states: seq<Gate>, events: seq<Event>, n: nat)
    requires IsRun(states, events) && n <= |events|
    ensures History(states, events, n)
    decreases n
  {
    hide Next, Enabled, IsSuccess;
    if n == 0 {
    } else {
      RunStep(states, events, n - 1);
      DebtIsHistory(states, events, n - 1);
      NextDebt(states[n - 1], events[n - 1]);
      HistoryGrows(states, events, n);
    }
  }

  lemma HistoryGrows(states: seq<Gate>, events: seq<Event>, n: nat)
    requires 0 < n <= |events| && |states| == |events| + 1 && History(states, events, n - 1)
    requires IsSuccess(events[n - 1]) ==> states[n - 1].inFlight.Some?
    requires var aged := if events[n - 1].Stream? then Amortized(states[n - 1].debt) else states[n - 1].debt;
      states[n].debt == if IsSuccess(events[n - 1]) then aged + [Debt(states[n - 1].inFlight.value.rewriteCost, 0)] else aged
    ensures History(states, events, n)
  {
    hide IsSuccess;
    var before, after := Successes(events, n - 1), Successes(events, n);
    forall k | 0 <= k < |states[n].debt| ensures states[n].debt[k] == DebtOf(states, events, after[k], n) {
      if k < |before| {
        assert after[k] == before[k];
        assert states[n - 1].debt[k] == DebtOf(states, events, before[k], n - 1);
      }
    }
  }

  lemma NextDebt(g: Gate, e: Event)
    requires Enabled(g, e)
    ensures var aged := if e.Stream? then Amortized(g.debt) else g.debt;
      Next(g, e).debt == if IsSuccess(e) then aged + [Debt(g.inFlight.value.rewriteCost, 0)] else aged
    ensures IsSuccess(e) ==> !e.Stream? && g.inFlight.Some?
  {
    hide Passes, RewriteCost, InputOf, PendingIn, CompletedIn, Arms;
  }

  /** The sum over past compactions of their prices, counting those with fewer than five later requests. */
  function OpenPrices(states: seq<Gate>, events: seq<Event>, successes: seq<nat>, n: nat): real
    requires |states| == |events| + 1 && n <= |events| && forall k :: 0 <= k < |successes| ==> successes[k] < n
  {
    if successes == [] then 0.0
    else
      var last := successes[|successes| - 1];
      OpenPrices(states, events, successes[..|successes| - 1], n)
        + if LaterRequests(events, last, n) < DEBT_AMORTIZE_REQUESTS then PriceOf(states, last) else 0.0
  }

  lemma {:induction false} DebtSums(states: seq<Gate>, events: seq<Event>, debt: seq<Debt>, successes: seq<nat>, n: nat)
    requires |states| == |events| + 1 && n <= |events| && forall k :: 0 <= k < |successes| ==> successes[k] < n
    requires |debt| == |successes|
    requires forall k :: 0 <= k < |debt| ==> debt[k] == DebtOf(states, events, successes[k], n)
    ensures DebtTokens(debt) == OpenPrices(states, events, successes, n)
  {
    if debt == [] {
    } else {
      var last := |debt| - 1;
      forall k | 0 <= k < last ensures debt[..last][k] == DebtOf(states, events, successes[..last][k], n) {
        assert debt[..last][k] == debt[k] && successes[..last][k] == successes[k];
      }
      DebtSums(states, events, debt[..last], successes[..last], n);
      assert debt[last] == DebtOf(states, events, successes[last], n);
    }
  }

  /** At every point of a run, the gate's debt is the price of every compaction with fewer than five later requests. */
  lemma DebtIsOpenPrices(states: seq<Gate>, events: seq<Event>, n: nat)
    requires IsRun(states, events) && n <= |events|
    ensures DebtTokens(states[n].debt) == OpenPrices(states, events, Successes(events, n), n)
  {
    hide IsRun, DebtTokens, OpenPrices, LaterRequests, Successes;
    DebtIsHistory(states, events, n);
    RunLength(states, events);
    DebtSums(states, events, states[n].debt, Successes(events, n), n);
  }

  lemma RunLength(states: seq<Gate>, events: seq<Event>)
    requires IsRun(states, events)
    ensures |states| == |events| + 1
  {
  }

  // ---------------------------------------------------------------- the object

  /** The mounted cost gate: a latch on the first root session it sees, and that session's state. */
  class CompactionCostGate {
    var rootLatch: Option<nat>
    var gate: Gate

    constructor ()
      ensures rootLatch == None && gate == NEW
    {
      rootLatch, gate := None, NEW;
    }

    /** `observeStream` of a main-loop request: the first one latches its session, later ones of that session count. */
    method ObserveStream(session: nat)
      modifies this
      ensures rootLatch == if old(rootLatch).None? then Some(session) else old(rootLatch)
      ensures gate == if old(rootLatch).None? then Next(NEW, Stream)
                      else if old(rootLatch) == Some(session) then Next(old(gate), Stream) else old(gate)
    {
      if rootLatch.None? { rootLatch, gate := Some(session), NEW; }
      if rootLatch != Some(session) { return; }
      var aged: seq<Debt> := [];
      for i := 0 to |gate.debt|
        invariant rootLatch == (if old(rootLatch).None? then Some(session) else old(rootLatch)) == Some(session)
        invariant gate == if old(rootLatch).None? then NEW else old(gate)
        invariant aged == Amortized(gate.debt[..i])
      {
        aged := aged + [gate.debt[i].(requestsSince := gate.debt[i].requestsSince + 1)];
      }
      assert gate.debt[..|gate.debt|] == gate.debt;
      gate := gate.(requests := gate.requests + 1, debt := aged);
    }

    /** `observePostExecute` of a well-formed `todo_write`. */
    method ObserveTodos(session: nat, todos: seq<Todo>)
      modifies this
      ensures rootLatch == old(rootLatch)
      ensures gate == if rootLatch == Some(session) then Next(old(gate), Todos(todos)) else old(gate)
    {
      if rootLatch != Some(session) { return; }
      var armed, newly, completed, pending, snapshot := DiffTodos(gate.snapshot, todos);
      gate := gate.(armed := gate.armed || armed, snapshot := snapshot, completedSteps := completed);
    }

    /** `evaluateIdle` up to the compaction it may start. */
    method EvaluateIdle(session: nat, reading: Reading) returns (starts: bool)
      requires gate.inFlight.None?
      modifies this
      ensures rootLatch == old(rootLatch)
      ensures gate == if rootLatch == Some(session) then Next(old(gate), Idle(reading)) else old(gate)
      ensures starts <==> rootLatch == Some(session) && Starts(old(gate), reading)
    {
      hide ProjectedSaving, DebtTokens, PendingIn;
      if !reading.enabled || rootLatch != Some(session) { return false; }
      gate := Measure(gate, reading);
      if !gate.armed { return false; }
      gate := gate.(armed := false);
      if gate.paused || reading.now < gate.cooldownUntil || !reading.engine { return false; }
      var input := InputOf(gate, reading);
      if !Passes(input) || reading.dryRun { return false; }
      gate := gate.(inFlight := Some(InFlight(reading.contextTokens, RewriteCost(input))));
      return true;
    }

    /** The rest of `compactNow`; a real failure may blow the fuse, which is reported once. */
    method CompactionEnded(end: End) returns (notice: bool)
      requires gate.inFlight.Some?
      modifies this
      ensures rootLatch == old(rootLatch) && gate == Next(old(gate), Ended(end))
      ensures notice <==> end.Failed? && old(gate).failures + 1 >= FAILURE_FUSE
    {
      var started := gate.inFlight.value;
      gate := gate.(inFlight := None);
      match end
      case Succeeded(now, cooldownMs) =>
        gate := gate.(failures := 0, cooldownUntil := now + cooldownMs, before := Some(started.contextTokens),
                      debt := gate.debt + [Debt(started.rewriteCost, 0)]);
        return false;
      case Expected => return false;
      case Failed =>
        gate := gate.(failures := gate.failures + 1);
        if gate.failures < FAILURE_FUSE { return false; }
        gate := gate.(paused := true);
        return true;
    }

    /** The latched session goes away, and the next one to be seen is latched afresh. */
    method SessionDisposed(session: nat)
      modifies this
      ensures rootLatch == if old(rootLatch) == Some(session) then None else old(rootLatch)
      ensures gate == old(gate)
    {
      if rootLatch == Some(session) { rootLatch := None; }
    }
  }
}
