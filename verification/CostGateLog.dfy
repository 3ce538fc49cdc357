/** When the cost gate starts a compaction, as a statement about the session's history alone. */
module CostGateLog {
  import opened Basics
  import opened CostGate
  import opened CostGateRuns

  // ---------------------------------------------------------------- todo lists

  /** The todo that speaks for its content: no later one of the list has the same. */
  predicate LastOfContent(todos: seq<Todo>, i: nat) {
    i < |todos| && forall j :: i < j < |todos| ==> todos[j].content != todos[i].content
  }

  ghost function DoneTodos(todos: seq<Todo>): set<nat> { set i: nat | i < |todos| && LastOfContent(todos, i) && todos[i].status == Completed }

  ghost function OpenTodos(todos: seq<Todo>): set<nat> { set i: nat | i < |todos| && LastOfContent(todos, i) && todos[i].status != Completed }

  /** Every content has such a todo, and the snapshot holds its status. */
  lemma {:induction false} SnapshotSpeaks(todos: seq<Todo>, content: string) returns (i: nat)
    requires content in SnapshotOf(todos)
    ensures LastOfContent(todos, i) && todos[i].content == content && SnapshotOf(todos)[content] == todos[i].status
  {
    i := LastWith(todos, content, |todos|);
    SnapshotIsLast(todos, i);
  }

  lemma {:induction false} LastWith(todos: seq<Todo>, content: string, n: nat) returns (i: nat)
    requires n <= |todos| && (exists k :: 0 <= k < n && todos[k].content == content) && forall j :: n <= j < |todos| ==> todos[j].content != content
    ensures LastOfContent(todos, i) && todos[i].content == content
  {
    if todos[n - 1].content == content {
      i := n - 1;
    } else {
      i := LastWith(todos, content, n - 1);
    }
  }

  lemma SameSize(a: set<nat>, b: set<string>, todos: seq<Todo>)
    requires forall i :: i in a ==> LastOfContent(todos, i) && todos[i].content in b
    requires forall c :: c in b ==> exists i :: i in a && i < |todos| && todos[i].content == c
    ensures |a| == |b|
    decreases |a|
  {
    if a == {} {
      assert b == {};
    } else {
      var i: nat :| i in a;
      var c := todos[i].content;
      forall x | x in b - {c} ensures exists k :: k in a - {i} && k < |todos| && todos[k].content == x {
        var k :| k in a && k < |todos| && todos[k].content == x;
        assert k in a - {i};
      }
      forall k | k in a - {i} ensures LastOfContent(todos, k) && todos[k].content in b - {c} {
        assert k < i || i < k;
      }
      SameSize(a - {i}, b - {c}, todos);
    }
  }

  /** The counts of a list: its contents by the status of the last todo that has them. */
  lemma CountsOfList(todos: seq<Todo>)
    ensures CompletedIn(SnapshotOf(todos)) == |DoneTodos(todos)|
    ensures PendingIn(SnapshotOf(todos)) == |OpenTodos(todos)|
  {
    hide SnapshotOf, LastOfContent;
    var snapshot := SnapshotOf(todos);
    var done := set c | c in snapshot && snapshot[c] == Completed;
    var open := set c | c in snapshot && snapshot[c] != Completed;
    forall i | i in DoneTodos(todos) + OpenTodos(todos)
      ensures todos[i].content in snapshot && snapshot[todos[i].content] == todos[i].status
    {
      LastSpeaks(todos, i);
    }
    forall c | c in snapshot ensures exists i :: (i in DoneTodos(todos) || i in OpenTodos(todos)) && todos[i].content == c
                                            && todos[i].status == snapshot[c]
    {
      var i := SnapshotSpeaks(todos, c);
      Within(todos, i);
      assert i in DoneTodos(todos) || i in OpenTodos(todos);
    }
    forall i | i in DoneTodos(todos) ensures LastOfContent(todos, i) && todos[i].content in done {}
    forall i | i in OpenTodos(todos) ensures LastOfContent(todos, i) && todos[i].content in open {}
    SameSize(DoneTodos(todos), done, todos);
    SameSize(OpenTodos(todos), open, todos);
  }

  lemma Within(todos: seq<Todo>, i: nat)
    requires LastOfContent(todos, i)
    ensures i < |todos|
  {
  }

  lemma LastSpeaks(todos: seq<Todo>, i: nat)
    requires LastOfContent(todos, i)
    ensures todos[i].content in SnapshotOf(todos) && SnapshotOf(todos)[todos[i].content] == todos[i].status
  {
    SnapshotIsLast(todos, i);
  }

  // ---------------------------------------------------------------- what the history says

  /** The requests counted so far. */
  function Requests(events: seq<Event>, n: nat): nat
    requires n <= |events|
  {
    if n == 0 then 0 else Requests(events, n - 1) + if events[n - 1].Stream? then 1 else 0
  }

  /** The last todo list so far; empty before the first. */
  function LastTodos(events: seq<Event>, n: nat): seq<Todo>
    requires n <= |events|
  {
    if n == 0 then [] else if events[n - 1].Todos? then events[n - 1].todos else LastTodos(events, n - 1)
  }

  /** Event `k` starts the compaction that is under way after `n` events. */
  ghost predicate UnderWay(states: seq<Gate>, events: seq<Event>, k: nat, n: nat)
    requires n <= |events| && |states| == |events| + 1
  {
    k < n && IsStart(states, events, k) && forall m :: k < m < n ==> !events[m].Ended?
  }

  lemma {:induction false} CountsAreHistory(states: seq<Gate>, events: seq<Event>, n: nat)
    requires IsRun(states, events) && n <= |events|
    ensures states[n].requests == Requests(events, n)
    ensures states[n].snapshot == SnapshotOf(LastTodos(events, n))
    ensures states[n].completedSteps == |DoneTodos(LastTodos(events, n))|
    decreases n
  {
    hide Passes, RewriteCost, Amortized, SnapshotOf, DoneTodos, CompletedIn, Arms;
    if n == 0 {
      NoTodos();
    } else {
      RunStep(states, events, n - 1);
      CountsAreHistory(states, events, n - 1);
      if events[n - 1].Todos? { CountsOfList(events[n - 1].todos); }
    }
  }

  lemma NoTodos()
    ensures SnapshotOf([]) == map[] && DoneTodos([]) == {}
  {
  }

  // ---------------------------------------------------------------- the measured shrink

  /** The context that the compaction which ends at event `i` started from. */
  function ContextOf(states: seq<Gate>, i: nat): real
    requires i < |states|
  {
    if states[i].inFlight.Some? then states[i].inFlight.value.contextTokens else 0.0
  }

  /** Event `k` is the first enabled idle event after the success `i`, whose compaction started from some context. */
  ghost predicate Measures(states: seq<Gate>, events: seq<Event>, i: nat, k: nat)
    requires k < |events| && |states| == |events| + 1
  {
    && i < k && IsSuccess(events[i]) && ContextOf(states, i) > 0.0
    && events[k].Idle? && events[k].reading.enabled
    && forall m :: i < m < k ==> !IsSuccess(events[m]) && !(events[m].Idle? && events[m].reading.enabled)
  }

  /** Event `i` is a success that no enabled idle event has followed. */
  ghost predicate Unmeasured(events: seq<Event>, i: nat, n: nat)
    requires n <= |events|
  {
    i < n && IsSuccess(events[i]) && forall m :: i < m < n ==> !IsSuccess(events[m]) && !(events[m].Idle? && events[m].reading.enabled)
  }

  /** The share of the context that the compaction took away, none if it grew. */
  function ShrinkBetween(before: real, after: real): real
    requires before > 0.0
  {
    if after >= before then 0.0 else (before - after) / before
  }

  /** The last measurement so far, and what it gave. */
  ghost predicate LastMeasure(states: seq<Gate>, events: seq<Event>, n: nat, i: nat, k: nat, shrink: real)
    requires n <= |events| && |states| == |events| + 1
  {
    && k < n && Measures(states, events, i, k)
    && (forall j: nat, m: nat :: k < m < n ==> !Measures(states, events, j, m))
    && shrink == ShrinkBetween(ContextOf(states, i), events[k].reading.contextTokens)
  }

  ghost predicate MeasuredShrink(states: seq<Gate>, events: seq<Event>, n: nat, shrink: Option<real>)
    requires n <= |events| && |states| == |events| + 1
  {
    if shrink.None? then forall i, k: nat :: k < n ==> !Measures(states, events, i, k)
    else exists i: nat, k: nat :: LastMeasure(states, events, n, i, k, shrink.value)
  }

  /** A pending measurement is that of the last unmeasured success. */
  lemma {:induction false} BeforeIsHistory(states: seq<Gate>, events: seq<Event>, n: nat)
    requires IsRun(states, events) && n <= |events|
    ensures forall i: nat :: Unmeasured(events, i, n) ==> states[n].before == Some(ContextOf(states, i))
    ensures states[n].before.Some? && states[n].before.value > 0.0 ==> exists i: nat :: Unmeasured(events, i, n)
    decreases n
  {
    hide Passes, RewriteCost, Amortized, SnapshotOf, CompletedIn, Arms;
    if n == 0 {
    } else {
      RunStep(states, events, n - 1);
      BeforeIsHistory(states, events, n - 1);
      var e := events[n - 1];
      forall i: nat | i < n - 1 && Unmeasured(events, i, n) ensures Unmeasured(events, i, n - 1) {}
      if IsSuccess(e) {
        assert Unmeasured(events, n - 1, n);
      } else if !(e.Idle? && e.reading.enabled) && states[n].before.Some? && states[n].before.value > 0.0 {
        var i: nat :| Unmeasured(events, i, n - 1);
        assert Unmeasured(events, i, n);
      }
    }
  }

  lemma MeasuresNow(states: seq<Gate>, events: seq<Event>, n: nat)
    requires IsRun(states, events) && n < |events| && |states| == |events| + 1
    ensures forall i: nat :: Measures(states, events, i, n) <==>
      Unmeasured(events, i, n) && ContextOf(states, i) > 0.0 && events[n].Idle? && events[n].reading.enabled
  {
    hide IsRun;
  }

  lemma MeasureGives(before: real, after: real)
    requires before > 0.0
    ensures ShrinkBetween(before, after) == var shrink := (before - after) / before; if shrink > 0.0 then shrink else 0.0
  {
  }

  /** One more event: it measures, or everything stays. */
  lemma ShrinkStep(states: seq<Gate>, events: seq<Event>, n: nat, shrink: Option<real>)
    requires |states| == |events| + 1 && n < |events| && MeasuredShrink(states, events, n, shrink)
    ensures (forall i: nat {:trigger Measures(states, events, i, n)} :: !Measures(states, events, i, n)) ==>
      MeasuredShrink(states, events, n + 1, shrink)
    ensures forall i: nat :: Measures(states, events, i, n) ==>
      MeasuredShrink(states, events, n + 1, Some(ShrinkBetween(ContextOf(states, i), events[n].reading.contextTokens)))
  {
    forall i: nat | Measures(states, events, i, n)
      ensures MeasuredShrink(states, events, n + 1, Some(ShrinkBetween(ContextOf(states, i), events[n].reading.contextTokens)))
    {
      assert LastMeasure(states, events, n + 1, i, n, ShrinkBetween(ContextOf(states, i), events[n].reading.contextTokens));
    }
    if shrink.Some? && forall i: nat {:trigger Measures(states, events, i, n)} :: !Measures(states, events, i, n) {
      var i: nat, k: nat :| LastMeasure(states, events, n, i, k, shrink.value);
      assert LastMeasure(states, events, n + 1, i, k, shrink.value);
    }
  }

  lemma MeasureIs(g: Gate, e: Event)
    requires Enabled(g, e)
    ensures Next(g, e).lastShrink ==
      if e.Idle? && e.reading.enabled && g.before.Some? && g.before.value > 0.0
      then Some(ShrinkBetween(g.before.value, e.reading.contextTokens)) else g.lastShrink
  {
    hide Passes, RewriteCost, Amortized, SnapshotOf, CompletedIn, Arms, Starts;
    if e.Idle? && g.before.Some? && g.before.value > 0.0 { MeasureGives(g.before.value, e.reading.contextTokens); }
  }

  /** In every run, the shrink that the gate counts on is the one last measured. */
  lemma {:induction false} ShrinkIsMeasured(states: seq<Gate>, events: seq<Event>, n: nat)
    requires IsRun(states, events) && n <= |events| && |states| == |events| + 1
    ensures MeasuredShrink(states, events, n, states[n].lastShrink)
    decreases n
  {
    hide Next, Enabled, Unmeasured, Measures, ShrinkBetween, LastMeasure, MeasuredShrink, IsRun, IsSuccess;
    if n == 0 {
      NothingMeasured(states, events);
    } else {
      var g, e := states[n - 1], events[n - 1];
      RunStep(states, events, n - 1);
      ShrinkIsMeasured(states, events, n - 1);
      BeforeIsHistory(states, events, n - 1);
      MeasuresNow(states, events, n - 1);
      MeasureIs(g, e);
      ShrinkStep(states, events, n - 1, g.lastShrink);
      if e.Idle? && e.reading.enabled && g.before.Some? && g.before.value > 0.0 {
        var i: nat :| Unmeasured(events, i, n - 1);
        assert Measures(states, events, i, n - 1);
      }
    }
  }

  lemma NothingMeasured(states: seq<Gate>, events: seq<Event>)
    requires IsRun(states, events)
    ensures MeasuredShrink(states, events, 0, states[0].lastShrink)
  {
  }

  // ---------------------------------------------------------------- the price of a compaction

  /** What is under way was started by an event, and carries that event's context and its cost with the debt then open. */
  lemma {:induction false} UnderWayIsHistory(states: seq<Gate>, events: seq<Event>, n: nat) returns (k: nat)
    requires IsRun(states, events) && n <= |events| && |states| == |events| + 1 && states[n].inFlight.Some?
    ensures UnderWay(states, events, k, n) && events[k].Idle?
    ensures ContextOf(states, n) == events[k].reading.contextTokens
    ensures PriceOf(states, n) == events[k].reading.contextTokens + OpenPrices(states, events, Successes(events, k), k)
    decreases n
  {
    hide Passes, Amortized, SnapshotOf, CompletedIn, Arms, DebtTokens, OpenPrices, Successes, Measure;
    RunStep(states, events, n - 1);
    if states[n - 1].inFlight.Some? {
      k := UnderWayIsHistory(states, events, n - 1);
    } else {
      k := n - 1;
      DebtIsOpenPrices(states, events, k);
      MeasureKeeps(states[k], events[k].reading);
    }
  }

  lemma MeasureKeeps(g: Gate, r: Reading)
    ensures var m := Measure(g, r); m == g.(lastShrink := m.lastShrink, before := m.before)
  {
  }

  // ---------------------------------------------------------------- the decision

  /** Enough to save: what the plan still reads, less what the compaction writes, at the price row or in tokens. */
  ghost predicate WorthIt(r: Reading, requests: nat, done: nat, open: nat, shrink: Option<real>, debt: real)
  {
    var steps := if done > 1 then done as real else 1.0;
    var perStep := if requests as real > steps then requests as real / steps else 1.0;
    var share := if shrink.Some? then shrink.value else 0.5;
    var saved := r.contextTokens * share * perStep * open as real;
    var written := r.contextTokens + debt;
    open > 0 &&
    ((r.windowPressure.Some? && r.contextTokens >= r.windowPressure.value)
     || (match r.price
         case Some(price) => saved * price.cacheRead > r.margin * (written * price.cacheWrite)
         case None => saved > r.margin * written))
  }

  lemma PerStepIs(input: GateInput)
    ensures RequestsPerStep(input) ==
      var requests, steps := input.requests as real, if input.completedSteps > 1 then input.completedSteps as real else 1.0;
      if requests > steps then requests / steps else 1.0
  {
    Ratio(input.requests as real, if input.completedSteps > 1 then input.completedSteps as real else 1.0);
  }

  lemma Ratio(a: real, b: real)
    requires b > 0.0
    ensures a / b > 1.0 <==> a > b
  {
  }

  lemma PassesIfWorth(r: Reading, g: Gate, open: nat, debt: real)
    requires open == PendingIn(g.snapshot) && debt == DebtTokens(g.debt)
    ensures Passes(InputOf(g, r)) <==> WorthIt(r, g.requests, g.completedSteps, open, g.lastShrink, debt)
  {
    hide PendingIn, DebtTokens, RequestsPerStep;
    PerStepIs(InputOf(g, r));
  }

  /** What a measurement in the very event leaves as the shrink to count on. */
  ghost predicate CountsOn(states: seq<Gate>, events: seq<Event>, n: nat, shrink: Option<real>)
    requires n < |events| && |states| == |events| + 1
  {
    MeasuredShrink(states, events, n + 1, shrink)
  }

  /**
   * Over the whole history: an event starts a compaction exactly if it is an idle one that gets as far as the gate, is no dry
   * run, and the compaction is worth it, by the requests counted, the done and open contents of the last todo list, the shrink
   * last measured (this event included) and the prices of all compactions with fewer than five later requests.
   */
  lemma StartIsByTheLog(states: seq<Gate>, events: seq<Event>, n: nat) returns (shrink: Option<real>)
    requires IsRun(states, events) && n < |events| && |states| == |events| + 1
    ensures CountsOn(states, events, n, shrink)
    ensures IsStart(states, events, n) <==>
      && IsEvaluation(states, events, n) && !events[n].reading.dryRun
      && WorthIt(events[n].reading, Requests(events, n), |DoneTodos(LastTodos(events, n))|, |OpenTodos(LastTodos(events, n))|, shrink,
                 OpenPrices(states, events, Successes(events, n), n))
    ensures events[n].Idle? ==> (states[n + 1].inFlight.Some? <==> IsStart(states, events, n))
  {
    hide Passes, RewriteCost, Amortized, SnapshotOf, CompletedIn, PendingIn, Arms, DoneTodos, OpenTodos, OpenPrices, Successes, LastTodos,
         Requests, MeasuredShrink, WorthIt, InputOf, DebtTokens, Measure;
    var g := states[n];
    RunStep(states, events, n);
    shrink := states[n + 1].lastShrink;
    ShrinkIsMeasured(states, events, n + 1);
    if events[n].Idle? && events[n].reading.enabled {
      var r := events[n].reading;
      var m := Measure(g, r);
      MeasureKeeps(g, r);
      CountsAreHistory(states, events, n);
      CountsOfList(LastTodos(events, n));
      DebtIsOpenPrices(states, events, n);
      PassesIfWorth(r, m, PendingIn(g.snapshot), DebtTokens(g.debt));
      assert shrink == m.lastShrink;
    }
  }
}
