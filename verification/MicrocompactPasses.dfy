/** What a pass replaces, how far a stopped pass gets, and when the pause is announced, in terms of the history alone. */
module MicrocompactPasses {
  import opened Microcompact
  import opened MicrocompactText

  /** The places behind `i` that hold a result. */
  ghost function LaterResults(s: Session, i: nat): set<nat> { ResultPlaces(s.log, s.surface, i + 1) }

  ghost function ResultPlaces(log: seq<Event>, surface: seq<nat>, from: nat): set<nat> {
    set j: nat | from <= j < |surface| && surface[j] < |log| && log[surface[j]].Result?
  }

  lemma {:induction false} ResultsAreCounted(log: seq<Event>, surface: seq<nat>, from: nat)
    requires from <= |surface|
    ensures |ResultsIn(log, surface[from..])| == |ResultPlaces(log, surface, from)|
    decreases |surface| - from
  {
    hide ResultsIn;
    if from == |surface| {
      NoResults(log);
      assert surface[from..] == [] && ResultPlaces(log, surface, from) == {};
    } else {
      ResultsAreCounted(log, surface, from + 1);
      ResultsHead(log, surface[from..]);
      assert surface[from..][1..] == surface[from + 1..];
      var rest := ResultPlaces(log, surface, from + 1);
      if surface[from] < |log| && log[surface[from]].Result? {
        assert ResultPlaces(log, surface, from) == rest + {from};
      } else {
        assert ResultPlaces(log, surface, from) == rest;
      }
    }
  }

  /** The first text of a result starts with the marker. */
  ghost predicate CarriesMarker(content: Content) { exists k: nat :: FirstText(content, k) && MARKER <= content[k].text }

  /**
   * A pass replaces a result exactly if at least `retainResults` results come after it, its first text does not start with
   * the marker, and its text is no crusher stub; every other place keeps its node.
   */
  lemma PassReplacesExactly(s: Session, config: Config, tools: Tools, i: nat)
    requires Inv(s) && i < |s.surface| && s.surface[i] < |s.log|
    ensures var e, t := s.log[s.surface[i]], Pass(s, config, tools);
      && |t.surface| == |s.surface|
      && (t.surface[i] != s.surface[i]
          <==> && e.Result? && |LaterResults(s, i)| >= config.retainResults
               && !CarriesMarker(e.content) && !tools.crusherStub(PlainText(e.content)))
  {
    hide Inv, Pass, Stale, ReplacementText, PlainText, IsPlaceholder, FirstText, ResultPlaces, MARKER;
    PassReplacesInPlace(s, config, tools);
    assert PlaceOk(s, Pass(s, config, tools), Stale(s, config), i, config, tools);
    StaleByPlace(s, config, i);
    ResultsAreCounted(s.log, s.surface, i + 1);
    if s.log[s.surface[i]].Result? { PlaceholderMeans(s.log[s.surface[i]].content); }
  }

  /** The first `n` nodes that a pass does replace. */
  ghost function Replaced(log: seq<Event>, nodes: seq<nat>, n: nat, tools: Tools): set<nat>
    requires AreResults(log, nodes)
  {
    set i: nat | i < n && i < |nodes| && Collapsible(tools, log[nodes[i]].content)
  }

  lemma OneMore(s: Session, nodes: seq<nat>, n: nat, config: Config, tools: Tools)
    requires AreResults(s.log, nodes) && n < |nodes|
    ensures var mid := CollapseAll(s, nodes[..n], config, tools);
      && mid.log[nodes[n]] == s.log[nodes[n]]
      && CollapseAll(s, nodes[..n + 1], config, tools) == Collapse(mid, nodes[n], config, tools)
  {
    hide Collapse;
    assert nodes[..n + 1][..n] == nodes[..n];
    assert s.log[nodes[n]] == CollapseAll(s, nodes[..n], config, tools).log[nodes[n]];
  }

  lemma {:induction false} TwoEventsEach(s: Session, nodes: seq<nat>, n: nat, config: Config, tools: Tools)
    requires AreResults(s.log, nodes) && n <= |nodes|
    ensures |CollapseAll(s, nodes[..n], config, tools).log| == |s.log| + 2 * |Replaced(s.log, nodes, n, tools)|
  {
    hide Collapsible, ReplacementText, CollapseAll, Replaced;
    OneReplaced(s.log, nodes, n, tools);
    if n == 0 {
      NothingCollapsed(s, config, tools);
    } else {
      TwoEventsEach(s, nodes, n - 1, config, tools);
      OneMore(s, nodes, n - 1, config, tools);
    }
  }

  lemma NothingCollapsed(s: Session, config: Config, tools: Tools)
    ensures CollapseAll(s, [], config, tools) == s
  {
  }

  lemma OneReplaced(log: seq<Event>, nodes: seq<nat>, n: nat, tools: Tools)
    requires AreResults(log, nodes) && n <= |nodes|
    ensures |Replaced(log, nodes, n, tools)|
         == if n == 0 then 0
            else |Replaced(log, nodes, n - 1, tools)| + if Collapsible(tools, log[nodes[n - 1]].content) then 1 else 0
  {
    hide Collapsible;
    if n == 0 {
      assert Replaced(log, nodes, 0, tools) == {};
    } else if Collapsible(tools, log[nodes[n - 1]].content) {
      assert Replaced(log, nodes, n, tools) == Replaced(log, nodes, n - 1, tools) + {n - 1};
    } else {
      assert Replaced(log, nodes, n, tools) == Replaced(log, nodes, n - 1, tools);
    }
  }

  lemma {:induction false} EarlierIsPrefix(s: Session, nodes: seq<nat>, n: nat, m: nat, config: Config, tools: Tools)
    requires AreResults(s.log, nodes) && n <= m <= |nodes|
    ensures CollapseAll(s, nodes[..n], config, tools).log <= CollapseAll(s, nodes[..m], config, tools).log
    decreases m
  {
    hide Collapse, CollapseAll;
    if n < m {
      EarlierIsPrefix(s, nodes, n, m - 1, config, tools);
      OneMore(s, nodes, m - 1, config, tools);
    }
  }

  /**
   * A pass that is stopped at a result it was going to replace has logged a beginning of what it would have logged: two events
   * for each result it replaced and, if the session took the price of the next one, that price.
   */
  lemma StoppedLogIsPrefix(s: Session, config: Config, tools: Tools, done: nat, priced: bool)
    requires Inv(s) && done < |Stale(s, config)|
    requires Collapsible(tools, s.log[Stale(s, config)[done]].content)
    ensures var t, stale := StoppedPass(s, config, tools, done, priced), Stale(s, config);
      && t.log <= Pass(s, config, tools).log
      && |t.log| == |s.log| + 2 * |Replaced(s.log, stale, done, tools)| + (if priced then 1 else 0)
      && (priced ==> t.log[|t.log| - 1] == Prune(stale[done]))
  {
    hide Inv, Stale, CollapseAll, Replaced, Collapsible, ReplacementText;
    var stale := Stale(s, config);
    var mid := CollapseAll(s, stale[..done], config, tools);
    TwoEventsEach(s, stale, done, config, tools);
    OneMore(s, stale, done, config, tools);
    EarlierIsPrefix(s, stale, done, done + 1, config, tools);
    EarlierIsPrefix(s, stale, done + 1, |stale|, config, tools);
    assert stale[..|stale|] == stale;
    assert mid.log[stale[done]] == s.log[stale[done]];
  }

  /** Where it got to, the surface is that of the whole pass; everywhere else it is as before. */
  lemma StoppedSurface(s: Session, config: Config, tools: Tools, done: nat, priced: bool, i: nat)
    requires Inv(s) && done <= |Stale(s, config)| && i < |s.surface|
    ensures var t, full := StoppedPass(s, config, tools, done, priced), Pass(s, config, tools);
      && |t.surface| == |full.surface| == |s.surface|
      && t.surface[i] == if s.surface[i] in Stale(s, config)[..done] then full.surface[i] else s.surface[i]
  {
    hide Stale, CollapseAll, Collapsible, ReplacementText, Follows;
    var stale := Stale(s, config);
    var mid, full := CollapseAll(s, stale[..done], config, tools), Pass(s, config, tools);
    PartOfPass(s, config, tools, done);
    PassReplacesInPlace(s, config, tools);
    SurfaceIsLogged(s);
    assert PlaceOk(s, mid, stale[..done], i, config, tools);
    assert PlaceOk(s, full, stale, i, config, tools);
    EarlierIsPrefix(s, stale, done, |stale|, config, tools);
    assert stale[..|stale|] == stale;
    if s.surface[i] in stale[..done] {
      assert s.surface[i] in stale;
      if mid.surface[i] != s.surface[i] { assert full.log[mid.surface[i]] == mid.log[mid.surface[i]]; }
    }
  }

  /** Some `failureCap` unaborted passes in a row had failed by the first `n` attempts. */
  ghost predicate CapReached(attempts: seq<Attempt>, n: nat, failureCap: nat)
    requires n <= |attempts|
  {
    exists k :: 0 <= k <= n && FailuresInARow(attempts[..k]) >= failureCap
  }

  /**
   * An attempt runs the pass exactly if it is not aborted and the cap was never reached before; the notice is injected
   * exactly by the attempt that reaches it first, so at most once.
   */
  lemma NoticeIsFirst(attempts: seq<Attempt>, failureCap: nat, n: nat)
    requires failureCap > 0 && n < |attempts|
    ensures var r := AutoPass(AutoRun(attempts[..n], failureCap), attempts[n].aborted, attempts[n].fails, failureCap);
      && (r.attempted <==> !attempts[n].aborted && !CapReached(attempts, n, failureCap))
      && (r.notice <==> CapReached(attempts, n + 1, failureCap) && !CapReached(attempts, n, failureCap))
  {
    hide FailuresInARow, AutoRun;
    PausedForGood(attempts[..n], failureCap);
    assert attempts[..n + 1][..n] == attempts[..n] && attempts[..n][..n] == attempts[..n];
    OneMoreFailure(attempts[..n + 1]);
    assert forall k :: 0 <= k <= n ==> attempts[..n][..k] == attempts[..k];
    if CapReached(attempts, n, failureCap) {
      var k :| 0 <= k <= n && FailuresInARow(attempts[..k]) >= failureCap;
      assert FailuresInARow(attempts[..n][..k]) >= failureCap;
    }
  }
}
