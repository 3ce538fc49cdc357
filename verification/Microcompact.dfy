/** Microcompaction: every tool result but the newest few is replaced, once, by a placeholder that later passes recognise. */
module Microcompact {
  import opened Basics

  datatype Block = TextBlock(text: string) | OtherBlock

  type Content = seq<Block>

  /** One logged event. A replacement names the node it shadows. */
  datatype Event = Result(callId: nat, content: Content, shadows: Option<nat>) | Prune(shadowed: nat) | Other

  /** The append-only log, and the nodes of it that make up the prompt. */
  datatype Session = Session(log: seq<Event>, surface: seq<nat>)

  datatype Config = Config(retainResults: nat, placeholderChars: nat)

  /** Seams: the spill-locator matcher, the crusher-stub test and the tool-use summaries. */
  datatype Tools = Tools(locator: string -> Option<string>, crusherStub: string -> bool, digest: nat -> Option<string>)

  const MARKER := "[... earlier tool result compacted ...]"
  const MARKER_TEXT := MARKER + " (tool result collapsed by microcompact; the call id and human retrieval remain available in the session log)"

  // ---------------------------------------------------------------- placeholders

  /** `isMicrocompactPlaceholder`: the first text block starts with the marker. */
  predicate IsPlaceholder(content: Content) {
    content != [] && if content[0].TextBlock? then MARKER <= content[0].text else IsPlaceholder(content[1..])
  }

  function PlainText(content: Content): string {
    if content == [] then ""
    else (if content[0].TextBlock? then content[0].text else "") + PlainText(content[1..])
  }

  /** The length of a text in UTF-16 code units; its length in code points is `|s|`. */
  function Units(s: string): (n: nat)
    ensures n >= |s|
  {
    if s == "" then 0 else (if s[0] as int >= 0x1_0000 then 2 else 1) + Units(s[1..])
  }

  /** `shrinkPlaceholder`. */
  function Shrink(text: string, cap: nat): string { if |text| <= cap then text else text[..cap] }

  /** How many code points a placeholder may have. */
  function Cap(config: Config, locator: Option<string>): nat {
    if locator.None? || locator.value == "" then config.placeholderChars else config.placeholderChars + Units(locator.value)
  }

  /** `placeholderContent`. */
  function Placeholder(config: Config, locator: Option<string>): string {
    if locator.None? || locator.value == "" then Shrink(MARKER_TEXT, Cap(config, locator))
    else Shrink(MARKER_TEXT + "\n" + locator.value, Cap(config, locator))
  }

  /** The text that replaces a result: a digest with its locator if there is one, else the placeholder. */
  function ReplacementText(config: Config, tools: Tools, callId: nat, content: Content): string {
    var locator := tools.locator(PlainText(content));
    match tools.digest(callId)
    case Some(digest) => digest + if locator.None? then "" else "\n" + locator.value
    case None => Placeholder(config, locator)
  }

  /** Neither a placeholder nor a crusher stub: a pass over it will replace it. */
  predicate Collapsible(tools: Tools, content: Content) { !IsPlaceholder(content) && !tools.crusherStub(PlainText(content)) }

  // ---------------------------------------------------------------- one pass

  function Swap(surface: seq<nat>, was: nat, now: nat): (r: seq<nat>)
    ensures |r| == |surface|
    ensures forall i :: 0 <= i < |r| ==> r[i] == if surface[i] == was then now else surface[i]
  {
    seq(|surface|, i requires 0 <= i < |surface| => if surface[i] == was then now else surface[i])
  }

  /** The two appends for one node, or nothing when it needs none. */
  function Collapse(s: Session, node: nat, config: Config, tools: Tools): (t: Session)
    requires node < |s.log| && s.log[node].Result?
    ensures s.log <= t.log
  {
    var e := s.log[node];
    if !Collapsible(tools, e.content) then s
    else
      var text := ReplacementText(config, tools, e.callId, e.content);
      Session(s.log + [Prune(node), Result(e.callId, [TextBlock(text)], Some(node))], Swap(s.surface, node, |s.log| + 1))
  }

  predicate AreResults(log: seq<Event>, nodes: seq<nat>) { forall i :: 0 <= i < |nodes| ==> nodes[i] < |log| && log[nodes[i]].Result? }

  function CollapseAll(s: Session, nodes: seq<nat>, config: Config, tools: Tools): (t: Session)
    requires AreResults(s.log, nodes)
    ensures s.log <= t.log
  {
    if nodes == [] then s
    else
      var before := CollapseAll(s, nodes[..|nodes| - 1], config, tools);
      var node := nodes[|nodes| - 1];
      assert s.log[node] == before.log[node];
      Collapse(before, node, config, tools)
  }

  /** `snapshotCandidates`: the surface's tool results in order. */
  function Results(s: Session): (nodes: seq<nat>)
    ensures AreResults(s.log, nodes)
  {
    ResultsIn(s.log, s.surface)
  }

  function ResultsIn(log: seq<Event>, surface: seq<nat>): (nodes: seq<nat>)
    ensures AreResults(log, nodes)
    ensures forall n :: n in nodes <==> n in surface && n < |log| && log[n].Result?
  {
    if surface == [] then []
    else
      var rest := ResultsIn(log, surface[1..]);
      if surface[0] < |log| && log[surface[0]].Result? then [surface[0]] + rest else rest
  }

  /** All but the newest `retainResults` results. */
  function Stale(s: Session, config: Config): (nodes: seq<nat>)
    ensures AreResults(s.log, nodes)
  {
    var results := Results(s);
    if |results| <= config.retainResults then [] else results[..|results| - config.retainResults]
  }

  /** `microcompactSession`. */
  function Pass(s: Session, config: Config, tools: Tools): Session { CollapseAll(s, Stale(s, config), config, tools) }

  /** A pass that the session stopped by rejecting an append: some nodes done, maybe one more only priced. */
  function StoppedPass(s: Session, config: Config, tools: Tools, done: nat, priced: bool): Session
    requires done <= |Stale(s, config)|
  {
    var t := CollapseAll(s, Stale(s, config)[..done], config, tools);
    if priced && done < |Stale(s, config)| then t.(log := t.log + [Prune(Stale(s, config)[done])]) else t
  }

  // ---------------------------------------------------------------- what every step keeps

  predicate Distinct(s: seq<nat>) { forall i, j :: 0 <= i < j < |s| ==> s[i] != s[j] }

  /** A replacement directly follows the price event of the node it shadows, which is a result of the same call. */
  predicate Follows(s: Session, j: nat)
    requires j < |s.log|
  {
    var e := s.log[j];
    e.Result? && e.shadows.Some? ==>
      && 0 < j && e.shadows.value < j - 1 && s.log[j - 1] == Prune(e.shadows.value)
      && s.log[e.shadows.value].Result? && s.log[e.shadows.value].callId == e.callId
      && e.shadows.value !in s.surface
  }

  /** No two events replace the same node. */
  predicate OncePerNode(log: seq<Event>) {
    forall i, j :: 0 <= i < j < |log| && log[i].Result? && log[j].Result? && log[i].shadows.Some? ==>
      log[i].shadows != log[j].shadows
  }

  ghost predicate Inv(s: Session) {
    && Distinct(s.surface)
    && (forall i :: 0 <= i < |s.surface| ==> s.surface[i] < |s.log|)
    && (forall j :: 0 <= j < |s.log| ==> Follows(s, j))
    && OncePerNode(s.log)
  }

  lemma CollapseKeepsInv(s: Session, node: nat, config: Config, tools: Tools)
    requires Inv(s) && node in s.surface && node < |s.log| && s.log[node].Result?
    ensures Inv(Collapse(s, node, config, tools))
  {
    hide ReplacementText, Collapsible;
    var t := Collapse(s, node, config, tools);
    if t != s {
      forall j | 0 <= j < |t.log| ensures Follows(t, j) {
        if j < |s.log| { assert Follows(s, j); StillShadowed(s, t, node, j); }
      }
      NotReplacedBefore(s, node);
      OnceMore(s.log, t.log, node);
    }
  }

  lemma StillShadowed(s: Session, t: Session, node: nat, j: nat)
    requires j < |s.log| && Follows(s, j) && s.log <= t.log && node < |s.log|
    requires t.surface == Swap(s.surface, node, |s.log| + 1)
    ensures Follows(t, j)
  {
    assert t.log[j] == s.log[j];
    if s.log[j].Result? && s.log[j].shadows.Some? {
      assert t.log[j - 1] == s.log[j - 1] && t.log[s.log[j].shadows.value] == s.log[s.log[j].shadows.value];
    }
  }

  /** A node on the surface has not been replaced yet. */
  lemma NotReplacedBefore(s: Session, node: nat)
    requires Inv(s) && node in s.surface
    ensures forall i :: 0 <= i < |s.log| && s.log[i].Result? ==> s.log[i].shadows != Some(node)
  {
    forall i | 0 <= i < |s.log| && s.log[i].Result? ensures s.log[i].shadows != Some(node) { assert Follows(s, i); }
  }

  lemma OnceMore(log: seq<Event>, more: seq<Event>, node: nat)
    requires OncePerNode(log) && |more| == |log| + 2 && log <= more
    requires more[|log|] == Prune(node) && more[|log| + 1].Result? && more[|log| + 1].shadows == Some(node)
    requires forall i :: 0 <= i < |log| && log[i].Result? ==> log[i].shadows != Some(node)
    ensures OncePerNode(more)
  {
    forall i, j | 0 <= i < j < |more| && more[i].Result? && more[j].Result? && more[i].shadows.Some?
      ensures more[i].shadows != more[j].shadows
    {
      assert i < |log| ==> more[i] == log[i];
      assert j < |log| ==> more[j] == log[j];
    }
  }

  // ---------------------------------------------------------------- what a pass changes

  /** A surface place after some nodes were collapsed: untouched, or holding its old node's replacement. */
  predicate PlaceOk(s: Session, t: Session, nodes: seq<nat>, i: nat, config: Config, tools: Tools)
    requires i < |s.surface| == |t.surface| && s.surface[i] < |s.log|
  {
    var was, now := s.surface[i], t.surface[i];
    if was in nodes && s.log[was].Result? && Collapsible(tools, s.log[was].content) then
      && |s.log| < now < |t.log|
      && t.log[now] == Result(s.log[was].callId,
                                [TextBlock(ReplacementText(config, tools, s.log[was].callId, s.log[was].content))], Some(was))
    else now == was
  }

  ghost predicate PassOk(s: Session, t: Session, nodes: seq<nat>, config: Config, tools: Tools) {
    && |t.surface| == |s.surface| && s.log <= t.log && Inv(s) && Inv(t)
    && forall i :: 0 <= i < |s.surface| ==> PlaceOk(s, t, nodes, i, config, tools)
  }

  lemma {:induction false} CollapseAllPlaces(s: Session, nodes: seq<nat>, config: Config, tools: Tools)
    requires Inv(s) && AreResults(s.log, nodes) && Distinct(nodes)
    requires forall n :: n in nodes ==> n in s.surface
    ensures PassOk(s, CollapseAll(s, nodes, config, tools), nodes, config, tools)
  {
    hide Inv, ReplacementText, Collapsible, Collapse, PassOk;
    if nodes == [] {
      NothingDone(s, config, tools);
    } else {
      var before, node := nodes[..|nodes| - 1], nodes[|nodes| - 1];
      CollapseAllPlaces(s, before, config, tools);
      var mid := CollapseAll(s, before, config, tools);
      assert nodes == before + [node];
      SurfaceIsLogged(s);
      StillThere(s, mid, before, node, config, tools);
      NextPassOk(s, mid, before, node, config, tools);
    }
  }

  lemma NothingDone(s: Session, config: Config, tools: Tools)
    requires Inv(s)
    ensures PassOk(s, s, [], config, tools)
  {
    hide ReplacementText, Collapsible;
  }

  lemma NextPassOk(s: Session, mid: Session, before: seq<nat>, node: nat, config: Config, tools: Tools)
    requires PassOk(s, mid, before, config, tools) && node in s.surface && node in mid.surface && node !in before
    requires node < |s.log| && s.log[node].Result? && mid.log[node] == s.log[node]
    ensures PassOk(s, Collapse(mid, node, config, tools), before + [node], config, tools)
  {
    hide Inv, ReplacementText, Collapsible;
    var t := Collapse(mid, node, config, tools);
    SurfaceIsLogged(s);
    CollapseKeepsInv(mid, node, config, tools);
    forall i | 0 <= i < |s.surface| ensures PlaceOk(s, t, before + [node], i, config, tools) {
      NextPlace(s, mid, before, node, i, config, tools);
    }
  }

  lemma SurfaceIsLogged(s: Session)
    requires Inv(s)
    ensures forall i :: 0 <= i < |s.surface| ==> s.surface[i] < |s.log|
  {
  }

  lemma StillThere(s: Session, mid: Session, before: seq<nat>, node: nat, config: Config, tools: Tools)
    requires PassOk(s, mid, before, config, tools) && node in s.surface && node !in before
    ensures node in mid.surface && node < |s.log| && mid.log[node] == s.log[node]
  {
    hide Inv, ReplacementText, Collapsible;
    SurfaceIsLogged(s);
    var i :| 0 <= i < |s.surface| && s.surface[i] == node;
    assert PlaceOk(s, mid, before, i, config, tools);
    assert mid.surface[i] == node;
  }

  lemma NextPlace(s: Session, mid: Session, before: seq<nat>, node: nat, i: nat, config: Config, tools: Tools)
    requires PassOk(s, mid, before, config, tools) && i < |s.surface| && s.surface[i] < |s.log|
    requires node in s.surface && node !in before && node < |s.log| && s.log[node].Result? && mid.log[node] == s.log[node]
    ensures PlaceOk(s, Collapse(mid, node, config, tools), before + [node], i, config, tools)
  {
    hide Inv, ReplacementText, Collapsible;
    assert PlaceOk(s, mid, before, i, config, tools);
    var t := Collapse(mid, node, config, tools);
    if mid.surface[i] < |mid.log| { assert t.log[mid.surface[i]] == mid.log[mid.surface[i]]; }
  }

  lemma {:induction false} ResultsAreDistinct(log: seq<Event>, surface: seq<nat>)
    requires Distinct(surface)
    ensures Distinct(ResultsIn(log, surface))
  {
    if surface == [] {
    } else {
      var rest := surface[1..];
      forall i, j | 0 <= i < j < |rest| ensures rest[i] != rest[j] { assert surface[i + 1] != surface[j + 1]; }
      ResultsAreDistinct(log, rest);
      assert surface[0] !in rest;
    }
  }

  lemma StaleIsDistinct(s: Session, config: Config)
    requires Inv(s)
    ensures Distinct(Stale(s, config)) && forall n :: n in Stale(s, config) ==> n in s.surface
  {
    hide Inv, ResultsIn;
    SurfaceIsDistinct(s);
    ResultsAreDistinct(s.log, s.surface);
    assert forall n :: n in Stale(s, config) ==> n in Results(s);
  }

  lemma SurfaceIsDistinct(s: Session)
    requires Inv(s)
    ensures Distinct(s.surface)
  {
  }

  /**
   * A pass conserves the surface's length and order and every place's call: each place keeps its node, or holds the
   * replacement of that very node, made from its own content; exactly the collapsible stale results are replaced.
   */
  lemma PassReplacesInPlace(s: Session, config: Config, tools: Tools)
    requires Inv(s)
    ensures PassOk(s, Pass(s, config, tools), Stale(s, config), config, tools)
  {
    hide Inv, PassOk;
    StaleIsDistinct(s, config);
    CollapseAllPlaces(s, Stale(s, config), config, tools);
  }

  /** The newest results of a surface. */
  function Newest(s: Session, config: Config): seq<nat> {
    var results := Results(s);
    if |results| <= config.retainResults then results else results[|results| - config.retainResults..]
  }

  /** The newest `retainResults` results keep their very nodes. */
  lemma NewestUntouched(s: Session, config: Config, tools: Tools, i: nat)
    requires Inv(s) && i < |s.surface| && s.surface[i] in Newest(s, config)
    ensures i < |Pass(s, config, tools).surface| && Pass(s, config, tools).surface[i] == s.surface[i]
  {
    hide Inv, ResultsIn, Pass, ReplacementText;
    PassReplacesInPlace(s, config, tools);
    SurfaceIsLogged(s);
    SurfaceIsDistinct(s);
    ResultsAreDistinct(s.log, s.surface);
    assert s.surface[i] !in Stale(s, config);
    assert PlaceOk(s, Pass(s, config, tools), Stale(s, config), i, config, tools);
  }

  // ---------------------------------------------------------------- freezing

  /** A placeholder keeps its marker exactly when its cap leaves room for it. */
  lemma MarkerIsKept(config: Config, locator: Option<string>)
    ensures IsPlaceholder([TextBlock(Placeholder(config, locator))]) <==> Cap(config, locator) >= |MARKER|
  {
    hide Cap;
    var text := if locator.None? || locator.value == "" then MARKER_TEXT else MARKER_TEXT + "\n" + locator.value;
    var cap := Cap(config, locator);
    assert MARKER <= MARKER_TEXT && |MARKER| < |MARKER_TEXT|;
    assert MARKER <= text;
    if |text| > cap {
      if cap >= |MARKER| { assert text[..cap][..|MARKER|] == text[..|MARKER|]; }
    }
  }

  /** Where the cap leaves room for the whole marker text, a cited locator survives in full, at the very end. */
  lemma LocatorSurvives(config: Config, tools: Tools, callId: nat, content: Content)
    requires config.placeholderChars > |MARKER_TEXT| || tools.digest(callId).Some?
    ensures var locator, text := tools.locator(PlainText(content)), ReplacementText(config, tools, callId, content);
      locator.Some? && locator.value != "" ==>
        |locator.value| < |text| && text[|text| - |locator.value| - 1..] == "\n" + locator.value
  {
    hide PlainText, MARKER_TEXT;
    var locator, text := tools.locator(PlainText(content)), ReplacementText(config, tools, callId, content);
    if locator.Some? && locator.value != "" {
      var head := if tools.digest(callId).Some? then tools.digest(callId).value else MARKER_TEXT;
      assert text == head + "\n" + locator.value == head + ("\n" + locator.value);
    }
  }

  /** A pass changes nothing exactly when no stale result is collapsible. */
  lemma {:induction false} NoOpIffFrozen(s: Session, nodes: seq<nat>, config: Config, tools: Tools)
    requires AreResults(s.log, nodes)
    ensures |CollapseAll(s, nodes, config, tools).log| >= |s.log|
    ensures CollapseAll(s, nodes, config, tools) == s
       <==> forall i :: 0 <= i < |nodes| ==> !Collapsible(tools, s.log[nodes[i]].content)
  {
    hide ReplacementText, Collapsible;
    if nodes == [] {
    } else {
      NoOpIffFrozen(s, nodes[..|nodes| - 1], config, tools);
      var mid := CollapseAll(s, nodes[..|nodes| - 1], config, tools);
      assert s.log[nodes[|nodes| - 1]] == mid.log[nodes[|nodes| - 1]];
      assert mid != s ==> |mid.log| > |s.log| by { if mid != s { Grows(s, nodes[..|nodes| - 1], config, tools); } }
    }
  }

  lemma {:induction false} Grows(s: Session, nodes: seq<nat>, config: Config, tools: Tools)
    requires AreResults(s.log, nodes) && CollapseAll(s, nodes, config, tools) != s
    ensures |CollapseAll(s, nodes, config, tools).log| > |s.log|
  {
    hide ReplacementText, Collapsible;
    if nodes == [] {
    } else {
      var mid := CollapseAll(s, nodes[..|nodes| - 1], config, tools);
      if mid != s { Grows(s, nodes[..|nodes| - 1], config, tools); }
    }
  }

  lemma {:induction false} ResultsSplit(log: seq<Event>, surface: seq<nat>, i: nat)
    requires i <= |surface|
    ensures ResultsIn(log, surface) == ResultsIn(log, surface[..i]) + ResultsIn(log, surface[i..])
  {
    hide ResultsIn;
    NoResults(log);
    if i == 0 {
      assert surface[0..] == surface;
    } else {
      ResultsSplit(log, surface[1..], i - 1);
      assert surface[1..][i - 1..] == surface[i..];
      ResultsHead(log, surface);
      ResultsHead(log, surface[..i]);
      assert surface[..i][1..] == surface[1..][..i - 1];
      Regroup(if surface[0] < |log| && log[surface[0]].Result? then [surface[0]] else [],
              ResultsIn(log, surface[1..][..i - 1]), ResultsIn(log, surface[i..]));
    }
  }

  lemma Regroup(a: seq<nat>, b: seq<nat>, c: seq<nat>)
    ensures a + (b + c) == (a + b) + c
  {
  }

  lemma NoResults(log: seq<Event>)
    ensures ResultsIn(log, []) == []
  {
  }

  lemma ResultsHead(log: seq<Event>, surface: seq<nat>)
    requires surface != []
    ensures var head := if surface[0] < |log| && log[surface[0]].Result? then [surface[0]] else [];
      ResultsIn(log, surface) == head + ResultsIn(log, surface[1..])
  {
  }

  /** A result is stale exactly when at least `retainResults` results come after it. */
  lemma StaleByPlace(s: Session, config: Config, i: nat)
    requires Inv(s) && i < |s.surface| && s.surface[i] < |s.log|
    ensures s.surface[i] in Stale(s, config)
       <==> s.log[s.surface[i]].Result? && |ResultsIn(s.log, s.surface[i + 1..])| >= config.retainResults
  {
    hide Inv;
    if s.log[s.surface[i]].Result? {
      var results, k := Results(s), |ResultsIn(s.log, s.surface[..i])|;
      ResultsSplit(s.log, s.surface, i);
      assert s.surface[i..][1..] == s.surface[i + 1..];
      assert results[k] == s.surface[i];
      SurfaceIsDistinct(s);
      ResultsAreDistinct(s.log, s.surface);
      StaleByIndex(s, config, k);
    }
  }

  lemma StaleByIndex(s: Session, config: Config, k: nat)
    requires Distinct(Results(s)) && k < |Results(s)|
    ensures Results(s)[k] in Stale(s, config) <==> k + config.retainResults < |Results(s)|
  {
    hide ResultsIn;
    var results := Results(s);
    if k + config.retainResults < |results| { assert Stale(s, config)[k] == results[k]; }
  }

  /** Two surfaces with results at the same places. */
  predicate SameKinds(a: seq<Event>, x: seq<nat>, b: seq<Event>, y: seq<nat>) {
    |x| == |y| && forall i :: 0 <= i < |x| ==> (x[i] < |a| && a[x[i]].Result?) == (y[i] < |b| && b[y[i]].Result?)
  }

  lemma {:induction false} SameKindsSameCount(a: seq<Event>, x: seq<nat>, b: seq<Event>, y: seq<nat>)
    requires SameKinds(a, x, b, y)
    ensures |ResultsIn(a, x)| == |ResultsIn(b, y)|
  {
    if x == [] {
    } else {
      assert SameKinds(a, x[1..], b, y[1..]);
      SameKindsSameCount(a, x[1..], b, y[1..]);
    }
  }

  lemma PassKeepsKinds(s: Session, t: Session, nodes: seq<nat>, config: Config, tools: Tools)
    requires PassOk(s, t, nodes, config, tools)
    ensures SameKinds(s.log, s.surface, t.log, t.surface)
  {
    hide Inv, ReplacementText, Collapsible;
    SurfaceIsLogged(s);
    forall i | 0 <= i < |s.surface|
      ensures (s.surface[i] < |s.log| && s.log[s.surface[i]].Result?) == (t.surface[i] < |t.log| && t.log[t.surface[i]].Result?)
    {
      assert PlaceOk(s, t, nodes, i, config, tools);
    }
  }

  /** A pass leaves the same places stale. */
  lemma SameStalePlaces(s: Session, t: Session, nodes: seq<nat>, config: Config, tools: Tools, i: nat)
    requires PassOk(s, t, nodes, config, tools) && i < |s.surface|
    ensures s.surface[i] in Stale(s, config) <==> t.surface[i] in Stale(t, config)
  {
    hide Inv, ResultsIn, Stale;
    PassKeepsKinds(s, t, nodes, config, tools);
    SurfaceIsLogged(s);
    SurfaceIsLogged(t);
    assert SameKinds(s.log, s.surface[i + 1..], t.log, t.surface[i + 1..]);
    SameKindsSameCount(s.log, s.surface[i + 1..], t.log, t.surface[i + 1..]);
    StaleByPlace(s, config, i);
    StaleByPlace(t, config, i);
    assert (s.surface[i] < |s.log| && s.log[s.surface[i]].Result?) == (t.surface[i] < |t.log| && t.log[t.surface[i]].Result?);
  }

  /** The text a pass writes over a node will be recognised, by its marker or as a stub. */
  predicate Settles(s: Session, n: nat, config: Config, tools: Tools)
    requires n < |s.log| && s.log[n].Result?
  {
    Collapsible(tools, s.log[n].content) ==>
      !Collapsible(tools, [TextBlock(ReplacementText(config, tools, s.log[n].callId, s.log[n].content))])
  }

  lemma PlaceSettles(s: Session, t: Session, config: Config, tools: Tools, i: nat)
    requires PassOk(s, t, Stale(s, config), config, tools) && i < |s.surface| && s.surface[i] in Stale(s, config)
    ensures s.surface[i] < |s.log| && s.log[s.surface[i]].Result?
    ensures t.surface[i] < |t.log| && t.log[t.surface[i]].Result?
    ensures Settles(s, s.surface[i], config, tools) <==> !Collapsible(tools, t.log[t.surface[i]].content)
  {
    hide Inv, ReplacementText, Collapsible;
    SurfaceIsLogged(s);
    assert PlaceOk(s, t, Stale(s, config), i, config, tools);
    assert AreResults(s.log, Stale(s, config));
  }

  /** A second pass over unchanged history is a no-op exactly when everything the first one wrote is recognised. */
  lemma SecondPassIsNoOp(s: Session, config: Config, tools: Tools)
    requires Inv(s)
    ensures Pass(Pass(s, config, tools), config, tools) == Pass(s, config, tools)
       <==> forall n :: n in Stale(s, config) ==> n < |s.log| && s.log[n].Result? && Settles(s, n, config, tools)
  {
    hide Inv, PassOk, ResultsIn, Stale, Settles, Collapsible, ReplacementText, CollapseAll;
    var t := Pass(s, config, tools);
    PassReplacesInPlace(s, config, tools);
    StaleAfter(s, t, config, tools);
    NoOpIffFrozen(t, Stale(t, config), config, tools);
    AllByIndex(t, config, tools);
  }

  /** A stale result that the next pass would replace again. */
  predicate Restless(t: Session, n: nat, config: Config, tools: Tools) {
    n in Stale(t, config) && n < |t.log| && t.log[n].Result? && Collapsible(tools, t.log[n].content)
  }

  lemma AllByIndex(t: Session, config: Config, tools: Tools)
    ensures var nodes := Stale(t, config);
      (forall i :: 0 <= i < |nodes| ==> !Collapsible(tools, t.log[nodes[i]].content))
        <==> forall n :: !Restless(t, n, config, tools)
  {
    hide ResultsIn, Stale, Collapsible;
    var nodes := Stale(t, config);
    if exists i :: 0 <= i < |nodes| && Collapsible(tools, t.log[nodes[i]].content) {
      var i :| 0 <= i < |nodes| && Collapsible(tools, t.log[nodes[i]].content);
      assert Restless(t, nodes[i], config, tools);
    }
  }

  lemma StaleAfter(s: Session, t: Session, config: Config, tools: Tools)
    requires PassOk(s, t, Stale(s, config), config, tools)
    ensures (forall n :: !Restless(t, n, config, tools))
       <==> forall n :: n in Stale(s, config) ==> n < |s.log| && s.log[n].Result? && Settles(s, n, config, tools)
  {
    hide Inv, ResultsIn, Stale, Settles, Collapsible;
    forall n | n in Stale(s, config) && !(n < |s.log| && s.log[n].Result? && Settles(s, n, config, tools))
      ensures exists m :: Restless(t, m, config, tools)
    {
      var i := PlaceOf(s, config, n);
      SameStalePlaces(s, t, Stale(s, config), config, tools, i);
      PlaceSettles(s, t, config, tools, i);
      assert Restless(t, t.surface[i], config, tools) by { assert AreResults(t.log, Stale(t, config)); }
    }
    forall m | Restless(t, m, config, tools)
      ensures exists n :: n in Stale(s, config) && !(n < |s.log| && s.log[n].Result? && Settles(s, n, config, tools))
    {
      var i := PlaceOf(t, config, m);
      SameStalePlaces(s, t, Stale(s, config), config, tools, i);
      PlaceSettles(s, t, config, tools, i);
    }
  }

  lemma PlaceOf(s: Session, config: Config, n: nat) returns (i: nat)
    requires Inv(s) && n in Stale(s, config)
    ensures i < |s.surface| && s.surface[i] == n
  {
    StaleIsDistinct(s, config);
    i :| 0 <= i < |s.surface| && s.surface[i] == n;
  }

  /** Without digests and with room for the marker, what a pass writes is always recognised. */
  lemma RoomForMarkerSettles(s: Session, n: nat, config: Config, tools: Tools)
    requires n < |s.log| && s.log[n].Result?
    requires config.placeholderChars >= |MARKER| && tools.digest(s.log[n].callId).None?
    ensures IsPlaceholder([TextBlock(ReplacementText(config, tools, s.log[n].callId, s.log[n].content))])
    ensures Settles(s, n, config, tools)
  {
    hide Placeholder, IsPlaceholder;
    MarkerIsKept(config, tools.locator(PlainText(s.log[n].content)));
  }

  /** Without room for the marker, the next pass over an unchanged history replaces the placeholder again. */
  lemma NoRoomForMarker(s: Session, n: nat, config: Config, tools: Tools)
    requires n < |s.log| && s.log[n].Result? && Collapsible(tools, s.log[n].content)
    requires tools.digest(s.log[n].callId).None?
    requires Cap(config, tools.locator(PlainText(s.log[n].content))) < |MARKER|
    requires !tools.crusherStub(PlainText([TextBlock(Placeholder(config, tools.locator(PlainText(s.log[n].content))))]))
    ensures !Settles(s, n, config, tools)
  {
    hide Placeholder, IsPlaceholder, PlainText, Cap;
    MarkerIsKept(config, tools.locator(PlainText(s.log[n].content)));
  }

  // ---------------------------------------------------------------- whole runs

  /** New results and other events come in; a pass runs to its end or is stopped by a rejected append. */
  datatype Step = NewResult(callId: nat, content: Content) | NewOther | FullPass | Stopped(done: nat, priced: bool)

  predicate Possible(s: Session, step: Step, config: Config) { step.Stopped? ==> step.done <= |Stale(s, config)| }

  function Next(s: Session, step: Step, config: Config, tools: Tools): Session
    requires Possible(s, step, config)
  {
    match step
    case NewResult(callId, content) => Session(s.log + [Result(callId, content, None)], s.surface + [|s.log|])
    case NewOther => Session(s.log + [Other], s.surface + [|s.log|])
    case FullPass => Pass(s, config, tools)
    case Stopped(done, priced) => StoppedPass(s, config, tools, done, priced)
  }

  /** Replacements carry the marker, and none of them has been replaced itself. */
  ghost predicate OncePerResult(s: Session) {
    forall j :: 0 <= j < |s.log| ==> ReplacedOnce(s, j)
  }

  predicate ReplacedOnce(s: Session, j: nat)
    requires j < |s.log|
  {
    var e := s.log[j];
    e.Result? && e.shadows.Some? ==>
      && IsPlaceholder(e.content)
      && e.shadows.value < |s.log| && s.log[e.shadows.value].Result? && s.log[e.shadows.value].shadows.None?
  }

  ghost predicate MarkerFits(config: Config, tools: Tools) {
    config.placeholderChars >= |MARKER| && forall callId :: tools.digest(callId).None?
  }

  lemma CollapseOnce(s: Session, node: nat, config: Config, tools: Tools)
    requires node < |s.log| && s.log[node].Result? && OncePerResult(s) && MarkerFits(config, tools)
    ensures OncePerResult(Collapse(s, node, config, tools))
  {
    hide IsPlaceholder, ReplacementText, Settles;
    var t := Collapse(s, node, config, tools);
    RoomForMarkerSettles(s, node, config, tools);
    assert ReplacedOnce(s, node);
    forall j | 0 <= j < |t.log| ensures ReplacedOnce(t, j) {
      if j < |s.log| {
        assert ReplacedOnce(s, j);
        assert t.log[j] == s.log[j];
      }
    }
  }

  lemma {:induction false} CollapseAllOnce(s: Session, nodes: seq<nat>, config: Config, tools: Tools)
    requires AreResults(s.log, nodes) && OncePerResult(s) && MarkerFits(config, tools)
    ensures OncePerResult(CollapseAll(s, nodes, config, tools))
  {
    hide Collapse, OncePerResult, MarkerFits;
    if nodes == [] {
    } else {
      var before := CollapseAll(s, nodes[..|nodes| - 1], config, tools);
      CollapseAllOnce(s, nodes[..|nodes| - 1], config, tools);
      assert s.log[nodes[|nodes| - 1]] == before.log[nodes[|nodes| - 1]];
      CollapseOnce(before, nodes[|nodes| - 1], config, tools);
    }
  }

  /** Some nodes of a pass done. */
  lemma PartOfPass(s: Session, config: Config, tools: Tools, done: nat)
    requires Inv(s) && done <= |Stale(s, config)|
    ensures PassOk(s, CollapseAll(s, Stale(s, config)[..done], config, tools), Stale(s, config)[..done], config, tools)
  {
    hide Inv, PassOk, Stale;
    StaleIsDistinct(s, config);
    CollapseAllPlaces(s, Stale(s, config)[..done], config, tools);
  }

  lemma AppendKeepsInv(s: Session, e: Event, listed: bool)
    requires Inv(s) && (e.Result? ==> e.shadows.None?)
    ensures Inv(Session(s.log + [e], if listed then s.surface + [|s.log|] else s.surface))
  {
    var t := Session(s.log + [e], if listed then s.surface + [|s.log|] else s.surface);
    forall j | 0 <= j < |t.log| ensures Follows(t, j) { if j < |s.log| { assert Follows(s, j); } }
  }

  lemma AppendOnce(s: Session, e: Event, listed: bool)
    requires OncePerResult(s) && (e.Result? ==> e.shadows.None?)
    ensures OncePerResult(Session(s.log + [e], if listed then s.surface + [|s.log|] else s.surface))
  {
    hide IsPlaceholder;
    var t := Session(s.log + [e], if listed then s.surface + [|s.log|] else s.surface);
    forall j | 0 <= j < |t.log| ensures ReplacedOnce(t, j) { if j < |s.log| { assert ReplacedOnce(s, j); } }
  }

  /** Every step keeps the log's discipline: prices right before replacements, one replacement per node. */
  lemma StepKeepsInv(s: Session, step: Step, config: Config, tools: Tools)
    requires Inv(s) && Possible(s, step, config)
    ensures Inv(Next(s, step, config, tools))
  {
    hide Inv, Stale, CollapseAll;
    match step
    case NewResult(callId, content) => AppendKeepsInv(s, Result(callId, content, None), true);
    case NewOther => AppendKeepsInv(s, Other, true);
    case FullPass => PassReplacesInPlace(s, config, tools);
    case Stopped(done, priced) =>
      PartOfPass(s, config, tools, done);
      if done < |Stale(s, config)| {
        AppendKeepsInv(CollapseAll(s, Stale(s, config)[..done], config, tools), Prune(Stale(s, config)[done]), false);
      }
  }

  lemma StepKeepsOnce(s: Session, step: Step, config: Config, tools: Tools)
    requires OncePerResult(s) && Possible(s, step, config) && MarkerFits(config, tools)
    ensures OncePerResult(Next(s, step, config, tools))
  {
    hide OncePerResult, MarkerFits, Stale, CollapseAll;
    match step
    case NewResult(callId, content) => AppendOnce(s, Result(callId, content, None), true);
    case NewOther => AppendOnce(s, Other, true);
    case FullPass => CollapseAllOnce(s, Stale(s, config), config, tools);
    case Stopped(done, priced) =>
      CollapseAllOnce(s, Stale(s, config)[..done], config, tools);
      if done < |Stale(s, config)| {
        AppendOnce(CollapseAll(s, Stale(s, config)[..done], config, tools), Prune(Stale(s, config)[done]), false);
      }
  }

  const EMPTY := Session([], [])

  ghost predicate IsRun(states: seq<Session>, steps: seq<Step>, config: Config, tools: Tools) {
    && |states| == |steps| + 1 && states[0] == EMPTY
    && forall i :: 0 <= i < |steps| ==>
         Possible(states[i], steps[i], config) && states[i + 1] == Next(states[i], steps[i], config, tools)
  }

  lemma {:induction false} RunKeepsInv(states: seq<Session>, steps: seq<Step>, config: Config, tools: Tools, n: nat)
    requires IsRun(states, steps, config, tools) && n <= |steps|
    ensures Inv(states[n])
    ensures MarkerFits(config, tools) ==> OncePerResult(states[n])
    decreases n
  {
    hide Next, Possible, MarkerFits, Follows, ReplacedOnce;
    if n == 0 {
    } else {
      RunKeepsInv(states, steps, config, tools, n - 1);
      StepKeepsInv(states[n - 1], steps[n - 1], config, tools);
      if MarkerFits(config, tools) { StepKeepsOnce(states[n - 1], steps[n - 1], config, tools); }
    }
  }

  /**
   * In every run, a replacement sits directly behind its own price event and names an earlier result of the same call
   * that no other event replaces; where the marker fits, that result is an original, so each is replaced at most once.
   */
  lemma EveryReplacement(states: seq<Session>, steps: seq<Step>, config: Config, tools: Tools, n: nat, j: nat)
    requires IsRun(states, steps, config, tools) && n <= |steps| && j < |states[n].log|
    requires states[n].log[j].Result? && states[n].log[j].shadows.Some?
    ensures var log, p := states[n].log, states[n].log[j].shadows.value;
      && 0 < j && p < j - 1 && log[j - 1] == Prune(p)
      && log[p].Result? && log[p].callId == log[j].callId
      && (forall i :: 0 <= i < |log| && i != j && log[i].Result? ==> log[i].shadows != Some(p))
      && (MarkerFits(config, tools) ==> log[p].shadows.None?)
  {
    hide Next, Possible, MarkerFits, IsPlaceholder;
    RunKeepsInv(states, steps, config, tools, n);
    assert Follows(states[n], j);
    if MarkerFits(config, tools) { assert ReplacedOnce(states[n], j); }
  }

  /** Where the marker fits, a pass right after a pass changes nothing. */
  lemma PassFreezes(states: seq<Session>, steps: seq<Step>, config: Config, tools: Tools, n: nat)
    requires IsRun(states, steps, config, tools) && n <= |steps| && MarkerFits(config, tools)
    ensures var t := Pass(states[n], config, tools); Pass(t, config, tools) == t
  {
    hide Inv, Stale, Settles, Pass, OncePerResult, Next, Possible;
    RunKeepsInv(states, steps, config, tools, n);
    var s := states[n];
    forall k | k in Stale(s, config) ensures k < |s.log| && s.log[k].Result? && Settles(s, k, config, tools) {
      assert AreResults(s.log, Stale(s, config));
      RoomForMarkerSettles(s, k, config, tools);
    }
    SecondPassIsNoOp(s, config, tools);
  }

  // ---------------------------------------------------------------- the automatic pass

  /** A session's failure record, as `failureState` keeps it; absent is all zero. */
  datatype Failures = Failures(count: nat, paused: bool, noticed: bool)

  /** What one automatic pass does, and whether it injects the pause notice. */
  datatype AutoResult = AutoResult(state: Failures, attempted: bool, notice: bool)

  /** `autoMicrocompactPass`; `fails` is whether the pass, if it is attempted, throws. */
  function AutoPass(f: Failures, aborted: bool, fails: bool, failureCap: nat): AutoResult {
    if f.paused || aborted then AutoResult(f, false, false)
    else if !fails then AutoResult(Failures(0, false, false), true, false)
    else if f.count + 1 >= failureCap && !f.noticed then AutoResult(Failures(f.count + 1, true, true), true, true)
    else AutoResult(f.(count := f.count + 1), true, false)
  }

  /** One session's passes: aborted or not, failing or not. */
  datatype Attempt = Attempt(aborted: bool, fails: bool)

  function AutoRun(attempts: seq<Attempt>, failureCap: nat): Failures {
    if attempts == [] then Failures(0, false, false)
    else
      var last := attempts[|attempts| - 1];
      AutoPass(AutoRun(attempts[..|attempts| - 1], failureCap), last.aborted, last.fails, failureCap).state
  }

  /** How many of the unaborted passes up to here failed in a row. */
  function FailuresInARow(attempts: seq<Attempt>): nat {
    if attempts == [] then 0
    else
      var last, before := attempts[|attempts| - 1], FailuresInARow(attempts[..|attempts| - 1]);
      if last.aborted then before else if last.fails then before + 1 else 0
  }

  /**
   * The pass is paused from the first time `failureCap` unaborted passes in a row have failed, and for good: nothing
   * after that lifts the pause. Until then the count is the number of failures in a row.
   */
  lemma {:induction false} PausedForGood(attempts: seq<Attempt>, failureCap: nat)
    requires failureCap > 0
    ensures var f := AutoRun(attempts, failureCap);
      && f.noticed == f.paused
      && (f.paused <==> exists k :: 0 <= k <= |attempts| && FailuresInARow(attempts[..k]) >= failureCap)
      && (!f.paused ==> f.count == FailuresInARow(attempts) < failureCap)
  {
    hide FailuresInARow, AutoPass;
    if attempts == [] {
      NoFailures(attempts);
    } else {
      var before, last := attempts[..|attempts| - 1], attempts[|attempts| - 1];
      PausedForGood(before, failureCap);
      OneMoreFailure(attempts);
      OnePass(AutoRun(before, failureCap), last.aborted, last.fails, failureCap);
      assert attempts[..|attempts|] == attempts;
      forall k | 0 <= k < |attempts| ensures attempts[..k] == before[..k] {}
      if exists k :: 0 <= k <= |before| && FailuresInARow(before[..k]) >= failureCap {
        var k :| 0 <= k <= |before| && FailuresInARow(before[..k]) >= failureCap;
        assert FailuresInARow(attempts[..k]) >= failureCap;
      }
    }
  }

  lemma NoFailures(attempts: seq<Attempt>)
    requires attempts == []
    ensures FailuresInARow([]) == 0 && forall k :: 0 <= k <= |attempts| ==> attempts[..k] == []
  {
  }

  lemma OneMoreFailure(attempts: seq<Attempt>)
    requires attempts != []
    ensures var last, before := attempts[|attempts| - 1], FailuresInARow(attempts[..|attempts| - 1]);
      FailuresInARow(attempts) == if last.aborted then before else if last.fails then before + 1 else 0
  {
  }

  lemma OnePass(f: Failures, aborted: bool, fails: bool, failureCap: nat)
    requires f.noticed == f.paused && (!f.paused ==> f.count < failureCap)
    ensures var r := AutoPass(f, aborted, fails, failureCap);
      && r.state.noticed == r.state.paused
      && (f.paused ==> r.state == f)
      && (!f.paused && aborted ==> r.state == f)
      && (!f.paused && !aborted ==> r.state.count == if fails then f.count + 1 else 0)
      && (!f.paused && !aborted ==> (r.state.paused <==> fails && f.count + 1 >= failureCap))
      && (r.notice <==> r.state.paused && !f.paused)
  {
  }
}
