/** Model-alias resolution, the `$level` suffix, and the guard that keeps System One models off the chat path. */
module Aliases {
  import opened Basics

  /** An alias target: a bare model id, or a route with optional fields. */
  datatype Target =
    | Name(model: string)
    | Object(provider: Option<string>, modelId: Option<string>, effort: Option<string>, protocol: Option<string>)

  type AliasMap = map<string, Target>

  /** A resolved route; `systemOne` is its protocol marker. */
  datatype Route = Route(provider: Option<string>, model: Option<string>, effort: Option<string>, systemOne: bool)

  /** `trim` and `toLowerCase`. */
  datatype Texts = Texts(trim: string -> string, lower: string -> string)

  const CC_ALIASES: set<string> := {"fable", "opus", "sonnet", "haiku"}
  const LANE_ALIASES: set<string> := {"sketch", "draft", "blueprint", "masterplan", "architect", "gauge"}
  const LANE_PEERS: map<string, string> := map[
    "sketch" := "haiku", "draft" := "sonnet", "blueprint" := "opus", "masterplan" := "fable", "gauge" := "haiku"]

  predicate IsBuiltin(name: string) { name in CC_ALIASES || name in LANE_ALIASES }

  // ---------------------------------------------------------------- System One

  predicate IsSystemOneModelId(model: string) { Contains(model, "llmbox_systemone/") }

  function ModelOf(target: Target): Option<string> { if target.Name? then Some(target.model) else target.modelId }

  function ProviderOf(target: Target): Option<string> { if target.Name? then None else target.provider }

  predicate IsSystemOneTarget(target: Target) {
    || (target.Object? && target.protocol == Some("systemone"))
    || (ModelOf(target).Some? && IsSystemOneModelId(ModelOf(target).value))
  }

  /** A declaration names the requested model, and the requested provider when both are known. */
  predicate Declares(target: Target, provider: Option<string>, model: string) {
    && IsSystemOneTarget(target)
    && ModelOf(target) == Some(model)
    && (ProviderOf(target).None? || provider.None? || ProviderOf(target) == provider)
  }

  /** `assertChatModel` throws. */
  predicate Rejects(aliases: AliasMap, provider: Option<string>, model: Option<string>) {
    && model.Some? && model.value != ""
    && (IsSystemOneModelId(model.value) || exists a :: a in aliases && Declares(aliases[a], provider, model.value))
  }

  // ---------------------------------------------------------------- routes

  function ObjectRoute(target: Target): Route
    requires target.Object?
  {
    Route(target.provider, target.modelId, target.effort, IsSystemOneTarget(target))
  }

  function LiteralRoute(model: string): Route { Route(None, Some(model), None, IsSystemOneModelId(model)) }

  function TargetRoute(target: Target): Route { if target.Name? then LiteralRoute(target.model) else ObjectRoute(target) }

  datatype Followed = FollowedRoute(route: Route) | FollowedInherit | FollowedLiteral

  function Folded(name: string, texts: Texts): string { texts.lower(texts.trim(name)) }

  /** `followStringTarget`: at most one hop. */
  function FollowStringTarget(target: string, aliases: AliasMap, from: string, texts: Texts): Followed {
    var folded := Folded(target, texts);
    if folded == "" || folded == from || folded == "inherit" then FollowedInherit
    else if folded in aliases then FollowedRoute(TargetRoute(aliases[folded]))
    else if IsBuiltin(folded) then FollowedInherit
    else FollowedLiteral
  }

  datatype Via = Configured | Peer(hop: string) | OneHop(hop: string) | Builtin

  /** `AliasInspection`. */
  datatype Inspection = AsRoute(via: Via, route: Route) | AsInherit(from: Option<Via>) | AsLiteral(literal: Route)

  /** `inspectBare`. */
  function InspectBare(model: string, aliases: AliasMap, texts: Texts): Inspection {
    var folded := Folded(model, texts);
    if folded == "inherit" then AsInherit(None)
    else if folded in aliases then
      match aliases[folded]
      case Name(hit) =>
        (match FollowStringTarget(hit, aliases, folded, texts)
         case FollowedRoute(route) => AsRoute(OneHop(Folded(hit, texts)), route)
         case FollowedInherit => AsInherit(Some(OneHop(Folded(hit, texts))))
         case FollowedLiteral => AsLiteral(LiteralRoute(hit)))
      case Object(_, _, _, _) => AsRoute(Configured, ObjectRoute(aliases[folded]))
    else if folded in LANE_PEERS then
      var peer := LANE_PEERS[folded];
      match FollowStringTarget(peer, aliases, folded, texts)
      case FollowedRoute(route) => AsRoute(Peer(peer), route)
      case _ => AsInherit(Some(Peer(peer)))
    else if IsBuiltin(folded) then AsInherit(Some(Builtin))
    else AsLiteral(LiteralRoute(texts.trim(model)))
  }

  // ---------------------------------------------------------------- the `$level` suffix

  predicate IsAlphanumeric(c: char) { '0' <= c <= '9' || 'a' <= c <= 'z' || 'A' <= c <= 'Z' }

  /** A legal level: letters, digits and dashes, no dash in front. */
  predicate LegalLevel(level: string) {
    && level != "" && IsAlphanumeric(level[0])
    && forall i :: 0 <= i < |level| ==> IsAlphanumeric(level[i]) || level[i] == '-'
  }

  /** `lastIndexOf`, or -1. */
  function LastIndexOf(s: string, c: char): (k: int)
    ensures -1 <= k < |s|
    ensures k >= 0 ==> s[k] == c
    ensures forall m :: k < m < |s| ==> s[m] != c
  {
    if s == "" then -1 else if s[|s| - 1] == c then |s| - 1 else LastIndexOf(s[..|s| - 1], c)
  }

  datatype Reference = Reference(bare: string, level: Option<string>)

  /** `splitLevelSuffix`. */
  function SplitLevelSuffix(ref: string): Reference {
    var i, slash := LastIndexOf(ref, '$'), LastIndexOf(ref, '/');
    if i <= 0 || i == |ref| - 1 then Reference(ref, None)
    else if slash != -1 && slash > i then Reference(ref, None)
    else if !LegalLevel(ref[i + 1..]) then Reference(ref, None)
    else if ref[i - 1] == '/' then Reference(ref, None)
    else Reference(ref[..i], Some(ref[i + 1..]))
  }

  lemma LevelHasNoSeparator(level: string)
    requires LegalLevel(level)
    ensures forall i :: 0 <= i < |level| ==> level[i] != '$' && level[i] != '/'
  {
  }

  lemma LastIndexIs(s: string, c: char, k: nat)
    requires k < |s| && s[k] == c && forall m :: k < m < |s| ==> s[m] != c
    ensures LastIndexOf(s, c) == k
  {
  }

  lemma NoLaterSlash(ref: string, k: nat)
    requires k < |ref| && ref[k] != '/' && forall m :: k < m < |ref| ==> ref[m] != '/'
    ensures LastIndexOf(ref, '/') < k
  {
  }

  predicate IsSuffixed(ref: string, bare: string, level: string) {
    ref == bare + "$" + level && LegalLevel(level) && bare != "" && bare[|bare| - 1] != '/'
  }

  lemma SuffixedSplits(ref: string, bare: string, level: string)
    requires IsSuffixed(ref, bare, level)
    ensures SplitLevelSuffix(ref) == Reference(bare, Some(level))
  {
    hide LegalLevel;
    var k := |bare|;
    LevelHasNoSeparator(level);
    assert ref[k] == '$' && ref[k + 1..] == level && ref[..k] == bare && ref[k - 1] == bare[k - 1];
    forall m | k < m < |ref| ensures ref[m] != '$' && ref[m] != '/' { assert ref[m] == level[m - k - 1]; }
    LastIndexIs(ref, '$', k);
    NoLaterSlash(ref, k);
    LevelIsNotEmpty(level);
  }

  lemma SplitIsSuffixed(ref: string)
    ensures var s := SplitLevelSuffix(ref); if s.level.None? then s.bare == ref else IsSuffixed(ref, s.bare, s.level.value)
  {
    hide LegalLevel;
    var i := LastIndexOf(ref, '$');
    if i > 0 { assert ref == ref[..i] + "$" + ref[i + 1..]; }
  }

  /**
   * A suffix is split off exactly when the reference is a bare part, a `$` and a legal level, with a bare part that is
   * not empty and does not end in a slash; otherwise the reference stays whole.
   */
  lemma SuffixIsExact(ref: string, bare: string, level: string)
    ensures SplitLevelSuffix(ref) == Reference(bare, Some(level)) <==> IsSuffixed(ref, bare, level)
    ensures SplitLevelSuffix(ref).level.None? ==> SplitLevelSuffix(ref).bare == ref
  {
    hide IsSuffixed, SplitLevelSuffix;
    SplitIsSuffixed(ref);
    if IsSuffixed(ref, bare, level) { SuffixedSplits(ref, bare, level); }
  }

  lemma LevelIsNotEmpty(level: string)
    requires LegalLevel(level)
    ensures level != ""
  {
  }

  /** Only the last suffix goes: a bare part may still contain a `$`. */
  lemma BareMayKeepDollar()
    ensures SplitLevelSuffix("a$b$high") == Reference("a$b", Some("high"))
  {
    hide SplitLevelSuffix;
    assert "a$b" + "$" + "high" == "a$b$high";
    SuffixedSplits("a$b$high", "a$b", "high");
  }

  ghost predicate Suffixed(ref: string) { exists bare, level :: IsSuffixed(ref, bare, level) }

  /** It does exactly if the reference has a `$` besides that of its legal suffix, or any at all where it has no such suffix. */
  lemma BareKeepsDollarExactly(ref: string)
    ensures '$' in SplitLevelSuffix(ref).bare <==> multiset(ref)['$'] > if Suffixed(ref) then 1 else 0
  {
    hide SplitLevelSuffix, LegalLevel;
    SplitIsSuffixed(ref);
    var split := SplitLevelSuffix(ref);
    if split.level.Some? {
      LevelHasNoSeparator(split.level.value);
      OneDollarMore(split.bare, split.level.value);
    } else if Suffixed(ref) {
      var bare, level :| IsSuffixed(ref, bare, level);
      SuffixedSplits(ref, bare, level);
    }
  }

  lemma OneDollarMore(bare: string, level: string)
    requires '$' !in level
    ensures multiset(bare + "$" + level)['$'] == multiset(bare)['$'] + 1
  {
    assert multiset(bare + "$" + level) == multiset(bare) + multiset("$") + multiset(level);
    assert multiset(level)['$'] == 0;
  }

  // ---------------------------------------------------------------- resolution

  function RouteIn(verdict: Inspection): Option<Route> {
    match verdict case AsRoute(_, route) => Some(route) case AsLiteral(route) => Some(route) case AsInherit(_) => None
  }

  function WithEffort(verdict: Inspection, level: string): Inspection {
    match verdict
    case AsRoute(via, route) => AsRoute(via, route.(effort := Some(level)))
    case AsLiteral(route) => AsLiteral(route.(effort := Some(level)))
    case AsInherit(_) => verdict
  }

  /** The inspector: blank inherits, and a level is stamped on the route it comes with. */
  function Inspect(model: Option<string>, aliases: AliasMap, texts: Texts): Inspection {
    if model.None? || texts.trim(model.value) == "" then AsInherit(None)
    else
      var split := SplitLevelSuffix(texts.trim(model.value));
      var verdict := InspectBare(split.bare, aliases, texts);
      if split.level.Some? then WithEffort(verdict, split.level.value) else verdict
  }

  datatype Provenance = ViaAlias | ViaLiteral | ViaInherit

  datatype Detailed = Detailed(selector: Option<string>, via: Provenance, route: Option<Route>)

  /** `resolveDetailed`. */
  function ResolveDetailed(model: Option<string>, aliases: AliasMap, texts: Texts): Detailed {
    var verdict := Inspect(model, aliases, texts);
    var selector := if model.None? then None else Some(texts.trim(model.value));
    match verdict
    case AsInherit(_) => Detailed(if selector == Some("") then None else selector, ViaInherit, None)
    case AsRoute(_, route) => Detailed(selector, ViaAlias, Some(route))
    case AsLiteral(route) =>
      var followed := route.model.Some? && route.model != selector;
      Detailed(if followed then selector else route.model, if followed then ViaAlias else ViaLiteral, Some(route))
  }

  /** The route is absent exactly when the provenance is `inherit`. */
  lemma InheritMeansNoRoute(model: Option<string>, aliases: AliasMap, texts: Texts)
    ensures var d := ResolveDetailed(model, aliases, texts); d.via.ViaInherit? <==> d.route.None?
    ensures ResolveDetailed(model, aliases, texts).route == RouteIn(Inspect(model, aliases, texts))
  {
  }

  /** Where a route's marker comes from: the model id's family, or an alias that declares that model. */
  predicate Backed(route: Route, aliases: AliasMap) {
    route.systemOne ==>
      || (route.model.Some? && IsSystemOneModelId(route.model.value))
      || (exists a :: a in aliases && IsSystemOneTarget(aliases[a]) && ModelOf(aliases[a]) == route.model
                      && ProviderOf(aliases[a]) == route.provider)
  }

  lemma TargetIsBacked(aliases: AliasMap, a: string)
    requires a in aliases
    ensures Backed(TargetRoute(aliases[a]), aliases)
  {
    hide IsSystemOneModelId;
  }

  lemma BareIsBacked(model: string, aliases: AliasMap, texts: Texts)
    ensures RouteIn(InspectBare(model, aliases, texts)).Some? ==> Backed(RouteIn(InspectBare(model, aliases, texts)).value, aliases)
  {
    hide IsSystemOneModelId, IsBuiltin, Backed, TargetRoute, LANE_PEERS;
    var folded := Folded(model, texts);
    LiteralIsBacked(texts.trim(model), aliases);
    if folded in aliases {
      TargetIsBacked(aliases, folded);
      ObjectIsTarget(aliases[folded]);
      if aliases[folded].Name? {
        LiteralIsBacked(aliases[folded].model, aliases);
        var hop := Folded(aliases[folded].model, texts);
        if hop in aliases { TargetIsBacked(aliases, hop); }
      }
    } else if folded in LANE_PEERS {
      var hop := Folded(LANE_PEERS[folded], texts);
      if hop in aliases { TargetIsBacked(aliases, hop); }
    }
  }

  lemma ObjectIsTarget(target: Target)
    ensures target.Object? ==> TargetRoute(target) == ObjectRoute(target)
  {
  }

  lemma LiteralIsBacked(model: string, aliases: AliasMap)
    ensures Backed(LiteralRoute(model), aliases)
  {
    hide IsSystemOneModelId;
  }

  /**
   * The two classifiers agree: a route that the resolver marks System One is rejected by the chat guard under its own
   * provider, or under whatever parent provider fills a missing one, exactly if it names a model at all.
   */
  lemma MarkedRouteIsRejected(model: Option<string>, aliases: AliasMap, texts: Texts, parent: Option<string>)
    requires var d := ResolveDetailed(model, aliases, texts); d.route.Some? && d.route.value.systemOne
    ensures var route := ResolveDetailed(model, aliases, texts).route.value;
      var provider := if route.provider.Some? then route.provider else parent;
      Rejects(aliases, provider, route.model) <==> (route.model.Some? && route.model.value != "")
  {
    hide IsSystemOneModelId, InspectBare, SplitLevelSuffix;
    InheritMeansNoRoute(model, aliases, texts);
    var split := SplitLevelSuffix(texts.trim(model.value));
    BareIsBacked(split.bare, aliases, texts);
    var route := ResolveDetailed(model, aliases, texts).route.value;
    assert Backed(route, aliases);
    var provider := if route.provider.Some? then route.provider else parent;
    if route.model.Some? && route.model.value != "" && !IsSystemOneModelId(route.model.value) {
      var a :| a in aliases && IsSystemOneTarget(aliases[a]) && ModelOf(aliases[a]) == route.model
               && ProviderOf(aliases[a]) == route.provider;
      assert Declares(aliases[a], provider, route.model.value);
    }
  }

  /** Every target that carries the System One protocol marker names a model, as the declared target type demands of all. */
  predicate NamesModels(aliases: AliasMap) {
    forall a :: a in aliases && aliases[a].Object? && aliases[a].protocol == Some("systemone") ==>
      aliases[a].modelId.Some? && aliases[a].modelId.value != ""
  }

  /** A marked route is rejected, under its own provider or under the parent's. */
  predicate Covered(model: Option<string>, aliases: AliasMap, texts: Texts, parent: Option<string>) {
    var route := ResolveDetailed(model, aliases, texts).route;
    route.Some? && route.value.systemOne ==>
      && route.value.model.Some? && route.value.model.value != ""
      && Rejects(aliases, if route.value.provider.Some? then route.value.provider else parent, route.value.model)
  }

  /** A marked route that comes from such a map names a model. */
  lemma MarkedNamesModel(model: string, aliases: AliasMap, texts: Texts)
    requires NamesModels(aliases)
    ensures var route := RouteIn(InspectBare(model, aliases, texts));
      route.Some? && route.value.systemOne ==> route.value.model.Some? && route.value.model.value != ""
  {
    hide IsBuiltin, LANE_PEERS;
    assert !IsSystemOneModelId("");
  }

  /**
   * With an alias map whose marked targets name models, every route that the resolver marks System One is rejected by the
   * chat guard, for any reference and any parent provider.
   */
  lemma EveryMarkedRouteIsRejected(model: Option<string>, aliases: AliasMap, texts: Texts, parent: Option<string>)
    requires NamesModels(aliases)
    ensures Covered(model, aliases, texts, parent)
  {
    hide IsSystemOneModelId, InspectBare, SplitLevelSuffix, Rejects, NamesModels;
    InheritMeansNoRoute(model, aliases, texts);
    var route := ResolveDetailed(model, aliases, texts).route;
    if route.Some? && route.value.systemOne {
      MarkedNamesModel(SplitLevelSuffix(texts.trim(model.value)).bare, aliases, texts);
      MarkedRouteIsRejected(model, aliases, texts, parent);
    }
  }

  /** An alias name that a reference can consist of: trimmed, folded, no keyword and without a level suffix. */
  predicate Plain(name: string, texts: Texts) {
    && texts.trim(name) == name && texts.lower(name) == name && name != "" && name != "inherit"
    && SplitLevelSuffix(name).level.None?
  }

  /** A marked target without a model resolves to a marked route that the guard lets through under every provider. */
  lemma ModelLessTargetPasses(name: string, aliases: AliasMap, texts: Texts, parent: Option<string>)
    requires name in aliases && Plain(name, texts) && aliases[name].Object? && aliases[name].protocol == Some("systemone")
    requires aliases[name].modelId.None? || aliases[name].modelId.value == ""
    ensures var route := ResolveDetailed(Some(name), aliases, texts).route;
      && route.Some? && route.value.systemOne
      && !Rejects(aliases, if route.value.provider.Some? then route.value.provider else parent, route.value.model)
  {
    hide IsSystemOneModelId, SplitLevelSuffix;
    SplitIsSuffixed(name);
  }

  /** So, for maps of plain names, the guard covers every marked route if and only if every marked target names a model. */
  lemma GuardCoversExactly(aliases: AliasMap, texts: Texts)
    requires forall a :: a in aliases ==> Plain(a, texts)
    ensures (forall model, parent :: Covered(model, aliases, texts, parent)) <==> NamesModels(aliases)
  {
    hide Plain, Covered;
    if NamesModels(aliases) {
      forall model, parent ensures Covered(model, aliases, texts, parent) { EveryMarkedRouteIsRejected(model, aliases, texts, parent); }
    } else {
      var a :| a in aliases && aliases[a].Object? && aliases[a].protocol == Some("systemone")
               && !(aliases[a].modelId.Some? && aliases[a].modelId.value != "");
      ModelLessTargetPasses(a, aliases, texts, None);
      NotCovered(Some(a), aliases, texts);
    }
  }

  lemma NotCovered(model: Option<string>, aliases: AliasMap, texts: Texts)
    requires var route := ResolveDetailed(model, aliases, texts).route;
      && route.Some? && route.value.systemOne
      && !Rejects(aliases, if route.value.provider.Some? then route.value.provider else None, route.value.model)
    ensures !Covered(model, aliases, texts, None)
  {
    hide ResolveDetailed, Rejects;
  }

  /** One such map: an alias with a provider and the marker, but no model. */
  lemma GuardCanMiss(parent: Option<string>)
    ensures var aliases := map["gauge" := Object(Some("p"), None, None, Some("systemone"))];
      var route := ResolveDetailed(Some("gauge"), aliases, Texts(s => s, s => s)).route;
      && route.Some? && route.value.systemOne
      && !Rejects(aliases, if route.value.provider.Some? then route.value.provider else parent, route.value.model)
  {
    hide ResolveDetailed, Rejects;
    var aliases := map["gauge" := Object(Some("p"), None, None, Some("systemone"))];
    assert LastIndexOf("gauge", '$') == -1;
    ModelLessTargetPasses("gauge", aliases, Texts(s => s, s => s), parent);
  }

  /** The aliases that the resolution of a bare reference can look at: its own, and one more. */
  function Touched(model: string, aliases: AliasMap, texts: Texts): set<string> {
    var folded := Folded(model, texts);
    if folded in aliases then
      if aliases[folded].Name? then {folded, Folded(aliases[folded].model, texts)} else {folded}
    else if folded in LANE_PEERS then {folded, Folded(LANE_PEERS[folded], texts)}
    else {folded}
  }

  predicate AgreeOn(a: AliasMap, b: AliasMap, names: set<string>) {
    forall n :: n in names ==> (n in a <==> n in b) && (n in a && n in b ==> a[n] == b[n])
  }

  /** Resolution never looks beyond one hop: whatever else the alias map holds, cycles included, changes nothing. */
  lemma OneHopOnly(model: string, a: AliasMap, b: AliasMap, texts: Texts)
    requires AgreeOn(a, b, Touched(model, a, texts))
    ensures InspectBare(model, a, texts) == InspectBare(model, b, texts)
  {
    hide IsSystemOneModelId, IsBuiltin, IsSystemOneTarget, LANE_PEERS;
  }

  // ---------------------------------------------------------------- chat projections

  datatype Projection<T> = Refused | Projected(value: Option<T>)

  /** `toAgentOptions`: the present fields, or nothing to override. */
  function ToAgentOptions(route: Option<Route>): Projection<Route> {
    if route.None? then Projected(None)
    else if route.value.systemOne then Refused
    else if route.value.provider.None? && route.value.model.None? && route.value.effort.None? then Projected(None)
    else Projected(Some(route.value))
  }

  /** `toOneShotRoute`: alias fields win, the parent fills the others, and both must be non-empty. */
  function ToOneShotRoute(route: Option<Route>, parent: Route): Projection<(string, string)> {
    if route.None? then Projected(None)
    else if route.value.systemOne then Refused
    else
      var provider := if route.value.provider.Some? then route.value.provider else parent.provider;
      var model := if route.value.model.Some? then route.value.model else parent.model;
      if provider.None? || model.None? || provider.value == "" || model.value == "" then Projected(None)
      else Projected(Some((provider.value, model.value)))
  }

  /** Both projections refuse every reference that resolves to a System One target, and only those. */
  lemma ProjectionsRefuseMarked(model: Option<string>, aliases: AliasMap, texts: Texts, parent: Route)
    ensures var route := ResolveDetailed(model, aliases, texts).route;
      && (ToAgentOptions(route).Refused? <==> route.Some? && route.value.systemOne)
      && (ToOneShotRoute(route, parent).Refused? <==> ToAgentOptions(route).Refused?)
      && (ToAgentOptions(route).Refused? && route.value.model.Some? && route.value.model.value != "" ==>
            Rejects(aliases, if route.value.provider.Some? then route.value.provider else parent.provider, route.value.model))
  {
    hide ResolveDetailed, Rejects;
    var route := ResolveDetailed(model, aliases, texts).route;
    if route.Some? && route.value.systemOne { MarkedRouteIsRejected(model, aliases, texts, parent.provider); }
  }

  // ---------------------------------------------------------------- merging

  /** A settings value: a target, a null that deletes, or a boolean control key. */
  datatype Setting = SetTo(target: Target) | Deleted | Control

  /** The last value of a folded key in a record's own order. */
  function LastOf<T>(entries: seq<(string, T)>, key: string, texts: Texts): Option<T> {
    if entries == [] then None
    else if texts.lower(entries[|entries| - 1].0) == key then Some(entries[|entries| - 1].1)
    else LastOf(entries[..|entries| - 1], key, texts)
  }

  /** The effective target of a key: settings replace or delete, a control key is no alias, the rest is config. */
  function EffectiveTarget(config: seq<(string, Option<Target>)>, settings: seq<(string, Setting)>, key: string, texts: Texts)
    : Option<Target>
  {
    match LastOf<Setting>(settings, key, texts)
    case Some(SetTo(target)) => Some(target)
    case Some(Deleted) => None
    case _ => (match LastOf<Option<Target>>(config, key, texts) case Some(Some(target)) => Some(target) case _ => None)
  }

  /** `foldKeys`. */
  method FoldKeys<T>(entries: seq<(string, T)>, texts: Texts) returns (folded: map<string, T>)
    ensures forall k :: k in folded <==> LastOf(entries, k, texts).Some?
    ensures forall k :: k in folded ==> LastOf(entries, k, texts) == Some(folded[k])
  {
    folded := map[];
    for i := 0 to |entries|
      invariant forall k :: k in folded <==> LastOf(entries[..i], k, texts).Some?
      invariant forall k :: k in folded ==> LastOf(entries[..i], k, texts) == Some(folded[k])
    {
      assert entries[..i + 1][..i] == entries[..i];
      folded := folded[texts.lower(entries[i].0) := entries[i].1];
    }
    assert entries[..|entries|] == entries;
  }

  /** `mergeAliasMaps`. */
  method MergeAliasMaps(config: seq<(string, Option<Target>)>, settings: seq<(string, Setting)>, texts: Texts)
    returns (merged: AliasMap)
    ensures forall k :: k in merged <==> EffectiveTarget(config, settings, k, texts).Some?
    ensures forall k :: k in merged ==> EffectiveTarget(config, settings, k, texts) == Some(merged[k])
  {
    hide LastOf, Overlaid;
    var defaults := FoldKeys(config, texts);
    merged := DropNulls(defaults);
    var overlay := FoldKeys(settings, texts);
    ghost var base := merged;
    var rest := overlay.Keys;
    NothingOverlaid(base, overlay);
    while rest != {}
      invariant rest <= overlay.Keys
      invariant forall k :: k in merged <==> Overlaid(base, overlay, rest, k).Some?
      invariant forall k :: k in merged ==> Some(merged[k]) == Overlaid(base, overlay, rest, k)
      decreases rest
    {
      var key :| key in rest;
      OneOverlaid(base, overlay, rest, key);
      match overlay[key] {
        case Control =>
        case Deleted => merged := merged - {key};
        case SetTo(target) => merged := merged[key := target];
      }
      rest := rest - {key};
    }
    AllOverlaid(base, overlay);
  }

  /** A stray null in the config is no alias. */
  method DropNulls(defaults: map<string, Option<Target>>) returns (merged: AliasMap)
    ensures forall k :: k in merged <==> k in defaults && defaults[k].Some?
    ensures forall k :: k in merged ==> Some(merged[k]) == defaults[k]
  {
    merged := map[];
    var rest := defaults.Keys;
    while rest != {}
      invariant rest <= defaults.Keys
      invariant forall k :: k in merged <==> k in defaults && k !in rest && defaults[k].Some?
      invariant forall k :: k in merged ==> Some(merged[k]) == defaults[k]
      decreases rest
    {
      var key :| key in rest;
      if defaults[key].Some? { merged := merged[key := defaults[key].value]; }
      rest := rest - {key};
    }
  }

  /** A key after the settings outside `rest` have been laid over the config. */
  ghost function Overlaid(base: AliasMap, overlay: map<string, Setting>, rest: set<string>, k: string): Option<Target> {
    if k in overlay && k !in rest && overlay[k].SetTo? then Some(overlay[k].target)
    else if k in overlay && k !in rest && overlay[k].Deleted? then None
    else if k in base then Some(base[k])
    else None
  }

  lemma NothingOverlaid(base: AliasMap, overlay: map<string, Setting>)
    ensures forall k :: Overlaid(base, overlay, overlay.Keys, k) == if k in base then Some(base[k]) else None
  {
  }

  lemma OneOverlaid(base: AliasMap, overlay: map<string, Setting>, rest: set<string>, key: string)
    requires key in rest && rest <= overlay.Keys
    ensures forall k :: k != key ==> Overlaid(base, overlay, rest - {key}, k) == Overlaid(base, overlay, rest, k)
    ensures Overlaid(base, overlay, rest, key) == if key in base then Some(base[key]) else None
    ensures Overlaid(base, overlay, rest - {key}, key)
         == match overlay[key] case SetTo(target) => Some(target) case Deleted => None case Control => Overlaid(base, overlay, rest, key)
  {
  }

  lemma AllOverlaid(base: AliasMap, overlay: map<string, Setting>)
    ensures forall k :: Overlaid(base, overlay, {}, k) == Laid(base, overlay, k)
  {
  }

  ghost function Laid(base: AliasMap, overlay: map<string, Setting>, k: string): Option<Target> {
    if k in overlay && overlay[k].SetTo? then Some(overlay[k].target)
    else if k in overlay && overlay[k].Deleted? then None
    else if k in base then Some(base[k])
    else None
  }
}
