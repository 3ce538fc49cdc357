/** What a model reference resolves to, rule by rule and for every reference, and what its level suffix adds. */
module AliasRules {
  import opened Basics
  import opened Aliases

  /** The route of a bare model id: parent provider, no effort, marked by its family. */
  predicate IsLiteral(route: Option<Route>, model: string) {
    route == Some(Route(None, Some(model), None, Contains(model, "llmbox_systemone/")))
  }

  /** The route of an alias target: all its fields, marked by its protocol or its model's family. */
  predicate IsTarget(route: Option<Route>, target: Target) {
    match target
    case Name(model) => IsLiteral(route, model)
    case Object(provider, modelId, effort, protocol) =>
      route == Some(Route(provider, modelId, effort,
                          protocol == Some("systemone") || (modelId.Some? && Contains(modelId.value, "llmbox_systemone/"))))
  }

  /** The names that inherit the parent's route while nobody configures them. */
  predicate Inherits(name: string) {
    name in {"fable", "opus", "sonnet", "haiku", "sketch", "draft", "blueprint", "masterplan", "architect", "gauge"}
  }

  /** The alias that an unconfigured lane shares its route with. */
  predicate SharesWith(lane: string, peer: string) {
    (lane, peer) in {("sketch", "haiku"), ("draft", "sonnet"), ("blueprint", "opus"), ("masterplan", "fable"), ("gauge", "haiku")}
  }

  /** An alias that names a model: itself, nothing and `inherit` inherit; another alias gives its own target and no further hop. */
  predicate IsFollowed(route: Option<Route>, from: string, model: string, aliases: AliasMap, texts: Texts) {
    var hop := texts.lower(texts.trim(model));
    if hop in {"", from, "inherit"} then route == None
    else if hop in aliases then IsTarget(route, aliases[hop])
    else if Inherits(hop) then route == None
    else IsLiteral(route, model)
  }

  /** A lane that nobody configures: the route of its peer's alias, if that one is configured. */
  predicate IsShared(route: Option<Route>, lane: string, peer: string, aliases: AliasMap, texts: Texts) {
    var hop := texts.lower(texts.trim(peer));
    if hop in aliases && hop !in {"", lane, "inherit"} then IsTarget(route, aliases[hop]) else route == None
  }

  /** The rules for a reference without a level: one of them applies to every name. */
  lemma BareRules(model: string, aliases: AliasMap, texts: Texts)
    ensures var name, route := texts.lower(texts.trim(model)), RouteIn(InspectBare(model, aliases, texts));
      && (name == "inherit" ==> route == None)
      && (name != "inherit" && name in aliases ==>
            if aliases[name].Object? then IsTarget(route, aliases[name]) else IsFollowed(route, name, aliases[name].model, aliases, texts))
      && (name != "inherit" && name !in aliases && Inherits(name) ==>
            && (forall peer :: SharesWith(name, peer) ==> IsShared(route, name, peer, aliases, texts))
            && ((forall peer :: !SharesWith(name, peer)) ==> route == None))
      && (name != "inherit" && name !in aliases && !Inherits(name) ==> IsLiteral(route, texts.trim(model)))
  {
    hide Contains;
    var name := texts.lower(texts.trim(model));
    if name in LANE_PEERS { assert SharesWith(name, LANE_PEERS[name]); }
  }

  /** Where a verdict comes from: a configured object, a name followed to its alias, a lane's peer, or a builtin nobody configures. */
  lemma VerdictTells(model: string, aliases: AliasMap, texts: Texts)
    ensures var name, verdict := texts.lower(texts.trim(model)), InspectBare(model, aliases, texts);
      && (verdict.AsRoute? && verdict.via.Configured? <==> name != "inherit" && name in aliases && aliases[name].Object?)
      && (name != "inherit" && name in aliases && aliases[name].Name? && !verdict.AsLiteral? ==>
            var hop := OneHop(texts.lower(texts.trim(aliases[name].model)));
            if verdict.AsRoute? then verdict.via == hop else verdict.from == Some(hop))
      && (name != "inherit" && name !in aliases ==>
            && (forall peer :: SharesWith(name, peer) ==>
                  if verdict.AsRoute? then verdict.via == Peer(peer) else verdict == AsInherit(Some(Peer(peer))))
            && (Inherits(name) && (forall peer :: !SharesWith(name, peer)) ==> verdict == AsInherit(Some(Builtin))))
      && (name == "inherit" ==> verdict == AsInherit(None))
  {
    hide Contains;
    var name := texts.lower(texts.trim(model));
    if name in LANE_PEERS { assert SharesWith(name, LANE_PEERS[name]); }
  }

  /** A letter or a digit, by its code. */
  predicate IsAlnum(code: int) { 48 <= code <= 57 || 65 <= code <= 90 || 97 <= code <= 122 }

  /** A level is legal exactly if it is made of letters, digits and dashes, and does not start with a dash. */
  lemma LevelsByPattern(level: string)
    ensures LegalLevel(level) <==>
      level != "" && level[0] != '-' && forall i :: 0 <= i < |level| ==> IsAlnum(level[i] as int) || level[i] == '-'
  {
  }

  /** The same route, with a level for its effort. */
  function AtLevel(route: Option<Route>, level: string): Option<Route> {
    if route.None? then None else Some(Route(route.value.provider, route.value.model, Some(level), route.value.systemOne))
  }

  /**
   * A legal level suffix sets the effort of whatever the bare part resolves to, over the effort that an alias pins, and
   * changes nothing else; where the bare part inherits, so does the whole.
   */
  lemma LevelSetsEffort(ref: string, bare: string, level: string, aliases: AliasMap, texts: Texts)
    requires texts.trim(ref) == ref && texts.trim(bare) == bare && IsSuffixed(ref, bare, level) && SplitLevelSuffix(bare).level.None?
    ensures ResolveDetailed(Some(ref), aliases, texts).route == AtLevel(ResolveDetailed(Some(bare), aliases, texts).route, level)
  {
    hide InspectBare, SplitLevelSuffix, LegalLevel;
    SuffixIsExact(ref, bare, level);
    SplitIsSuffixed(bare);
    InheritMeansNoRoute(Some(ref), aliases, texts);
    InheritMeansNoRoute(Some(bare), aliases, texts);
  }

  /** Without a level, a reference resolves by the rules; a blank one, or none, inherits. */
  lemma PlainResolves(model: Option<string>, aliases: AliasMap, texts: Texts)
    ensures model.None? || texts.trim(model.value) == "" ==> ResolveDetailed(model, aliases, texts).route == None
    ensures model.Some? && texts.trim(model.value) != "" && SplitLevelSuffix(texts.trim(model.value)).level.None? ==>
      ResolveDetailed(model, aliases, texts).route == RouteIn(InspectBare(texts.trim(model.value), aliases, texts))
  {
    hide InspectBare, SplitLevelSuffix;
    InheritMeansNoRoute(model, aliases, texts);
    if model.Some? { SplitIsSuffixed(texts.trim(model.value)); }
  }

  /**
   * A model id that is no alias is reported as a literal exactly if it comes without a level; with one it is reported as an
   * alias, because the reference then differs from the id.
   */
  lemma LevelHidesLiteral(model: string, aliases: AliasMap, texts: Texts)
    requires var split := SplitLevelSuffix(texts.trim(model)); var name := texts.lower(texts.trim(split.bare));
      texts.trim(model) != "" && texts.trim(split.bare) == split.bare && name != "inherit" && name !in aliases && !Inherits(name)
    ensures var d, split := ResolveDetailed(Some(model), aliases, texts), SplitLevelSuffix(texts.trim(model));
      && d.route.Some? && d.route.value.model == Some(split.bare)
      && d.via == (if split.level.None? then ViaLiteral else ViaAlias)
      && d.selector == Some(texts.trim(model))
  {
    hide InspectBare, SplitLevelSuffix, Contains, LegalLevel;
    var split := SplitLevelSuffix(texts.trim(model));
    SplitIsSuffixed(texts.trim(model));
    LiteralVerdict(split.bare, aliases, texts);
  }

  lemma LiteralVerdict(model: string, aliases: AliasMap, texts: Texts)
    requires var name := texts.lower(texts.trim(model)); name != "inherit" && name !in aliases && !Inherits(name)
    ensures InspectBare(model, aliases, texts) == AsLiteral(LiteralRoute(texts.trim(model)))
  {
  }

  /** A configured alias is reported as one, whatever it resolves to, unless it inherits or names the reference itself. */
  lemma AliasIsReported(model: string, aliases: AliasMap, texts: Texts)
    requires var split := SplitLevelSuffix(texts.trim(model)); texts.lower(texts.trim(split.bare)) in aliases && texts.trim(model) != ""
    ensures var d := ResolveDetailed(Some(model), aliases, texts);
      d.route.Some? && d.route.value.model != Some(texts.trim(model)) ==> d.via == ViaAlias && d.selector == Some(texts.trim(model))
  {
    hide SplitLevelSuffix, Contains, LANE_PEERS;
  }

  // ---------------------------------------------------------------- merging

  /** Entry `i` is the last one of a record whose folded key is this. */
  predicate LastAt<T>(entries: seq<(string, T)>, key: string, texts: Texts, i: nat) {
    && i < |entries| && texts.lower(entries[i].0) == key
    && forall j :: i < j < |entries| ==> texts.lower(entries[j].0) != key
  }

  lemma {:induction false} LastOfMeans<T>(entries: seq<(string, T)>, key: string, texts: Texts)
    ensures LastOf(entries, key, texts).None? <==> forall i :: 0 <= i < |entries| ==> texts.lower(entries[i].0) != key
    ensures forall i: nat :: LastAt(entries, key, texts, i) ==> LastOf(entries, key, texts) == Some(entries[i].1)
  {
    if entries == [] {
    } else {
      var n := |entries| - 1;
      LastOfMeans(entries[..n], key, texts);
      assert forall i :: 0 <= i < n ==> entries[..n][i] == entries[i];
      forall i: nat | LastAt(entries, key, texts, i) && i < n ensures LastAt(entries[..n], key, texts, i) {}
    }
  }

  /**
   * The merged target of a key: the last setting for it decides, a null deletes, a control key does not count, and without a
   * setting that counts the last value in the config does.
   */
  lemma MergeMeans(config: seq<(string, Option<Target>)>, settings: seq<(string, Setting)>, key: string, texts: Texts)
    ensures forall i: nat :: LastAt(settings, key, texts, i) && settings[i].1.SetTo? ==>
      EffectiveTarget(config, settings, key, texts) == Some(settings[i].1.target)
    ensures forall i: nat :: LastAt(settings, key, texts, i) && settings[i].1.Deleted? ==> EffectiveTarget(config, settings, key, texts) == None
    ensures (forall i: nat :: !LastAt(settings, key, texts, i)) || (exists i: nat :: LastAt(settings, key, texts, i) && settings[i].1.Control?) ==>
      && (forall k: nat :: LastAt(config, key, texts, k) ==> EffectiveTarget(config, settings, key, texts) == config[k].1)
      && ((forall k: nat :: !LastAt(config, key, texts, k)) ==> EffectiveTarget(config, settings, key, texts) == None)
  {
    hide LastOf;
    LastOfMeans(config, key, texts);
    LastOfMeans(settings, key, texts);
    SomeLast(config, key, texts, |config|);
    SomeLast(settings, key, texts, |settings|);
  }

  /** A record that has the key has a last entry for it. */
  lemma {:induction false} SomeLast<T>(entries: seq<(string, T)>, key: string, texts: Texts, n: nat)
    requires n <= |entries| && forall i :: n <= i < |entries| ==> texts.lower(entries[i].0) != key
    ensures (forall i :: 0 <= i < |entries| ==> texts.lower(entries[i].0) != key) || exists i: nat :: LastAt(entries, key, texts, i)
  {
    if n == 0 {
    } else if texts.lower(entries[n - 1].0) == key {
      assert LastAt(entries, key, texts, n - 1);
    } else {
      SomeLast(entries, key, texts, n - 1);
    }
  }

  // ---------------------------------------------------------------- the guard and the projections

  /** The guard's declaration of a model: an alias marked System One, of this model, for this provider or any. */
  predicate Forbids(target: Target, provider: Option<string>, model: string) {
    match target
    case Name(name) => name == model && Contains(model, "llmbox_systemone/")
    case Object(pinned, modelId, _, protocol) =>
      && modelId == Some(model)
      && (protocol == Some("systemone") || Contains(model, "llmbox_systemone/"))
      && (pinned.None? || provider.None? || pinned == provider)
  }

  /** The guard rejects a request exactly if it names a model of the family, or one that some alias forbids. */
  lemma GuardIsExact(aliases: AliasMap, provider: Option<string>, model: Option<string>)
    ensures Rejects(aliases, provider, model) <==>
      model.Some? && model.value != ""
      && (Contains(model.value, "llmbox_systemone/") || exists a :: a in aliases && Forbids(aliases[a], provider, model.value))
  {
    hide Contains;
    if model.Some? {
      forall a | a in aliases ensures Declares(aliases[a], provider, model.value) <==> Forbids(aliases[a], provider, model.value) {}
    }
  }

  /** What the two projections make of a route that they do not refuse. */
  lemma ProjectionsAreExact(route: Option<Route>, parent: Route)
    requires route.Some? ==> !route.value.systemOne
    ensures ToAgentOptions(route) == Projected(
      if route.None? || (route.value.provider.None? && route.value.model.None? && route.value.effort.None?) then None else route)
    ensures route.None? ==> ToOneShotRoute(route, parent) == Projected(None)
    ensures route.Some? ==>
      forall provider, model :: ToOneShotRoute(route, parent) == Projected(Some((provider, model))) <==>
        && provider != "" && model != ""
        && Some(provider) == (if route.value.provider.Some? then route.value.provider else parent.provider)
        && Some(model) == (if route.value.model.Some? then route.value.model else parent.model)
  {
  }
}
