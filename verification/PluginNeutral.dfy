/** Against a flat store with the same view: for each call the exact condition under which the layering does not show. */
module PluginNeutral {
  import opened Basics
  import opened PluginState
  import opened PluginOps
  import opened PluginMarketplaces
  import opened PluginRemoval
  import opened PluginRefinement
  import opened PluginAgreement

  /** A single-root store as the manager leaves it: removing the last entry of an id removes its key. */
  predicate Flat(s: Store) { !s.dual && forall id :: id in s.dshInstalled ==> s.dshInstalled[id] != [] }

  lemma FlattenIsFlat(s: Store)
    ensures Flat(Flatten(s))
  {
    hide MergedKnown, MergedUserFlags;
    forall id | id in Flatten(s).dshInstalled ensures Flatten(s).dshInstalled[id] != [] { ResolutionByEntries(s, id); }
  }

  // ---------------------------------------------------------------- uninstall

  /** No shadowed rival stops an uninstall that the installed ids alone would let through. */
  predicate NeutralUninstall(s: Store, arg: string, scope: Scope, skipGuard: bool) {
    ShadowedRival(s, arg) ==> FlatUninstall(s, arg, scope, skipGuard).None?
  }

  lemma FlatHasNoRival(s: Store, arg: string)
    requires Flat(s)
    ensures !ShadowedRival(s, arg)
  {
  }

  lemma UninstallAgainstFlat(s: Store, flat: Store, arg: string, scope: Scope, skipGuard: bool)
    requires SameView(s, flat) && Flat(flat)
    ensures var x, y := Uninstall(s, arg, scope, skipGuard), Uninstall(flat, arg, scope, skipGuard);
      (x.result.Ok? == y.result.Ok? && SameView(x.store, y.store)) <==> NeutralUninstall(s, arg, scope, skipGuard)
  {
    hide Uninstall, SameView, ShadowedRival, FlatUninstall, Flat;
    FlatHasNoRival(flat, arg);
    UninstallView(s, flat, arg, scope, skipGuard);
  }

  // ---------------------------------------------------------------- add

  /** A claude entry, reused by reference, that is what a fresh clone would have been recorded as. */
  predicate ReusableAs(entry: KnownEntry, location: string) { entry.installLocation == location && entry.autoUpdate.None? }

  /**
   * The layering does not show through an add: the source is known already; or a claude entry of the source is under the
   * guessed name, and it is overruled where the add fails anyway or reused where a clone of that name would look the same;
   * or the manifest's name is free, or taken in the dsh file itself.
   */
  predicate NeutralAdd(s: Store, source: Source, candidate: string, manifestName: Option<string>, location: string) {
    var claude := VisibleClaudeKnown(s);
    || SourceKnown(s, source)
    || if FastPath(s, source, candidate) then
         if LiveDsh(s, candidate).Some? then manifestName.None? || manifestName.value in MergedKnown(s)
         else manifestName == Some(candidate) && ReusableAs(claude[candidate], location)
       else manifestName.Some? ==>
         var name := manifestName.value;
         if name in MergedKnown(s) then LiveDsh(s, name).Some?
         else name in claude && claude[name].source == source ==> ReusableAs(claude[name], location)
  }

  /** What an add does to a flat store: its view alone decides. */
  function FlatAdd(known: map<string, KnownEntry>, now: int, source: Source, manifestName: Option<string>, location: string): Added {
    if exists n :: n in known && known[n].source == source then Unchanged(true)
    else if manifestName.None? || manifestName.value in known then Unchanged(false)
    else Wrote(manifestName.value, KnownEntry(source, location, now, None))
  }

  lemma FlatAddEffect(s: Store, now: int, source: Source, candidate: string, manifestName: Option<string>, location: string)
    requires !s.dual
    ensures AddEffect(s, now, source, candidate, manifestName, location) == FlatAdd(MergedKnown(s), now, source, manifestName, location)
  {
  }

  lemma NeutralAddEffect(s: Store, now: int, source: Source, candidate: string, manifestName: Option<string>, location: string)
    ensures NeutralAdd(s, source, candidate, manifestName, location) <==>
      AddEffect(s, now, source, candidate, manifestName, location) == FlatAdd(MergedKnown(s), now, source, manifestName, location)
  {
    if FastPath(s, source, candidate) {
      LiveOrTombstoned(s, candidate);
    } else if manifestName.Some? {
      LiveOrTombstoned(s, manifestName.value);
    }
  }

  lemma LiveOrTombstoned(s: Store, name: string)
    ensures LiveDsh(s, name).Some? ==> name in MergedKnown(s) && MergedKnown(s)[name] == LiveDsh(s, name).value
    ensures LiveDsh(s, name).None? && name in MergedKnown(s) ==>
      name in VisibleClaudeKnown(s) && MergedKnown(s)[name] == VisibleClaudeKnown(s)[name]
  {
  }

  lemma AddAgainstFlat(s: Store, flat: Store, scope: Scope, now: int, source: Source, candidate: string, manifestName: Option<string>, location: string)
    requires SameView(s, flat) && Flat(flat)
    ensures var x, y := AddMarketplace(s, scope, now, source, candidate, manifestName, location),
                        AddMarketplace(flat, scope, now, source, candidate, manifestName, location);
      (x.result.Ok? == y.result.Ok? && SameView(x.store, y.store)) <==> NeutralAdd(s, source, candidate, manifestName, location)
  {
    hide MergedKnown, AddMarketplace, SameEntries, SameFiles, SameUserOn, AddEffect, NeutralAdd, FlatAdd;
    AddView(s, flat, scope, now, source, candidate, manifestName, location);
    FlatAddEffect(flat, now, source, candidate, manifestName, location);
    NeutralAddEffect(s, now, source, candidate, manifestName, location);
  }

  // ---------------------------------------------------------------- marketplace updates

  /** No target that a batch gets to is a claude-only git entry that its update moves to a clone of its own. */
  predicate NeutralBatch(s: Store, targets: seq<string>, fetched: map<string, string>)
    requires forall t :: t in targets ==> t in MergedKnown(s)
  {
    forall t :: t in Reached(targets, fetched) ==>
      LiveDsh(s, t).Some? || MergedKnown(s)[t].source.Directory? || MergedKnown(s)[t].installLocation == fetched[t]
  }

  lemma NeutralUpdate(s: Store, flat: Store, target: string, now: int, fetched: map<string, string>)
    requires MergedKnown(s) == MergedKnown(flat) && !flat.dual && target in MergedKnown(s) && target in fetched
    ensures UpdatedEntry(s, target, now, fetched) == UpdatedEntry(flat, target, now, fetched) <==>
      LiveDsh(s, target).Some? || MergedKnown(s)[target].source.Directory? || MergedKnown(s)[target].installLocation == fetched[target]
  {
    LiveOrTombstoned(flat, target);
  }

  lemma BatchAgainstFlat(s: Store, flat: Store, targets: seq<string>, now: int, fetched: map<string, string>)
    requires SameView(s, flat) && Flat(flat) && forall t :: t in targets ==> t in MergedKnown(s)
    ensures var x, y := UpdateMarketplaces(s, targets, now, fetched), UpdateMarketplaces(flat, targets, now, fetched);
      && x.failed == y.failed && x.updated == y.updated
      && (SameView(x.store, y.store) <==> NeutralBatch(s, targets, fetched))
  {
    hide MergedKnown, UpdatedEntry, SameEntries, SameFiles, SameUserOn, UpdateMarketplaces, LiveDsh;
    BatchView(s, flat, targets, now, fetched);
    forall t | t in Reached(targets, fetched)
      ensures UpdatedEntry(s, t, now, fetched) == UpdatedEntry(flat, t, now, fetched) <==>
        LiveDsh(s, t).Some? || MergedKnown(s)[t].source.Directory? || MergedKnown(s)[t].installLocation == fetched[t]
    {
      NeutralUpdate(s, flat, t, now, fetched);
    }
  }

  // ---------------------------------------------------------------- removal

  /** The project enables an id of the marketplace that is installed, not merely shadowed. */
  ghost predicate InstalledGuard(s: Store, name: string) {
    exists id :: OfMarketplace(id, name) && Entries(s, id) != [] && OnInProject(s, id)
  }

  /** A known marketplace is not kept from removal by merely shadowed ids. */
  ghost predicate NeutralRemoval(s: Store, name: string) {
    name in MergedKnown(s) && ProjectGuards(s, name) ==> InstalledGuard(s, name)
  }

  lemma InstalledGuards(s: Store, name: string)
    requires InstalledGuard(s, name)
    ensures ProjectGuards(s, name)
  {
    hide OfMarketplace, OnInProject;
    var id :| OfMarketplace(id, name) && Entries(s, id) != [] && OnInProject(s, id);
    assert id in MergedInstalled(s);
  }

  lemma FlatGuard(s: Store, name: string)
    requires Flat(s)
    ensures ProjectGuards(s, name) <==> InstalledGuard(s, name)
  {
    hide OfMarketplace, OnInProject, InstalledGuard;
    if InstalledGuard(s, name) { InstalledGuards(s, name); }
    if ProjectGuards(s, name) {
      var id :| id in MergedInstalled(s) && OfMarketplace(id, name) && OnInProject(s, id);
      GuardedBy(s, name, id);
    }
  }

  lemma GuardedBy(s: Store, name: string, id: string)
    requires Flat(s) && id in IdsOf(s, name) && OnInProject(s, id)
    ensures InstalledGuard(s, name)
  {
    hide OfMarketplace, OnInProject;
    assert OfMarketplace(id, name) && Entries(s, id) != [] && OnInProject(s, id);
  }

  lemma SameInstalledGuard(a: Store, b: Store, name: string)
    requires SameEntries(a, b) && a.project == b.project
    ensures InstalledGuard(a, name) <==> InstalledGuard(b, name)
  {
    hide OfMarketplace, Entries;
    forall id ensures Entries(a, id) == Entries(b, id) && OnInProject(a, id) == OnInProject(b, id) {}
  }

  lemma SameFilesProject(a: Store, b: Store)
    requires SameFiles(a, b)
    ensures a.project == b.project
  {
  }

  lemma RemovalAgainstFlat(s: Store, flat: Store, name: string, order: seq<string>)
    requires SameView(s, flat) && Flat(flat) && Covers(order, s, name) && Covers(order, flat, name)
    ensures Enumerates(Listed(order, s, name), s, name) && Enumerates(Listed(order, flat, name), flat, name)
    ensures var x, y := RemoveMarketplace(s, name, Listed(order, s, name)), RemoveMarketplace(flat, name, Listed(order, flat, name));
      (x.result.Ok? == y.result.Ok? && SameView(x.store, y.store)) <==> NeutralRemoval(s, name)
  {
    hide MergedKnown, SameEntries, SameUserOn, SameFiles, Flat, ProjectGuards, InstalledGuard, RemoveMarketplace, Listed, Covers, Enumerates;
    RemovalView(s, flat, name, order);
    FlatGuard(flat, name);
    SameFilesProject(s, flat);
    SameInstalledGuard(s, flat, name);
    if InstalledGuard(s, name) { InstalledGuards(s, name); }
  }

  // ---------------------------------------------------------------- where the layering shows

  /** A commit meets a claude-only entry under its name, or one of its own source behind a tombstone. */
  predicate BesideClaude(s: Store, name: string, source: Source) {
    && LiveDsh(s, name).None? && name in VisibleClaudeKnown(s)
    && (name in MergedKnown(s) || VisibleClaudeKnown(s)[name].source == source)
  }

  /** It shadows the claude entry or reuses it, where the flat twin has a conflict or writes an entry of its own. */
  lemma AddBesideClaude(s: Store, scope: Scope, now: int, name: string, source: Source, location: string)
    requires BesideClaude(s, name, source)
    ensures s.dual && name in s.claudeKnown
    ensures var r := CommitAdd(s, scope, now, name, source, location);
      && r.result == Ok(s.claudeKnown[name].source != source)
      && MergedKnown(r.store)[name] == if s.claudeKnown[name].source == source
                                       then s.claudeKnown[name].(lastUpdated := now)
                                       else KnownEntry(source, location, now, None)
    ensures var f := CommitAdd(Flatten(s), scope, now, name, source, location);
      if name in MergedKnown(s) && s.claudeKnown[name].source != source then f.result.Err?
      else MergedKnown(f.store)[name] == KnownEntry(source, location, now, None)
  {
    hide MergedInstalled, MergedUserFlags;
    CommitActsOnOneName(s, scope, now, name, source, location);
    CommitActsOnOneName(Flatten(s), scope, now, name, source, location);
    FlattenKnown(s);
    FlattenHasTheView(s);
    LiveOrTombstoned(s, name);
    LiveOrTombstoned(Flatten(s), name);
  }

  const NO_SETTINGS := Settings(None, None)

  /** A claude home that knows one marketplace, under an untouched dsh home. */
  const CLAUDE_ONLY := Store(true, map["m" := KnownEntry(Github("old/m"), "/claude/m", 0, None)], map[], map[], map[], {}, map[],
                             NO_SETTINGS, NO_SETTINGS, NO_SETTINGS, {})

  lemma ClaudeOnlyView()
    ensures MergedKnown(CLAUDE_ONLY) == map["m" := KnownEntry(Github("old/m"), "/claude/m", 0, None)]
    ensures MergedKnown(Flatten(CLAUDE_ONLY)) == MergedKnown(CLAUDE_ONLY)
  {
    FlattenKnown(CLAUDE_ONLY);
  }

  /** Adding another source whose manifest has that name succeeds, but conflicts on the flat twin. */
  lemma AddCanShow()
    ensures var source := Github("new/m");
      && AddMarketplace(CLAUDE_ONLY, User, 1, source, "m", Some("m"), "/dsh/m").result == Ok(true)
      && AddMarketplace(Flatten(CLAUDE_ONLY), User, 1, source, "m", Some("m"), "/dsh/m").result == Err(MarketplaceConflict)
  {
    hide MergedKnown, Flatten, DeclareExtra;
    ClaudeOnlyView();
    LiveOrTombstoned(Flatten(CLAUDE_ONLY), "m");
    FlattenHasTheView(CLAUDE_ONLY);
    FlattenIsFlat(CLAUDE_ONLY);
  }

  /** Updating it moves it to a clone of its own, which the flat twin has no reason for. */
  lemma BatchCanShow()
    ensures "m" in MergedKnown(CLAUDE_ONLY) && "m" in MergedKnown(Flatten(CLAUDE_ONLY))
    ensures var fetched := map["m" := "/dsh/m"];
      !SameView(UpdateMarketplaces(CLAUDE_ONLY, ["m"], 1, fetched).store,
                UpdateMarketplaces(Flatten(CLAUDE_ONLY), ["m"], 1, fetched).store)
  {
    hide MergedKnown, Flatten, SameView, UpdateMarketplaces;
    ClaudeOnlyView();
    FlattenHasTheView(CLAUDE_ONLY);
    FlattenIsFlat(CLAUDE_ONLY);
    var fetched := map["m" := "/dsh/m"];
    BatchAgainstFlat(CLAUDE_ONLY, Flatten(CLAUDE_ONLY), ["m"], 1, fetched);
    assert ["m"][..0] == [];
    assert Reached(["m"], fetched) == ["m"];
    assert "m" in Reached(["m"], fetched);
  }

  /** A shadowed plugin that the project still enables keeps its marketplace from being removed, but not on the flat twin. */
  lemma RemovalCanShow(known: KnownEntry)
    ensures var s := Store(true, map[], map[], map[], map["m" := known], {}, map["p@m" := []], NO_SETTINGS,
                           Settings(Some(map["p@m" := On]), None), NO_SETTINGS, {});
      && Covers(["p@m"], s, "m") && Covers(["p@m"], Flatten(s), "m")
      && Enumerates(Listed(["p@m"], s, "m"), s, "m") && Enumerates(Listed(["p@m"], Flatten(s), "m"), Flatten(s), "m")
      && RemoveMarketplace(s, "m", Listed(["p@m"], s, "m")).result.Err?
      && RemoveMarketplace(Flatten(s), "m", Listed(["p@m"], Flatten(s), "m")).result.Ok?
  {
    hide RemoveMarketplace, Listed, ParsePluginId, Cascade;
    var s := Store(true, map[], map[], map[], map["m" := known], {}, map["p@m" := []], NO_SETTINGS,
                   Settings(Some(map["p@m" := On]), None), NO_SETTINGS, {});
    FlattenIsFlat(s);
    FlattenHasTheView(s);
    ParseInvertsPrint("p", "m");
    assert "p" + "@" + "m" == "p@m";
    assert IdsOf(s, "m") == {"p@m"};
    assert IdsOf(Flatten(s), "m") == {};
    ListedEnumerates(["p@m"], s, "m");
    ListedEnumerates(["p@m"], Flatten(s), "m");
    RemovalIsAllOrNothing(s, "m", Listed(["p@m"], s, "m"));
    RemovalIsAllOrNothing(Flatten(s), "m", Listed(["p@m"], Flatten(s), "m"));
    assert "p@m" in IdsOf(s, "m") && OnInProject(s, "p@m");
  }
}
