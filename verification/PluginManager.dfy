/** The plugin manager over its files: each method reads and rewrites them step by step and commits as the model says. */
module PluginManagerObject {
  import opened Basics
  import opened PluginState
  import opened PluginOps
  import opened PluginViews
  import opened PluginMarketplaces
  import opened PluginRemoval

  class PluginManager {
    const dual: bool
    const claudeKnown: map<string, KnownEntry>
    const claudeInstalled: map<string, seq<InstallEntry>>
    const claudeFlags: Flags
    var dshKnown: map<string, KnownEntry>
    var tombstones: set<string>
    var dshInstalled: map<string, seq<InstallEntry>>
    var user: Settings
    var project: Settings
    var local: Settings
    var orphaned: set<Dir>

    constructor (s: Store)
      ensures View() == s
    {
      dual, claudeKnown, claudeInstalled, claudeFlags := s.dual, s.claudeKnown, s.claudeInstalled, s.claudeFlags;
      dshKnown, tombstones, dshInstalled := s.dshKnown, s.tombstones, s.dshInstalled;
      user, project, local, orphaned := s.user, s.project, s.local, s.orphaned;
    }

    function View(): Store
      reads this
    {
      Store(dual, claudeKnown, claudeInstalled, claudeFlags, dshKnown, tombstones, dshInstalled, user, project, local,
            orphaned)
    }

    // -------------------------------------------------------------- readers

    /** `loadMergedKnownMarketplaces`: the claude entries, then the dsh ones over them, a null deleting its name. */
    method LoadMergedKnown() returns (entries: map<string, KnownEntry>)
      ensures entries == MergedKnown(View())
    {
      var claude := if dual then claudeKnown else map[];
      entries := claude;
      var rest := dshKnown.Keys + tombstones;
      while rest != {}
        invariant rest <= dshKnown.Keys + tombstones
        invariant forall n :: n in rest ==> (n in entries <==> n in claude)
        invariant forall n :: n in rest && n in claude ==> entries[n] == claude[n]
        invariant forall n :: n !in rest ==> (n in entries <==> n in MergedKnown(View()))
        invariant forall n :: n !in rest && n in entries ==> entries[n] == MergedKnown(View())[n]
        decreases rest
      {
        var name :| name in rest;
        if name in dshKnown { entries := entries[name := dshKnown[name]]; } else { entries := entries - {name}; }
        rest := rest - {name};
      }
    }

    /** `loadMergedInstalledPlugins`: a dsh list, empty or not, replaces the claude list of its id. */
    method LoadMergedInstalled() returns (plugins: map<string, seq<InstallEntry>>)
      ensures plugins == MergedInstalled(View())
    {
      var claude := if dual then claudeInstalled else map[];
      plugins := claude;
      var rest := dshInstalled.Keys;
      while rest != {}
        invariant rest <= dshInstalled.Keys
        invariant forall id :: id in plugins <==> id in claude || (id in dshInstalled && id !in rest)
        invariant forall id :: id in plugins ==>
          plugins[id] == if id in dshInstalled && id !in rest then dshInstalled[id] else claude[id]
        decreases rest
      {
        var id :| id in rest;
        plugins := plugins[id := dshInstalled[id]];
        rest := rest - {id};
      }
    }

    // -------------------------------------------------------------- settings

    method ReadSettings(scope: Scope) returns (settings: Settings)
      ensures settings == SettingsAt(View(), scope)
    {
      match scope { case User => settings := user; case Project => settings := project; case Local => settings := local; }
    }

    method SaveSettings(scope: Scope, settings: Settings)
      modifies this
      ensures View() == WithSettings(old(View()), scope, settings)
    {
      match scope { case User => user := settings; case Project => project := settings; case Local => local := settings; }
    }

    /** `applyEnabledFlag`. */
    method WriteFlag(scope: Scope, id: string, value: Option<Flag>)
      modifies this
      ensures View() == ApplyEnabledFlag(old(View()), scope, id, value)
    {
      var settings := ReadSettings(scope);
      if value.None? {
        if settings.enabled.None? { return; }
        SaveSettings(scope, settings.(enabled := Some(settings.enabled.value - {id})));
      } else {
        SaveSettings(scope, settings.(enabled := Some(FlagsOf(settings)[id := value.value])));
      }
    }

    // -------------------------------------------------------------- orphan markers

    /** `orphanIfUnreferencedDsh` over an installed map already in hand. */
    method OrphanIfUnreferenced(installed: map<string, seq<InstallEntry>>, dir: Dir)
      requires installed == MergedInstalled(View())
      modifies this
      ensures View() == MarkOrphan(old(View()), dir)
    {
      if !dir.inDshCache { return; }
      var rest := installed.Keys;
      while rest != {}
        invariant View() == old(View()) && rest <= installed.Keys
        invariant forall id, k :: id in installed && id !in rest && 0 <= k < |installed[id]| ==> installed[id][k].installPath != dir
        decreases rest
      {
        var id :| id in rest;
        for k := 0 to |installed[id]|
          invariant View() == old(View())
          invariant forall m :: 0 <= m < k ==> installed[id][m].installPath != dir
        {
          if installed[id][k].installPath == dir {
            assert Referenced(installed, dir);
            return;
          }
        }
        rest := rest - {id};
      }
      assert !Referenced(installed, dir);
      orphaned := orphaned + {dir};
    }

    // -------------------------------------------------------------- per-plugin operations

    /** The first entry of a scope, as `entries.find` gives it. */
    method FindEntry(entries: seq<InstallEntry>, scope: Scope) returns (found: Option<nat>)
      ensures found == FindScope(entries, scope)
    {
      for i := 0 to |entries|
        invariant forall m :: 0 <= m < i ==> entries[m].scope != scope
      {
        if entries[i].scope == scope { return Some(i); }
      }
      return None;
    }

    /** `uninstallPlugin`. */
    method Uninstall(arg: string, scope: Scope, skipProjectGuard: bool) returns (result: Result<string>)
      modifies this
      ensures Reply(View(), result) == PluginOps.Uninstall(old(View()), arg, scope, skipProjectGuard)
    {
      hide ResolveInstalled, MarkOrphan, ApplyEnabledFlag, RemoveAt, MergedInstalled, FindScope;
      var merged := LoadMergedInstalled();
      var resolved := ResolveInstalled(arg, merged.Keys);
      if resolved.Err? { return Err(resolved.error); }
      var id := resolved.value;
      var entries: seq<InstallEntry> := if id in merged then merged[id] else [];
      var found := FindEntry(entries, scope);
      if found.None? { return Err(NoInstallationAtScope); }
      if !skipProjectGuard && id in FlagsOf(project) && FlagsOf(project)[id] == On { return Err(ProjectScopeEnabled); }
      var entry, remaining := entries[found.value], RemoveAt(entries, found.value);
      RemoveEntryFromFiles(id, entry, remaining);
      return Ok(id);
    }

    /** The writes of an uninstall: the flag, the id's remaining list, the orphan marker. */
    method RemoveEntryFromFiles(id: string, entry: InstallEntry, remaining: seq<InstallEntry>)
      modifies this
      ensures View()
           == MarkOrphan(StoreRemaining(DropFlag(old(View()), entry.scope, id), id, remaining), entry.installPath)
    {
      hide MarkOrphan, ApplyEnabledFlag, MergedInstalled;
      FlagWriteFrame(View(), entry.scope, id, Some(Off));
      FlagWriteFrame(View(), entry.scope, id, None);
      if entry.scope == User && dual && id in claudeFlags && claudeFlags[id] == On {
        WriteFlag(entry.scope, id, Some(Off));
      } else {
        WriteFlag(entry.scope, id, None);
      }
      if !dual && remaining == [] { dshInstalled := dshInstalled - {id}; } else { dshInstalled := dshInstalled[id := remaining]; }
      var merged := LoadMergedInstalled();
      OrphanIfUnreferenced(merged, entry.installPath);
    }

    /** `installPlugin`: flag first, then the id's whole merged list with the new entry. */
    method Install(arg: string, scope: Scope, declared: seq<Declared>, copied: Copied) returns (result: Result<string>)
      modifies this
      ensures Reply(View(), result) == PluginOps.Install(old(View()), arg, scope, declared, copied)
    {
      hide ResolveDeclared, ApplyEnabledFlag, MergedInstalled, FindScope;
      var resolved := ResolveDeclared(arg, declared);
      if resolved.Err? { return Err(resolved.error); }
      var id := resolved.value;
      var merged := LoadMergedInstalled();
      var entries: seq<InstallEntry> := if id in merged then merged[id] else [];
      var found := FindEntry(entries, scope);
      if found.Some? { return Err(AlreadyInstalled); }
      if !copied.ok { return Err(CopyFailed); }
      WriteFlag(scope, id, Some(On));
      dshInstalled := dshInstalled[id := entries + [NewEntry(scope, copied)]];
      return Ok(id);
    }

    /** `updatePlugin`. */
    method Update(arg: string, scope: Scope, manifestOk: bool, copied: Copied) returns (result: Result<string>)
      modifies this
      ensures Reply(View(), result) == PluginOps.Update(old(View()), arg, scope, manifestOk, copied)
    {
      hide ResolveInstalled, MarkOrphan, MergedInstalled, FindScope, MergedKnown, ParsePluginId;
      var merged := LoadMergedInstalled();
      var ids := set id | id in merged && merged[id] != [];
      assert ids == ResolutionIds(View());
      var resolved := ResolveInstalled(arg, ids);
      if resolved.Err? { return Err(resolved.error); }
      var id := resolved.value;
      var entries: seq<InstallEntry> := if id in merged then merged[id] else [];
      var found := FindEntry(entries, scope);
      if found.None? { return Err(NoInstallationAtScope); }
      var entry := entries[found.value];
      var known := LoadMergedKnown();
      var marketplace := ParsePluginId(id).marketplace;
      if marketplace.None? || marketplace.value !in known { return Err(UnknownMarketplace); }
      if !manifestOk { return Err(ManifestUnreadable); }
      if copied.version == entry.version { return Ok(id); }
      if !copied.ok { return Err(CopyFailed); }
      dshInstalled := dshInstalled[id := entries[found.value := Refreshed(entry, copied)]];
      merged := LoadMergedInstalled();
      OrphanIfUnreferenced(merged, entry.installPath);
      return Ok(id);
    }

    /** `togglePlugin`. */
    method Toggle(arg: string, on: bool, at: Option<Scope>) returns (result: Result<string>)
      modifies this
      ensures Reply(View(), result) == PluginOps.Toggle(old(View()), arg, on, at)
    {
      hide ResolveInstalled, MergedInstalled, ApplyEnabledFlag;
      var merged := LoadMergedInstalled();
      var ids := set id | id in merged && merged[id] != [];
      assert ids == ResolutionIds(View());
      var resolved := ResolveInstalled(arg, ids);
      if resolved.Err? { return Err(resolved.error); }
      var id := resolved.value;
      var entries: seq<InstallEntry> := if id in merged then merged[id] else [];
      if at.None? && entries == [] { return Err(PluginNotInstalled); }
      if at.None? && |entries| > 1 { return Err(AmbiguousScopes); }
      var target := if at.Some? then at.value else entries[0].scope;
      WriteFlag(target, id, Some(if on then On else Off));
      return Ok(id);
    }

    // -------------------------------------------------------------- marketplaces

    /** `commitAdd`: conflict check, claude reuse, the known entry, then the scope's settings declaration. */
    method CommitAdd(scope: Scope, now: int, name: string, source: Source, location: string)
      returns (result: Result<bool>, cloned: bool)
      modifies this
      ensures AddReply(View(), result, cloned) == PluginOps.CommitAdd(old(View()), scope, now, name, source, location)
    {
      hide SettingsAt, ExtraOf, DeclareExtra, WithSettings;
      var claude := if dual then claudeKnown else map[];
      if name in dshKnown && dshKnown[name].source != source { return Err(MarketplaceConflict), true; }
      var claudePresent := name !in dshKnown && name in claude;
      var sameAsClaude := claudePresent && claude[name].source == source;
      var entry := KnownEntry(source, location, now, None);
      if sameAsClaude { entry := claude[name].(lastUpdated := now); }
      dshKnown, tombstones := dshKnown[name := entry], tombstones - {name};
      Declare(scope, name, source);
      return Ok(claudePresent && !sameAsClaude), !sameAsClaude;
    }

    /** The settings declaration of an added marketplace. */
    method Declare(scope: Scope, name: string, source: Source)
      modifies this
      ensures View() == DeclareExtra(old(View()), scope, name, source)
    {
      var settings := ReadSettings(scope);
      SaveSettings(scope, settings.(extra := Some(ExtraOf(settings)[name := source])));
    }

    /**
     * `addMarketplace`: the search for the source, the reference fast path for a remote one, and the commit of what was
     * read from the directory or the clone, if that worked.
     */
    method AddMarketplace(scope: Scope, now: int, source: Source, candidate: string, manifestName: Option<string>, location: string)
      returns (result: Result<bool>, cloned: bool)
      modifies this
      ensures AddReply(View(), result, cloned)
           == PluginOps.AddMarketplace(old(View()), scope, now, source, candidate, manifestName, location)
    {
      hide MergedKnown, PluginOps.CommitAdd;
      var known := LoadMergedKnown();
      var rest := known.Keys;
      while rest != {}
        invariant View() == old(View()) && rest <= known.Keys
        invariant forall n :: n in known && n !in rest ==> known[n].source != source
        decreases rest
      {
        var name :| name in rest;
        if known[name].source == source { return Ok(false), false; }
        rest := rest - {name};
      }
      if !source.Directory? && dual && candidate in claudeKnown && claudeKnown[candidate].source == source {
        result, cloned := CommitAdd(scope, now, candidate, source, claudeKnown[candidate].installLocation);
        return;
      }
      if manifestName.None? { return Err(FetchFailed), false; }
      result, cloned := CommitAdd(scope, now, manifestName.value, source, location);
    }

    /** `updateMarketplaces` over one name or, without one, over all of them in the given order. */
    method UpdateMarketplaces(name: Option<string>, order: seq<string>, now: int, fetched: map<string, string>)
      returns (updated: seq<string>, error: Option<Error>)
      requires forall n :: n in order ==> n in MergedKnown(View())
      modifies this
      ensures name.Some? && name.value !in MergedKnown(old(View())) ==>
        View() == old(View()) && updated == [] && error == Some(UnknownMarketplace)
      ensures name.None? || name.value in MergedKnown(old(View())) ==>
        var targets := if name.Some? then [name.value] else order;
        BatchReply(View(), updated, error.Some?) == PluginOps.UpdateMarketplaces(old(View()), targets, now, fetched)
    {
      hide MergedKnown, PluginOps.UpdateMarketplaces;
      var known := LoadMergedKnown();
      updated := [];
      if name.Some? && name.value !in known { return updated, Some(UnknownMarketplace); }
      var targets := if name.Some? then [name.value] else order;
      var owned := dshKnown.Keys;
      ghost var before := View();
      EmptyBatch(before, now, fetched);
      for i := 0 to |targets|
        invariant BatchReply(View(), updated, false) == PluginOps.UpdateMarketplaces(before, targets[..i], now, fetched)
      {
        var target := targets[i];
        BatchStep(before, targets, i, now, fetched);
        if target !in fetched {
          FailureStops(before, targets, i, now, fetched);
          return updated, Some(FetchFailed);
        }
        var entry := known[target];
        var newEntry := entry.(lastUpdated := now);
        if target !in owned && !entry.source.Directory? {
          newEntry := entry.(installLocation := fetched[target], lastUpdated := now);
        }
        dshKnown, tombstones := dshKnown[target := newEntry], tombstones - {target};
        updated := updated + [target];
      }
      assert targets[..|targets|] == targets;
      return updated, None;
    }

    /** `removeMarketplace`: pre-flight over every id, then each id's scopes one by one, then the declarations. */
    method RemoveMarketplace(name: string) returns (result: Result<string>, removed: seq<string>)
      modifies this
      ensures Enumerates(removed, old(View()), name)
      ensures Reply(View(), result) == PluginOps.RemoveMarketplace(old(View()), name, removed)
    {
      hide MergedKnown, MergedInstalled, Cascade, CascadePairs, ForgetMarketplace, ProjectEnables, OfMarketplace;
      var known := LoadMergedKnown();
      var installed := LoadMergedInstalled();
      removed := IdsInSomeOrder(name, installed);
      if name !in known { return Err(UnknownMarketplace), removed; }
      for i := 0 to |removed|
        invariant View() == old(View())
        invariant forall j :: 0 <= j < i ==> !ProjectEnables(old(View()), removed[j])
      {
        if EnabledByProject(removed[i]) { return Err(ProjectScopeEnabled), removed; }
      }
      UninstallEach(name, removed, installed);
      RemovalCascades(old(View()), name, removed);
      Forget(name);
      return Ok(name), removed;
    }

    /** The removal's cascade over its ids. */
    method UninstallEach(ghost name: string, ids: seq<string>, installed: map<string, seq<InstallEntry>>)
      requires installed == MergedInstalled(View()) && Enumerates(ids, View(), name)
      modifies this
      ensures View() == Cascade(old(View()), CascadePairs(ids, installed)).store
    {
      hide MergedInstalled, Cascade, CascadePairs, Enumerates, OfMarketplace;
      ghost var before := View();
      NothingYet(before, installed);
      CascadeIdFacts(before, name, ids);
      for i := 0 to |ids|
        invariant Reached(before, View(), CascadePairs(ids[..i], installed))
      {
        NextId(before, name, ids, i);
        UninstallEverywhere(before, CascadePairs(ids[..i], installed), ids[i], installed[ids[i]]);
      }
      assert ids[..|ids|] == ids;
    }

    predicate EnabledByProject(id: string)
      reads this
      ensures EnabledByProject(id) == ProjectEnables(View(), id)
    {
      id in FlagsOf(project) && FlagsOf(project)[id] == On
    }

    /** The marketplace's merged ids, each once. */
    method IdsInSomeOrder(name: string, installed: map<string, seq<InstallEntry>>) returns (ids: seq<string>)
      requires installed == MergedInstalled(View())
      ensures Enumerates(ids, View(), name)
    {
      hide OfMarketplace, MergedInstalled;
      ids := [];
      var rest := installed.Keys;
      while rest != {}
        invariant rest <= installed.Keys
        invariant forall id :: id in ids <==> id in installed && id !in rest && OfMarketplace(id, name)
        invariant forall i, j :: 0 <= i < j < |ids| ==> ids[i] != ids[j]
        decreases rest
      {
        var id :| id in rest;
        if OfMarketplace(id, name) { ids := ids + [id]; }
        rest := rest - {id};
      }
    }

    /** The state is the one that some uninstalls, all successful, lead to. */
    ghost predicate Reached(before: Store, now: Store, pairs: seq<(string, Scope)>) {
      Cascade(before, pairs).result.Ok? && now == Cascade(before, pairs).store
    }

    /** Uninstall one id at each of the scopes its list mentions, in order of first appearance. */
    method UninstallEverywhere(ghost before: Store, ghost done: seq<(string, Scope)>, id: string, entries: seq<InstallEntry>)
      requires Reached(before, View(), done)
      requires ParsePluginId(id).marketplace.Some? && Entries(View(), id) == entries
      modifies this
      ensures Reached(before, View(), done + PairsOf(id, FirstScopes(entries)))
    {
      hide Cascade, MergedInstalled, PluginOps.Uninstall, ParsePluginId, Entries;
      var scopes: seq<Scope> := [];
      for i := 0 to |entries|
        invariant scopes == FirstScopes(entries[..i])
      {
        assert entries[..i + 1][..i] == entries[..i];
        if entries[i].scope !in scopes { scopes := scopes + [entries[i].scope]; }
      }
      assert entries[..|entries|] == entries;
      FirstScopesFacts(entries);
      assert done + PairsOf(id, []) == done;
      ghost var all := scopes;
      for i := 0 to |scopes|
        invariant Reached(before, View(), done + PairsOf(id, scopes[..i]))
      {
        CascadeGoesOn(before, done, id, scopes, i);
        var _ := Uninstall(id, scopes[i], true);
      }
      assert scopes[..|scopes|] == scopes;
    }

    /** The declarations of the name in every settings file, and its known entry: a tombstone under two homes. */
    method Forget(name: string)
      modifies this
      ensures View() == ForgetMarketplace(old(View()), name)
    {
      user, project, local := StripExtra(user, name), StripExtra(project, name), StripExtra(local, name);
      dshKnown := dshKnown - {name};
      if dual { tombstones := tombstones + {name}; } else { tombstones := tombstones - {name}; }
    }
  }

  /** One more uninstall of the cascade succeeds, and leads where the cascade says. */
  lemma CascadeGoesOn(before: Store, done: seq<(string, Scope)>, id: string, scopes: seq<Scope>, i: nat)
    requires Cascade(before, done).result.Ok? && i < |scopes| && Distinct(scopes)
    requires ParsePluginId(id).marketplace.Some?
    requires forall t :: t in scopes ==> HasScope(Entries(Cascade(before, done).store, id), t)
    ensures var now := Cascade(before, done + PairsOf(id, scopes[..i])).store;
      && Cascade(before, done + PairsOf(id, scopes[..i + 1]))
         == PluginOps.Uninstall(now, id, scopes[i], true)
      && Cascade(before, done + PairsOf(id, scopes[..i + 1])).result.Ok?
  {
    hide Cascade, MergedInstalled, PluginOps.Uninstall, ParsePluginId, Entries, HasScope;
    OneIdCascade(before, done, id, scopes[..i]);
    OneIdCascade(before, done, id, scopes[..i + 1]);
    PairsGrow(id, scopes[..i + 1]);
    assert scopes[..i + 1][..i] == scopes[..i];
    assert done + PairsOf(id, scopes[..i + 1]) == (done + PairsOf(id, scopes[..i])) + [(id, scopes[i])];
    CascadeAppend(before, done + PairsOf(id, scopes[..i]), (id, scopes[i]));
  }

  lemma NothingYet(s: Store, installed: map<string, seq<InstallEntry>>)
    ensures CascadePairs([], installed) == [] && Cascade(s, []) == Reply(s, Ok(""))
  {
  }

  lemma CascadeIdFacts(s: Store, name: string, ids: seq<string>)
    requires Enumerates(ids, s, name)
    ensures Distinct(ids)
    ensures forall id :: id in ids ==> id in MergedInstalled(s) && OfMarketplace(id, name)
  {
    hide MergedInstalled, OfMarketplace;
  }

  /** When the cascade gets to an id, that id's list is still the one it had at the beginning. */
  lemma NextId(s: Store, name: string, ids: seq<string>, i: nat)
    requires Enumerates(ids, s, name) && i < |ids|
    requires forall id :: id in ids ==> id in MergedInstalled(s)
    ensures ParsePluginId(ids[i]).marketplace.Some?
    ensures var now := Cascade(s, CascadePairs(ids[..i], MergedInstalled(s))).store;
      Entries(now, ids[i]) == MergedInstalled(s)[ids[i]]
    ensures CascadePairs(ids[..i + 1], MergedInstalled(s))
         == CascadePairs(ids[..i], MergedInstalled(s)) + PairsOf(ids[i], FirstScopes(MergedInstalled(s)[ids[i]]))
  {
    hide MergedInstalled, Cascade, ParsePluginId, Entries, CascadePairs;
    CascadeIdFacts(s, name, ids);
    assert forall id :: id in ids[..i] ==> id in ids && OfMarketplace(id, name);
    CascadeEmpties(s, ids[..i]);
    EntriesAreListed(s, ids[i]);
    CascadePairsStep(ids[..i + 1], MergedInstalled(s));
    assert ids[..i + 1][..i] == ids[..i];
  }

  lemma CascadePairsStep(ids: seq<string>, installed: map<string, seq<InstallEntry>>)
    requires ids != [] && forall id :: id in ids ==> id in installed
    ensures CascadePairs(ids, installed)
         == CascadePairs(ids[..|ids| - 1], installed) + PairsOf(ids[|ids| - 1], FirstScopes(installed[ids[|ids| - 1]]))
  {
  }

  lemma EmptyBatch(s: Store, now: int, fetched: map<string, string>)
    ensures PluginOps.UpdateMarketplaces(s, [], now, fetched) == BatchReply(s, [], false)
  {
  }

  lemma BatchStep(s: Store, targets: seq<string>, i: nat, now: int, fetched: map<string, string>)
    requires forall t :: t in targets ==> t in MergedKnown(s)
    requires i < |targets| && !PluginOps.UpdateMarketplaces(s, targets[..i], now, fetched).failed
    ensures var r, entry := PluginOps.UpdateMarketplaces(s, targets[..i], now, fetched), UpdatedEntry(s, targets[i], now, fetched);
      entry.Some? == (targets[i] in fetched)
    ensures var r, entry := PluginOps.UpdateMarketplaces(s, targets[..i], now, fetched), UpdatedEntry(s, targets[i], now, fetched);
      entry.Some? ==>
        PluginOps.UpdateMarketplaces(s, targets[..i + 1], now, fetched)
        == BatchReply(WriteKnown(r.store, targets[i], entry.value), r.updated + [targets[i]], false)
  {
    hide MergedKnown;
    assert targets[..i + 1][..i] == targets[..i];
  }

  /** A batch stops at the first target that cannot be refreshed. */
  lemma {:induction false} FailureStops(s: Store, targets: seq<string>, i: nat, now: int, fetched: map<string, string>)
    requires forall t :: t in targets ==> t in MergedKnown(s)
    requires i < |targets| && targets[i] !in fetched && !PluginOps.UpdateMarketplaces(s, targets[..i], now, fetched).failed
    ensures PluginOps.UpdateMarketplaces(s, targets, now, fetched)
         == PluginOps.UpdateMarketplaces(s, targets[..i], now, fetched).(failed := true)
    decreases |targets|
  {
    hide MergedKnown, UpdatedEntry;
    var last := |targets| - 1;
    UpdatedEntryKeeps(s, targets[i], now, fetched);
    if i == last {
    } else {
      assert targets[..last][..i] == targets[..i];
      FailureStops(s, targets[..last], i, now, fetched);
    }
  }
}
