/** What the manager's operations write into the settings files and the orphan markers, file by file. */
module PluginSettings {
  import opened Basics
  import opened PluginState
  import opened PluginOps
  import opened PluginViews
  import opened PluginRemoval
  import opened PluginRefinement

  /** Of the three settings files only one scope's differs, and of that only the flags. */
  predicate OnlyFlagsAt(s: Store, t: Store, scope: Scope, flags: Flags) {
    && FlagsOf(SettingsAt(t, scope)) == flags
    && (forall other :: other != scope ==> SettingsAt(t, other) == SettingsAt(s, other))
    && (forall any :: SettingsAt(t, any).extra == SettingsAt(s, any).extra)
  }

  /** Of the three settings files only one scope's differs, and of that only the declared marketplaces. */
  predicate OnlyExtraAt(s: Store, t: Store, scope: Scope, extra: map<string, Source>) {
    && ExtraOf(SettingsAt(t, scope)) == extra
    && (forall other :: other != scope ==> SettingsAt(t, other) == SettingsAt(s, other))
    && (forall any :: SettingsAt(t, any).enabled == SettingsAt(s, any).enabled)
  }

  predicate SameSettings(s: Store, t: Store) { t.user == s.user && t.project == s.project && t.local == s.local }

  lemma FlagWrittenAt(s: Store, scope: Scope, id: string, value: Option<Flag>)
    ensures OnlyFlagsAt(s, ApplyEnabledFlag(s, scope, id, value), scope,
                        if value.Some? then FlagsOf(SettingsAt(s, scope))[id := value.value] else FlagsOf(SettingsAt(s, scope)) - {id})
  {
    hide ApplyEnabledFlag;
    var settings := SettingsAt(s, scope);
    if value.Some? {
      FlagsWrittenAt(s, scope, FlagsOf(settings)[id := value.value]);
    } else if settings.enabled.Some? {
      FlagsWrittenAt(s, scope, settings.enabled.value - {id});
    }
    FlagWriteIs(s, scope, id, value);
  }

  /** A flag write stores a whole new block of flags, or nothing where there is no block to drop from. */
  lemma FlagWriteIs(s: Store, scope: Scope, id: string, value: Option<Flag>)
    ensures ApplyEnabledFlag(s, scope, id, value) ==
      if value.Some? then WithFlags(s, scope, FlagsOf(SettingsAt(s, scope))[id := value.value])
      else if SettingsAt(s, scope).enabled.None? then s
      else WithFlags(s, scope, SettingsAt(s, scope).enabled.value - {id})
  {
    hide WithSettings;
  }

  function WithFlags(s: Store, scope: Scope, flags: Flags): Store {
    WithSettings(s, scope, SettingsAt(s, scope).(enabled := Some(flags)))
  }

  lemma FlagsWrittenAt(s: Store, scope: Scope, flags: Flags)
    ensures OnlyFlagsAt(s, WithFlags(s, scope, flags), scope, flags)
  {
    if scope == User {} else if scope == Project {} else {}
  }

  lemma FlagsSeenThrough(s: Store, m: Store, t: Store, scope: Scope, flags: Flags)
    requires OnlyFlagsAt(s, m, scope, flags) && SameSettings(m, t)
    ensures OnlyFlagsAt(s, t, scope, flags)
  {
    forall any ensures SettingsAt(t, any) == SettingsAt(m, any) { if any == User {} else if any == Project {} else {} }
  }

  /** Install sets the plugin's flag at its scope, and writes nothing else into any settings file. */
  lemma InstallEnables(s: Store, arg: string, scope: Scope, declared: seq<Declared>, copied: Copied)
    ensures var r := Install(s, arg, scope, declared, copied);
      r.result.Ok? ==> OnlyFlagsAt(s, r.store, scope, FlagsOf(SettingsAt(s, scope))[r.result.value := On])
    ensures Install(s, arg, scope, declared, copied).store.orphaned == s.orphaned
  {
    hide Entries, ResolveDeclared, ApplyEnabledFlag, OnlyFlagsAt, FindScope;
    var r := Install(s, arg, scope, declared, copied);
    if r.result.Ok? {
      var flagged := ApplyEnabledFlag(s, scope, r.result.value, Some(On));
      FlagWrittenAt(s, scope, r.result.value, Some(On));
      FlagWriteFrame(s, scope, r.result.value, Some(On));
      FlagsSeenThrough(s, flagged, r.store, scope, FlagsOf(SettingsAt(s, scope))[r.result.value := On]);
    }
  }

  /** The flags of a scope after an uninstall there: an explicit `false` over a claude `true`, otherwise no value. */
  function DroppedFlags(s: Store, scope: Scope, id: string): Flags {
    if scope == User && s.dual && id in s.claudeFlags && s.claudeFlags[id] == On
    then FlagsOf(SettingsAt(s, scope))[id := Off]
    else FlagsOf(SettingsAt(s, scope)) - {id}
  }

  /**
   * Uninstall drops the plugin's flag at its scope only, and marks the entry's directory exactly if it is in the dsh
   * cache and no entry that remains refers to it.
   */
  lemma UninstallDropsFlag(s: Store, arg: string, scope: Scope, skipGuard: bool)
    ensures var r := Uninstall(s, arg, scope, skipGuard);
      r.result.Ok? ==> OnlyFlagsAt(s, r.store, scope, DroppedFlags(s, scope, r.result.value))
    ensures var r := Uninstall(s, arg, scope, skipGuard);
      r.result.Ok? ==>
        var id := r.result.value;
        FindScope(Entries(s, id), scope).Some? && OrphansOnly(s, r.store, Entries(s, id)[FindScope(Entries(s, id), scope).value].installPath)
  {
    hide Entries, ResolveInstalled, ApplyEnabledFlag, OnlyFlagsAt, MergedInstalled, StoreRemaining, MarkOrphan, RemoveAt, OrphansOnly;
    var r := Uninstall(s, arg, scope, skipGuard);
    if r.result.Ok? {
      var id := r.result.value;
      var k := FindScope(Entries(s, id), scope).value;
      var unflagged := DropFlag(s, scope, id);
      FlagWrittenAt(s, scope, id, Some(Off));
      FlagWrittenAt(s, scope, id, None);
      FlagWriteFrame(s, scope, id, Some(Off));
      FlagWriteFrame(s, scope, id, None);
      RemovedUserFlag(s, id, k);
      FlagsSeenThrough(s, unflagged, r.store, scope, DroppedFlags(s, scope, id));
      var remaining := StoreRemaining(unflagged, id, RemoveAt(Entries(s, id), k));
      RemainingKeepsSettings(unflagged, id, RemoveAt(Entries(s, id), k));
      OrphanMarked(remaining, Entries(s, id)[k].installPath);
      SameOrphans(s, remaining, r.store, Entries(s, id)[k].installPath);
    }
  }

  /** A directory is marked exactly if it is in the dsh cache and the new merged view does not refer to it. */
  ghost predicate OrphansOnly(s: Store, t: Store, dir: Dir) {
    t.orphaned == if dir.inDshCache && !ReferencedBy(t, dir) then s.orphaned + {dir} else s.orphaned
  }

  lemma OrphanMarked(s: Store, dir: Dir)
    ensures OrphansOnly(s, MarkOrphan(s, dir), dir)
  {
    hide MergedInstalled, Referenced;
    var t := MarkOrphan(s, dir);
    MarkOrphanFrame(s, dir);
    EntriesFollowInstalled(s, t);
    ReferencedByEntries(t, dir);
  }

  lemma SameOrphans(s: Store, m: Store, t: Store, dir: Dir)
    requires m.orphaned == s.orphaned && OrphansOnly(m, t, dir)
    ensures OrphansOnly(s, t, dir)
  {
    hide ReferencedBy;
  }

  /** Update touches no settings file, and marks the directory it replaces under the same condition. */
  lemma UpdateMarksOldDirectory(s: Store, arg: string, scope: Scope, manifestOk: bool, copied: Copied)
    ensures SameSettings(s, Update(s, arg, scope, manifestOk, copied).store)
    ensures var r := Update(s, arg, scope, manifestOk, copied);
      r.store != s ==>
        && r.result.Ok? && FindScope(Entries(s, r.result.value), scope).Some?
        && OrphansOnly(s, r.store, Entries(s, r.result.value)[FindScope(Entries(s, r.result.value), scope).value].installPath)
  {
    hide Entries, ResolveInstalled, ResolutionIds, MergedKnown, ParsePluginId, MarkOrphan, OrphansOnly;
    var r := Update(s, arg, scope, manifestOk, copied);
    if r.store != s {
      var id := r.result.value;
      var k := FindScope(Entries(s, id), scope).value;
      var written := WriteList(s, id, Entries(s, id)[k := Refreshed(Entries(s, id)[k], copied)]);
      MarkOrphanFrame(written, Entries(s, id)[k].installPath);
      OrphanMarked(written, Entries(s, id)[k].installPath);
      SameOrphans(s, written, r.store, Entries(s, id)[k].installPath);
    }
  }

  /** Toggle writes the flag at the given scope or, without one, at the only scope the plugin is installed at. */
  lemma ToggleWritesFlag(s: Store, arg: string, on: bool, at: Option<Scope>)
    ensures var r := Toggle(s, arg, on, at);
      if r.result.Err? then r.store == s
      else
        && (at.None? ==> |Entries(s, r.result.value)| == 1)
        && var scope := if at.Some? then at.value else Entries(s, r.result.value)[0].scope;
           OnlyFlagsAt(s, r.store, scope, FlagsOf(SettingsAt(s, scope))[r.result.value := if on then On else Off])
  {
    hide Entries, ResolveInstalled, ResolutionIds, ApplyEnabledFlag, OnlyFlagsAt;
    var r := Toggle(s, arg, on, at);
    if r.result.Ok? {
      var scope := if at.Some? then at.value else Entries(s, r.result.value)[0].scope;
      FlagWrittenAt(s, scope, r.result.value, Some(if on then On else Off));
    }
  }

  /** A committed add declares the marketplace with its source in the chosen scope's file, and nothing else there. */
  lemma AddDeclares(s: Store, scope: Scope, now: int, name: string, source: Source, location: string)
    ensures var r := CommitAdd(s, scope, now, name, source, location);
      r.result.Ok? ==> OnlyExtraAt(s, r.store, scope, ExtraOf(SettingsAt(s, scope))[name := source])
  {
    hide LiveDsh, VisibleClaudeKnown;
    if scope == User {} else if scope == Project {} else {}
  }

  predicate SameExtra(s: Store, t: Store) {
    t.user.extra == s.user.extra && t.project.extra == s.project.extra && t.local.extra == s.local.extra
  }

  lemma UninstallKeepsExtra(s: Store, arg: string, scope: Scope, skipGuard: bool)
    ensures SameExtra(s, Uninstall(s, arg, scope, skipGuard).store)
  {
    hide Uninstall, DroppedFlags;
    UninstallDropsFlag(s, arg, scope, skipGuard);
    UninstallRemovesOne(s, arg, scope, skipGuard);
    var r := Uninstall(s, arg, scope, skipGuard);
    if r.result.Ok? {
      assert forall any :: SettingsAt(r.store, any).extra == SettingsAt(s, any).extra;
      assert SettingsAt(r.store, User).extra == s.user.extra;
      assert SettingsAt(r.store, Project).extra == s.project.extra;
      assert SettingsAt(r.store, Local).extra == s.local.extra;
    }
  }

  lemma {:induction false} CascadeKeepsExtra(s: Store, pairs: seq<(string, Scope)>)
    ensures SameExtra(s, Cascade(s, pairs).store)
  {
    hide Uninstall;
    if pairs == [] {
    } else {
      var before, last := pairs[..|pairs| - 1], pairs[|pairs| - 1];
      CascadeKeepsExtra(s, before);
      UninstallKeepsExtra(Cascade(s, before).store, last.0, last.1, true);
    }
  }

  /** A successful removal takes the name, and only the name, out of the declarations of all three settings files. */
  lemma RemovalStripsDeclarations(s: Store, name: string, ids: seq<string>)
    requires Enumerates(ids, s, name) && RemoveMarketplace(s, name, ids).result.Ok?
    ensures var t := RemoveMarketplace(s, name, ids).store;
      && ExtraOf(t.user) == ExtraOf(s.user) - {name}
      && ExtraOf(t.project) == ExtraOf(s.project) - {name}
      && ExtraOf(t.local) == ExtraOf(s.local) - {name}
  {
    hide Cascade, MergedKnown, MergedInstalled, CascadePairs, ProjectEnables, OfMarketplace;
    RemovalIsAllOrNothing(s, name, ids);
    var pairs := CascadePairs(ids, MergedInstalled(s));
    CascadeKeepsExtra(s, pairs);
    ForgetStrips(Cascade(s, pairs).store, name);
  }

  lemma ForgetStrips(s: Store, name: string)
    ensures var t := ForgetMarketplace(s, name);
      && ExtraOf(t.user) == ExtraOf(s.user) - {name}
      && ExtraOf(t.project) == ExtraOf(s.project) - {name}
      && ExtraOf(t.local) == ExtraOf(s.local) - {name}
  {
  }
}
