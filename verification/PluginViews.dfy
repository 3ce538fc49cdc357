/** What every plugin-manager mutation does to the merged views: one key changes, the claude home never does. */
module PluginViews {
  import opened Basics
  import opened PluginState
  import opened PluginOps

  // ---------------------------------------------------------------- frames

  /** Both stores run in the same mode over the same claude home. */
  predicate SameClaude(s: Store, t: Store) {
    && t.dual == s.dual
    && t.claudeKnown == s.claudeKnown
    && t.claudeInstalled == s.claudeInstalled
    && t.claudeFlags == s.claudeFlags
  }

  predicate SameKnown(s: Store, t: Store) { t.dshKnown == s.dshKnown && t.tombstones == s.tombstones }

  /** Every id but one keeps its merged entries, and stays a merged key or not. */
  ghost predicate OnlyEntriesOf(s: Store, t: Store, id: string) {
    && (forall other :: other != id ==> Entries(t, other) == Entries(s, other))
    && (forall other :: other != id ==> (other in MergedInstalled(t) <==> other in MergedInstalled(s)))
  }

  lemma FlagWriteFrame(s: Store, scope: Scope, id: string, value: Option<Flag>)
    ensures SameClaude(s, ApplyEnabledFlag(s, scope, id, value))
    ensures SameKnown(s, ApplyEnabledFlag(s, scope, id, value))
    ensures ApplyEnabledFlag(s, scope, id, value).dshInstalled == s.dshInstalled
    ensures ApplyEnabledFlag(s, scope, id, value).orphaned == s.orphaned
  {
  }

  lemma EntriesFollowInstalled(s: Store, t: Store)
    requires SameClaude(s, t) && t.dshInstalled == s.dshInstalled
    ensures MergedInstalled(t) == MergedInstalled(s)
    ensures forall id :: Entries(t, id) == Entries(s, id)
  {
  }

  lemma KnownFollows(s: Store, t: Store)
    requires SameClaude(s, t) && SameKnown(s, t)
    ensures MergedKnown(t) == MergedKnown(s)
  {
  }

  /** Writing a whole list under an id in the dsh file is what the merged view then shows. */
  lemma WrittenListShows(s: Store, id: string, list: seq<InstallEntry>)
    ensures Entries(s.(dshInstalled := s.dshInstalled[id := list]), id) == list
    ensures OnlyEntriesOf(s, s.(dshInstalled := s.dshInstalled[id := list]), id)
  {
  }

  lemma RemainingShows(s: Store, id: string, list: seq<InstallEntry>)
    ensures Entries(StoreRemaining(s, id, list), id) == list
    ensures OnlyEntriesOf(s, StoreRemaining(s, id, list), id)
    ensures SameClaude(s, StoreRemaining(s, id, list)) && SameKnown(s, StoreRemaining(s, id, list))
  {
    if s.dual || list != [] { WrittenListShows(s, id, list); }
  }

  lemma MarkOrphanFrame(s: Store, dir: Dir)
    ensures SameClaude(s, MarkOrphan(s, dir)) && SameKnown(s, MarkOrphan(s, dir))
    ensures MarkOrphan(s, dir).dshInstalled == s.dshInstalled
    ensures MarkOrphan(s, dir).user == s.user && MarkOrphan(s, dir).project == s.project
    ensures MarkOrphan(s, dir).local == s.local
  {
  }

  // ---------------------------------------------------------------- install, uninstall, update, toggle

  /** Nothing but one id's merged list differs between two stores, as far as the merged views go. */
  ghost predicate OnlyList(s: Store, t: Store, id: string, list: seq<InstallEntry>) {
    && Entries(t, id) == list
    && OnlyEntriesOf(s, t, id)
    && SameClaude(s, t)
    && MergedKnown(t) == MergedKnown(s)
  }

  ghost predicate RemovesOne(s: Store, t: Store, id: string, scope: Scope) {
    var found := FindScope(Entries(s, id), scope);
    found.Some? && OnlyList(s, t, id, RemoveAt(Entries(s, id), found.value))
  }

  /** An entry as a copied directory leaves it at a scope, field by field. */
  predicate Records(entry: InstallEntry, scope: Scope, copied: Copied, projectPath: Option<string>) {
    && entry.scope == scope
    && entry.installPath == copied.installPath
    && entry.version == copied.version
    && entry.installedAt == copied.now
    && entry.lastUpdated == copied.now
    && entry.gitCommitSha == copied.sha
    && entry.projectPath == projectPath
  }

  /** One entry for the copied directory is appended at a scope that the id did not have. */
  ghost predicate AppendsOne(s: Store, t: Store, id: string, scope: Scope, copied: Copied) {
    var before, after := Entries(s, id), Entries(t, id);
    && FindScope(before, scope).None?
    && OnlyList(s, t, id, after)
    && |after| == |before| + 1 && after[..|before|] == before
    && Records(after[|before|], scope, copied, if scope == User then None else Some(copied.cwd))
  }

  /**
   * The entry found at a scope comes to record the copied directory, in its place and with its scope and project; or nothing
   * changes, because its version is the copied one already.
   */
  ghost predicate RewritesOne(s: Store, t: Store, id: string, scope: Scope, copied: Copied) {
    var before, after, found := Entries(s, id), Entries(t, id), FindScope(Entries(s, id), scope);
    && found.Some?
    && if copied.version == before[found.value].version then t == s
       else
         && OnlyList(s, t, id, after)
         && |after| == |before| && (forall i :: 0 <= i < |before| && i != found.value ==> after[i] == before[i])
         && Records(after[found.value], scope, copied, before[found.value].projectPath)
  }

  lemma RemoveEntryShows(s: Store, id: string, k: nat)
    requires k < |Entries(s, id)|
    ensures Entries(RemoveEntry(s, id, k), id) == RemoveAt(Entries(s, id), k)
    ensures OnlyEntriesOf(s, RemoveEntry(s, id, k), id)
    ensures SameClaude(s, RemoveEntry(s, id, k)) && SameKnown(s, RemoveEntry(s, id, k))
  {
    hide MergedInstalled, StoreRemaining, MarkOrphan, RemoveAt, ApplyEnabledFlag, Entries;
    var entry := Entries(s, id)[k];
    var unflagged := DropFlag(s, entry.scope, id);
    FlagWriteFrame(s, entry.scope, id, Some(Off));
    FlagWriteFrame(s, entry.scope, id, None);
    EntriesFollowInstalled(s, unflagged);
    var remaining := StoreRemaining(unflagged, id, RemoveAt(Entries(s, id), k));
    RemainingShows(unflagged, id, RemoveAt(Entries(s, id), k));
    MarkOrphanFrame(remaining, entry.installPath);
    EntriesFollowInstalled(remaining, MarkOrphan(remaining, entry.installPath));
  }

  /** Uninstall removes exactly one entry, the first of its scope, from exactly one merged list; or changes nothing. */
  lemma UninstallRemovesOne(s: Store, arg: string, scope: Scope, skipGuard: bool)
    ensures var r := Uninstall(s, arg, scope, skipGuard);
      if r.result.Err? then r.store == s else RemovesOne(s, r.store, r.result.value, scope)
  {
    hide MergedInstalled, Entries, RemoveEntry, MergedKnown, ResolveInstalled;
    var r := Uninstall(s, arg, scope, skipGuard);
    if r.result.Ok? {
      var id := r.result.value;
      var k := FindScope(Entries(s, id), scope).value;
      RemoveEntryShows(s, id, k);
      KnownFollows(s, r.store);
    }
  }

  /** Install appends exactly one entry at a scope the id did not have; or changes nothing. */
  lemma InstallAppendsOne(s: Store, arg: string, scope: Scope, declared: seq<Declared>, copied: Copied)
    ensures var r := Install(s, arg, scope, declared, copied);
      if r.result.Err? then r.store == s else AppendsOne(s, r.store, r.result.value, scope, copied)
  {
    hide MergedInstalled, Entries, MergedKnown, ResolveDeclared, ApplyEnabledFlag;
    var r := Install(s, arg, scope, declared, copied);
    if r.result.Ok? {
      var id := r.result.value;
      var flagged := ApplyEnabledFlag(s, scope, id, Some(On));
      FlagWriteFrame(s, scope, id, Some(On));
      EntriesFollowInstalled(s, flagged);
      WrittenListShows(flagged, id, Entries(s, id) + [NewEntry(scope, copied)]);
      KnownFollows(s, r.store);
    }
  }

  /** Update rewrites exactly one entry in place, keeping its scope; or changes nothing. */
  lemma UpdateReplacesOne(s: Store, arg: string, scope: Scope, manifestOk: bool, copied: Copied)
    ensures var r := Update(s, arg, scope, manifestOk, copied);
      if r.result.Err? then r.store == s else RewritesOne(s, r.store, r.result.value, scope, copied)
  {
    hide MergedInstalled, Entries, MergedKnown, ResolveInstalled, MarkOrphan, ResolutionIds;
    var r := Update(s, arg, scope, manifestOk, copied);
    if r.result.Ok? {
      var id := r.result.value;
      var k := FindScope(Entries(s, id), scope).value;
      if copied.version != Entries(s, id)[k].version {
        var list := Entries(s, id)[k := Refreshed(Entries(s, id)[k], copied)];
        WrittenListShows(s, id, list);
        var rewritten := s.(dshInstalled := s.dshInstalled[id := list]);
        MarkOrphanFrame(rewritten, Entries(s, id)[k].installPath);
        EntriesFollowInstalled(rewritten, r.store);
        KnownFollows(s, r.store);
      }
    }
  }

  /** Toggle writes one flag and leaves both merged views alone. */
  lemma ToggleKeepsViews(s: Store, arg: string, on: bool, scope: Option<Scope>)
    ensures var t := Toggle(s, arg, on, scope).store;
      && SameClaude(s, t)
      && MergedInstalled(t) == MergedInstalled(s)
      && MergedKnown(t) == MergedKnown(s)
  {
    hide MergedInstalled, Entries, MergedKnown, ResolveInstalled, ResolutionIds, ApplyEnabledFlag;
    var r := Toggle(s, arg, on, scope);
    if r.store != s {
      var entries := Entries(s, r.result.value);
      var target := if scope.Some? then scope.value else entries[0].scope;
      FlagWriteFrame(s, target, r.result.value, Some(if on then On else Off));
      EntriesFollowInstalled(s, r.store);
      KnownFollows(s, r.store);
    }
  }

  /** After a user-scope uninstall the merged user flag is never true, whatever the claude file says. */
  lemma UserUninstallTurnsOff(s: Store, arg: string, skipGuard: bool)
    ensures var r := Uninstall(s, arg, User, skipGuard);
      r.result.Ok? ==> !(r.result.value in MergedUserFlags(r.store) && MergedUserFlags(r.store)[r.result.value] == On)
  {
    hide MergedInstalled, Entries, ResolveInstalled, StoreRemaining, MarkOrphan, DropFlag, MergedUserFlags;
    var r := Uninstall(s, arg, User, skipGuard);
    if r.result.Ok? {
      var id := r.result.value;
      var k := FindScope(Entries(s, id), User).value;
      RemovedUserFlag(s, id, k);
      DroppedUserFlagIsOff(s, id);
    }
  }

  lemma DroppedUserFlagIsOff(s: Store, id: string)
    ensures var flags := MergedUserFlags(DropFlag(s, User, id)); !(id in flags && flags[id] == On)
  {
  }

  /** Apart from the flag write, removing an entry touches no settings file. */
  lemma RemovedUserFlag(s: Store, id: string, k: nat)
    requires k < |Entries(s, id)|
    ensures var t, unflagged := RemoveEntry(s, id, k), DropFlag(s, Entries(s, id)[k].scope, id);
      && t.user == unflagged.user && t.project == unflagged.project && t.local == unflagged.local
      && MergedUserFlags(t) == MergedUserFlags(unflagged)
  {
    hide MergedInstalled, Entries, StoreRemaining, MarkOrphan, DropFlag, RemoveAt;
    var unflagged := DropFlag(s, Entries(s, id)[k].scope, id);
    var list := RemoveAt(Entries(s, id), k);
    RemainingShows(unflagged, id, list);
    RemainingKeepsSettings(unflagged, id, list);
    MarkOrphanFrame(StoreRemaining(unflagged, id, list), Entries(s, id)[k].installPath);
  }

  lemma RemainingKeepsSettings(s: Store, id: string, list: seq<InstallEntry>)
    ensures StoreRemaining(s, id, list).user == s.user
    ensures StoreRemaining(s, id, list).project == s.project
    ensures StoreRemaining(s, id, list).local == s.local
    ensures StoreRemaining(s, id, list).orphaned == s.orphaned
  {
  }
}
