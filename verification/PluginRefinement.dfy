/** The two homes behave as one flat home: stores with the same view stay so, except where `Neutral` delimits the layering. */
module PluginRefinement {
  import opened Basics
  import opened PluginState
  import opened PluginOps
  import opened PluginViews

  // ---------------------------------------------------------------- the view

  predicate UserOn(s: Store, id: string) { id in MergedUserFlags(s) && MergedUserFlags(s)[id] == On }

  ghost predicate SameEntries(a: Store, b: Store) { forall id :: Entries(a, id) == Entries(b, id) }

  ghost predicate SameUserOn(a: Store, b: Store) { forall id :: UserOn(a, id) == UserOn(b, id) }

  predicate SameFiles(a: Store, b: Store) {
    && ExtraOf(a.user) == ExtraOf(b.user)
    && a.project == b.project
    && a.local == b.local
    && a.orphaned == b.orphaned
  }

  /** Everything a user of the manager can observe, wherever it is stored. */
  ghost predicate SameView(a: Store, b: Store) {
    && SameEntries(a, b)
    && MergedKnown(a) == MergedKnown(b)
    && SameUserOn(a, b)
    && SameFiles(a, b)
  }

  /** The flat single-root store with a given view. */
  function Flatten(s: Store): Store {
    var emptied := set id | id in MergedInstalled(s) && MergedInstalled(s)[id] == [];
    Store(false, map[], map[], map[], MergedKnown(s), {}, MergedInstalled(s) - emptied,
          Settings(Some(MergedUserFlags(s)), Some(ExtraOf(s.user))), s.project, s.local, s.orphaned)
  }

  lemma FlattenEntries(s: Store)
    ensures SameEntries(s, Flatten(s))
  {
  }

  lemma FlattenKnown(s: Store)
    ensures MergedKnown(Flatten(s)) == MergedKnown(s)
  {
    hide MergedInstalled, ResolutionIds, MergedUserFlags;
  }

  lemma FlattenUserOn(s: Store)
    ensures SameUserOn(s, Flatten(s))
  {
    hide MergedKnown, ResolutionIds;
  }

  /** Every store, layered or not, has a flat twin. */
  lemma FlattenHasTheView(s: Store)
    ensures !Flatten(s).dual && SameView(s, Flatten(s))
  {
    hide MergedKnown, SameEntries, SameUserOn;
    FlattenEntries(s);
    FlattenKnown(s);
    FlattenUserOn(s);
  }

  lemma ResolutionByEntries(s: Store, id: string)
    ensures id in ResolutionIds(s) <==> Entries(s, id) != []
  {
  }

  lemma SameResolution(a: Store, b: Store)
    requires SameEntries(a, b)
    ensures ResolutionIds(a) == ResolutionIds(b)
  {
    hide Entries, ResolutionIds;
    forall id ensures id in ResolutionIds(a) <==> id in ResolutionIds(b) {
      ResolutionByEntries(a, id);
      ResolutionByEntries(b, id);
    }
  }

  // ---------------------------------------------------------------- single writes

  lemma FlagWriteOn(s: Store, scope: Scope, id: string, flag: Flag, other: string)
    ensures UserOn(ApplyEnabledFlag(s, scope, id, Some(flag)), other)
         == if scope == User && other == id then flag == On else UserOn(s, other)
  {
  }

  lemma FlagWriteFiles(a: Store, b: Store, scope: Scope, id: string, value: Option<Flag>)
    requires SameFiles(a, b)
    ensures SameFiles(ApplyEnabledFlag(a, scope, id, value), ApplyEnabledFlag(b, scope, id, value))
  {
    if scope == User {
      hide ApplyEnabledFlag;
      UserFlagFiles(a, id, value);
      UserFlagFiles(b, id, value);
    } else {
      hide ExtraOf;
    }
  }

  lemma FlagWriteView(a: Store, b: Store, scope: Scope, id: string, flag: Flag)
    requires SameView(a, b)
    ensures SameView(ApplyEnabledFlag(a, scope, id, Some(flag)), ApplyEnabledFlag(b, scope, id, Some(flag)))
  {
    hide Entries, MergedKnown, MergedInstalled, UserOn, ApplyEnabledFlag, SameFiles;
    var v := Some(flag);
    FlagWriteFiles(a, b, scope, id, v);
    forall other ensures UserOn(ApplyEnabledFlag(a, scope, id, v), other) == UserOn(ApplyEnabledFlag(b, scope, id, v), other) {
      FlagWriteOn(a, scope, id, flag, other);
      FlagWriteOn(b, scope, id, flag, other);
    }
    FlagWriteMerged(a, scope, id, v);
    FlagWriteMerged(b, scope, id, v);
  }

  lemma FlagWriteMerged(s: Store, scope: Scope, id: string, value: Option<Flag>)
    ensures SameEntries(s, ApplyEnabledFlag(s, scope, id, value))
    ensures MergedKnown(ApplyEnabledFlag(s, scope, id, value)) == MergedKnown(s)
  {
    hide Entries, MergedKnown, MergedInstalled, ApplyEnabledFlag;
    FlagWriteFrame(s, scope, id, value);
    EntriesFollowInstalled(s, ApplyEnabledFlag(s, scope, id, value));
    KnownFollows(s, ApplyEnabledFlag(s, scope, id, value));
  }

  lemma FlagRemovalOn(s: Store, id: string, other: string)
    requires s.dual && id in s.claudeFlags ==> s.claudeFlags[id] != On
    ensures UserOn(ApplyEnabledFlag(s, User, id, None), other) == (UserOn(s, other) && other != id)
  {
  }

  lemma RepoFlagOn(s: Store, scope: Scope, id: string, value: Option<Flag>, other: string)
    requires scope != User
    ensures UserOn(ApplyEnabledFlag(s, scope, id, value), other) == UserOn(s, other)
  {
  }

  /** Dropping a flag at user scope always ends with the merged value not true. */
  lemma DropFlagOn(s: Store, scope: Scope, id: string, other: string)
    ensures UserOn(DropFlag(s, scope, id), other) == (UserOn(s, other) && !(scope == User && other == id))
  {
    hide ApplyEnabledFlag, UserOn;
    if scope == User && s.dual && id in s.claudeFlags && s.claudeFlags[id] == On { FlagWriteOn(s, scope, id, Off, other); }
    else if scope == User { FlagRemovalOn(s, id, other); }
    else { RepoFlagOn(s, scope, id, None, other); }
  }

  lemma DropFlagView(a: Store, b: Store, scope: Scope, id: string)
    requires SameView(a, b)
    ensures SameView(DropFlag(a, scope, id), DropFlag(b, scope, id))
  {
    hide Entries, MergedKnown, MergedInstalled, UserOn, ApplyEnabledFlag, DropFlag, SameFiles;
    DropFlagFiles(a, b, scope, id);
    forall other ensures UserOn(DropFlag(a, scope, id), other) == UserOn(DropFlag(b, scope, id), other) {
      DropFlagOn(a, scope, id, other);
      DropFlagOn(b, scope, id, other);
    }
    DropFlagMerged(a, scope, id);
    DropFlagMerged(b, scope, id);
  }

  lemma DropFlagFiles(a: Store, b: Store, scope: Scope, id: string)
    requires SameFiles(a, b)
    ensures SameFiles(DropFlag(a, scope, id), DropFlag(b, scope, id))
  {
    hide ApplyEnabledFlag;
    if scope == User {
      UserFlagFiles(a, id, Some(Off));
      UserFlagFiles(a, id, None);
      UserFlagFiles(b, id, Some(Off));
      UserFlagFiles(b, id, None);
    } else {
      FlagWriteFiles(a, b, scope, id, None);
    }
  }

  lemma UserFlagFiles(s: Store, id: string, value: Option<Flag>)
    ensures SameFiles(s, ApplyEnabledFlag(s, User, id, value))
  {
  }

  lemma DropFlagMerged(s: Store, scope: Scope, id: string)
    ensures SameEntries(s, DropFlag(s, scope, id))
    ensures MergedKnown(DropFlag(s, scope, id)) == MergedKnown(s)
  {
    hide Entries, MergedKnown, MergedInstalled, ApplyEnabledFlag;
    FlagWriteMerged(s, scope, id, Some(Off));
    FlagWriteMerged(s, scope, id, None);
  }

  /** Two stores that agree on the merged entries of every id still do once one list has been written in both. */
  lemma ListView(a: Store, b: Store, a': Store, b': Store, id: string, list: seq<InstallEntry>)
    requires SameView(a, b)
    requires Entries(a', id) == list && OnlyEntriesOf(a, a', id) && SameClaude(a, a') && SameKnown(a, a')
    requires Entries(b', id) == list && OnlyEntriesOf(b, b', id) && SameClaude(b, b') && SameKnown(b, b')
    requires a'.user == a.user && SameFiles(a, a') && b'.user == b.user && SameFiles(b, b')
    ensures SameView(a', b')
  {
    hide Entries, MergedKnown, MergedInstalled, MergedUserFlags;
    KnownFollows(a, a');
    KnownFollows(b, b');
    FlagsFollow(a, a');
    FlagsFollow(b, b');
    forall other ensures Entries(a', other) == Entries(b', other) {
      if other != id {
        assert Entries(a', other) == Entries(a, other);
        assert Entries(b', other) == Entries(b, other);
      }
    }
    SameUserOnFollows(a, b, a', b');
  }

  lemma SameUserOnFollows(a: Store, b: Store, a': Store, b': Store)
    requires SameUserOn(a, b)
    requires MergedUserFlags(a') == MergedUserFlags(a) && MergedUserFlags(b') == MergedUserFlags(b)
    ensures SameUserOn(a', b')
  {
    hide MergedUserFlags;
    forall id ensures UserOn(a', id) == UserOn(b', id) { assert UserOn(a, id) == UserOn(b, id); }
  }

  lemma FlagsFollow(s: Store, t: Store)
    requires SameClaude(s, t) && t.user == s.user
    ensures MergedUserFlags(t) == MergedUserFlags(s)
  {
  }

  lemma RemainingView(a: Store, b: Store, id: string, list: seq<InstallEntry>)
    requires SameView(a, b)
    ensures SameView(StoreRemaining(a, id, list), StoreRemaining(b, id, list))
  {
    hide Entries, MergedKnown, MergedInstalled, StoreRemaining, SameView;
    RemainingShows(a, id, list);
    RemainingShows(b, id, list);
    RemainingKeepsSettings(a, id, list);
    RemainingKeepsSettings(b, id, list);
    ListView(a, b, StoreRemaining(a, id, list), StoreRemaining(b, id, list), id, list);
  }

  function WriteList(s: Store, id: string, list: seq<InstallEntry>): Store {
    s.(dshInstalled := s.dshInstalled[id := list])
  }

  lemma WriteListView(a: Store, b: Store, id: string, list: seq<InstallEntry>)
    requires SameView(a, b)
    ensures SameView(WriteList(a, id, list), WriteList(b, id, list))
  {
    hide Entries, MergedKnown, MergedInstalled, SameView;
    WrittenListShows(a, id, list);
    WrittenListShows(b, id, list);
    ListView(a, b, WriteList(a, id, list), WriteList(b, id, list), id, list);
  }

  ghost predicate ReferencedBy(s: Store, dir: Dir) {
    exists id, k :: 0 <= k < |Entries(s, id)| && Entries(s, id)[k].installPath == dir
  }

  lemma ReferencedByEntries(s: Store, dir: Dir)
    ensures Referenced(MergedInstalled(s), dir) <==> ReferencedBy(s, dir)
  {
    hide MergedInstalled;
    if Referenced(MergedInstalled(s), dir) {
      var id, k :| id in MergedInstalled(s) && 0 <= k < |MergedInstalled(s)[id]| && MergedInstalled(s)[id][k].installPath == dir;
      assert Entries(s, id)[k].installPath == dir;
    }
    if ReferencedBy(s, dir) {
      var id, k :| 0 <= k < |Entries(s, id)| && Entries(s, id)[k].installPath == dir;
      assert id in MergedInstalled(s) && MergedInstalled(s)[id][k].installPath == dir;
    }
  }

  lemma SameReferences(a: Store, b: Store, dir: Dir)
    requires SameEntries(a, b)
    ensures Referenced(MergedInstalled(a), dir) <==> Referenced(MergedInstalled(b), dir)
  {
    hide Entries, MergedInstalled, Referenced;
    ReferencedByEntries(a, dir);
    ReferencedByEntries(b, dir);
    assert forall id :: Entries(a, id) == Entries(b, id);
    if ReferencedBy(a, dir) {
      var id, k :| 0 <= k < |Entries(a, id)| && Entries(a, id)[k].installPath == dir;
      assert Entries(b, id)[k].installPath == dir;
    }
    if ReferencedBy(b, dir) {
      var id, k :| 0 <= k < |Entries(b, id)| && Entries(b, id)[k].installPath == dir;
      assert Entries(a, id)[k].installPath == dir;
    }
  }

  lemma MarkOrphanView(a: Store, b: Store, dir: Dir)
    requires SameView(a, b)
    ensures SameView(MarkOrphan(a, dir), MarkOrphan(b, dir))
  {
    hide Entries, MergedKnown, MergedInstalled, MergedUserFlags, Referenced, ExtraOf;
    SameReferences(a, b, dir);
    MarkOrphanMerged(a, dir);
    MarkOrphanMerged(b, dir);
    SameUserOnFollows(a, b, MarkOrphan(a, dir), MarkOrphan(b, dir));
  }

  lemma MarkOrphanMerged(s: Store, dir: Dir)
    ensures SameEntries(s, MarkOrphan(s, dir))
    ensures MergedKnown(MarkOrphan(s, dir)) == MergedKnown(s)
    ensures MergedUserFlags(MarkOrphan(s, dir)) == MergedUserFlags(s)
  {
    hide Entries, MergedKnown, MergedInstalled, MergedUserFlags, MarkOrphan;
    var t := MarkOrphan(s, dir);
    MarkOrphanFrame(s, dir);
    EntriesFollowInstalled(s, t);
    KnownFollows(s, t);
    FlagsFollow(s, t);
  }

  // ---------------------------------------------------------------- the per-plugin operations

  lemma RemoveEntryView(a: Store, b: Store, id: string, k: nat)
    requires SameView(a, b) && k < |Entries(a, id)|
    ensures Entries(b, id) == Entries(a, id)
    ensures SameView(RemoveEntry(a, id, k), RemoveEntry(b, id, k))
  {
    hide Entries, DropFlag, StoreRemaining, MarkOrphan, RemoveAt, MergedKnown, SameUserOn, SameFiles;
    assert Entries(b, id) == Entries(a, id);
    var entry, list := Entries(a, id)[k], RemoveAt(Entries(a, id), k);
    var a1, b1 := DropFlag(a, entry.scope, id), DropFlag(b, entry.scope, id);
    DropFlagView(a, b, entry.scope, id);
    RemainingView(a1, b1, id, list);
    MarkOrphanView(StoreRemaining(a1, id, list), StoreRemaining(b1, id, list), entry.installPath);
  }

  /** A bare name that does not resolve as installed but names a merged key whose list is empty. */
  predicate ShadowedRival(s: Store, arg: string) {
    && arg !in ResolutionIds(s)
    && ParsePluginId(arg).marketplace.None?
    && exists id :: id in MergedInstalled(s) && MergedInstalled(s)[id] == [] && ParsePluginId(id).name == arg
  }

  lemma BareName(arg: string)
    requires ParsePluginId(arg).marketplace.None?
    ensures ParsePluginId(arg).name == arg
  {
  }

  /** A shadowed rival makes the uninstall of a bare name fail, whatever is installed under that name. */
  lemma ShadowedRivalBlocks(s: Store, arg: string, scope: Scope, skipGuard: bool)
    requires ShadowedRival(s, arg)
    ensures Uninstall(s, arg, scope, skipGuard).result.Err?
  {
    hide RemoveEntry, ParsePluginId;
    BareName(arg);
    var rival :| rival in MergedInstalled(s) && MergedInstalled(s)[rival] == [] && ParsePluginId(rival).name == arg;
    var keys := MergedInstalled(s).Keys;
    assert rival in NameMatches(arg, keys);
    if arg in keys { assert Entries(s, arg) == []; }
    else if |NameMatches(arg, keys)| == 1 { assert TheOnly(NameMatches(arg, keys)) == rival; }
  }

  /** Without a shadowed rival, uninstall resolves as it would over the installed ids, up to which error it reports. */
  lemma RivalFreeResolution(s: Store, arg: string, scope: Scope, skipGuard: bool)
    requires !ShadowedRival(s, arg)
    ensures var flat := ResolveInstalled(arg, ResolutionIds(s));
      if flat.Ok? then ResolveInstalled(arg, MergedInstalled(s).Keys) == flat
      else Uninstall(s, arg, scope, skipGuard).result.Err?
  {
    hide RemoveEntry, ParsePluginId;
    var keys := MergedInstalled(s).Keys;
    if arg in ResolutionIds(s) {
      assert arg in keys;
    } else if ParsePluginId(arg).marketplace.Some? {
      if arg in keys { assert Entries(s, arg) == []; }
    } else {
      BareName(arg);
      assert NameMatches(arg, keys) == NameMatches(arg, ResolutionIds(s));
      assert arg !in keys;
    }
  }

  /** What uninstall would do if it resolved over the installed ids only. */
  function FlatUninstall(s: Store, arg: string, scope: Scope, skipGuard: bool): Option<Reply> {
    var id := ResolveInstalled(arg, ResolutionIds(s));
    if id.Err? then None
    else
      var found := FindScope(Entries(s, id.value), scope);
      if found.None? || (!skipGuard && ProjectEnables(s, id.value)) then None
      else Some(Reply(RemoveEntry(s, id.value, found.value), Ok(id.value)))
  }

  /** Uninstall is that flat uninstall, save that a shadowed rival of a bare name makes it fail; failing changes nothing. */
  lemma UninstallIsFlat(s: Store, arg: string, scope: Scope, skipGuard: bool)
    ensures var r, flat := Uninstall(s, arg, scope, skipGuard), FlatUninstall(s, arg, scope, skipGuard);
      if flat.Some? && !ShadowedRival(s, arg) then r == flat.value else r.result.Err? && r.store == s
  {
    hide ResolveInstalled, ShadowedRival, ResolutionIds, MergedInstalled, Entries, ProjectEnables, RemoveEntry;
    if ShadowedRival(s, arg) { ShadowedRivalBlocks(s, arg, scope, skipGuard); }
    else { RivalFreeResolution(s, arg, scope, skipGuard); }
  }
}
