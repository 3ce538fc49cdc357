/** The plugin loader's own reader of the stored state, and when it agrees with the manager's listing. */
module PluginDiscovery {
  import opened Basics
  import opened PluginState
  import opened PluginRefinement
  import opened PluginHistories

  // ---------------------------------------------------------------- the loader

  /** The boolean values of a block over what was folded so far. */
  function FoldBooleans(target: Flags, block: Flags): Flags {
    target + (block - set id | id in block && block[id] == Junk)
  }

  function FoldAll(files: seq<Flags>): Flags {
    if files == [] then map[] else FoldBooleans(FoldAll(files[..|files| - 1]), files[|files| - 1])
  }

  /** The settings files the loader folds, later ones overriding; the two homes are one file in single-root mode. */
  function CascadeFiles(s: Store): seq<Flags> {
    (if s.dual then [s.claudeFlags] else []) + [FlagsOf(s.user), FlagsOf(s.project), FlagsOf(s.local)]
  }

  predicate Enables(s: Store, id: string) { id in FoldAll(CascadeFiles(s)) && FoldAll(CascadeFiles(s))[id] == On }

  /** The ids that discovery goes on to mount, before it checks that the picked directory exists. */
  predicate Discovered(s: Store, id: string) { Enables(s, id) && '@' in id && Entries(s, id) != [] }

  // ---------------------------------------------------------------- the manager

  /** `effectiveEnabled`: the first defined value from local to project to merged user, raw. */
  function Effective(s: Store, id: string): Option<Flag> {
    if id in FlagsOf(s.local) then Some(FlagsOf(s.local)[id])
    else if id in FlagsOf(s.project) then Some(FlagsOf(s.project)[id])
    else if id in MergedUserFlags(s) then Some(MergedUserFlags(s)[id])
    else None
  }

  /** The value of the last file that gives an id a boolean. */
  function TopBoolean(files: seq<Flags>, id: string): Option<Flag> {
    if files == [] then None
    else
      var last := files[|files| - 1];
      if id in last && last[id] != Junk then Some(last[id]) else TopBoolean(files[..|files| - 1], id)
  }

  lemma {:induction false} FoldIsTopBoolean(files: seq<Flags>, id: string)
    ensures TopBoolean(files, id) == if id in FoldAll(files) then Some(FoldAll(files)[id]) else None
  {
    if files == [] {
    } else {
      FoldIsTopBoolean(files[..|files| - 1], id);
    }
  }

  /** The topmost defined value is not a boolean, and it hides a `true` further down. */
  predicate JunkHidesTrue(s: Store, id: string) {
    Effective(s, id) == Some(Junk) && TopBoolean(CascadeFiles(s), id) == Some(On)
  }

  lemma TopDown(s: Store, id: string)
    ensures var top := TopBoolean(CascadeFiles(s), id);
      match Effective(s, id)
      case None => top.None?
      case Some(flag) => flag != Junk ==> top == Some(flag)
  {
    hide FlagsOf, TopBoolean;
    var below := if s.dual then [s.claudeFlags] else [];
    var user := below + [FlagsOf(s.user)];
    UserSlot(s, id, below);
    TopStep(user, FlagsOf(s.project), id);
    TopStep(user + [FlagsOf(s.project)], FlagsOf(s.local), id);
    assert CascadeFiles(s) == (user + [FlagsOf(s.project)]) + [FlagsOf(s.local)];
  }

  lemma TopStep(files: seq<Flags>, last: Flags, id: string)
    ensures TopBoolean(files + [last], id)
         == if id in last && last[id] != Junk then Some(last[id]) else TopBoolean(files, id)
  {
    assert (files + [last])[..|files|] == files;
  }

  lemma UserSlot(s: Store, id: string, below: seq<Flags>)
    requires below == if s.dual then [s.claudeFlags] else []
    ensures var top := TopBoolean(below + [FlagsOf(s.user)], id);
      if id !in MergedUserFlags(s) then top.None?
      else MergedUserFlags(s)[id] != Junk ==> top == Some(MergedUserFlags(s)[id])
  {
    hide FlagsOf;
    TopStep(below, FlagsOf(s.user), id);
    if s.dual {
      TopStep([], s.claudeFlags, id);
      assert [] + [s.claudeFlags] == below;
    }
  }

  /**
   * The loader discovers an id exactly when the manager lists entries for it with effective enablement `true`, except
   * where a value that is not a boolean hides a lower `true`: the loader skips such values, the manager shows them.
   */
  lemma DiscoveryAgreesWithList(s: Store, id: string)
    ensures Discovered(s, id)
       <==> '@' in id && id in ResolutionIds(s) && (Effective(s, id) == Some(On) || JunkHidesTrue(s, id))
  {
    hide CascadeFiles, FoldAll, Effective, TopBoolean, Entries, ResolutionIds;
    FoldIsTopBoolean(CascadeFiles(s), id);
    TopDown(s, id);
    ResolutionByEntries(s, id);
  }

  /** A value in the local file that is no boolean hides a user-level `true` from the listing, but not from the loader. */
  lemma JunkCanHide(id: string, entry: InstallEntry)
    requires '@' in id
    ensures var s := Store(false, map[], map[], map[], map[], {}, map[id := [entry]],
                           Settings(Some(map[id := On]), None), Settings(None, None), Settings(Some(map[id := Junk]), None), {});
      JunkHidesTrue(s, id) && Discovered(s, id) && Effective(s, id) != Some(On)
  {
    hide FoldAll, FoldBooleans;
    var s := Store(false, map[], map[], map[], map[], {}, map[id := [entry]],
                   Settings(Some(map[id := On]), None), Settings(None, None), Settings(Some(map[id := Junk]), None), {});
    var user := [FlagsOf(s.user)];
    TopStep([], FlagsOf(s.user), id);
    assert [] + user == user;
    TopStep(user, FlagsOf(s.project), id);
    TopStep(user + [FlagsOf(s.project)], FlagsOf(s.local), id);
    assert CascadeFiles(s) == (user + [FlagsOf(s.project)]) + [FlagsOf(s.local)];
    assert Entries(s, id) == [entry];
    ResolutionByEntries(s, id);
    DiscoveryAgreesWithList(s, id);
  }

  /** With boolean flags only, the two readers agree outright. */
  lemma BooleanFlagsAgree(s: Store, id: string)
    requires forall flags :: flags in CascadeFiles(s) && id in flags ==> flags[id] != Junk
    ensures Discovered(s, id) <==> '@' in id && id in ResolutionIds(s) && Effective(s, id) == Some(On)
  {
    hide FoldAll, TopBoolean, Entries, ResolutionIds, Discovered, FlagsOf;
    DiscoveryAgreesWithList(s, id);
    var files := CascadeFiles(s);
    assert files[|files| - 1] == FlagsOf(s.local) && files[|files| - 2] == FlagsOf(s.project);
    assert files[|files| - 3] == FlagsOf(s.user);
    assert s.dual ==> files[0] == s.claudeFlags;
  }

  /** After a successful removal in any run from a tidy state, discovery no longer finds any plugin of the marketplace. */
  lemma RemovalEndsDiscovery(states: seq<Store>, calls: seq<Call>, k: nat, id: string)
    requires IsRun(states, calls) && Tidy(states[0]) && k < |calls|
    requires calls[k].CallRemove? && Apply(states[k], calls[k]).ok && OfMarketplace(id, calls[k].name)
    ensures !Discovered(states[k + 1], id)
  {
    hide Apply, Legal, Tidy, ResolutionIds, Entries, Enables, OfMarketplace;
    RemovalInAnyRun(states, calls, k);
    ResolutionByEntries(states[k + 1], id);
  }

  // ---------------------------------------------------------------- the loops

  /** `extractEnabledPluginKeys` without a warning sink: fold one block's booleans, last wins. */
  method ExtractEnabledKeys(target: Flags, block: Flags) returns (folded: Flags)
    ensures folded == FoldBooleans(target, block)
  {
    folded := target;
    var rest := block.Keys;
    while rest != {}
      invariant rest <= block.Keys
      invariant forall id :: id in folded <==> id in target || (id in block && id !in rest && block[id] != Junk)
      invariant forall id :: id in block && id !in rest && block[id] != Junk ==> folded[id] == block[id]
      invariant forall id :: id in target && (id !in block || id in rest || block[id] == Junk) ==> folded[id] == target[id]
      decreases rest
    {
      var id :| id in rest;
      if block[id] != Junk { folded := folded[id := block[id]]; }
      rest := rest - {id};
    }
  }

  /** `enabledKeys`: fold the cascade, then keep the `true` keys that name a marketplace. */
  method EnabledKeys(s: Store) returns (keys: set<string>)
    ensures forall id :: id in keys <==> Enables(s, id) && '@' in id
  {
    var files := CascadeFiles(s);
    var state: Flags := map[];
    for i := 0 to |files|
      invariant state == FoldAll(files[..i])
    {
      state := ExtractEnabledKeys(state, files[i]);
      assert files[..i + 1][..i] == files[..i];
    }
    assert files[..|files|] == files;
    keys := set id | id in state && state[id] == On && '@' in id;
  }

  /** `k` is the entry of greatest timestamp, the last one among equals. */
  predicate Latest(entries: seq<InstallEntry>, k: nat) {
    && k < |entries|
    && forall j :: 0 <= j < |entries| && j != k ==>
         entries[j].lastUpdated < entries[k].lastUpdated || (entries[j].lastUpdated == entries[k].lastUpdated && j < k)
  }

  ghost predicate PickedFrom(entries: seq<InstallEntry>, dir: Dir) {
    exists k: nat :: Latest(entries, k) && dir == entries[k].installPath
  }

  /** `pickInstallPath`: the directory of the latest entry; none for an empty list. */
  method PickInstallPath(entries: seq<InstallEntry>) returns (picked: Option<Dir>)
    ensures picked.None? <==> entries == []
    ensures picked.Some? ==> PickedFrom(entries, picked.value)
  {
    if entries == [] { return None; }
    var best := 0;
    for i := 1 to |entries|
      invariant 0 <= best < i && Latest(entries[..i], best)
    {
      if entries[i].lastUpdated >= entries[best].lastUpdated { best := i; }
    }
    assert entries[..|entries|] == entries;
    picked := Some(entries[best].installPath);
  }

  /** An id's directory is found, if not under this id then under another one that comes with it. */
  ghost predicate FoundFor(s: Store, found: map<string, Dir>, id: string) {
    exists first :: first in found && PickedFrom(Entries(s, id), found[first])
  }

  predicate DistinctRoots(found: map<string, Dir>) {
    forall id, other :: id in found && other in found && id != other ==> found[id] != found[other]
  }

  /** What is found belongs to enabled ids, with the directory picked for each. */
  ghost predicate FoundRight(s: Store, done: set<string>, found: map<string, Dir>) {
    forall id :: id in found ==> id in done && PickedFrom(Entries(s, id), found[id])
  }

  ghost predicate AllFound(s: Store, done: set<string>, found: map<string, Dir>) {
    forall id :: id in done && Entries(s, id) != [] ==> FoundFor(s, found, id)
  }

  lemma NewRootIsRight(s: Store, done: set<string>, found: map<string, Dir>, id: string, dir: Dir)
    requires FoundRight(s, done, found) && PickedFrom(Entries(s, id), dir)
    ensures FoundRight(s, done + {id}, found[id := dir])
  {
    hide Entries, PickedFrom;
  }

  lemma NewRootIsDistinct(found: map<string, Dir>, id: string, dir: Dir)
    requires DistinctRoots(found) && dir !in found.Values
    ensures DistinctRoots(found[id := dir])
  {
    assert forall k :: k in found ==> found[k] in found.Values;
  }

  lemma MoreIsFound(s: Store, done: set<string>, found: map<string, Dir>, more: map<string, Dir>, id: string)
    requires AllFound(s, done, found) && (forall k :: k in found ==> k in more && more[k] == found[k])
    requires Entries(s, id) != [] ==> FoundFor(s, more, id)
    ensures AllFound(s, done + {id}, more)
  {
    hide Entries, PickedFrom;
    forall k | k in done && Entries(s, k) != [] ensures FoundFor(s, more, k) {
      var first :| first in found && PickedFrom(Entries(s, k), found[first]);
      assert PickedFrom(Entries(s, k), more[first]);
    }
  }

  lemma NewRootIsFound(s: Store, done: set<string>, found: map<string, Dir>, id: string, dir: Dir)
    requires AllFound(s, done, found) && id !in found && PickedFrom(Entries(s, id), dir)
    ensures AllFound(s, done + {id}, found[id := dir])
  {
    hide Entries, PickedFrom, AllFound;
    var more := found[id := dir];
    assert more[id] == dir;
    MoreIsFound(s, done, found, more, id);
  }

  lemma OldRootIsFound(s: Store, done: set<string>, found: map<string, Dir>, id: string, picked: Option<Dir>)
    requires AllFound(s, done, found)
    requires if picked.Some? then picked.value in found.Values && PickedFrom(Entries(s, id), picked.value) else Entries(s, id) == []
    ensures AllFound(s, done + {id}, found)
  {
    hide Entries, PickedFrom, AllFound;
    if picked.Some? {
      var first :| first in found && found[first] == picked.value;
      assert FoundFor(s, found, id);
    }
    MoreIsFound(s, done, found, found, id);
  }

  /**
   * `discoverInstalledEnabled` up to the directory check: discovered ids with the directory picked for each, every such
   * directory once, under the first id that comes with it.
   */
  method Discover(s: Store) returns (found: map<string, Dir>)
    ensures forall id :: id in found ==> Discovered(s, id) && PickedFrom(Entries(s, id), found[id])
    ensures forall id :: Discovered(s, id) ==> FoundFor(s, found, id)
    ensures DistinctRoots(found)
  {
    hide MergedInstalled, Enables, Entries, PickedFrom, FoundFor, DistinctRoots, FoundRight, AllFound;
    var enabled := EnabledKeys(s);
    found := map[];
    var seen: set<Dir> := {};
    var rest := enabled;
    NothingFound(s);
    assert enabled - rest == {};
    while rest != {}
      invariant rest <= enabled && seen == found.Values && found.Keys <= enabled - rest
      invariant FoundRight(s, enabled - rest, found) && AllFound(s, enabled - rest, found) && DistinctRoots(found)
      decreases rest
    {
      var id :| id in rest;
      var picked := PickInstallPath(Entries(s, id));
      ghost var done := enabled - rest;
      assert enabled - (rest - {id}) == done + {id};
      if picked.Some? && picked.value !in seen {
        NewRootIsRight(s, done, found, id, picked.value);
        NewRootIsDistinct(found, id, picked.value);
        NewRootIsFound(s, done, found, id, picked.value);
        NewValues(found, id, picked.value);
        found, seen := found[id := picked.value], seen + {picked.value};
      } else {
        OldRootIsRight(s, done, found, id);
        OldRootIsFound(s, done, found, id, picked);
      }
      rest := rest - {id};
    }
    assert enabled - rest == enabled;
    FoundIsDiscovered(s, enabled, found);
  }

  lemma NewValues(found: map<string, Dir>, id: string, dir: Dir)
    requires id !in found
    ensures found[id := dir].Values == found.Values + {dir}
  {
    var more := found[id := dir];
    forall d ensures d in more.Values <==> d in found.Values + {dir} {
      if d in more.Values { var k :| k in more && more[k] == d; }
      if d in found.Values { var k :| k in found && found[k] == d; assert more[k] == d; }
      assert more[id] == dir;
    }
  }

  lemma OldRootIsRight(s: Store, done: set<string>, found: map<string, Dir>, id: string)
    requires FoundRight(s, done, found)
    ensures FoundRight(s, done + {id}, found)
  {
    hide Entries, PickedFrom;
  }

  lemma NothingFound(s: Store)
    ensures FoundRight(s, {}, map[]) && AllFound(s, {}, map[]) && DistinctRoots(map[])
  {
  }

  lemma FoundIsDiscovered(s: Store, enabled: set<string>, found: map<string, Dir>)
    requires forall id :: id in enabled <==> Enables(s, id) && '@' in id
    requires FoundRight(s, enabled, found) && AllFound(s, enabled, found)
    ensures forall id :: id in found ==> Discovered(s, id) && PickedFrom(Entries(s, id), found[id])
    ensures forall id :: Discovered(s, id) ==> FoundFor(s, found, id)
  {
    hide Enables, Entries, FoundFor;
  }
}
