/** Which plugin an argument names, and exactly when the plugin manager's operations succeed. */
module PluginResolution {
  import opened Basics
  import opened PluginState
  import opened PluginOps
  import opened PluginRemoval

  predicate Bare(arg: string) { ParsePluginId(arg).marketplace.None? }

  predicate Carries(id: string, name: string) { ParsePluginId(id).name == name }

  /** An argument names a key: as the key itself, or as the bare name that no other key carries. */
  ghost predicate Names(arg: string, id: string, keys: set<string>) {
    && id in keys
    && (id == arg || (arg !in keys && Bare(arg) && Carries(id, arg) && forall k :: k in keys && Carries(k, arg) ==> k == id))
  }

  lemma BareNameIsWhole(arg: string)
    requires Bare(arg)
    ensures ParsePluginId(arg).name == arg
  {
  }

  /** Resolution finds exactly the key that the argument names. */
  lemma ResolutionFindsTheNamed(arg: string, id: string, keys: set<string>)
    ensures ResolveInstalled(arg, keys) == Ok(id) <==> Names(arg, id, keys)
  {
    hide ParsePluginId;
    if arg !in keys && Bare(arg) {
      BareNameIsWhole(arg);
      var matches := NameMatches(arg, keys);
      if Names(arg, id, keys) {
        assert matches == {id};
      } else if |matches| == 1 {
        OnlyOne(matches);
        assert forall k :: k in keys && Carries(k, arg) ==> k in matches;
      }
    }
  }

  /** Its three errors: a qualified id that is not there, a bare name nobody carries, and one that several carry. */
  lemma ResolutionErrors(arg: string, keys: set<string>)
    ensures ResolveInstalled(arg, keys) == Err(PluginNotInstalled) <==> arg !in keys && !Bare(arg)
    ensures ResolveInstalled(arg, keys) == Err(UnknownPlugin) <==>
      arg !in keys && Bare(arg) && forall k :: k in keys ==> !Carries(k, arg)
    ensures ResolveInstalled(arg, keys) == Err(AmbiguousName) <==>
      arg !in keys && Bare(arg) && exists k, m :: k in keys && m in keys && k != m && Carries(k, arg) && Carries(m, arg)
  {
    hide ParsePluginId;
    if arg !in keys && Bare(arg) {
      BareNameIsWhole(arg);
      var matches := NameMatches(arg, keys);
      if |matches| == 1 {
        OnlyOne(matches);
        assert TheOnly(matches) in keys && Carries(TheOnly(matches), arg);
        forall k, m | k in keys && m in keys && Carries(k, arg) && Carries(m, arg) ensures k == m {
          assert k in matches && m in matches;
        }
      } else if matches != {} {
        var k :| k in matches;
        assert |matches - {k}| == |matches| - 1;
        var m :| m in matches - {k};
        assert Carries(k, arg) && Carries(m, arg);
      } else {
        forall k | k in keys ensures !Carries(k, arg) { assert k !in matches; }
      }
    }
  }

  // ---------------------------------------------------------------- declared plugins

  /** Every id that a readable manifest declares, in listing order. */
  function AllDeclared(declared: seq<Declared>): seq<string> {
    if declared == [] then []
    else (if declared[0].ids.Some? then declared[0].ids.value else []) + AllDeclared(declared[1..])
  }

  /** The one position of a list at which a name is declared. */
  ghost predicate OnlyAt(ids: seq<string>, i: int, name: string) {
    && 0 <= i < |ids| && Carries(ids[i], name)
    && forall j :: 0 <= j < |ids| && Carries(ids[j], name) ==> j == i
  }

  /** Listing `i` is the first of a marketplace. */
  predicate Lists(declared: seq<Declared>, i: nat, marketplace: string) {
    i < |declared| && declared[i].marketplace == marketplace && forall j :: 0 <= j < i ==> declared[j].marketplace != marketplace
  }

  /** An argument names a declared plugin: qualified in its own marketplace's manifest, or bare at one place in all. */
  ghost predicate NamesDeclared(arg: string, id: string, declared: seq<Declared>) {
    if Bare(arg) then exists i :: OnlyAt(AllDeclared(declared), i, arg) && AllDeclared(declared)[i] == id
    else
      id == arg && exists i: nat ::
        Lists(declared, i, ParsePluginId(arg).marketplace.value) && declared[i].ids.Some? && arg in declared[i].ids.value
  }

  lemma {:induction false} DeclaredByMeans(marketplace: string, declared: seq<Declared>)
    ensures var listed := DeclaredBy(marketplace, declared);
      && (listed.None? <==> forall i: nat :: !Lists(declared, i, marketplace))
      && (forall i: nat :: Lists(declared, i, marketplace) ==> listed == Some(declared[i]))
  {
    if declared == [] {
    } else if declared[0].marketplace == marketplace {
      assert Lists(declared, 0, marketplace);
    } else {
      var rest := declared[1..];
      DeclaredByMeans(marketplace, rest);
      assert forall j :: 0 <= j < |rest| ==> rest[j] == declared[j + 1];
      forall i: nat ensures Lists(rest, i, marketplace) <==> Lists(declared, i + 1, marketplace) {
        if Lists(rest, i, marketplace) {
          forall j | 0 <= j < i + 1 ensures declared[j].marketplace != marketplace {
            if j > 0 { assert rest[j - 1].marketplace != marketplace; }
          }
        }
      }
      forall i: nat | Lists(declared, i, marketplace) ensures i > 0 && Lists(rest, i - 1, marketplace) {}
    }
  }

  lemma {:induction false} MatchesOfConcat(name: string, a: seq<string>, b: seq<string>)
    ensures DeclaredMatches(name, a + b) == DeclaredMatches(name, a) + DeclaredMatches(name, b)
  {
    hide ParsePluginId;
    if a == [] { assert a + b == b; }
    else {
      assert (a + b)[1..] == a[1..] + b;
      MatchesOfConcat(name, a[1..], b);
    }
  }

  lemma {:induction false} MatchesOfAll(name: string, declared: seq<Declared>)
    ensures AllMatches(name, declared) == DeclaredMatches(name, AllDeclared(declared))
  {
    hide ParsePluginId;
    if declared == [] {
    } else {
      var first := if declared[0].ids.Some? then declared[0].ids.value else [];
      MatchesOfAll(name, declared[1..]);
      MatchesOfConcat(name, first, AllDeclared(declared[1..]));
    }
  }

  lemma {:induction false} MatchesAreCarriers(name: string, ids: seq<string>)
    ensures DeclaredMatches(name, ids) == [] <==> forall i :: 0 <= i < |ids| ==> !Carries(ids[i], name)
  {
    hide ParsePluginId;
    if ids == [] {
    } else {
      MatchesAreCarriers(name, ids[1..]);
      assert forall i :: 0 < i < |ids| ==> ids[i] == ids[1..][i - 1];
      assert forall i :: 0 <= i < |ids| - 1 ==> ids[1..][i] == ids[i + 1];
    }
  }

  /** Exactly one match is left if and only if exactly one position declares the name, and it is the id there. */
  lemma {:induction false} OneMatchIsOnly(name: string, ids: seq<string>, id: string)
    ensures DeclaredMatches(name, ids) == [id] <==> exists i :: OnlyAt(ids, i, name) && ids[i] == id
  {
    hide ParsePluginId;
    if ids == [] {
    } else {
      var rest := ids[1..];
      if Carries(ids[0], name) {
        MatchesAreCarriers(name, rest);
        FirstIsOnly(name, ids);
      } else {
        OneMatchIsOnly(name, rest, id);
        if i :| OnlyAt(rest, i, name) && rest[i] == id {
          OnlyInRest(name, ids, i);
          assert OnlyAt(ids, i + 1, name) && ids[i + 1] == id;
        }
        if i :| OnlyAt(ids, i, name) && ids[i] == id {
          OnlyInRest(name, ids, i - 1);
          assert OnlyAt(rest, i - 1, name) && rest[i - 1] == id;
        }
      }
    }
  }

  lemma FirstIsOnly(name: string, ids: seq<string>)
    requires ids != [] && Carries(ids[0], name)
    ensures OnlyAt(ids, 0, name) <==> forall j :: 0 <= j < |ids[1..]| ==> !Carries(ids[1..][j], name)
  {
    hide Carries;
    assert forall j :: 0 <= j < |ids| - 1 ==> ids[1..][j] == ids[j + 1];
    assert forall j :: 0 < j < |ids| ==> ids[j] == ids[1..][j - 1];
  }

  lemma OnlyInRest(name: string, ids: seq<string>, i: int)
    requires ids != [] && !Carries(ids[0], name) && 0 <= i < |ids| - 1
    ensures OnlyAt(ids[1..], i, name) <==> OnlyAt(ids, i + 1, name)
  {
    hide Carries;
    assert forall j :: 0 <= j < |ids| - 1 ==> ids[1..][j] == ids[j + 1];
    assert forall j :: 0 < j < |ids| ==> ids[j] == ids[1..][j - 1];
  }

  /** Install settles on exactly the declared plugin that its argument names. */
  lemma DeclaredResolutionFindsTheNamed(arg: string, id: string, declared: seq<Declared>)
    ensures ResolveDeclared(arg, declared) == Ok(id) <==> NamesDeclared(arg, id, declared)
  {
    hide ParsePluginId, DeclaredMatches, AllMatches, DeclaredBy, AllDeclared, OnlyAt, Lists;
    if Bare(arg) {
      BareNameIsWhole(arg);
      MatchesOfAll(arg, declared);
      OneMatchIsOnly(arg, AllDeclared(declared), id);
    } else {
      DeclaredByMeans(ParsePluginId(arg).marketplace.value, declared);
    }
  }

  /** Its errors for a qualified id: its marketplace is not listed, its manifest cannot be read, or does not declare the id. */
  lemma QualifiedErrors(arg: string, declared: seq<Declared>)
    requires !Bare(arg)
    ensures var result, marketplace := ResolveDeclared(arg, declared), ParsePluginId(arg).marketplace.value;
      && (result == Err(UnknownMarketplace) <==> forall i: nat :: !Lists(declared, i, marketplace))
      && (result == Err(ManifestUnreadable) <==> exists i: nat :: Lists(declared, i, marketplace) && declared[i].ids.None?)
      && (result == Err(NotDeclared) <==>
            exists i: nat :: Lists(declared, i, marketplace) && declared[i].ids.Some? && arg !in declared[i].ids.value)
  {
    hide ParsePluginId, DeclaredBy, AllMatches, Lists;
    DeclaredByMeans(ParsePluginId(arg).marketplace.value, declared);
  }

  ghost predicate DeclaredOnce(arg: string, declared: seq<Declared>) { exists i :: OnlyAt(AllDeclared(declared), i, arg) }

  predicate NowhereDeclared(arg: string, declared: seq<Declared>) {
    forall i :: 0 <= i < |AllDeclared(declared)| ==> !Carries(AllDeclared(declared)[i], arg)
  }

  predicate AllReadable(declared: seq<Declared>) { forall d :: d in declared ==> d.ids.Some? }

  /** Its errors for a bare name, unless that is declared at one place: an unreadable manifest is blamed first. */
  lemma BareErrors(arg: string, declared: seq<Declared>)
    requires Bare(arg) && !DeclaredOnce(arg, declared)
    ensures ResolveDeclared(arg, declared) ==
      if !AllReadable(declared) then Err(ManifestUnreadable)
      else if NowhereDeclared(arg, declared) then Err(NotDeclared)
      else Err(AmbiguousName)
  {
    hide ParsePluginId, DeclaredMatches, AllMatches, DeclaredBy, AllDeclared, OnlyAt, Carries;
    BareNameIsWhole(arg);
    MatchesOfAll(arg, declared);
    MatchesAreCarriers(arg, AllDeclared(declared));
    var matches := DeclaredMatches(arg, AllDeclared(declared));
    if |matches| == 1 {
      assert matches == [matches[0]];
      OneMatchIsOnly(arg, AllDeclared(declared), matches[0]);
    }
  }

  // ---------------------------------------------------------------- when the operations succeed

  /** Install succeeds exactly for a named declared plugin without an entry at the scope, whose copy works. */
  lemma InstallSucceeds(s: Store, arg: string, scope: Scope, declared: seq<Declared>, copied: Copied, id: string)
    ensures Install(s, arg, scope, declared, copied).result == Ok(id) <==>
      NamesDeclared(arg, id, declared) && !HasScope(Entries(s, id), scope) && copied.ok
  {
    hide ResolveDeclared, NamesDeclared, Entries, ApplyEnabledFlag;
    DeclaredResolutionFindsTheNamed(arg, id, declared);
  }

  /** Once its argument names a declared plugin, install fails for an entry at the scope, and else for its copy. */
  lemma InstallFails(s: Store, arg: string, scope: Scope, declared: seq<Declared>, copied: Copied, id: string)
    requires NamesDeclared(arg, id, declared)
    ensures Install(s, arg, scope, declared, copied).result == Err(AlreadyInstalled) <==> HasScope(Entries(s, id), scope)
    ensures Install(s, arg, scope, declared, copied).result == Err(CopyFailed) <==> !HasScope(Entries(s, id), scope) && !copied.ok
  {
    hide ResolveDeclared, NamesDeclared, Entries, ApplyEnabledFlag;
    DeclaredResolutionFindsTheNamed(arg, id, declared);
  }

  /** Uninstall succeeds exactly for a named key with an entry at the scope that the project does not enable. */
  lemma UninstallSucceeds(s: Store, arg: string, scope: Scope, skipGuard: bool, id: string)
    ensures Uninstall(s, arg, scope, skipGuard).result == Ok(id) <==>
      && Names(arg, id, MergedInstalled(s).Keys) && HasScope(Entries(s, id), scope)
      && (skipGuard || !OnInProject(s, id))
  {
    hide ResolveInstalled, Names, Entries, RemoveEntry, MergedInstalled;
    ResolutionFindsTheNamed(arg, id, MergedInstalled(s).Keys);
  }

  /** Once its argument names a key, uninstall fails for want of an entry at the scope, and else for the project's flag. */
  lemma UninstallFails(s: Store, arg: string, scope: Scope, skipGuard: bool, id: string)
    requires Names(arg, id, MergedInstalled(s).Keys)
    ensures Uninstall(s, arg, scope, skipGuard).result == Err(NoInstallationAtScope) <==> !HasScope(Entries(s, id), scope)
    ensures Uninstall(s, arg, scope, skipGuard).result == Err(ProjectScopeEnabled) <==>
      HasScope(Entries(s, id), scope) && !skipGuard && OnInProject(s, id)
  {
    hide ResolveInstalled, Names, Entries, RemoveEntry, MergedInstalled;
    ResolutionFindsTheNamed(arg, id, MergedInstalled(s).Keys);
  }

  /** Update succeeds exactly for a named installed id with an entry at the scope, a known marketplace that can be
      read, and either nothing newer or a copy that works. */
  lemma UpdateSucceeds(s: Store, arg: string, scope: Scope, manifestOk: bool, copied: Copied, id: string)
    ensures Update(s, arg, scope, manifestOk, copied).result == Ok(id) <==>
      && Names(arg, id, ResolutionIds(s)) && HasScope(Entries(s, id), scope)
      && ParsePluginId(id).marketplace.Some? && ParsePluginId(id).marketplace.value in MergedKnown(s)
      && manifestOk
      && (copied.ok || copied.version == Entries(s, id)[FindScope(Entries(s, id), scope).value].version)
  {
    hide ResolveInstalled, Names, Entries, MergedInstalled, ResolutionIds, MergedKnown, ParsePluginId, MarkOrphan;
    ResolutionFindsTheNamed(arg, id, ResolutionIds(s));
  }

  /** Once its argument names an installed id, update fails for the first of these that holds. */
  lemma UpdateFails(s: Store, arg: string, scope: Scope, manifestOk: bool, copied: Copied, id: string)
    requires Names(arg, id, ResolutionIds(s))
    ensures var result, there, marketplace := Update(s, arg, scope, manifestOk, copied).result, HasScope(Entries(s, id), scope),
                                              ParsePluginId(id).marketplace;
      && (result == Err(NoInstallationAtScope) <==> !there)
      && (result == Err(UnknownMarketplace) <==> there && !(marketplace.Some? && marketplace.value in MergedKnown(s)))
      && (result == Err(ManifestUnreadable) <==> there && marketplace.Some? && marketplace.value in MergedKnown(s) && !manifestOk)
      && (result == Err(CopyFailed) <==>
            there && marketplace.Some? && marketplace.value in MergedKnown(s) && manifestOk && !copied.ok
            && copied.version != Entries(s, id)[FindScope(Entries(s, id), scope).value].version)
  {
    hide ResolveInstalled, Names, Entries, MergedInstalled, ResolutionIds, MergedKnown, ParsePluginId, MarkOrphan;
    ResolutionFindsTheNamed(arg, id, ResolutionIds(s));
  }

  /** Toggle succeeds exactly for a named installed id, with a scope given or a single entry to take it from. */
  lemma ToggleSucceeds(s: Store, arg: string, on: bool, at: Option<Scope>, id: string)
    ensures Toggle(s, arg, on, at).result == Ok(id) <==>
      Names(arg, id, ResolutionIds(s)) && (at.Some? || |Entries(s, id)| == 1)
  {
    hide ResolveInstalled, Names, Entries, ResolutionIds, ApplyEnabledFlag;
    ResolutionFindsTheNamed(arg, id, ResolutionIds(s));
  }
}
