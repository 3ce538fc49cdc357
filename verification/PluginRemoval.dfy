/** `removeMarketplace`: the uninstall cascade never fails halfway and empties exactly the well-formed lists. */
module PluginRemoval {
  import opened Basics
  import opened PluginState
  import opened PluginOps
  import opened PluginViews

  // ---------------------------------------------------------------- entry lists

  predicate HasScope(entries: seq<InstallEntry>, scope: Scope) {
    exists k :: 0 <= k < |entries| && entries[k].scope == scope
  }

  /** A list without the first entry of a scope. */
  function DropFirst(entries: seq<InstallEntry>, scope: Scope): seq<InstallEntry> {
    var found := FindScope(entries, scope);
    if found.Some? then RemoveAt(entries, found.value) else entries
  }

  lemma DropFirstKeepsOthers(entries: seq<InstallEntry>, scope: Scope, other: Scope)
    requires other != scope
    ensures HasScope(DropFirst(entries, scope), other) == HasScope(entries, other)
  {
    var found := FindScope(entries, scope);
    if found.Some? {
      var k, rest := found.value, RemoveAt(entries, found.value);
      if HasScope(entries, other) {
        var m :| 0 <= m < |entries| && entries[m].scope == other;
        assert rest[if m < k then m else m - 1] == entries[m];
      }
      if HasScope(rest, other) {
        var m :| 0 <= m < |rest| && rest[m].scope == other;
        assert entries[if m < k then m else m + 1] == rest[m];
      }
    }
  }

  function DropAll(entries: seq<InstallEntry>, scopes: seq<Scope>): seq<InstallEntry> {
    if scopes == [] then entries else DropFirst(DropAll(entries, scopes[..|scopes| - 1]), scopes[|scopes| - 1])
  }

  ghost predicate Distinct<T>(s: seq<T>) { forall i, j :: 0 <= i < j < |s| ==> s[i] != s[j] }

  lemma {:induction false} DropAllKeepsOthers(entries: seq<InstallEntry>, scopes: seq<Scope>, other: Scope)
    requires other !in scopes
    ensures HasScope(DropAll(entries, scopes), other) == HasScope(entries, other)
  {
    if scopes == [] {
    } else {
      DropAllKeepsOthers(entries, scopes[..|scopes| - 1], other);
      DropFirstKeepsOthers(DropAll(entries, scopes[..|scopes| - 1]), scopes[|scopes| - 1], other);
    }
  }

  lemma HasScopeFound(entries: seq<InstallEntry>, scope: Scope)
    ensures HasScope(entries, scope) <==> FindScope(entries, scope).Some?
    ensures HasScope(entries, scope) ==> |DropFirst(entries, scope)| == |entries| - 1
  {
  }

  lemma {:induction false} DropAllLength(entries: seq<InstallEntry>, scopes: seq<Scope>)
    requires Distinct(scopes) && forall t :: t in scopes ==> HasScope(entries, t)
    ensures |DropAll(entries, scopes)| == |entries| - |scopes|
  {
    if scopes == [] {
    } else {
      var before, last := scopes[..|scopes| - 1], scopes[|scopes| - 1];
      DropAllLength(entries, before);
      DropAllKeepsOthers(entries, before, last);
      HasScopeFound(DropAll(entries, before), last);
    }
  }

  /** The first-appearance scopes are distinct, are those of the list, and are as many as entries iff none repeats. */
  lemma {:induction false} FirstScopesFacts(entries: seq<InstallEntry>)
    ensures Distinct(FirstScopes(entries))
    ensures forall t :: t in FirstScopes(entries) <==> HasScope(entries, t)
    ensures |FirstScopes(entries)| <= |entries|
    ensures |FirstScopes(entries)| == |entries| <==> OnePerScope(entries)
  {
    if entries == [] {
    } else {
      var before, last := entries[..|entries| - 1], entries[|entries| - 1];
      FirstScopesFacts(before);
      assert entries == before + [last];
      forall t ensures t in FirstScopes(entries) <==> HasScope(entries, t) {
        if HasScope(entries, t) && t != last.scope {
          var k :| 0 <= k < |entries| && entries[k].scope == t;
          assert before[k].scope == t;
        }
        if HasScope(before, t) {
          var k :| 0 <= k < |before| && before[k].scope == t;
          assert entries[k].scope == t;
        }
        assert entries[|entries| - 1].scope == last.scope;
      }
      OnePerScopeGrows(before, last);
    }
  }

  /** The scopes of a list stand in the order in which they first appear. */
  lemma {:induction false} ScopesAppearInOrder(entries: seq<InstallEntry>, i: nat, j: nat) returns (a: nat)
    requires i < j < |FirstScopes(entries)|
    ensures a < |entries| && entries[a].scope == FirstScopes(entries)[i]
    ensures forall b :: 0 <= b <= a ==> entries[b].scope != FirstScopes(entries)[j]
  {
    var before := entries[..|entries| - 1];
    FirstScopesFacts(before);
    if j < |FirstScopes(before)| {
      a := ScopesAppearInOrder(before, i, j);
    } else {
      assert FirstScopes(before)[i] in FirstScopes(before);
      a :| 0 <= a < |before| && before[a].scope == FirstScopes(before)[i];
      assert forall b :: 0 <= b <= a ==> HasScope(before, before[b].scope);
    }
  }

  lemma OnePerScopeGrows(before: seq<InstallEntry>, last: InstallEntry)
    ensures OnePerScope(before + [last]) <==> OnePerScope(before) && !HasScope(before, last.scope)
  {
    var all := before + [last];
    if OnePerScope(all) {
      forall i, j | 0 <= i < j < |before| ensures before[i].scope != before[j].scope {
        assert all[i].scope != all[j].scope;
      }
      forall k | 0 <= k < |before| ensures before[k].scope != last.scope {
        assert all[k].scope != all[|before|].scope;
      }
    }
  }

  // ---------------------------------------------------------------- the cascade

  /** An id with a marketplace part resolves exactly or not at all. */
  lemma ExactUninstall(s: Store, id: string, scope: Scope)
    requires ParsePluginId(id).marketplace.Some?
    requires HasScope(Entries(s, id), scope)
    ensures Uninstall(s, id, scope, true).result == Ok(id)
  {
    HasScopeFound(Entries(s, id), scope);
  }

  lemma CascadeAppend(s: Store, pairs: seq<(string, Scope)>, pair: (string, Scope))
    ensures Cascade(s, pairs + [pair])
         == if Cascade(s, pairs).result.Err? then Cascade(s, pairs)
            else Uninstall(Cascade(s, pairs).store, pair.0, pair.1, true)
  {
    assert (pairs + [pair])[..|pairs|] == pairs;
  }

  lemma DropAllStep(entries: seq<InstallEntry>, before: seq<Scope>, last: Scope)
    ensures DropAll(entries, before + [last]) == DropFirst(DropAll(entries, before), last)
  {
    assert (before + [last])[..|before|] == before;
  }

  lemma PairsGrow(id: string, scopes: seq<Scope>)
    requires scopes != []
    ensures PairsOf(id, scopes) == PairsOf(id, scopes[..|scopes| - 1]) + [(id, scopes[|scopes| - 1])]
  {
  }

  /** Uninstalling one id at distinct scopes it has, after any cascade: all succeed, each removes its first entry. */
  lemma {:induction false} OneIdCascade(s: Store, done: seq<(string, Scope)>, id: string, scopes: seq<Scope>)
    requires Cascade(s, done).result.Ok?
    requires ParsePluginId(id).marketplace.Some? && Distinct(scopes)
    requires forall t :: t in scopes ==> HasScope(Entries(Cascade(s, done).store, id), t)
    ensures var from, to := Cascade(s, done).store, Cascade(s, done + PairsOf(id, scopes));
      && to.result.Ok?
      && OnlyList(from, to.store, id, DropAll(Entries(from, id), scopes))
  {
    hide Entries, MergedKnown, MergedInstalled, Uninstall, Cascade, DropFirst, HasScope;
    if scopes == [] {
      assert done + PairsOf(id, scopes) == done;
    } else {
      var before, last := scopes[..|scopes| - 1], scopes[|scopes| - 1];
      OneIdCascade(s, done, id, before);
      OneMoreScope(s, done, id, before, last);
      PairsGrow(id, scopes);
      assert before + [last] == scopes;
      assert done + PairsOf(id, scopes) == (done + PairsOf(id, before)) + [(id, last)];
    }
  }

  lemma OneMoreScope(s: Store, done: seq<(string, Scope)>, id: string, before: seq<Scope>, last: Scope)
    requires Cascade(s, done).result.Ok? && Cascade(s, done + PairsOf(id, before)).result.Ok?
    requires ParsePluginId(id).marketplace.Some? && last !in before
    requires HasScope(Entries(Cascade(s, done).store, id), last)
    requires var from, mid := Cascade(s, done).store, Cascade(s, done + PairsOf(id, before)).store;
      OnlyList(from, mid, id, DropAll(Entries(from, id), before))
    ensures var from, to := Cascade(s, done).store, Cascade(s, (done + PairsOf(id, before)) + [(id, last)]);
      && to.result.Ok?
      && OnlyList(from, to.store, id, DropAll(Entries(from, id), before + [last]))
  {
    hide Entries, MergedKnown, MergedInstalled, Uninstall, Cascade, HasScope, DropAll, RemoveAt;
    var from, mid := Cascade(s, done).store, Cascade(s, done + PairsOf(id, before)).store;
    CascadeAppend(s, done + PairsOf(id, before), (id, last));
    DropAllKeepsOthers(Entries(from, id), before, last);
    ExactUninstall(mid, id, last);
    UninstallRemovesOne(mid, id, last, true);
    DropAllStep(Entries(from, id), before, last);
  }

  /** Every one of the ids has lost the first entry of each of its scopes, every other id is as it was. */
  ghost predicate Emptied(s: Store, t: Store, ids: seq<string>) {
    && (forall id :: id in ids ==> Entries(t, id) == DropAll(Entries(s, id), FirstScopes(Entries(s, id))))
    && (forall id :: id !in ids ==> Entries(t, id) == Entries(s, id))
    && (forall id :: id !in ids ==> (id in MergedInstalled(t) <==> id in MergedInstalled(s)))
    && SameClaude(s, t)
    && MergedKnown(t) == MergedKnown(s)
  }

  /** The removal's uninstalls all succeed, whatever the lists look like. */
  lemma {:induction false} CascadeEmpties(s: Store, ids: seq<string>)
    requires Distinct(ids)
    requires forall id :: id in ids ==> id in MergedInstalled(s) && ParsePluginId(id).marketplace.Some?
    ensures Cascade(s, CascadePairs(ids, MergedInstalled(s))).result.Ok?
    ensures Emptied(s, Cascade(s, CascadePairs(ids, MergedInstalled(s))).store, ids)
  {
    hide Entries, MergedKnown, MergedInstalled, Cascade, DropAll, FirstScopes, ParsePluginId;
    if ids == [] {
      CascadeNothing(s);
    } else {
      var before, id := ids[..|ids| - 1], ids[|ids| - 1];
      CascadeEmpties(s, before);
      var done := CascadePairs(before, MergedInstalled(s));
      var mid := Cascade(s, done).store;
      EntriesAreListed(s, id);
      FirstScopesFacts(Entries(s, id));
      OneIdCascade(s, done, id, FirstScopes(Entries(s, id)));
      EmptiedGrows(s, mid, Cascade(s, CascadePairs(ids, MergedInstalled(s))).store, before, id);
      assert before + [id] == ids;
    }
  }

  lemma CascadeNothing(s: Store)
    ensures Cascade(s, []) == Reply(s, Ok(""))
  {
  }

  lemma EntriesAreListed(s: Store, id: string)
    requires id in MergedInstalled(s)
    ensures Entries(s, id) == MergedInstalled(s)[id]
  {
  }

  lemma EmptiedGrows(s: Store, mid: Store, t: Store, before: seq<string>, id: string)
    requires Emptied(s, mid, before) && id !in before
    requires OnlyList(mid, t, id, DropAll(Entries(mid, id), FirstScopes(Entries(s, id))))
    ensures Emptied(s, t, before + [id])
  {
    hide Entries, MergedKnown, MergedInstalled, DropAll, FirstScopes;
  }

  // ---------------------------------------------------------------- the removal

  lemma ForgetFrame(s: Store, name: string)
    ensures var t := ForgetMarketplace(s, name);
      && SameClaude(s, t)
      && MergedInstalled(t) == MergedInstalled(s)
      && MergedKnown(t) == MergedKnown(s) - {name}
  {
  }

  /** The project's own settings file has the very value `true` for the plugin. */
  predicate OnInProject(s: Store, id: string) {
    s.project.enabled.Some? && id in s.project.enabled.value && s.project.enabled.value[id] == On
  }

  /** Some merged id of the marketplace is guarded by the project. */
  ghost predicate ProjectGuards(s: Store, name: string) {
    exists id :: id in MergedInstalled(s) && OfMarketplace(id, name) && OnInProject(s, id)
  }

  /** A list the removal empties holds nothing afterwards exactly when no scope was repeated in it. */
  lemma EmptiedIff(entries: seq<InstallEntry>)
    ensures DropAll(entries, FirstScopes(entries)) == [] <==> OnePerScope(entries)
  {
    FirstScopesFacts(entries);
    DropAllLength(entries, FirstScopes(entries));
  }

  /** A refused removal changes nothing, and it is refused exactly for an unknown name or a project-enabled plugin. */
  lemma RemovalIsAllOrNothing(s: Store, name: string, ids: seq<string>)
    requires Enumerates(ids, s, name)
    ensures var r := RemoveMarketplace(s, name, ids);
      && (r.result.Err? ==> r.store == s)
      && (r.result.Err? <==> name !in MergedKnown(s) || ProjectGuards(s, name))
      && (r.result.Err? ==> r.result == Err(if name !in MergedKnown(s) then UnknownMarketplace else ProjectScopeEnabled))
  {
    hide MergedKnown, MergedInstalled, Cascade, OfMarketplace, CascadePairs, ForgetMarketplace;
    RemovalCascades(s, name, ids);
    assert forall id :: id in ids <==> id in MergedInstalled(s) && OfMarketplace(id, name);
    assert forall id :: OnInProject(s, id) == ProjectEnables(s, id);
  }

  lemma RemovalCascades(s: Store, name: string, ids: seq<string>)
    requires Enumerates(ids, s, name)
    ensures Cascade(s, CascadePairs(ids, MergedInstalled(s))).result.Ok?
    ensures Emptied(s, Cascade(s, CascadePairs(ids, MergedInstalled(s))).store, ids)
  {
    hide Entries, MergedKnown, MergedInstalled, Cascade, DropAll, FirstScopes, ParsePluginId;
    assert forall id :: id in ids ==> OfMarketplace(id, name);
    CascadeEmpties(s, ids);
  }

  /**
   * A successful removal takes the name out of the merged known view and touches no other marketplace; and none of its
   * ids resolves any more if and only if no scope was repeated in any of its lists.
   */
  lemma RemovalForgetsEverything(s: Store, name: string, ids: seq<string>)
    requires Enumerates(ids, s, name) && RemoveMarketplace(s, name, ids).result.Ok?
    ensures var t := RemoveMarketplace(s, name, ids).store;
      && SameClaude(s, t)
      && MergedKnown(t) == MergedKnown(s) - {name}
      && (forall id :: !OfMarketplace(id, name) ==> Entries(t, id) == Entries(s, id))
    ensures (forall id :: id in ResolutionIds(RemoveMarketplace(s, name, ids).store) ==> !OfMarketplace(id, name))
       <==> (forall id :: OfMarketplace(id, name) ==> OnePerScope(Entries(s, id)))
  {
    hide Entries, MergedKnown, MergedInstalled, Cascade, DropAll, FirstScopes, OfMarketplace, OnePerScope, ForgetMarketplace;
    hide ResolutionIds, ProjectEnables;
    RemovalCascades(s, name, ids);
    var t := RemoveMarketplace(s, name, ids).store;
    var mid := Cascade(s, CascadePairs(ids, MergedInstalled(s))).store;
    ForgetFrame(mid, name);
    forall id
      ensures !OfMarketplace(id, name) ==> Entries(t, id) == Entries(s, id)
      ensures id in ResolutionIds(t) <==> Entries(t, id) != []
      ensures OfMarketplace(id, name) ==> (Entries(t, id) == [] <==> OnePerScope(Entries(s, id)))
    {
      SameInstalled(mid, t, id);
      NoEntries(s, id);
      EmptiedIff(Entries(s, id));
    }
  }

  lemma SameInstalled(s: Store, t: Store, id: string)
    requires MergedInstalled(t) == MergedInstalled(s)
    ensures Entries(t, id) == Entries(s, id)
    ensures id in ResolutionIds(t) <==> Entries(t, id) != []
  {
  }

  lemma NoEntries(s: Store, id: string)
    ensures id !in MergedInstalled(s) ==> Entries(s, id) == []
    ensures OnePerScope([])
  {
  }

  /**
   * A list with two entries of one scope, as a claude home has for a plugin installed in two projects: the removal succeeds
   * and the plugin still resolves.
   */
  lemma RepeatedScopeIsLeftBehind(first: InstallEntry, second: InstallEntry, known: KnownEntry)
    requires first.scope == second.scope
    ensures var s := Store(true, map["m" := known], map["p@m" := [first, second]], map[], map[], {}, map[],
                           Settings(None, None), Settings(None, None), Settings(None, None), {});
      && Enumerates(["p@m"], s, "m")
      && RemoveMarketplace(s, "m", ["p@m"]).result.Ok?
      && "m" !in MergedKnown(RemoveMarketplace(s, "m", ["p@m"]).store)
      && "p@m" in ResolutionIds(RemoveMarketplace(s, "m", ["p@m"]).store)
  {
    hide RemoveMarketplace, ParsePluginId, ResolutionIds;
    var s := Store(true, map["m" := known], map["p@m" := [first, second]], map[], map[], {}, map[],
                   Settings(None, None), Settings(None, None), Settings(None, None), {});
    ParseInvertsPrint("p", "m");
    assert "p" + "@" + "m" == "p@m";
    assert IdsOf(s, "m") == {"p@m"};
    RemovalIsAllOrNothing(s, "m", ["p@m"]);
    RemovalForgetsEverything(s, "m", ["p@m"]);
    var list := Entries(s, "p@m");
    assert list == [first, second] && list[0].scope == list[1].scope;
    var t := RemoveMarketplace(s, "m", ["p@m"]).store;
    var id :| id in ResolutionIds(t) && OfMarketplace(id, "m");
    OnlyListedResolve(s, t, "m", ["p@m"], id);
  }

  /** No id comes to resolve by a removal. */
  lemma OnlyListedResolve(s: Store, t: Store, name: string, ids: seq<string>, id: string)
    requires Enumerates(ids, s, name) && RemoveMarketplace(s, name, ids).result.Ok?
    requires t == RemoveMarketplace(s, name, ids).store
    requires id in ResolutionIds(t) && OfMarketplace(id, name)
    ensures id in ids
  {
    hide Cascade, DropAll, FirstScopes, MergedKnown, MergedInstalled, ForgetMarketplace, ParsePluginId, Entries, ResolutionIds;
    RemovalCascades(s, name, ids);
    var mid := Cascade(s, CascadePairs(ids, MergedInstalled(s))).store;
    ForgetFrame(mid, name);
    SameInstalled(mid, t, id);
    NoEntries(s, id);
    assert id in ids || Entries(mid, id) == Entries(s, id);
  }
}
