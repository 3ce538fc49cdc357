/** Each operation acts alike on stores with the same view, and exactly where the layering shows through instead. */
module PluginAgreement {
  import opened Basics
  import opened PluginState
  import opened PluginOps
  import opened PluginMarketplaces
  import opened PluginRemoval
  import opened PluginRefinement

  // ---------------------------------------------------------------- operations with the same view

  lemma InstallView(a: Store, b: Store, arg: string, scope: Scope, declared: seq<Declared>, copied: Copied)
    requires SameView(a, b)
    ensures Install(a, arg, scope, declared, copied).result == Install(b, arg, scope, declared, copied).result
    ensures SameView(Install(a, arg, scope, declared, copied).store, Install(b, arg, scope, declared, copied).store)
  {
    hide ResolveDeclared, ApplyEnabledFlag, Entries, MergedKnown, SameUserOn, SameFiles, FindScope;
    var resolved := ResolveDeclared(arg, declared);
    if resolved.Ok? {
      var id := resolved.value;
      assert Entries(a, id) == Entries(b, id);
      var list := Entries(a, id) + [NewEntry(scope, copied)];
      FlagWriteView(a, b, scope, id, On);
      WriteListView(ApplyEnabledFlag(a, scope, id, Some(On)), ApplyEnabledFlag(b, scope, id, Some(On)), id, list);
    }
  }

  lemma UpdateView(a: Store, b: Store, arg: string, scope: Scope, manifestOk: bool, copied: Copied)
    requires SameView(a, b)
    ensures Update(a, arg, scope, manifestOk, copied).result == Update(b, arg, scope, manifestOk, copied).result
    ensures SameView(Update(a, arg, scope, manifestOk, copied).store, Update(b, arg, scope, manifestOk, copied).store)
  {
    hide ResolveInstalled, ResolutionIds, Entries, MergedKnown, SameUserOn, SameFiles, MarkOrphan, ParsePluginId;
    SameResolution(a, b);
    var resolved := ResolveInstalled(arg, ResolutionIds(a));
    if resolved.Ok? {
      var id := resolved.value;
      assert Entries(a, id) == Entries(b, id);
      var found := FindScope(Entries(a, id), scope);
      if found.Some? {
        var entry := Entries(a, id)[found.value];
        var list := Entries(a, id)[found.value := Refreshed(entry, copied)];
        WriteListView(a, b, id, list);
        MarkOrphanView(WriteList(a, id, list), WriteList(b, id, list), entry.installPath);
      }
    }
  }

  lemma ToggleView(a: Store, b: Store, arg: string, on: bool, scope: Option<Scope>)
    requires SameView(a, b)
    ensures Toggle(a, arg, on, scope).result == Toggle(b, arg, on, scope).result
    ensures SameView(Toggle(a, arg, on, scope).store, Toggle(b, arg, on, scope).store)
  {
    hide ResolveInstalled, ResolutionIds, Entries, MergedKnown, SameUserOn, SameFiles, ApplyEnabledFlag;
    SameResolution(a, b);
    var resolved := ResolveInstalled(arg, ResolutionIds(a));
    if resolved.Ok? {
      var id := resolved.value;
      assert Entries(a, id) == Entries(b, id);
      if scope.Some? { FlagWriteView(a, b, scope.value, id, if on then On else Off); }
      else if Entries(a, id) != [] { FlagWriteView(a, b, Entries(a, id)[0].scope, id, if on then On else Off); }
    }
  }

  lemma FlatUninstallView(a: Store, b: Store, arg: string, scope: Scope, skipGuard: bool)
    requires SameView(a, b)
    ensures var x, y := FlatUninstall(a, arg, scope, skipGuard), FlatUninstall(b, arg, scope, skipGuard);
      if x.None? then y.None? else y.Some? && x.value.result == y.value.result && SameView(x.value.store, y.value.store)
  {
    hide ResolveInstalled, ResolutionIds, Entries, MergedKnown, SameUserOn, RemoveEntry;
    SameResolution(a, b);
    var resolved := ResolveInstalled(arg, ResolutionIds(a));
    if resolved.Ok? {
      var id := resolved.value;
      assert Entries(a, id) == Entries(b, id);
      var found := FindScope(Entries(a, id), scope);
      if found.Some? { RemoveEntryView(a, b, id, found.value); }
    }
  }

  /**
   * Uninstall acts alike on stores with the same view exactly when a shadowed rival does not stop it in only one of
   * them.
   */
  lemma UninstallView(a: Store, b: Store, arg: string, scope: Scope, skipGuard: bool)
    requires SameView(a, b)
    ensures var x, y := Uninstall(a, arg, scope, skipGuard), Uninstall(b, arg, scope, skipGuard);
      if ShadowedRival(a, arg) == ShadowedRival(b, arg) || FlatUninstall(a, arg, scope, skipGuard).None?
      then && x.result.Ok? == y.result.Ok?
           && (x.result.Ok? ==> x.result == y.result)
           && SameView(x.store, y.store)
      else x.result.Ok? != y.result.Ok?
  {
    hide Uninstall, ShadowedRival, SameView, ResolveInstalled, ResolutionIds, Entries, RemoveEntry, ProjectEnables;
    UninstallIsFlat(a, arg, scope, skipGuard);
    UninstallIsFlat(b, arg, scope, skipGuard);
    FlatUninstallView(a, b, arg, scope, skipGuard);
  }

  // ---------------------------------------------------------------- adding a marketplace

  /** What an add leaves in the known view: no change, with success or not, or an entry under a name. */
  datatype Added = Unchanged(ok: bool) | Wrote(name: string, entry: KnownEntry)

  function AddEffect(s: Store, now: int, source: Source, candidate: string, manifestName: Option<string>, location: string): Added {
    if SourceKnown(s, source) then Unchanged(true)
    else match AddUnder(s, source, candidate, manifestName)
      case None => Unchanged(false)
      case Some(name) =>
        if LiveDsh(s, name).Some? && LiveDsh(s, name).value.source != source then Unchanged(false)
        else Wrote(name, CommittedEntry(s, name, source, AddAt(s, source, candidate, location), now))
  }

  lemma DeclareExtraFiles(a: Store, b: Store, scope: Scope, name: string, source: Source)
    requires SameFiles(a, b)
    ensures SameFiles(DeclareExtra(a, scope, name, source), DeclareExtra(b, scope, name, source))
  {
  }

  lemma CommitFiles(s: Store, scope: Scope, now: int, name: string, source: Source, location: string)
    requires LiveDsh(s, name).None? || LiveDsh(s, name).value.source == source
    ensures SameFiles(CommitAdd(s, scope, now, name, source, location).store, DeclareExtra(s, scope, name, source))
  {
  }

  /** An add has exactly its effect, and declares the marketplace along with what it writes. */
  lemma AddHasEffect(s: Store, scope: Scope, now: int, source: Source, candidate: string, manifestName: Option<string>, location: string)
    ensures var r, effect := AddMarketplace(s, scope, now, source, candidate, manifestName, location),
                             AddEffect(s, now, source, candidate, manifestName, location);
      match effect
      case Unchanged(ok) => r.store == s && r.result.Ok? == ok
      case Wrote(name, entry) =>
        r.result.Ok? && OnlyKnown(s, r.store, name, entry) && entry.source == source
        && SameFiles(r.store, DeclareExtra(s, scope, name, source))
  {
    hide MergedKnown, CommitAdd, CommittedEntry, OnlyKnown, DeclareExtra, SameFiles, FastPath, LiveDsh, SourceKnown;
    var name, at := AddUnder(s, source, candidate, manifestName), AddAt(s, source, candidate, location);
    if !SourceKnown(s, source) && name.Some? {
      CommitActsOnOneName(s, scope, now, name.value, source, at);
      if LiveDsh(s, name.value).None? || LiveDsh(s, name.value).value.source == source {
        CommitFiles(s, scope, now, name.value, source, at);
      }
    }
  }

  /** Writing the same entry under the same name keeps the views the same. */
  lemma WroteView(a: Store, b: Store, x: Store, y: Store, scope: Scope, name: string, source: Source, entry: KnownEntry)
    requires SameView(a, b) && OnlyKnown(a, x, name, entry) && OnlyKnown(b, y, name, entry)
    requires SameFiles(x, DeclareExtra(a, scope, name, source)) && SameFiles(y, DeclareExtra(b, scope, name, source))
    ensures SameView(x, y)
  {
    hide Entries, MergedKnown, MergedInstalled, MergedUserFlags, DeclareExtra, SameFiles;
    DeclareExtraFiles(a, b, scope, name, source);
    SameFilesChain(x, DeclareExtra(a, scope, name, source), DeclareExtra(b, scope, name, source), y);
    SameEntriesFollow(a, b, x, y);
    SameUserOnFollows(a, b, x, y);
  }

  lemma SameFilesChain(a: Store, b: Store, c: Store, d: Store)
    requires SameFiles(a, b) && SameFiles(b, c) && SameFiles(d, c)
    ensures SameFiles(a, d)
  {
  }

  lemma SameEntriesFollow(a: Store, b: Store, a': Store, b': Store)
    requires SameEntries(a, b) && MergedInstalled(a') == MergedInstalled(a) && MergedInstalled(b') == MergedInstalled(b)
    ensures SameEntries(a', b')
  {
    hide MergedInstalled;
    forall id ensures Entries(a', id) == Entries(b', id) { assert Entries(a, id) == Entries(b, id); }
  }

  /** Add acts alike on stores with the same view exactly when it has the same effect on both. */
  lemma AddView(a: Store, b: Store, scope: Scope, now: int, source: Source, candidate: string, manifestName: Option<string>, location: string)
    requires SameView(a, b)
    ensures var x, y := AddMarketplace(a, scope, now, source, candidate, manifestName, location),
                        AddMarketplace(b, scope, now, source, candidate, manifestName, location);
      (x.result.Ok? == y.result.Ok? && SameView(x.store, y.store)) <==>
        AddEffect(a, now, source, candidate, manifestName, location) == AddEffect(b, now, source, candidate, manifestName, location)
  {
    hide MergedKnown, AddMarketplace, SameEntries, SameFiles, SameUserOn, CommittedEntry, AddUnder, AddAt, LiveDsh, DeclareExtra;
    AddHasEffect(a, scope, now, source, candidate, manifestName, location);
    AddHasEffect(b, scope, now, source, candidate, manifestName, location);
    var x, y := AddMarketplace(a, scope, now, source, candidate, manifestName, location),
                AddMarketplace(b, scope, now, source, candidate, manifestName, location);
    var e, d := AddEffect(a, now, source, candidate, manifestName, location), AddEffect(b, now, source, candidate, manifestName, location);
    if e == d {
      if e.Wrote? { WroteView(a, b, x.store, y.store, scope, e.name, source, e.entry); }
    } else if e.Wrote? && d.Wrote? {
      NewSourceTells(MergedKnown(a), e, d, source);
    }
  }

  /** From what two adds of an unknown source leave, one can tell what they wrote. */
  lemma NewSourceTells(known: map<string, KnownEntry>, e: Added, d: Added, source: Source)
    requires e.Wrote? && d.Wrote? && e != d && e.entry.source == source && d.entry.source == source
    requires forall n :: n in known ==> known[n].source != source
    ensures known[e.name := e.entry] != known[d.name := d.entry]
  {
    var m, w := known[e.name := e.entry], known[d.name := d.entry];
    assert m[e.name] == e.entry && w[d.name] == d.entry;
    assert e.name in known ==> m[e.name] != known[e.name];
  }

  // ---------------------------------------------------------------- updating marketplaces

  /** The targets that a batch gets to: those before the first one whose refresh fails. */
  function Reached(targets: seq<string>, fetched: map<string, string>): (reached: seq<string>)
    ensures reached <= targets && forall t :: t in reached ==> t in fetched
  {
    if targets == [] then []
    else
      var before, last := Reached(targets[..|targets| - 1], fetched), targets[|targets| - 1];
      if |before| == |targets| - 1 && last in fetched then before + [last] else before
  }

  lemma {:induction false} BatchReaches(s: Store, targets: seq<string>, now: int, fetched: map<string, string>)
    requires forall t :: t in targets ==> t in MergedKnown(s)
    ensures UpdateMarketplaces(s, targets, now, fetched).updated == Reached(targets, fetched)
    ensures UpdateMarketplaces(s, targets, now, fetched).failed <==> Reached(targets, fetched) != targets
  {
    hide MergedKnown, UpdatedEntry, WriteKnown;
    if targets == [] {
    } else {
      var before, last := targets[..|targets| - 1], targets[|targets| - 1];
      BatchReaches(s, before, now, fetched);
      UpdatedEntryKeeps(s, last, now, fetched);
    }
  }

  /** An update writes the same entry for every target it gets to. */
  predicate SameUpdates(a: Store, b: Store, targets: seq<string>, now: int, fetched: map<string, string>)
    requires MergedKnown(a) == MergedKnown(b) && forall t :: t in targets ==> t in MergedKnown(a)
  {
    forall t :: t in Reached(targets, fetched) ==> UpdatedEntry(a, t, now, fetched) == UpdatedEntry(b, t, now, fetched)
  }

  lemma {:induction false} SameUpdatesView(a: Store, b: Store, targets: seq<string>, now: int, fetched: map<string, string>)
    requires SameView(a, b) && forall t :: t in targets ==> t in MergedKnown(a)
    requires SameUpdates(a, b, targets, now, fetched)
    ensures SameView(UpdateMarketplaces(a, targets, now, fetched).store, UpdateMarketplaces(b, targets, now, fetched).store)
  {
    hide MergedKnown, UpdatedEntry, SameEntries, SameFiles, SameUserOn, WriteKnown;
    if targets == [] {
    } else {
      var before, last := targets[..|targets| - 1], targets[|targets| - 1];
      assert forall t :: t in Reached(before, fetched) ==> t in Reached(targets, fetched);
      SameUpdatesView(a, b, before, now, fetched);
      BatchReaches(a, before, now, fetched);
      BatchReaches(b, before, now, fetched);
      UpdatedEntryKeeps(a, last, now, fetched);
      UpdatedEntryKeeps(b, last, now, fetched);
      if |Reached(before, fetched)| == |before| && last in fetched {
        assert last in Reached(targets, fetched);
        KnownWriteView(UpdateMarketplaces(a, before, now, fetched).store, UpdateMarketplaces(b, before, now, fetched).store,
                       last, UpdatedEntry(a, last, now, fetched).value);
      }
    }
  }

  /** A marketplace update acts alike on stores with the same view exactly when it writes the same entries in both. */
  lemma BatchView(a: Store, b: Store, targets: seq<string>, now: int, fetched: map<string, string>)
    requires SameView(a, b) && forall t :: t in targets ==> t in MergedKnown(a)
    ensures var x, y := UpdateMarketplaces(a, targets, now, fetched), UpdateMarketplaces(b, targets, now, fetched);
      && x.failed == y.failed && x.updated == y.updated
      && (SameView(x.store, y.store) <==> SameUpdates(a, b, targets, now, fetched))
  {
    hide MergedKnown, UpdatedEntry, SameEntries, SameFiles, SameUserOn, UpdateMarketplaces, Reached;
    BatchReaches(a, targets, now, fetched);
    BatchReaches(b, targets, now, fetched);
    BatchCommitsPrefix(a, targets, now, fetched);
    BatchCommitsPrefix(b, targets, now, fetched);
    var x, y := UpdateMarketplaces(a, targets, now, fetched).store, UpdateMarketplaces(b, targets, now, fetched).store;
    if SameUpdates(a, b, targets, now, fetched) { SameUpdatesView(a, b, targets, now, fetched); }
    if SameView(x, y) {
      forall t | t in Reached(targets, fetched) ensures UpdatedEntry(a, t, now, fetched) == UpdatedEntry(b, t, now, fetched) {
        UpdatedEntryKeeps(a, t, now, fetched);
        UpdatedEntryKeeps(b, t, now, fetched);
        LiveIsKnown(x, t);
        LiveIsKnown(y, t);
      }
    }
  }

  lemma LiveIsKnown(s: Store, name: string)
    requires LiveDsh(s, name).Some?
    ensures name in MergedKnown(s) && MergedKnown(s)[name] == LiveDsh(s, name).value
  {
  }

  lemma KnownWriteView(a: Store, b: Store, name: string, entry: KnownEntry)
    requires SameView(a, b)
    ensures SameView(WriteKnown(a, name, entry), WriteKnown(b, name, entry))
  {
    hide MergedKnown, MergedInstalled, MergedUserFlags, Entries;
    var a', b' := WriteKnown(a, name, entry), WriteKnown(b, name, entry);
    KnownWriteShows(a, name, entry);
    KnownWriteShows(b, name, entry);
    KnownWriteFrame(a, a');
    KnownWriteFrame(b, b');
    SameEntriesFollow(a, b, a', b');
    SameUserOnFollows(a, b, a', b');
  }

  lemma KnownWriteFrame(s: Store, t: Store)
    requires OnlyKnownDiffers(s, t)
    ensures MergedInstalled(t) == MergedInstalled(s) && MergedUserFlags(t) == MergedUserFlags(s)
    ensures SameFiles(s, t)
  {
  }

  // ---------------------------------------------------------------- removing a marketplace

  /** The listed ids that are merged ids of a marketplace, in the listed order. */
  function Listed(order: seq<string>, s: Store, name: string): seq<string> {
    if order == [] then []
    else
      var before, last := Listed(order[..|order| - 1], s, name), order[|order| - 1];
      if last in IdsOf(s, name) then before + [last] else before
  }

  /** The order that the source obtains by sorting: every id of the marketplace appears in it, once. */
  ghost predicate Covers(order: seq<string>, s: Store, name: string) {
    Distinct(order) && forall id :: id in IdsOf(s, name) ==> id in order
  }

  lemma {:induction false} ListedIds(order: seq<string>, s: Store, name: string)
    requires Distinct(order)
    ensures Distinct(Listed(order, s, name))
    ensures forall id :: id in Listed(order, s, name) <==> id in order && id in IdsOf(s, name)
  {
    hide IdsOf;
    if order == [] {
    } else {
      var before, last := order[..|order| - 1], order[|order| - 1];
      ListedIds(before, s, name);
      assert order == before + [last];
    }
  }

  lemma ListedEnumerates(order: seq<string>, s: Store, name: string)
    requires Covers(order, s, name)
    ensures Enumerates(Listed(order, s, name), s, name)
  {
    hide IdsOf;
    ListedIds(order, s, name);
  }

  /** Shadowed ids contribute no uninstalls, so the cascade depends on the merged entries only. */
  lemma {:induction false} SamePairs(a: Store, b: Store, order: seq<string>, name: string)
    requires SameEntries(a, b) && Distinct(order)
    requires forall id :: id in Listed(order, a, name) ==> id in MergedInstalled(a)
    requires forall id :: id in Listed(order, b, name) ==> id in MergedInstalled(b)
    ensures CascadePairs(Listed(order, a, name), MergedInstalled(a))
         == CascadePairs(Listed(order, b, name), MergedInstalled(b))
  {
    hide MergedInstalled, IdsOf, Entries;
    if order == [] {
    } else {
      var before, last := order[..|order| - 1], order[|order| - 1];
      ListedIds(order, a, name);
      ListedIds(order, b, name);
      ListedIds(before, a, name);
      ListedIds(before, b, name);
      SamePairs(a, b, before, name);
      assert Entries(a, last) == Entries(b, last);
      LastPairs(a, order, name);
      LastPairs(b, order, name);
    }
  }

  lemma LastPairs(s: Store, order: seq<string>, name: string)
    requires order != []
    requires forall id :: id in Listed(order, s, name) ==> id in MergedInstalled(s)
    requires forall id :: id in Listed(order[..|order| - 1], s, name) ==> id in MergedInstalled(s)
    ensures var before, last := order[..|order| - 1], order[|order| - 1];
      CascadePairs(Listed(order, s, name), MergedInstalled(s))
        == CascadePairs(Listed(before, s, name), MergedInstalled(s))
         + if OfMarketplace(last, name) then PairsOf(last, FirstScopes(Entries(s, last))) else []
  {
    hide MergedInstalled, OfMarketplace;
    var before, last := order[..|order| - 1], order[|order| - 1];
    var listed := Listed(before, s, name);
    if last in IdsOf(s, name) {
      assert (listed + [last])[..|listed|] == listed;
      assert last in Listed(order, s, name);
    } else {
      assert OfMarketplace(last, name) ==> Entries(s, last) == [];
      assert PairsOf(last, FirstScopes([])) == [];
    }
  }

  lemma {:induction false} CascadeView(a: Store, b: Store, pairs: seq<(string, Scope)>)
    requires SameView(a, b)
    requires forall p :: p in pairs ==> ParsePluginId(p.0).marketplace.Some?
    ensures Cascade(a, pairs).result.Ok? == Cascade(b, pairs).result.Ok?
    ensures SameView(Cascade(a, pairs).store, Cascade(b, pairs).store)
  {
    hide SameView, Uninstall, ParsePluginId;
    if pairs == [] {
    } else {
      var before, last := pairs[..|pairs| - 1], pairs[|pairs| - 1];
      CascadeView(a, b, before);
      var x, y := Cascade(a, before).store, Cascade(b, before).store;
      ExactIdHasNoRival(x, last.0);
      ExactIdHasNoRival(y, last.0);
      UninstallView(x, y, last.0, last.1, true);
    }
  }

  lemma ExactIdHasNoRival(s: Store, id: string)
    requires ParsePluginId(id).marketplace.Some?
    ensures !ShadowedRival(s, id)
  {
  }

  lemma {:induction false} CascadeIds(ids: seq<string>, installed: map<string, seq<InstallEntry>>)
    requires forall id :: id in ids ==> id in installed
    ensures forall p :: p in CascadePairs(ids, installed) ==> p.0 in ids
  {
    if ids == [] {
    } else {
      CascadeIds(ids[..|ids| - 1], installed);
    }
  }

  lemma ForgetView(a: Store, b: Store, name: string)
    requires SameView(a, b)
    ensures SameView(ForgetMarketplace(a, name), ForgetMarketplace(b, name))
  {
    hide MergedKnown, MergedInstalled, MergedUserFlags, Entries, ForgetMarketplace, SameFiles;
    var a', b' := ForgetMarketplace(a, name), ForgetMarketplace(b, name);
    ForgetFrame(a, name);
    ForgetFrame(b, name);
    ForgetFlags(a, name);
    ForgetFlags(b, name);
    ForgetFiles(a, b, name);
    SameEntriesFollow(a, b, a', b');
    SameUserOnFollows(a, b, a', b');
  }

  lemma ForgetFlags(s: Store, name: string)
    ensures MergedUserFlags(ForgetMarketplace(s, name)) == MergedUserFlags(s)
  {
    hide MergedKnown;
  }

  lemma ForgetFiles(a: Store, b: Store, name: string)
    requires SameFiles(a, b)
    ensures SameFiles(ForgetMarketplace(a, name), ForgetMarketplace(b, name))
  {
  }

  /**
   * A removal acts alike on stores with the same view exactly when it is unknown in both or the project guard, which also
   * looks at ids that are only shadowed, says the same in both.
   */
  lemma RemovalView(a: Store, b: Store, name: string, order: seq<string>)
    requires SameView(a, b) && Covers(order, a, name) && Covers(order, b, name)
    ensures Enumerates(Listed(order, a, name), a, name) && Enumerates(Listed(order, b, name), b, name)
    ensures var x, y := RemoveMarketplace(a, name, Listed(order, a, name)), RemoveMarketplace(b, name, Listed(order, b, name));
      (x.result.Ok? == y.result.Ok? && SameView(x.store, y.store)) <==>
        name !in MergedKnown(a) || ProjectGuards(a, name) == ProjectGuards(b, name)
  {
    hide Cascade, Listed, SameEntries, SameUserOn, SameFiles, MergedInstalled, MergedKnown, ParsePluginId;
    hide ForgetMarketplace, ProjectGuards, ProjectEnables, CascadePairs;
    ListedEnumerates(order, a, name);
    ListedEnumerates(order, b, name);
    RemovalIsAllOrNothing(a, name, Listed(order, a, name));
    RemovalIsAllOrNothing(b, name, Listed(order, b, name));
    if name in MergedKnown(a) && !ProjectGuards(a, name) && !ProjectGuards(b, name) {
      assert forall id :: id in Listed(order, a, name) ==> OfMarketplace(id, name);
      SamePairs(a, b, order, name);
      var pairs := CascadePairs(Listed(order, a, name), MergedInstalled(a));
      CascadeIds(Listed(order, a, name), MergedInstalled(a));
      CascadeView(a, b, pairs);
      ForgetView(Cascade(a, pairs).store, Cascade(b, pairs).store, name);
    }
  }
}
