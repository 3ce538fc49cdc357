/** The known-marketplaces file of the dsh home gives each name one meaning: an entry, or a tombstone over the claude home. */
module PluginKnownFile {
  import opened Basics
  import opened PluginState
  import opened PluginOps
  import opened PluginViews
  import opened PluginAgreement
  import opened PluginHistories

  /** No name has both an entry and a tombstone, and a single-root home has no tombstones. */
  ghost predicate OneMeaning(s: Store) { (forall n :: n in s.dshKnown ==> n !in s.tombstones) && (!s.dual ==> s.tombstones == {}) }

  lemma SameKnownMeaning(s: Store, t: Store)
    requires OneMeaning(s) && SameKnown(s, t) && t.dual == s.dual
    ensures OneMeaning(t)
  {
  }

  lemma RemoveEntryKeepsKnown(s: Store, id: string, k: nat)
    requires k < |Entries(s, id)|
    ensures SameKnown(s, RemoveEntry(s, id, k)) && SameClaude(s, RemoveEntry(s, id, k))
  {
    hide RemoveEntry;
    RemoveEntryShows(s, id, k);
  }

  lemma UninstallKeepsKnown(s: Store, arg: string, scope: Scope, skipGuard: bool)
    ensures var t := Uninstall(s, arg, scope, skipGuard).store; SameKnown(s, t) && t.dual == s.dual
  {
    hide RemoveEntry, Entries, ResolveInstalled, MergedInstalled;
    var r := Uninstall(s, arg, scope, skipGuard);
    if r.result.Ok? { RemoveEntryKeepsKnown(s, r.result.value, FindScope(Entries(s, r.result.value), scope).value); }
  }

  lemma {:induction false} CascadeKeepsKnown(s: Store, pairs: seq<(string, Scope)>)
    ensures var t := Cascade(s, pairs).store; SameKnown(s, t) && t.dual == s.dual
  {
    hide Uninstall;
    if pairs == [] {
    } else {
      var before, last := pairs[..|pairs| - 1], pairs[|pairs| - 1];
      CascadeKeepsKnown(s, before);
      UninstallKeepsKnown(Cascade(s, before).store, last.0, last.1, true);
    }
  }

  lemma InstallKeepsKnown(s: Store, arg: string, scope: Scope, declared: seq<Declared>, copied: Copied)
    ensures var t := Install(s, arg, scope, declared, copied).store; SameKnown(s, t) && t.dual == s.dual
  {
    hide Entries, ResolveDeclared, ApplyEnabledFlag;
    var r := Install(s, arg, scope, declared, copied);
    if r.result.Ok? { FlagWriteFrame(s, scope, r.result.value, Some(On)); }
  }

  lemma UpdateKeepsKnown(s: Store, arg: string, scope: Scope, manifestOk: bool, copied: Copied)
    ensures var t := Update(s, arg, scope, manifestOk, copied).store; SameKnown(s, t) && t.dual == s.dual
  {
    hide Entries, ResolveInstalled, MergedInstalled, MergedKnown, ResolutionIds, MarkOrphan, Refreshed;
    var r := Update(s, arg, scope, manifestOk, copied);
    if r.result.Ok? {
      var id := r.result.value;
      var k := FindScope(Entries(s, id), scope).value;
      var entry := Entries(s, id)[k];
      MarkOrphanFrame(s.(dshInstalled := s.dshInstalled[id := Entries(s, id)[k := Refreshed(entry, copied)]]), entry.installPath);
    }
  }

  lemma ToggleKeepsKnown(s: Store, arg: string, on: bool, at: Option<Scope>)
    ensures var t := Toggle(s, arg, on, at).store; SameKnown(s, t) && t.dual == s.dual
  {
    hide Entries, ResolveInstalled, MergedInstalled, ResolutionIds, ApplyEnabledFlag;
    var r := Toggle(s, arg, on, at);
    if r.result.Ok? {
      var scope := if at.Some? then at.value else Entries(s, r.result.value)[0].scope;
      FlagWriteFrame(s, scope, r.result.value, Some(if on then On else Off));
    }
  }

  lemma WriteKeepsMeaning(s: Store, name: string, entry: KnownEntry)
    requires OneMeaning(s)
    ensures OneMeaning(WriteKnown(s, name, entry)) && WriteKnown(s, name, entry).dual == s.dual
  {
  }

  lemma AddKeepsMeaning(s: Store, scope: Scope, now: int, source: Source, candidate: string, manifestName: Option<string>, location: string)
    requires OneMeaning(s)
    ensures OneMeaning(AddMarketplace(s, scope, now, source, candidate, manifestName, location).store)
  {
    hide SourceKnown, AddUnder, AddAt, LiveDsh, VisibleClaudeKnown, WriteKnown, OneMeaning;
    var name := AddUnder(s, source, candidate, manifestName);
    if name.Some? { CommitKeepsMeaning(s, scope, now, name.value, source, AddAt(s, source, candidate, location)); }
  }

  lemma CommitKeepsMeaning(s: Store, scope: Scope, now: int, name: string, source: Source, location: string)
    requires OneMeaning(s)
    ensures OneMeaning(CommitAdd(s, scope, now, name, source, location).store)
  {
    hide WriteKnown, OneMeaning, LiveDsh, VisibleClaudeKnown, DeclareExtra;
    forall entry ensures OneMeaning(WriteKnown(s, name, entry)) { WriteKeepsMeaning(s, name, entry); }
    forall t ensures OneMeaning(t) ==> OneMeaning(DeclareExtra(t, scope, name, source)) { DeclareKeepsMeaning(t, scope, name, source); }
  }

  lemma DeclareKeepsMeaning(s: Store, scope: Scope, name: string, source: Source)
    ensures OneMeaning(s) ==> OneMeaning(DeclareExtra(s, scope, name, source))
  {
  }

  lemma {:induction false} BatchKeepsMeaning(s: Store, targets: seq<string>, now: int, fetched: map<string, string>)
    requires OneMeaning(s) && forall t :: t in targets ==> t in MergedKnown(s)
    ensures OneMeaning(UpdateMarketplaces(s, targets, now, fetched).store)
  {
    hide MergedKnown, UpdatedEntry, WriteKnown, OneMeaning;
    if targets == [] {
    } else {
      BatchKeepsMeaning(s, targets[..|targets| - 1], now, fetched);
      var before := UpdateMarketplaces(s, targets[..|targets| - 1], now, fetched);
      var entry := UpdatedEntry(s, targets[|targets| - 1], now, fetched);
      if entry.Some? { WriteKeepsMeaning(before.store, targets[|targets| - 1], entry.value); }
    }
  }

  lemma RemovalKeepsMeaning(s: Store, name: string, ids: seq<string>)
    requires OneMeaning(s) && Enumerates(ids, s, name)
    ensures OneMeaning(RemoveMarketplace(s, name, ids).store)
  {
    hide Cascade, MergedKnown, MergedInstalled, CascadePairs, OfMarketplace, ProjectEnables;
    CascadeKeepsKnown(s, CascadePairs(ids, MergedInstalled(s)));
  }

  /** Every call of the manager keeps it. */
  lemma CallKeepsMeaning(s: Store, call: Call)
    requires Legal(s, call) && OneMeaning(s)
    ensures OneMeaning(Apply(s, call).store)
  {
    hide OneMeaning, MergedKnown, Covers, Enumerates, Listed, Install, Uninstall, Update, Toggle, AddMarketplace, UpdateMarketplaces,
         RemoveMarketplace, MergedInstalled;
    var t := Apply(s, call).store;
    match call
    case CallInstall(arg, scope, declared, copied) =>
      InstallKeepsKnown(s, arg, scope, declared, copied);
      SameKnownMeaning(s, t);
    case CallUninstall(arg, scope) =>
      UninstallKeepsKnown(s, arg, scope, false);
      SameKnownMeaning(s, t);
    case CallUpdate(arg, scope, manifestOk, copied) =>
      UpdateKeepsKnown(s, arg, scope, manifestOk, copied);
      SameKnownMeaning(s, t);
    case CallToggle(arg, on, at) =>
      ToggleKeepsKnown(s, arg, on, at);
      SameKnownMeaning(s, t);
    case CallAdd(scope, now, source, candidate, manifestName, location) =>
      AddKeepsMeaning(s, scope, now, source, candidate, manifestName, location);
    case CallUpdateMarketplaces(targets, now, fetched) => BatchKeepsMeaning(s, targets, now, fetched);
    case CallRemove(name, order) =>
      ListedEnumerates(order, s, name);
      RemovalKeepsMeaning(s, name, Listed(order, s, name));
  }

  lemma {:induction false} RunKeepsMeaning(states: seq<Store>, calls: seq<Call>, k: nat)
    requires IsRun(states, calls) && OneMeaning(states[0]) && k <= |calls|
    ensures OneMeaning(states[k])
    decreases k
  {
    hide OneMeaning, Legal, Apply;
    if k == 0 {
    } else {
      RunKeepsMeaning(states, calls, k - 1);
      CallKeepsMeaning(states[k - 1], calls[k - 1]);
    }
  }
}
