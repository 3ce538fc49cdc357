/** Whole runs of the plugin manager over a layered store, against the same run over its flat twin. */
module PluginHistories {
  import opened Basics
  import opened PluginState
  import opened PluginOps
  import opened PluginViews
  import opened PluginMarketplaces
  import opened PluginRemoval
  import opened PluginRefinement
  import opened PluginAgreement
  import opened PluginNeutral

  /** One manager call, with everything the world contributes to it. */
  datatype Call =
    | CallInstall(arg: string, scope: Scope, declared: seq<Declared>, copied: Copied)
    | CallUninstall(arg: string, scope: Scope)
    | CallUpdate(arg: string, scope: Scope, manifestOk: bool, copied: Copied)
    | CallToggle(arg: string, on: bool, at: Option<Scope>)
    | CallAdd(scope: Scope, now: int, source: Source, candidate: string, manifestName: Option<string>, location: string)
    | CallUpdateMarketplaces(targets: seq<string>, now: int, fetched: map<string, string>)
    | CallRemove(name: string, order: seq<string>)

  /** The declarations an install reads: one set for each known marketplace. */
  ghost predicate DeclaresKnown(declared: seq<Declared>, s: Store) {
    && (forall i, j :: 0 <= i < j < |declared| ==> declared[i].marketplace != declared[j].marketplace)
    && (forall i :: 0 <= i < |declared| ==> declared[i].marketplace in MergedKnown(s))
    && (forall n :: n in MergedKnown(s) ==> exists i :: 0 <= i < |declared| && declared[i].marketplace == n)
  }

  /**
   * An install reads the declarations of the known marketplaces; a batch addresses known names; a removal walks the
   * marketplace's ids in some order that has them all.
   */
  ghost predicate Legal(s: Store, call: Call) {
    match call
    case CallUpdateMarketplaces(targets, _, _) => forall t :: t in targets ==> t in MergedKnown(s)
    case CallRemove(name, order) => Covers(order, s, name)
    case CallInstall(_, _, declared, _) => DeclaresKnown(declared, s)
    case _ => true
  }

  /** The new state, and whether the caller got a result rather than an error. */
  datatype Effect = Effect(store: Store, ok: bool)

  ghost function Apply(s: Store, call: Call): Effect
    requires Legal(s, call)
  {
    match call
    case CallInstall(arg, scope, declared, copied) =>
      var r := Install(s, arg, scope, declared, copied);
      Effect(r.store, r.result.Ok?)
    case CallUninstall(arg, scope) =>
      var r := Uninstall(s, arg, scope, false);
      Effect(r.store, r.result.Ok?)
    case CallUpdate(arg, scope, manifestOk, copied) =>
      var r := Update(s, arg, scope, manifestOk, copied);
      Effect(r.store, r.result.Ok?)
    case CallToggle(arg, on, at) =>
      var r := Toggle(s, arg, on, at);
      Effect(r.store, r.result.Ok?)
    case CallAdd(scope, now, source, candidate, manifestName, location) =>
      var r := AddMarketplace(s, scope, now, source, candidate, manifestName, location);
      Effect(r.store, r.result.Ok?)
    case CallUpdateMarketplaces(targets, now, fetched) =>
      var r := UpdateMarketplaces(s, targets, now, fetched);
      Effect(r.store, !r.failed)
    case CallRemove(name, order) =>
      ListedEnumerates(order, s, name);
      var r := RemoveMarketplace(s, name, Listed(order, s, name));
      Effect(r.store, r.result.Ok?)
  }

  /** A call has the same outcome and the same visible effect on two stores. */
  ghost predicate Agree(a: Store, b: Store, call: Call)
    requires Legal(a, call) && Legal(b, call)
  {
    Apply(a, call).ok == Apply(b, call).ok && SameView(Apply(a, call).store, Apply(b, call).store)
  }

  /** The store's layering does not show through the call. */
  ghost predicate Neutral(s: Store, call: Call)
    requires Legal(s, call)
  {
    match call
    case CallUninstall(arg, scope) => NeutralUninstall(s, arg, scope, false)
    case CallAdd(_, _, source, candidate, manifestName, location) => NeutralAdd(s, source, candidate, manifestName, location)
    case CallUpdateMarketplaces(targets, _, fetched) => NeutralBatch(s, targets, fetched)
    case CallRemove(name, _) => NeutralRemoval(s, name)
    case _ => true
  }

  /** A call on a store looks like the call on its flat twin if and only if the layering does not show through it. */
  lemma NeutralIsExact(s: Store, flat: Store, call: Call)
    requires SameView(s, flat) && Flat(flat) && Legal(s, call) && Legal(flat, call)
    ensures Agree(s, flat, call) <==> Neutral(s, call)
  {
    hide SameEntries, SameUserOn, SameFiles, MergedKnown, Covers, Enumerates, Listed, Flat, DeclaresKnown;
    hide NeutralUninstall, NeutralAdd, NeutralBatch, NeutralRemoval, Install, Uninstall, Update, Toggle, AddMarketplace;
    hide UpdateMarketplaces, RemoveMarketplace;
    match call
    case CallInstall(arg, scope, declared, copied) => InstallView(s, flat, arg, scope, declared, copied);
    case CallUninstall(arg, scope) => UninstallAgainstFlat(s, flat, arg, scope, false);
    case CallUpdate(arg, scope, manifestOk, copied) => UpdateView(s, flat, arg, scope, manifestOk, copied);
    case CallToggle(arg, on, at) => ToggleView(s, flat, arg, on, at);
    case CallAdd(scope, now, source, candidate, manifestName, location) =>
      AddAgainstFlat(s, flat, scope, now, source, candidate, manifestName, location);
    case CallUpdateMarketplaces(targets, now, fetched) => BatchAgainstFlat(s, flat, targets, now, fetched);
    case CallRemove(name, order) => RemovalAgainstFlat(s, flat, name, order);
  }

  lemma ViewsAreTransitive(a: Store, b: Store, c: Store)
    requires SameView(a, b) && SameView(b, c)
    ensures SameView(a, c) && SameView(b, a)
  {
    hide Entries, MergedKnown, UserOn, ExtraOf;
    forall id ensures Entries(a, id) == Entries(c, id) { assert Entries(a, id) == Entries(b, id) && Entries(b, id) == Entries(c, id); }
    forall id ensures UserOn(a, id) == UserOn(c, id) { assert UserOn(a, id) == UserOn(b, id) && UserOn(b, id) == UserOn(c, id); }
  }

  lemma TwinIsLegal(s: Store, call: Call)
    requires Legal(s, call)
    ensures Legal(Flatten(s), call)
  {
    hide OfMarketplace, MergedKnown;
    FlattenKnown(s);
  }

  /** A call has the same outcome and the same visible effect on stores with the same view, if it is neutral on both. */
  lemma CallAgrees(a: Store, b: Store, call: Call)
    requires SameView(a, b) && Legal(a, call) && Legal(b, call)
    requires Neutral(a, call) && Neutral(b, call)
    ensures Agree(a, b, call)
  {
    hide SameView, Legal, Neutral, Flatten, Flat, Apply;
    var flat := Flatten(a);
    FlattenHasTheView(a);
    FlattenIsFlat(a);
    TwinIsLegal(a, call);
    ViewsAreTransitive(a, flat, flat) by { ViewIsReflexive(flat); }
    ViewsAreTransitive(a, b, b) by { ViewIsReflexive(b); }
    ViewsAreTransitive(b, a, flat);
    NeutralIsExact(a, flat, call);
    NeutralIsExact(b, flat, call);
    ViewsAreTransitive(Apply(b, call).store, Apply(flat, call).store, Apply(flat, call).store) by {
      ViewIsReflexive(Apply(flat, call).store);
    }
    ViewsAreTransitive(Apply(a, call).store, Apply(flat, call).store, Apply(b, call).store);
  }

  lemma ViewIsReflexive(s: Store)
    ensures SameView(s, s)
  {
  }

  // ---------------------------------------------------------------- runs

  /** The states a sequence of legal calls goes through, newest last. */
  ghost predicate IsRun(states: seq<Store>, calls: seq<Call>) {
    && |states| == |calls| + 1
    && forall i :: 0 <= i < |calls| ==> Legal(states[i], calls[i]) && states[i + 1] == Apply(states[i], calls[i]).store
  }

  ghost predicate NeutralRun(states: seq<Store>, calls: seq<Call>)
    requires IsRun(states, calls)
  {
    forall i :: 0 <= i < |calls| ==> Neutral(states[i], calls[i])
  }

  /**
   * The layered store refines the flat one: along two runs of the same neutral calls that start with the same view,
   * the views agree at every point and every call succeeds in both or fails in both.
   */
  lemma {:induction false} RunsAgree(a: seq<Store>, b: seq<Store>, calls: seq<Call>, k: nat)
    requires IsRun(a, calls) && IsRun(b, calls) && NeutralRun(a, calls) && NeutralRun(b, calls)
    requires SameView(a[0], b[0]) && k <= |calls|
    ensures SameView(a[k], b[k])
    ensures k < |calls| ==> Agree(a[k], b[k], calls[k])
    decreases k
  {
    hide SameView, Neutral, Legal, Apply;
    if k == 0 {
    } else {
      RunsAgree(a, b, calls, k - 1);
      CallAgrees(a[k - 1], b[k - 1], calls[k - 1]);
    }
    if k < |calls| { CallAgrees(a[k], b[k], calls[k]); }
  }

  // ---------------------------------------------------------------- flat stores are neutral

  lemma FlatIsNeutral(s: Store, call: Call)
    requires Flat(s) && Legal(s, call)
    ensures Neutral(s, call)
  {
    hide SameView, Legal, Neutral, Flat, Apply;
    ViewIsReflexive(s);
    ViewIsReflexive(Apply(s, call).store);
    NeutralIsExact(s, s, call);
  }

  lemma WriteKeepsFlat(s: Store, t: Store, id: string, list: seq<InstallEntry>)
    requires Flat(s) && !t.dual && list != [] && t.dshInstalled == s.dshInstalled[id := list]
    ensures Flat(t)
  {
  }

  lemma RemoveEntryKeepsFlat(s: Store, id: string, k: nat)
    requires Flat(s) && k < |Entries(s, id)|
    ensures Flat(RemoveEntry(s, id, k))
  {
    hide Entries, MergedInstalled, RemoveAt, ApplyEnabledFlag;
    var entry, list := Entries(s, id)[k], RemoveAt(Entries(s, id), k);
    FlagWriteFrame(s, entry.scope, id, Some(Off));
    FlagWriteFrame(s, entry.scope, id, None);
    MarkOrphanFrame(StoreRemaining(DropFlag(s, entry.scope, id), id, list), entry.installPath);
  }

  lemma UninstallKeepsFlat(s: Store, arg: string, scope: Scope, skipGuard: bool)
    requires Flat(s)
    ensures Flat(Uninstall(s, arg, scope, skipGuard).store)
  {
    hide Entries, MergedInstalled, RemoveEntry, ResolveInstalled, Flat;
    var resolved := ResolveInstalled(arg, MergedInstalled(s).Keys);
    if resolved.Ok? {
      var found := FindScope(Entries(s, resolved.value), scope);
      if found.Some? { RemoveEntryKeepsFlat(s, resolved.value, found.value); }
    }
  }

  lemma InstallKeepsFlat(s: Store, arg: string, scope: Scope, declared: seq<Declared>, copied: Copied)
    requires Flat(s)
    ensures Flat(Install(s, arg, scope, declared, copied).store)
  {
    hide Entries, ResolveDeclared, ApplyEnabledFlag;
    var r := Install(s, arg, scope, declared, copied);
    if r.result.Ok? {
      var id := r.result.value;
      FlagWriteFrame(s, scope, id, Some(On));
      WriteKeepsFlat(s, r.store, id, Entries(s, id) + [NewEntry(scope, copied)]);
    }
  }

  lemma UpdateKeepsFlat(s: Store, arg: string, scope: Scope, manifestOk: bool, copied: Copied)
    requires Flat(s)
    ensures Flat(Update(s, arg, scope, manifestOk, copied).store)
  {
    hide Entries, ResolveInstalled, ResolutionIds, MergedKnown, ParsePluginId, MarkOrphan;
    var r := Update(s, arg, scope, manifestOk, copied);
    if r.result.Ok? && r.store != s {
      var id := r.result.value;
      var k := FindScope(Entries(s, id), scope).value;
      var list := Entries(s, id)[k := Refreshed(Entries(s, id)[k], copied)];
      MarkOrphanFrame(WriteList(s, id, list), Entries(s, id)[k].installPath);
      WriteKeepsFlat(s, r.store, id, list);
    }
  }

  lemma ToggleKeepsFlat(s: Store, arg: string, on: bool, at: Option<Scope>)
    requires Flat(s)
    ensures Flat(Toggle(s, arg, on, at).store)
  {
    hide Entries, ResolveInstalled, ResolutionIds, ApplyEnabledFlag;
    var r := Toggle(s, arg, on, at);
    if r.result.Ok? {
      var scope := if at.Some? then at.value else Entries(s, r.result.value)[0].scope;
      FlagWriteFrame(s, scope, r.result.value, Some(if on then On else Off));
    }
  }

  lemma {:induction false} CascadeKeepsFlat(s: Store, pairs: seq<(string, Scope)>)
    requires Flat(s)
    ensures Flat(Cascade(s, pairs).store)
  {
    hide Flat, Uninstall;
    if pairs == [] {
    } else {
      var before, last := pairs[..|pairs| - 1], pairs[|pairs| - 1];
      CascadeKeepsFlat(s, before);
      UninstallKeepsFlat(Cascade(s, before).store, last.0, last.1, true);
    }
  }

  lemma AddKeepsFlat(s: Store, scope: Scope, now: int, source: Source, candidate: string, manifestName: Option<string>, location: string)
    requires Flat(s)
    ensures Flat(AddMarketplace(s, scope, now, source, candidate, manifestName, location).store)
  {
    hide MergedKnown, ExtraOf, FastPath;
  }

  lemma CallKeepsFlat(s: Store, call: Call)
    requires Legal(s, call) && Flat(s)
    ensures Flat(Apply(s, call).store)
  {
    hide Flat, MergedKnown, Covers, Enumerates, Listed, Install, Uninstall, Update, Toggle, AddMarketplace;
    hide UpdateMarketplaces, RemoveMarketplace, MergedInstalled;
    match call
    case CallInstall(arg, scope, declared, copied) => InstallKeepsFlat(s, arg, scope, declared, copied);
    case CallUninstall(arg, scope) => UninstallKeepsFlat(s, arg, scope, false);
    case CallUpdate(arg, scope, manifestOk, copied) => UpdateKeepsFlat(s, arg, scope, manifestOk, copied);
    case CallToggle(arg, on, at) => ToggleKeepsFlat(s, arg, on, at);
    case CallAdd(scope, now, source, candidate, manifestName, location) =>
      AddKeepsFlat(s, scope, now, source, candidate, manifestName, location);
    case CallUpdateMarketplaces(targets, now, fetched) =>
      BatchCommitsPrefix(s, targets, now, fetched);
      OnlyKnownKeepsFlat(s, UpdateMarketplaces(s, targets, now, fetched).store);
    case CallRemove(name, order) =>
      ListedEnumerates(order, s, name);
      RemovalKeepsFlat(s, name, Listed(order, s, name));
  }

  lemma RemovalKeepsFlat(s: Store, name: string, ids: seq<string>)
    requires Flat(s) && Enumerates(ids, s, name)
    ensures Flat(RemoveMarketplace(s, name, ids).store)
  {
    hide Flat, MergedKnown, Cascade, ForgetMarketplace, MergedInstalled, ProjectEnables, OfMarketplace;
    var pairs := CascadePairs(ids, MergedInstalled(s));
    CascadeKeepsFlat(s, pairs);
    ForgetKeepsFlat(Cascade(s, pairs).store, name);
  }

  lemma OnlyKnownKeepsFlat(s: Store, t: Store)
    requires Flat(s) && OnlyKnownDiffers(s, t)
    ensures Flat(t)
  {
  }

  lemma ForgetKeepsFlat(s: Store, name: string)
    requires Flat(s)
    ensures Flat(ForgetMarketplace(s, name))
  {
  }

  lemma {:induction false} FlatRunIsNeutral(states: seq<Store>, calls: seq<Call>, k: nat)
    requires IsRun(states, calls) && Flat(states[0]) && k <= |calls|
    ensures Flat(states[k])
    ensures k < |calls| ==> Neutral(states[k], calls[k])
    decreases k
  {
    hide Flat, Legal, Apply, Neutral;
    if k == 0 {
    } else {
      FlatRunIsNeutral(states, calls, k - 1);
      CallKeepsFlat(states[k - 1], calls[k - 1]);
    }
    if k < |calls| { FlatIsNeutral(states[k], calls[k]); }
  }

  /** As long as every call is neutral, a run looks like the run of the same calls over the flat store with its view. */
  lemma {:induction false} RefinesSoFar(layered: seq<Store>, flat: seq<Store>, calls: seq<Call>, k: nat)
    requires IsRun(layered, calls) && IsRun(flat, calls) && SameView(layered[0], flat[0]) && Flat(flat[0]) && k <= |calls|
    requires forall i :: 0 <= i < k ==> Neutral(layered[i], calls[i])
    ensures SameView(layered[k], flat[k]) && Flat(flat[k])
    ensures k < |calls| ==> (Agree(layered[k], flat[k], calls[k]) <==> Neutral(layered[k], calls[k]))
    decreases k
  {
    hide SameView, Flat, Legal, Apply, Neutral;
    FlatRunIsNeutral(flat, calls, k);
    if k == 0 {
    } else {
      RefinesSoFar(layered, flat, calls, k - 1);
    }
    if k < |calls| { NeutralIsExact(layered[k], flat[k], calls[k]); }
  }

  /**
   * The layered homes behave as one flat home exactly as long as the layering does not show: a run over any store looks,
   * call by call, like the same calls made on its flat twin if and only if every one of its calls is neutral; and up to the
   * first one that is not, they look alike in any case.
   */
  lemma LayeredRefinesFlat(layered: seq<Store>, flat: seq<Store>, calls: seq<Call>)
    requires IsRun(layered, calls) && IsRun(flat, calls) && flat[0] == Flatten(layered[0])
    ensures (forall i :: 0 <= i < |calls| ==> Agree(layered[i], flat[i], calls[i])) <==> NeutralRun(layered, calls)
    ensures forall k :: 0 <= k <= |calls| && (forall i :: 0 <= i < k ==> Neutral(layered[i], calls[i])) ==>
      SameView(layered[k], flat[k]) && Flat(flat[k])
  {
    hide SameView, Flat, Legal, Apply, Neutral, Flatten, Agree;
    FlattenHasTheView(layered[0]);
    FlattenIsFlat(layered[0]);
    forall k | 0 <= k <= |calls| && (forall i :: 0 <= i < k ==> Neutral(layered[i], calls[i]))
      ensures SameView(layered[k], flat[k]) && Flat(flat[k])
      ensures k < |calls| ==> (Agree(layered[k], flat[k], calls[k]) <==> Neutral(layered[k], calls[k]))
    {
      RefinesSoFar(layered, flat, calls, k);
    }
    if forall i :: 0 <= i < |calls| ==> Agree(layered[i], flat[i], calls[i]) { AgreeingIsNeutral(layered, flat, calls, |calls|); }
  }

  lemma {:induction false} AgreeingIsNeutral(layered: seq<Store>, flat: seq<Store>, calls: seq<Call>, k: nat)
    requires IsRun(layered, calls) && IsRun(flat, calls) && SameView(layered[0], flat[0]) && Flat(flat[0]) && k <= |calls|
    requires forall i :: 0 <= i < k ==> Agree(layered[i], flat[i], calls[i])
    ensures forall i :: 0 <= i < k ==> Neutral(layered[i], calls[i])
    decreases k
  {
    hide SameView, Flat, Legal, Apply, Neutral, Agree;
    if k == 0 {
    } else {
      AgreeingIsNeutral(layered, flat, calls, k - 1);
      RefinesSoFar(layered, flat, calls, k - 1);
    }
  }

  /** The layering can show: a shadowed plugin of the same name keeps an installed one from being uninstalled by name. */
  lemma LayeringCanShow(entry: InstallEntry)
    requires entry.scope == User
    ensures var s := Store(true, map[], map["p@a" := [entry]], map[], map[], {}, map["p@b" := []],
                           Settings(None, None), Settings(None, None), Settings(None, None), {});
      && Uninstall(s, "p", User, false).result.Err?
      && Uninstall(Flatten(s), "p", User, false).result == Ok("p@a")
  {
    hide RemoveEntry, MarkOrphan;
    var s := Store(true, map[], map["p@a" := [entry]], map[], map[], {}, map["p@b" := []],
                   Settings(None, None), Settings(None, None), Settings(None, None), {});
    TwoPlugins(s, entry);
    ShadowedRivalBlocks(s, "p", User, false);
    FlattenHasTheView(s);
    FlattenIsFlat(s);
    FlatHasNoRival(Flatten(s), "p");
    UninstallIsFlat(Flatten(s), "p", User, false);
    SameResolution(s, Flatten(s));
    assert Entries(s, "p@a") == Entries(Flatten(s), "p@a");
    assert Entries(s, "p@a") == [entry];
  }

  lemma PluginNames()
    ensures ParsePluginId("p@a") == ParsedId("p", Some("a"))
    ensures ParsePluginId("p@b") == ParsedId("p", Some("b"))
    ensures ParsePluginId("p") == ParsedId("p", None)
  {
    ParseInvertsPrint("p", "a");
    ParseInvertsPrint("p", "b");
    assert "p" + "@" + "a" == "p@a" && "p" + "@" + "b" == "p@b";
    assert LastAt("p") <= 0;
  }

  lemma TwoPlugins(s: Store, entry: InstallEntry)
    requires s.dual && s.claudeInstalled == map["p@a" := [entry]] && s.dshInstalled == map["p@b" := []]
    ensures ShadowedRival(s, "p")
    ensures ResolveInstalled("p", ResolutionIds(s)) == Ok("p@a")
  {
    PluginNames();
    assert MergedInstalled(s) == map["p@a" := [entry], "p@b" := []];
    assert ResolutionIds(s) == {"p@a"};
    assert NameMatches("p", {"p@a"}) == {"p@a"};
    assert "p@b" in MergedInstalled(s) && MergedInstalled(s)["p@b"] == [];
  }

  // ---------------------------------------------------------------- what every call keeps

  /** No merged list repeats a scope. */
  ghost predicate Tidy(s: Store) { forall id :: OnePerScope(Entries(s, id)) }

  lemma OneListKeepsTidy(s: Store, t: Store, id: string, list: seq<InstallEntry>)
    requires Tidy(s) && OnlyList(s, t, id, list) && OnePerScope(list)
    ensures Tidy(t)
  {
    hide Entries, OnePerScope, MergedInstalled, MergedKnown;
    forall other ensures OnePerScope(Entries(t, other)) {
      assert OnePerScope(Entries(s, other));
      assert other != id ==> Entries(t, other) == Entries(s, other);
    }
  }

  lemma RemoveAtKeepsOnePerScope(entries: seq<InstallEntry>, k: nat)
    requires OnePerScope(entries) && k < |entries|
    ensures OnePerScope(RemoveAt(entries, k))
  {
    var rest := RemoveAt(entries, k);
    forall i, j | 0 <= i < j < |rest| ensures rest[i].scope != rest[j].scope {
      assert rest[i] == entries[if i < k then i else i + 1] && rest[j] == entries[if j < k then j else j + 1];
    }
  }

  lemma RewriteKeepsOnePerScope(entries: seq<InstallEntry>, k: nat, entry: InstallEntry)
    requires OnePerScope(entries) && k < |entries| && entry.scope == entries[k].scope
    ensures OnePerScope(entries[k := entry])
  {
  }

  lemma {:induction false} DropAllKeepsOnePerScope(entries: seq<InstallEntry>, scopes: seq<Scope>)
    requires OnePerScope(entries)
    ensures OnePerScope(DropAll(entries, scopes))
  {
    hide OnePerScope, RemoveAt;
    if scopes == [] {
    } else {
      var before := DropAll(entries, scopes[..|scopes| - 1]);
      DropAllKeepsOnePerScope(entries, scopes[..|scopes| - 1]);
      var found := FindScope(before, scopes[|scopes| - 1]);
      if found.Some? { RemoveAtKeepsOnePerScope(before, found.value); }
    }
  }

  lemma InstallKeepsTidy(s: Store, arg: string, scope: Scope, declared: seq<Declared>, copied: Copied)
    requires Tidy(s)
    ensures Tidy(Install(s, arg, scope, declared, copied).store)
    ensures SameClaude(s, Install(s, arg, scope, declared, copied).store)
  {
    hide Install, Entries, MergedInstalled, MergedKnown, OnePerScope, OnlyEntriesOf;
    InstallAppendsOne(s, arg, scope, declared, copied);
    var r := Install(s, arg, scope, declared, copied);
    if r.result.Ok? {
      var id, entry := r.result.value, NewEntry(scope, copied);
      assert OnePerScope(Entries(s, id));
      HasScopeFound(Entries(s, id), scope);
      OnePerScopeGrows(Entries(s, id), entry);
      OneListKeepsTidy(s, r.store, id, Entries(s, id) + [entry]);
    }
  }

  lemma UninstallKeepsTidy(s: Store, arg: string, scope: Scope, skipGuard: bool)
    requires Tidy(s)
    ensures Tidy(Uninstall(s, arg, scope, skipGuard).store)
    ensures SameClaude(s, Uninstall(s, arg, scope, skipGuard).store)
  {
    hide Uninstall, Entries, MergedInstalled, MergedKnown, OnePerScope, OnlyEntriesOf, RemoveAt;
    UninstallRemovesOne(s, arg, scope, skipGuard);
    var r := Uninstall(s, arg, scope, skipGuard);
    if r.result.Ok? {
      var id := r.result.value;
      assert OnePerScope(Entries(s, id));
      var k := FindScope(Entries(s, id), scope).value;
      RemoveAtKeepsOnePerScope(Entries(s, id), k);
      OneListKeepsTidy(s, r.store, id, RemoveAt(Entries(s, id), k));
    }
  }

  lemma UpdateKeepsTidy(s: Store, arg: string, scope: Scope, manifestOk: bool, copied: Copied)
    requires Tidy(s)
    ensures Tidy(Update(s, arg, scope, manifestOk, copied).store)
    ensures SameClaude(s, Update(s, arg, scope, manifestOk, copied).store)
  {
    hide Update, Entries, MergedInstalled, MergedKnown, OnePerScope, OnlyEntriesOf;
    UpdateReplacesOne(s, arg, scope, manifestOk, copied);
    var r := Update(s, arg, scope, manifestOk, copied);
    if r.result.Ok? && r.store != s {
      var id := r.result.value;
      assert OnePerScope(Entries(s, id));
      var k := FindScope(Entries(s, id), scope).value;
      var entry := Refreshed(Entries(s, id)[k], copied);
      RewriteKeepsOnePerScope(Entries(s, id), k, entry);
      OneListKeepsTidy(s, r.store, id, Entries(s, id)[k := entry]);
    }
  }

  lemma SameInstalledKeepsTidy(s: Store, t: Store)
    requires Tidy(s) && MergedInstalled(t) == MergedInstalled(s)
    ensures Tidy(t)
  {
    hide MergedInstalled, OnePerScope;
    forall id ensures OnePerScope(Entries(t, id)) { assert OnePerScope(Entries(s, id)); }
  }

  lemma AddKeepsTidy(s: Store, scope: Scope, now: int, source: Source, candidate: string, manifestName: Option<string>, location: string)
    requires Tidy(s)
    ensures var t := AddMarketplace(s, scope, now, source, candidate, manifestName, location).store; Tidy(t) && SameClaude(s, t)
  {
    hide AddMarketplace, Tidy, MergedInstalled, MergedKnown, MergedUserFlags, CommittedEntry;
    AddActsOnOneName(s, scope, now, source, candidate, manifestName, location);
    var t := AddMarketplace(s, scope, now, source, candidate, manifestName, location).store;
    if t != s { SameInstalledKeepsTidy(s, t); }
  }

  lemma BatchKeepsTidy(s: Store, targets: seq<string>, now: int, fetched: map<string, string>)
    requires Tidy(s) && forall t :: t in targets ==> t in MergedKnown(s)
    ensures var t := UpdateMarketplaces(s, targets, now, fetched).store; Tidy(t) && SameClaude(s, t)
  {
    hide UpdateMarketplaces, Tidy, MergedInstalled, MergedKnown, UpdatedEntry;
    BatchCommitsPrefix(s, targets, now, fetched);
    var t := UpdateMarketplaces(s, targets, now, fetched).store;
    KnownWriteFrame(s, t);
    SameInstalledKeepsTidy(s, t);
  }

  lemma RemovalKeepsTidy(s: Store, name: string, ids: seq<string>)
    requires Tidy(s) && Enumerates(ids, s, name)
    ensures var t := RemoveMarketplace(s, name, ids).store; Tidy(t) && SameClaude(s, t)
  {
    hide Entries, MergedInstalled, MergedKnown, OnePerScope, Cascade, DropAll, FirstScopes, ForgetMarketplace;
    RemovalIsAllOrNothing(s, name, ids);
    RemovalCascades(s, name, ids);
    var mid := Cascade(s, CascadePairs(ids, MergedInstalled(s))).store;
    ForgetFrame(mid, name);
    forall id ensures OnePerScope(Entries(mid, id)) {
      assert OnePerScope(Entries(s, id));
      DropAllKeepsOnePerScope(Entries(s, id), FirstScopes(Entries(s, id)));
    }
    SameInstalledKeepsTidy(mid, ForgetMarketplace(mid, name));
  }

  /** Every call keeps the lists tidy and never writes to the claude home. */
  lemma CallKeepsTidy(s: Store, call: Call)
    requires Legal(s, call) && Tidy(s)
    ensures Tidy(Apply(s, call).store)
    ensures SameClaude(s, Apply(s, call).store)
  {
    hide Tidy, MergedKnown, Covers, Enumerates, Listed, Install, Uninstall, Update, Toggle, AddMarketplace;
    hide UpdateMarketplaces, RemoveMarketplace, MergedInstalled;
    match call
    case CallInstall(arg, scope, declared, copied) => InstallKeepsTidy(s, arg, scope, declared, copied);
    case CallUninstall(arg, scope) => UninstallKeepsTidy(s, arg, scope, false);
    case CallUpdate(arg, scope, manifestOk, copied) => UpdateKeepsTidy(s, arg, scope, manifestOk, copied);
    case CallToggle(arg, on, at) =>
      ToggleKeepsViews(s, arg, on, at);
      SameInstalledKeepsTidy(s, Toggle(s, arg, on, at).store);
    case CallAdd(scope, now, source, candidate, manifestName, location) =>
      AddKeepsTidy(s, scope, now, source, candidate, manifestName, location);
    case CallUpdateMarketplaces(targets, now, fetched) => BatchKeepsTidy(s, targets, now, fetched);
    case CallRemove(name, order) =>
      ListedEnumerates(order, s, name);
      RemovalKeepsTidy(s, name, Listed(order, s, name));
  }

  lemma {:induction false} RunKeepsTidy(states: seq<Store>, calls: seq<Call>, k: nat)
    requires IsRun(states, calls) && Tidy(states[0]) && k <= |calls|
    ensures Tidy(states[k]) && SameClaude(states[0], states[k])
    decreases k
  {
    hide Tidy, Legal, Apply;
    if k == 0 {
    } else {
      RunKeepsTidy(states, calls, k - 1);
      CallKeepsTidy(states[k - 1], calls[k - 1]);
    }
  }

  /** In any run from a tidy state, a successful removal leaves the name unknown and none of its plugins installed. */
  lemma RemovalInAnyRun(states: seq<Store>, calls: seq<Call>, k: nat)
    requires IsRun(states, calls) && Tidy(states[0]) && k < |calls|
    requires calls[k].CallRemove? && Apply(states[k], calls[k]).ok
    ensures calls[k].name !in MergedKnown(states[k + 1])
    ensures forall id :: id in ResolutionIds(states[k + 1]) ==> !OfMarketplace(id, calls[k].name)
  {
    hide MergedKnown, Entries, OnePerScope, ResolutionIds, Covers, Enumerates, Listed, RemoveMarketplace, OfMarketplace;
    RunKeepsTidy(states, calls, k);
    ListedEnumerates(calls[k].order, states[k], calls[k].name);
    RemovalForgetsEverything(states[k], calls[k].name, Listed(calls[k].order, states[k], calls[k].name));
  }
}
