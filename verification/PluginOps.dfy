/** The plugin manager's mutations as functions from one stored state to the next. */
module PluginOps {
  import opened Basics
  import opened PluginState

  /** A mutation's new state together with what its caller gets. */
  datatype Reply = Reply(store: Store, result: Result<string>)

  // ---------------------------------------------------------------- settings and lists

  /** `applyEnabledFlag`: set a flag, or remove it (`None`) while keeping an emptied block in place. */
  function ApplyEnabledFlag(s: Store, scope: Scope, id: string, value: Option<Flag>): Store {
    var settings := SettingsAt(s, scope);
    match value
    case None =>
      if settings.enabled.None? then s
      else WithSettings(s, scope, settings.(enabled := Some(settings.enabled.value - {id})))
    case Some(flag) => WithSettings(s, scope, settings.(enabled := Some(FlagsOf(settings)[id := flag])))
  }

  /** The flag part of an uninstall: a claude `true` is shadowed by an explicit `false`, anything else is removed. */
  function DropFlag(s: Store, scope: Scope, id: string): Store {
    if scope == User && s.dual && id in s.claudeFlags && s.claudeFlags[id] == On
    then ApplyEnabledFlag(s, scope, id, Some(Off))
    else ApplyEnabledFlag(s, scope, id, None)
  }

  /** Store an id's list after a removal; single-root drops the key of an emptied list. */
  function StoreRemaining(s: Store, id: string, remaining: seq<InstallEntry>): Store {
    if !s.dual && remaining == [] then s.(dshInstalled := s.dshInstalled - {id})
    else s.(dshInstalled := s.dshInstalled[id := remaining])
  }

  /** `orphanIfUnreferencedDsh`. */
  function MarkOrphan(s: Store, dir: Dir): Store {
    if dir.inDshCache && !Referenced(MergedInstalled(s), dir) then s.(orphaned := s.orphaned + {dir}) else s
  }

  // ---------------------------------------------------------------- uninstall, install, update, toggle

  /** The three writes of an uninstall that passed its checks. */
  function RemoveEntry(s: Store, id: string, k: nat): Store
    requires k < |Entries(s, id)|
  {
    var entry := Entries(s, id)[k];
    var unflagged := DropFlag(s, entry.scope, id);
    MarkOrphan(StoreRemaining(unflagged, id, RemoveAt(Entries(s, id), k)), entry.installPath)
  }

  predicate ProjectEnables(s: Store, id: string) {
    id in FlagsOf(s.project) && FlagsOf(s.project)[id] == On
  }

  /** `uninstallPlugin`; it resolves over all merged ids, shadowed empty ones included. */
  function Uninstall(s: Store, arg: string, scope: Scope, skipGuard: bool): Reply {
    match ResolveInstalled(arg, MergedInstalled(s).Keys)
    case Err(e) => Reply(s, Err(e))
    case Ok(id) =>
      match FindScope(Entries(s, id), scope)
      case None => Reply(s, Err(NoInstallationAtScope))
      case Some(k) =>
        if !skipGuard && ProjectEnables(s, id) then Reply(s, Err(ProjectScopeEnabled))
        else Reply(RemoveEntry(s, id, k), Ok(id))
  }

  /** What the file system contributes to an install: the copied directory, its manifest version, clock, git and cwd. */
  datatype Copied = Copied(ok: bool, installPath: Dir, version: string, now: int, sha: Option<string>, cwd: string)

  /** `installPlugin`, given the declarations of every known marketplace. */
  function Install(s: Store, arg: string, scope: Scope, declared: seq<Declared>, copied: Copied): Reply {
    match ResolveDeclared(arg, declared)
    case Err(e) => Reply(s, Err(e))
    case Ok(id) =>
      if FindScope(Entries(s, id), scope).Some? then Reply(s, Err(AlreadyInstalled))
      else if !copied.ok then Reply(s, Err(CopyFailed))
      else
        var flagged := ApplyEnabledFlag(s, scope, id, Some(On));
        Reply(flagged.(dshInstalled := flagged.dshInstalled[id := Entries(s, id) + [NewEntry(scope, copied)]]), Ok(id))
  }

  function NewEntry(scope: Scope, copied: Copied): InstallEntry {
    InstallEntry(scope, copied.installPath, copied.version, copied.now, copied.now, copied.sha,
                 if scope == User then None else Some(copied.cwd))
  }

  /** `updatePlugin`; equal versions are a no-op. `manifestOk` says whether the marketplace manifest could be read. */
  function Update(s: Store, arg: string, scope: Scope, manifestOk: bool, copied: Copied): Reply {
    match ResolveInstalled(arg, ResolutionIds(s))
    case Err(e) => Reply(s, Err(e))
    case Ok(id) =>
      match FindScope(Entries(s, id), scope)
      case None => Reply(s, Err(NoInstallationAtScope))
      case Some(k) =>
        var entries := Entries(s, id);
        var marketplace := ParsePluginId(id).marketplace;
        if marketplace.None? || marketplace.value !in MergedKnown(s) then Reply(s, Err(UnknownMarketplace))
        else if !manifestOk then Reply(s, Err(ManifestUnreadable))
        else if copied.version == entries[k].version then Reply(s, Ok(id))
        else if !copied.ok then Reply(s, Err(CopyFailed))
        else
          var rewritten := s.(dshInstalled := s.dshInstalled[id := entries[k := Refreshed(entries[k], copied)]]);
          Reply(MarkOrphan(rewritten, entries[k].installPath), Ok(id))
  }

  function Refreshed(entry: InstallEntry, copied: Copied): InstallEntry {
    entry.(version := copied.version, installPath := copied.installPath, installedAt := copied.now,
           lastUpdated := copied.now, gitCommitSha := copied.sha)
  }

  /** `togglePlugin`; without an explicit scope the plugin must be installed exactly once. */
  function Toggle(s: Store, arg: string, on: bool, scope: Option<Scope>): Reply {
    match ResolveInstalled(arg, ResolutionIds(s))
    case Err(e) => Reply(s, Err(e))
    case Ok(id) =>
      var entries := Entries(s, id);
      if scope.None? && entries == [] then Reply(s, Err(PluginNotInstalled))
      else if scope.None? && |entries| > 1 then Reply(s, Err(AmbiguousScopes))
      else
        var target := if scope.Some? then scope.value else entries[0].scope;
        Reply(ApplyEnabledFlag(s, target, id, Some(if on then On else Off)), Ok(id))
  }

  // ---------------------------------------------------------------- marketplaces

  datatype AddReply = AddReply(store: Store, result: Result<bool>, cloned: bool)

  function LiveDsh(s: Store, name: string): Option<KnownEntry> {
    if name in s.dshKnown then Some(s.dshKnown[name]) else None
  }

  /** Writing an entry under a name of the dsh known file, over a tombstone if there is one. */
  function WriteKnown(s: Store, name: string, entry: KnownEntry): Store {
    s.(dshKnown := s.dshKnown[name := entry], tombstones := s.tombstones - {name})
  }

  function DeclareExtra(s: Store, scope: Scope, name: string, source: Source): Store {
    var settings := SettingsAt(s, scope);
    WithSettings(s, scope, settings.(extra := Some(ExtraOf(settings)[name := source])))
  }

  /** `commitAdd`; the result says whether a different claude entry is now shadowed. */
  function CommitAdd(s: Store, scope: Scope, now: int, name: string, source: Source, location: string): AddReply {
    var live := LiveDsh(s, name);
    if live.Some? && live.value.source != source then AddReply(s, Err(MarketplaceConflict), true)
    else
      var claudePresent := live.None? && name in VisibleClaudeKnown(s);
      var sameAsClaude := claudePresent && VisibleClaudeKnown(s)[name].source == source;
      var entry := if sameAsClaude then VisibleClaudeKnown(s)[name].(lastUpdated := now)
                   else KnownEntry(source, location, now, None);
      AddReply(DeclareExtra(WriteKnown(s, name, entry), scope, name, source), Ok(claudePresent && !sameAsClaude), !sameAsClaude)
  }

  predicate SourceKnown(s: Store, source: Source) { exists n :: n in MergedKnown(s) && MergedKnown(s)[n].source == source }

  /** The reference fast path: the claude file has the very source under the name guessed from a remote source. */
  predicate FastPath(s: Store, source: Source, candidate: string) {
    !source.Directory? && candidate in VisibleClaudeKnown(s) && VisibleClaudeKnown(s)[candidate].source == source
  }

  /** The name an add commits under, if it gets that far: the guessed one, or that of the manifest it has read. */
  function AddUnder(s: Store, source: Source, candidate: string, manifestName: Option<string>): Option<string> {
    if FastPath(s, source, candidate) then Some(candidate) else manifestName
  }

  /** And the directory it commits: the claude clone, or the one it validated or cloned itself. */
  function AddAt(s: Store, source: Source, candidate: string, location: string): string {
    if FastPath(s, source, candidate) then VisibleClaudeKnown(s)[candidate].installLocation else location
  }

  /**
   * `addMarketplace`: a source already known under any name is a success that changes nothing. `candidate` is the name
   * guessed from the source, `manifestName` and `location` are what its directory or clone would yield.
   */
  function AddMarketplace(s: Store, scope: Scope, now: int, source: Source, candidate: string, manifestName: Option<string>,
                          location: string): AddReply
  {
    if SourceKnown(s, source) then AddReply(s, Ok(false), false)
    else match AddUnder(s, source, candidate, manifestName)
      case None => AddReply(s, Err(FetchFailed), false)
      case Some(name) => CommitAdd(s, scope, now, name, source, AddAt(s, source, candidate, location))
  }

  /** The entry written for one updated marketplace, or `None` when its manifest, pull or clone failed. */
  function UpdatedEntry(s: Store, name: string, now: int, fetched: map<string, string>): Option<KnownEntry>
    requires name in MergedKnown(s)
  {
    var entry := MergedKnown(s)[name];
    if name !in fetched then None
    else if LiveDsh(s, name).Some? || entry.source.Directory? then Some(entry.(lastUpdated := now))
    else Some(entry.(installLocation := fetched[name], lastUpdated := now))
  }

  datatype BatchReply = BatchReply(store: Store, updated: seq<string>, failed: bool)

  /**
   * `updateMarketplaces` over its sorted targets: each success is committed at once, so the first failure leaves the
   * processed prefix in place. `fetched` maps every marketplace whose refresh works to its clone directory.
   */
  function UpdateMarketplaces(s: Store, targets: seq<string>, now: int, fetched: map<string, string>): BatchReply
    requires forall t :: t in targets ==> t in MergedKnown(s)
  {
    if targets == [] then BatchReply(s, [], false)
    else
      var before := UpdateMarketplaces(s, targets[..|targets| - 1], now, fetched);
      var target := targets[|targets| - 1];
      var entry := UpdatedEntry(s, target, now, fetched);
      if before.failed || entry.None? then before.(failed := true)
      else before.(store := WriteKnown(before.store, target, entry.value),
                   updated := before.updated + [target])
  }

  /** The scopes of a list in order of first appearance. */
  function FirstScopes(entries: seq<InstallEntry>): seq<Scope> {
    if entries == [] then []
    else
      var before := FirstScopes(entries[..|entries| - 1]);
      var scope := entries[|entries| - 1].scope;
      if scope in before then before else before + [scope]
  }

  function PairsOf(id: string, scopes: seq<Scope>): seq<(string, Scope)> {
    seq(|scopes|, i requires 0 <= i < |scopes| => (id, scopes[i]))
  }

  /** The uninstalls that a marketplace removal performs, for its ids in order. */
  function CascadePairs(ids: seq<string>, installed: map<string, seq<InstallEntry>>): seq<(string, Scope)>
    requires forall id :: id in ids ==> id in installed
  {
    if ids == [] then []
    else CascadePairs(ids[..|ids| - 1], installed) + PairsOf(ids[|ids| - 1], FirstScopes(installed[ids[|ids| - 1]]))
  }

  /** Running the uninstalls one after the other, project guards skipped; a failing one would abort the rest. */
  function Cascade(s: Store, pairs: seq<(string, Scope)>): Reply {
    if pairs == [] then Reply(s, Ok(""))
    else
      var before := Cascade(s, pairs[..|pairs| - 1]);
      if before.result.Err? then before
      else Uninstall(before.store, pairs[|pairs| - 1].0, pairs[|pairs| - 1].1, true)
  }

  function StripExtra(settings: Settings, name: string): Settings {
    if name in ExtraOf(settings) then settings.(extra := Some(ExtraOf(settings) - {name})) else settings
  }

  /** The last writes of a removal: settings declarations, and a tombstone or a plain key removal. */
  function ForgetMarketplace(s: Store, name: string): Store {
    s.(user := StripExtra(s.user, name), project := StripExtra(s.project, name), local := StripExtra(s.local, name),
       dshKnown := s.dshKnown - {name},
       tombstones := if s.dual then s.tombstones + {name} else s.tombstones - {name})
  }

  function IdsOf(s: Store, name: string): set<string> {
    set id | id in MergedInstalled(s) && OfMarketplace(id, name)
  }

  /** `ids` lists the marketplace's merged ids, each once, in some order (the source sorts them). */
  ghost predicate Enumerates(ids: seq<string>, s: Store, name: string) {
    && (forall i, j :: 0 <= i < j < |ids| ==> ids[i] != ids[j])
    && (forall id :: id in ids <==> id in IdsOf(s, name))
  }

  /** `removeMarketplace`. */
  function RemoveMarketplace(s: Store, name: string, ids: seq<string>): Reply
    requires forall id :: id in ids <==> id in IdsOf(s, name)
  {
    if name !in MergedKnown(s) then Reply(s, Err(UnknownMarketplace))
    else if exists id :: id in ids && ProjectEnables(s, id) then Reply(s, Err(ProjectScopeEnabled))
    else
      var cascaded := Cascade(s, CascadePairs(ids, MergedInstalled(s)));
      if cascaded.result.Err? then cascaded else Reply(ForgetMarketplace(cascaded.store, name), Ok(name))
  }
}
