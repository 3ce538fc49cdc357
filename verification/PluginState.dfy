/** The plugin manager's stored state: a read-only claude home under a writable dsh home, and the views merged from them. */
module PluginState {
  import opened Basics

  datatype Scope = User | Project | Local

  /** A plugin directory; `inDshCache` is the outcome of the realpath-prefix check against the dsh cache. */
  datatype Dir = Dir(inDshCache: bool, path: string)

  datatype InstallEntry = InstallEntry(
    scope: Scope,
    installPath: Dir,
    version: string,
    installedAt: int,
    lastUpdated: int,
    gitCommitSha: Option<string>,
    projectPath: Option<string>)

  datatype Source = Directory(path: string) | Github(repo: string) | Git(url: string)

  datatype KnownEntry = KnownEntry(source: Source, installLocation: string, lastUpdated: int, autoUpdate: Option<bool>)

  /** A stored `enabledPlugins` value: a boolean, or some other JSON value somebody wrote there. */
  datatype Flag = On | Off | Junk

  type Flags = map<string, Flag>

  /** The part of one settings file that the manager touches; either block may be missing. */
  datatype Settings = Settings(enabled: Option<Flags>, extra: Option<map<string, Source>>)

  /**
   * One stored state. In single-root mode (`!dual`) both homes are the dsh one and the claude fields are not read.
   * `tombstones` are the names the dsh known file maps to null.
   */
  datatype Store = Store(
    dual: bool,
    claudeKnown: map<string, KnownEntry>,
    claudeInstalled: map<string, seq<InstallEntry>>,
    claudeFlags: Flags,
    dshKnown: map<string, KnownEntry>,
    tombstones: set<string>,
    dshInstalled: map<string, seq<InstallEntry>>,
    user: Settings,
    project: Settings,
    local: Settings,
    orphaned: set<Dir>)

  // ---------------------------------------------------------------- merged views

  function FlagsOf(settings: Settings): Flags {
    if settings.enabled.Some? then settings.enabled.value else map[]
  }

  function ExtraOf(settings: Settings): map<string, Source> {
    if settings.extra.Some? then settings.extra.value else map[]
  }

  function SettingsAt(s: Store, scope: Scope): Settings {
    match scope case User => s.user case Project => s.project case Local => s.local
  }

  function WithSettings(s: Store, scope: Scope, settings: Settings): Store {
    match scope
    case User => s.(user := settings)
    case Project => s.(project := settings)
    case Local => s.(local := settings)
  }

  function VisibleClaudeKnown(s: Store): map<string, KnownEntry> {
    if s.dual then s.claudeKnown else map[]
  }

  function VisibleClaudeInstalled(s: Store): map<string, seq<InstallEntry>> {
    if s.dual then s.claudeInstalled else map[]
  }

  /** `loadMergedKnownMarketplaces`: dsh entries win per name, dsh tombstones hide the claude entry. */
  function MergedKnown(s: Store): map<string, KnownEntry> {
    (VisibleClaudeKnown(s) - s.tombstones) + s.dshKnown
  }

  /** `loadMergedInstalledPlugins`: a dsh list, even an empty one, shadows the claude list of the same id. */
  function MergedInstalled(s: Store): map<string, seq<InstallEntry>> {
    VisibleClaudeInstalled(s) + s.dshInstalled
  }

  /** The merged entries of one id, empty when it has none. */
  function Entries(s: Store, id: string): seq<InstallEntry> {
    var merged := MergedInstalled(s);
    if id in merged then merged[id] else []
  }

  /** `resolutionIds`: the ids that resolve as installed. */
  function ResolutionIds(s: Store): set<string> {
    set id | id in MergedInstalled(s) && MergedInstalled(s)[id] != []
  }

  /** `loadMergedUserEnabledPlugins`. */
  function MergedUserFlags(s: Store): Flags {
    (if s.dual then s.claudeFlags else map[]) + FlagsOf(s.user)
  }

  // ---------------------------------------------------------------- plugin ids

  /** Position of the last `@`, or -1. */
  function LastAt(id: string): (k: int)
    ensures -1 <= k < |id|
    ensures k >= 0 ==> id[k] == '@'
    ensures forall m :: k < m < |id| ==> id[m] != '@'
  {
    if id == [] then -1
    else if id[|id| - 1] == '@' then |id| - 1
    else LastAt(id[..|id| - 1])
  }

  datatype ParsedId = ParsedId(name: string, marketplace: Option<string>)

  /** `parsePluginId`: the marketplace is everything after the last `@`, unless that is the first character. */
  function ParsePluginId(id: string): ParsedId {
    var k := LastAt(id);
    if k <= 0 then ParsedId(id, None) else ParsedId(id[..k], Some(id[k + 1..]))
  }

  predicate OfMarketplace(id: string, marketplace: string) { ParsePluginId(id).marketplace == Some(marketplace) }

  /** Parsing inverts printing exactly for a non-empty name and a marketplace without `@`. */
  lemma ParseInvertsPrint(name: string, marketplace: string)
    ensures ParsePluginId(name + "@" + marketplace) == ParsedId(name, Some(marketplace))
       <==> name != [] && '@' !in marketplace
  {
    var id := name + "@" + marketplace;
    var k := LastAt(id);
    assert id[|name|] == '@';
    if '@' in marketplace {
      var m :| 0 <= m < |marketplace| && marketplace[m] == '@';
      assert id[|name| + 1 + m] == '@';
      assert k > |name|;
      assert |id[..k]| != |name|;
    } else {
      forall m | |name| < m < |id| ensures id[m] != '@' { assert id[m] == marketplace[m - |name| - 1]; }
      assert k == |name|;
      assert id[..k] == name && id[k + 1..] == marketplace;
    }
  }

  datatype Error =
    | UnknownPlugin | AmbiguousName | PluginNotInstalled | NoInstallationAtScope | AlreadyInstalled
    | ProjectScopeEnabled | AmbiguousScopes | UnknownMarketplace | NotDeclared | ManifestUnreadable
    | MarketplaceConflict | FetchFailed | CopyFailed

  datatype Result<T> = Ok(value: T) | Err(error: Error)

  function TheOnly(ids: set<string>): (id: string)
    requires |ids| == 1
    ensures ids == {id}
  {
    OnlyOne(ids);
    var id :| id in ids;
    id
  }

  lemma OnlyOne(ids: set<string>)
    requires |ids| == 1
    ensures forall a, b :: a in ids && b in ids ==> a == b
    ensures exists a :: ids == {a}
  {
    var a :| a in ids;
    assert |ids - {a}| == 0;
    assert ids == {a};
  }

  function NameMatches(name: string, keys: set<string>): set<string> {
    set key | key in keys && ParsePluginId(key).name == name
  }

  /** `resolveInstalledPluginId`: an exact key, or a bare name that one key carries. */
  function ResolveInstalled(arg: string, keys: set<string>): Result<string> {
    if arg in keys then Ok(arg)
    else if ParsePluginId(arg).marketplace.Some? then Err(PluginNotInstalled)
    else
      var matches := NameMatches(ParsePluginId(arg).name, keys);
      if |matches| == 1 then Ok(TheOnly(matches))
      else if matches == {} then Err(UnknownPlugin)
      else Err(AmbiguousName)
  }

  /** One known marketplace with the ids its manifest declares, or `None` when the manifest cannot be read. */
  datatype Declared = Declared(marketplace: string, ids: Option<seq<string>>)

  function DeclaredMatches(name: string, ids: seq<string>): seq<string> {
    if ids == [] then []
    else if ParsePluginId(ids[0]).name == name then [ids[0]] + DeclaredMatches(name, ids[1..])
    else DeclaredMatches(name, ids[1..])
  }

  function AllMatches(name: string, declared: seq<Declared>): seq<string> {
    if declared == [] then []
    else
      var rest := AllMatches(name, declared[1..]);
      if declared[0].ids.Some? then DeclaredMatches(name, declared[0].ids.value) + rest else rest
  }

  function DeclaredBy(marketplace: string, declared: seq<Declared>): Option<Declared> {
    if declared == [] then None
    else if declared[0].marketplace == marketplace then Some(declared[0])
    else DeclaredBy(marketplace, declared[1..])
  }

  /** The id `installPlugin` settles on, given every known marketplace's declarations in listing order. */
  function ResolveDeclared(arg: string, declared: seq<Declared>): Result<string> {
    var parsed := ParsePluginId(arg);
    if parsed.marketplace.Some? then
      var listed := DeclaredBy(parsed.marketplace.value, declared);
      if listed.None? then Err(UnknownMarketplace)
      else if listed.value.ids.None? then Err(ManifestUnreadable)
      else if arg in listed.value.ids.value then Ok(arg)
      else Err(NotDeclared)
    else
      var matches := AllMatches(parsed.name, declared);
      if |matches| == 1 then Ok(matches[0])
      else if exists d :: d in declared && d.ids.None? then Err(ManifestUnreadable)
      else if matches == [] then Err(NotDeclared)
      else Err(AmbiguousName)
  }

  // ---------------------------------------------------------------- entry lists

  /** Index of the first entry at a scope. */
  function FindScope(entries: seq<InstallEntry>, scope: Scope): (r: Option<nat>)
    ensures r.Some? ==> r.value < |entries| && entries[r.value].scope == scope
    ensures r.Some? ==> forall m :: 0 <= m < r.value ==> entries[m].scope != scope
    ensures r.None? ==> forall m :: 0 <= m < |entries| ==> entries[m].scope != scope
  {
    if entries == [] then None
    else if entries[0].scope == scope then Some(0)
    else match FindScope(entries[1..], scope)
      case None => None
      case Some(k) => Some(k + 1)
  }

  function RemoveAt(entries: seq<InstallEntry>, k: nat): seq<InstallEntry>
    requires k < |entries|
  {
    entries[..k] + entries[k + 1..]
  }

  /** No two entries of the list share a scope. */
  predicate OnePerScope(entries: seq<InstallEntry>) {
    forall i, j :: 0 <= i < j < |entries| ==> entries[i].scope != entries[j].scope
  }

  predicate Referenced(installed: map<string, seq<InstallEntry>>, dir: Dir) {
    exists id :: id in installed && exists k :: 0 <= k < |installed[id]| && installed[id][k].installPath == dir
  }
}
