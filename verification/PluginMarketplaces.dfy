/** Marketplace add, update and remove over the merged known view, and the uninstall cascade of a removal. */
module PluginMarketplaces {
  import opened Basics
  import opened PluginState
  import opened PluginOps
  import opened PluginViews

  // ---------------------------------------------------------------- add

  /** Nothing but one name of the merged known view differs, as far as the merged views go. */
  ghost predicate OnlyKnown(s: Store, t: Store, name: string, entry: KnownEntry) {
    && MergedKnown(t) == MergedKnown(s)[name := entry]
    && MergedInstalled(t) == MergedInstalled(s)
    && MergedUserFlags(t) == MergedUserFlags(s)
    && SameClaude(s, t)
  }

  lemma KnownWriteShows(s: Store, name: string, entry: KnownEntry)
    ensures MergedKnown(WriteKnown(s, name, entry)) == MergedKnown(s)[name := entry]
  {
  }

  lemma DeclareExtraFrame(s: Store, scope: Scope, name: string, source: Source)
    ensures var t := DeclareExtra(s, scope, name, source);
      && SameClaude(s, t) && SameKnown(s, t)
      && t.dshInstalled == s.dshInstalled
      && MergedUserFlags(t) == MergedUserFlags(s)
      && FlagsOf(t.project) == FlagsOf(s.project) && FlagsOf(t.local) == FlagsOf(s.local)
  {
  }

  /** The known entry a successful commit leaves: the claude entry when it has the very source, else a fresh one. */
  function CommittedEntry(s: Store, name: string, source: Source, location: string, now: int): KnownEntry {
    if LiveDsh(s, name).None? && name in VisibleClaudeKnown(s) && VisibleClaudeKnown(s)[name].source == source
    then VisibleClaudeKnown(s)[name].(lastUpdated := now)
    else KnownEntry(source, location, now, None)
  }

  /** A commit writes one name, with the requested source, or conflicts with a live dsh entry and changes nothing. */
  lemma CommitActsOnOneName(s: Store, scope: Scope, now: int, name: string, source: Source, location: string)
    ensures var r := CommitAdd(s, scope, now, name, source, location);
      if LiveDsh(s, name).Some? && LiveDsh(s, name).value.source != source
      then r.store == s && r.result == Err(MarketplaceConflict)
      else
        && r.result == Ok(LiveDsh(s, name).None? && name in VisibleClaudeKnown(s) && VisibleClaudeKnown(s)[name].source != source)
        && OnlyKnown(s, r.store, name, CommittedEntry(s, name, source, location, now))
        && CommittedEntry(s, name, source, location, now).source == source
  {
    hide MergedKnown, MergedInstalled, MergedUserFlags, DeclareExtra;
    if LiveDsh(s, name).None? || LiveDsh(s, name).value.source == source {
      var entry := CommittedEntry(s, name, source, location, now);
      var added := WriteKnown(s, name, entry);
      KnownWriteShows(s, name, entry);
      SameFlags(s, added);
      EntriesFollowInstalled(s, added);
      var t := DeclareExtra(added, scope, name, source);
      DeclareExtraFrame(added, scope, name, source);
      KnownFollows(added, t);
      EntriesFollowInstalled(added, t);
    }
  }

  lemma SameFlags(s: Store, t: Store)
    requires SameClaude(s, t) && t.user == s.user
    ensures MergedUserFlags(t) == MergedUserFlags(s)
  {
  }

  /** `addMarketplace` changes at most one name of the merged view, and afterwards the source is known under a name. */
  lemma AddActsOnOneName(s: Store, scope: Scope, now: int, source: Source, candidate: string, manifestName: Option<string>, location: string)
    ensures var r := AddMarketplace(s, scope, now, source, candidate, manifestName, location);
      && (r.result.Err? ==> r.store == s)
      && (r.result.Ok? ==> SourceKnown(r.store, source))
    ensures var r, name := AddMarketplace(s, scope, now, source, candidate, manifestName, location),
                           AddUnder(s, source, candidate, manifestName);
      || r.store == s
      || (name.Some?
          && OnlyKnown(s, r.store, name.value,
                       CommittedEntry(s, name.value, source, AddAt(s, source, candidate, location), now)))
  {
    hide MergedKnown, CommitAdd, AddUnder, AddAt;
    var r := AddMarketplace(s, scope, now, source, candidate, manifestName, location);
    var name, at := AddUnder(s, source, candidate, manifestName), AddAt(s, source, candidate, location);
    if !SourceKnown(s, source) && name.Some? {
      CommitActsOnOneName(s, scope, now, name.value, source, at);
      if r.result.Ok? {
        assert MergedKnown(r.store) == MergedKnown(s)[name.value := CommittedEntry(s, name.value, source, at, now)];
        assert name.value in MergedKnown(r.store) && MergedKnown(r.store)[name.value].source == source;
      }
    }
  }

  /** The claude home has an entry of the name with the very source, whether it is visible in the merged view or not. */
  predicate ClaudeHas(s: Store, name: string, source: Source) {
    s.dual && name in s.claudeKnown && s.claudeKnown[name].source == source
  }

  /** The claude home has an entry of the name with another source. */
  predicate ClaudeHasOther(s: Store, name: string, source: Source) {
    s.dual && name in s.claudeKnown && s.claudeKnown[name].source != source
  }

  /**
   * What committing a name comes to: a conflict with a live dsh entry of another source; else the claude entry of the very
   * source, taken over with a fresh time stamp, so that a clone is not needed; else a fresh entry for the directory.
   */
  ghost predicate Committed(s: Store, r: AddReply, now: int, name: string, source: Source, location: string) {
    if name in s.dshKnown && s.dshKnown[name].source != source then r == AddReply(s, Err(MarketplaceConflict), true)
    else if name !in s.dshKnown && ClaudeHas(s, name, source) then
      var entry := s.claudeKnown[name];
      && r.result == Ok(false) && !r.cloned
      && OnlyKnown(s, r.store, name, KnownEntry(source, entry.installLocation, now, entry.autoUpdate))
    else
      && r.result == Ok(name !in s.dshKnown && ClaudeHasOther(s, name, source)) && r.cloned
      && OnlyKnown(s, r.store, name, KnownEntry(source, location, now, None))
  }

  lemma CommitIs(s: Store, scope: Scope, now: int, name: string, source: Source, location: string)
    ensures Committed(s, CommitAdd(s, scope, now, name, source, location), now, name, source, location)
  {
    hide MergedKnown, MergedInstalled, MergedUserFlags, DeclareExtra, WriteKnown, OnlyKnown;
    CommitActsOnOneName(s, scope, now, name, source, location);
  }

  /**
   * Everything an add can come to. A source known under some name is left as it is. A source that is no directory, and that the
   * claude home has under the guessed name, is committed under that name; any other one under the name of its manifest, if
   * that can be read.
   */
  lemma AddComesTo(s: Store, scope: Scope, now: int, source: Source, candidate: string, manifestName: Option<string>, location: string)
    ensures var r := AddMarketplace(s, scope, now, source, candidate, manifestName, location);
      if exists n :: n in MergedKnown(s) && MergedKnown(s)[n].source == source then r == AddReply(s, Ok(false), false)
      else if !source.Directory? && ClaudeHas(s, candidate, source)
      then Committed(s, r, now, candidate, source, s.claudeKnown[candidate].installLocation)
      else if manifestName.None? then r == AddReply(s, Err(FetchFailed), false)
      else Committed(s, r, now, manifestName.value, source, location)
  {
    hide MergedKnown, CommitAdd, Committed;
    if !source.Directory? && ClaudeHas(s, candidate, source) {
      CommitIs(s, scope, now, candidate, source, s.claudeKnown[candidate].installLocation);
    } else if manifestName.Some? {
      CommitIs(s, scope, now, manifestName.value, source, location);
    }
  }

  // ---------------------------------------------------------------- update

  /**
   * The entry that a refreshed marketplace gets: source and auto-update choice stay, the time is now, and the directory stays
   * but for a git entry of the claude home alone, which moves to its clone.
   */
  predicate IsRefreshed(s: Store, name: string, now: int, fetched: map<string, string>, after: Option<KnownEntry>) {
    && name in MergedKnown(s) && name in fetched && after.Some?
    && var was := MergedKnown(s)[name];
       after.value == KnownEntry(was.source, if name in s.dshKnown || was.source.Directory? then was.installLocation else fetched[name],
                                 now, was.autoUpdate)
  }

  /** Only known entries may differ between the two stores. */
  predicate OnlyKnownDiffers(s: Store, t: Store) {
    t == s.(dshKnown := t.dshKnown, tombstones := t.tombstones)
  }

  lemma UpdatedEntryKeeps(s: Store, name: string, now: int, fetched: map<string, string>)
    requires name in MergedKnown(s)
    ensures UpdatedEntry(s, name, now, fetched).Some? <==> name in fetched
    ensures name in fetched ==>
      UpdatedEntry(s, name, now, fetched).value
        == MergedKnown(s)[name].(lastUpdated := now,
                                 installLocation := UpdatedEntry(s, name, now, fetched).value.installLocation)
    ensures name in fetched ==> IsRefreshed(s, name, now, fetched, UpdatedEntry(s, name, now, fetched))
  {
    hide MergedKnown;
  }

  /**
   * An update batch commits exactly the targets before the first one whose refresh fails, each rewritten from the entry
   * it had when the batch began; every other name and everything but the known entries stays as it was.
   */
  lemma {:induction false} BatchCommitsPrefix(s: Store, targets: seq<string>, now: int, fetched: map<string, string>)
    requires forall t :: t in targets ==> t in MergedKnown(s)
    ensures var r := UpdateMarketplaces(s, targets, now, fetched);
      && OnlyKnownDiffers(s, r.store)
      && r.updated <= targets
      && (r.failed <==> r.updated != targets)
      && (forall n :: n in r.updated ==> n in fetched)
      && (r.failed ==> targets[|r.updated|] !in fetched)
    ensures var r := UpdateMarketplaces(s, targets, now, fetched);
      forall n :: n in r.updated ==> IsRefreshed(s, n, now, fetched, LiveDsh(r.store, n))
    ensures var r := UpdateMarketplaces(s, targets, now, fetched);
      && (forall n :: n !in r.updated ==> LiveDsh(r.store, n) == LiveDsh(s, n))
      && (forall n :: n !in r.updated ==> (n in r.store.tombstones <==> n in s.tombstones))
  {
    hide MergedKnown, UpdatedEntry, LiveDsh, WriteKnown, IsRefreshed;
    if targets == [] {
    } else {
      var before, last := targets[..|targets| - 1], targets[|targets| - 1];
      BatchCommitsPrefix(s, before, now, fetched);
      UpdatedEntryKeeps(s, last, now, fetched);
      if last in fetched {
        WriteKnownLive(UpdateMarketplaces(s, before, now, fetched).store, last, UpdatedEntry(s, last, now, fetched).value);
      }
    }
  }

  lemma WriteKnownLive(s: Store, name: string, entry: KnownEntry)
    ensures var t := WriteKnown(s, name, entry);
      && OnlyKnownDiffers(s, t)
      && (forall n :: LiveDsh(t, n) == if n == name then Some(entry) else LiveDsh(s, n))
      && (forall n :: n != name ==> (n in t.tombstones <==> n in s.tombstones))
  {
  }

  /** After a batch the merged view knows the same names, each with its source and its auto-update choice. */
  lemma BatchKeepsSources(s: Store, targets: seq<string>, now: int, fetched: map<string, string>)
    requires forall t :: t in targets ==> t in MergedKnown(s)
    ensures var t := UpdateMarketplaces(s, targets, now, fetched).store;
      && MergedKnown(t).Keys == MergedKnown(s).Keys
      && forall n :: n in MergedKnown(s) ==> && MergedKnown(t)[n].source == MergedKnown(s)[n].source
                                             && MergedKnown(t)[n].autoUpdate == MergedKnown(s)[n].autoUpdate
  {
    hide UpdateMarketplaces, UpdatedEntry;
    var r := UpdateMarketplaces(s, targets, now, fetched);
    BatchCommitsPrefix(s, targets, now, fetched);
    forall n
      ensures n in MergedKnown(r.store) <==> n in MergedKnown(s)
      ensures n in MergedKnown(s) ==> && MergedKnown(r.store)[n].source == MergedKnown(s)[n].source
                                      && MergedKnown(r.store)[n].autoUpdate == MergedKnown(s)[n].autoUpdate
    {
      if n in r.updated { UpdatedEntryKeeps(s, n, now, fetched); }
    }
  }
}
