/** The crusher store as an object: an ordered map updated in place, with the eviction loop and the sweep loop. */
module CrusherStoreObject {
  import opened Basics
  import S = CrusherStore

  class CrusherStore {
    const functions: S.Functions
    var entries: seq<S.Entry>
    var files: map<S.Key, Option<S.Envelope>>

    /** A new process opens a directory, whatever files it holds. */
    constructor (functions: S.Functions, files: map<S.Key, Option<S.Envelope>>)
      ensures this.functions == functions && View() == S.Store([], files)
    {
      this.functions, this.entries, this.files := functions, [], files;
    }

    function View(): S.Store
      reads this
    {
      S.Store(entries, files)
    }

    method Touch(key: S.Key, now: int)
      modifies this
      ensures View() == S.Touch(old(View()), key, now)
    {
      var kept: seq<S.Entry> := [];
      for i := 0 to |entries|
        invariant View() == old(View()) && kept == S.Without(entries[..i], key)
      {
        WithoutGrows(entries[..i], entries[i], key);
        assert entries[..i] + [entries[i]] == entries[..i + 1];
        if entries[i].key != key { kept := kept + [entries[i]]; }
      }
      assert entries[..|entries|] == entries;
      entries := kept + [S.Entry(key, now)];
    }

    /** The index that the stable sort by access time puts first. */
    method FindOldest() returns (k: nat)
      requires entries != []
      ensures k == S.Oldest(entries)
    {
      k := 0;
      assert entries[..1] == [entries[0]];
      for i := 1 to |entries|
        invariant k == S.Oldest(entries[..i])
      {
        assert entries[..i + 1][..i] == entries[..i];
        if entries[i].at < entries[k].at { k := i; }
      }
      assert entries[..|entries|] == entries;
    }

    method EvictOverCap()
      modifies this
      ensures View() == S.EvictOverCap(old(View()))
    {
      hide S.Oldest;
      while |entries| > S.MAX_ENTRIES
        invariant S.EvictOverCap(View()) == S.EvictOverCap(old(View()))
        decreases |entries|
      {
        var k := FindOldest();
        EvictOnce(View());
        files := files - {entries[k].key};
        entries := entries[..k] + entries[k + 1..];
      }
      NothingToEvict(View());
    }

    method Sweep(now: int)
      modifies this
      ensures View() == S.Sweep(old(View()), now)
    {
      hide S.EvictOverCap;
      var kept: seq<S.Entry> := [];
      for i := 0 to |entries|
        invariant View() == old(View()) && kept == S.Fresh(entries[..i], now)
      {
        FreshGrows(entries[..i], entries[i], now);
        assert entries[..i] + [entries[i]] == entries[..i + 1];
        if now - entries[i].at <= S.TTL_MS { kept := kept + [entries[i]]; }
      }
      assert entries[..|entries|] == entries;
      entries := kept;
      EvictOverCap();
    }

    /** `put`: write the file, touch the key, evict, sweep. */
    method Put(project: string, text: string, written: int, touched: int, swept: int) returns (hash: string)
      modifies this
      ensures View() == S.Put(old(View()), project, text, written, touched, swept, functions)
      ensures hash == functions.hash(functions.redact(text))
    {
      hide S.Touch, S.EvictOverCap, S.Sweep;
      var effective := functions.redact(text);
      hash := functions.hash(effective);
      var key := S.Key(project, hash);
      files := files[key := Some(S.Envelope(written, effective, effective != text))];
      Touch(key, touched);
      EvictOverCap();
      Sweep(swept);
    }

    /** `get`, failing closed. */
    method Get(project: string, hash: string, checked: int, touched: int) returns (result: S.Retrieved)
      modifies this
      ensures S.GetResult(View(), result) == S.Get(old(View()), project, hash, checked, touched, functions)
    {
      hide S.Touch;
      if !functions.wellFormed(hash) { return S.Failed(S.UnknownHash); }
      var key := S.Key(project, hash);
      if key !in files { return S.Failed(S.UnknownHash); }
      if files[key].None? { return S.Failed(S.Corrupt); }
      var envelope := files[key].value;
      if checked - envelope.at > S.TTL_MS { return S.Failed(S.Expired); }
      Touch(key, touched);
      return S.Found(envelope.text, envelope.redacted);
    }
  }

  lemma {:induction false} WithoutGrows(entries: seq<S.Entry>, last: S.Entry, key: S.Key)
    ensures S.Without(entries + [last], key) == S.Without(entries, key) + if last.key == key then [] else [last]
  {
    if entries == [] {
      assert entries + [last] == [last] && [last][1..] == [];
    } else {
      WithoutGrows(entries[1..], last, key);
      assert (entries + [last])[1..] == entries[1..] + [last];
    }
  }

  lemma {:induction false} FreshGrows(entries: seq<S.Entry>, last: S.Entry, now: int)
    ensures S.Fresh(entries + [last], now) == S.Fresh(entries, now) + if now - last.at > S.TTL_MS then [] else [last]
  {
    if entries == [] {
      assert entries + [last] == [last] && [last][1..] == [];
    } else {
      FreshGrows(entries[1..], last, now);
      assert (entries + [last])[1..] == entries[1..] + [last];
    }
  }

  lemma EvictOnce(s: S.Store)
    requires |s.entries| > S.MAX_ENTRIES
    ensures var k := S.Oldest(s.entries);
      S.EvictOverCap(s) == S.EvictOverCap(S.Store(s.entries[..k] + s.entries[k + 1..], s.files - {s.entries[k].key}))
  {
    hide S.Oldest;
  }

  lemma NothingToEvict(s: S.Store)
    requires |s.entries| <= S.MAX_ENTRIES
    ensures S.EvictOverCap(s) == s
  {
  }
}
