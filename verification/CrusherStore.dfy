/** The context crusher's store of originals: a map in access order over files, capped at 200 entries. */
module CrusherStore {
  import opened Basics

  const MAX_ENTRIES := 200
  const TTL_MS := 3_600_000

  datatype Key = Key(project: string, hash: string)

  /** One entry of the in-memory map, with its last access. */
  datatype Entry = Entry(key: Key, at: int)

  /** The stored envelope. */
  datatype Envelope = Envelope(at: int, text: string, redacted: bool)

  /** The map in its insertion order, and the files on disk; a file may hold something that is no envelope. */
  datatype Store = Store(entries: seq<Entry>, files: map<Key, Option<Envelope>>)

  /** The hash function, the shape that `get` demands of a hash, and the injected redaction. */
  datatype Functions = Functions(hash: string -> string, wellFormed: string -> bool, redact: string -> string)

  datatype Error = UnknownHash | Corrupt | Expired
  datatype Retrieved = Found(text: string, redacted: bool) | Failed(error: Error)

  // ---------------------------------------------------------------- the operations

  function Without(entries: seq<Entry>, key: Key): seq<Entry> {
    if entries == [] then []
    else if entries[0].key == key then Without(entries[1..], key)
    else [entries[0]] + Without(entries[1..], key)
  }

  /** `touch`: delete and set again, which moves the key to the end. */
  function Touch(s: Store, key: Key, now: int): Store { s.(entries := Without(s.entries, key) + [Entry(key, now)]) }

  /** The position of the smallest access time, the first one among equals: the head of the stable sort. */
  function Oldest(entries: seq<Entry>): (k: nat)
    requires entries != []
    ensures k < |entries|
  {
    if |entries| == 1 then 0
    else
      var k := Oldest(entries[..|entries| - 1]);
      if entries[|entries| - 1].at < entries[k].at then |entries| - 1 else k
  }

  /** No entry was accessed earlier, and none before it as early. */
  lemma {:induction false} OldestIsFirstLeast(entries: seq<Entry>)
    requires entries != []
    ensures forall i :: 0 <= i < |entries| ==> entries[Oldest(entries)].at <= entries[i].at
    ensures forall i :: 0 <= i < Oldest(entries) ==> entries[Oldest(entries)].at < entries[i].at
  {
    if |entries| == 1 {
    } else {
      OldestIsFirstLeast(entries[..|entries| - 1]);
      assert forall i :: 0 <= i < |entries| - 1 ==> entries[i] == entries[..|entries| - 1][i];
    }
  }

  /** `evictOverCap`: while there are too many entries, drop the oldest one and its file. */
  function EvictOverCap(s: Store): Store
    decreases |s.entries|
  {
    if |s.entries| <= MAX_ENTRIES then s
    else
      EvictOverCap(WithoutEntry(s, Oldest(s.entries)))
  }

  /** One entry and its file dropped. */
  function WithoutEntry(s: Store, k: nat): Store
    requires k < |s.entries|
  {
    Store(s.entries[..k] + s.entries[k + 1..], s.files - {s.entries[k].key})
  }

  function Fresh(entries: seq<Entry>, now: int): seq<Entry> {
    if entries == [] then []
    else if now - entries[0].at > TTL_MS then Fresh(entries[1..], now)
    else [entries[0]] + Fresh(entries[1..], now)
  }

  /** `sweep`: forget expired entries, then evict; it removes no file of an entry it forgets. */
  function Sweep(s: Store, now: int): Store { EvictOverCap(s.(entries := Fresh(s.entries, now))) }

  function KeyFor(project: string, text: string, f: Functions): Key { Key(project, f.hash(f.redact(text))) }

  /** `put`, reading the clock for the envelope, for the touch and for the sweep. */
  function Put(s: Store, project: string, text: string, written: int, touched: int, swept: int, f: Functions): Store {
    var stored := f.redact(text);
    var key := KeyFor(project, text, f);
    var saved := s.(files := s.files[key := Some(Envelope(written, stored, stored != text))]);
    Sweep(EvictOverCap(Touch(saved, key, touched)), swept)
  }

  datatype GetResult = GetResult(store: Store, result: Retrieved)

  /** `get`, reading the clock for the expiry check and for the touch. */
  function Get(s: Store, project: string, hash: string, checked: int, touched: int, f: Functions): GetResult {
    var key := Key(project, hash);
    if !f.wellFormed(hash) || key !in s.files then GetResult(s, Failed(UnknownHash))
    else if s.files[key].None? then GetResult(s, Failed(Corrupt))
    else
      var envelope := s.files[key].value;
      if checked - envelope.at > TTL_MS then GetResult(s, Failed(Expired))
      else GetResult(Touch(s, key, touched), Found(envelope.text, envelope.redacted))
  }

  // ---------------------------------------------------------------- the invariant

  predicate DistinctKeys(entries: seq<Entry>) { forall i, j :: 0 <= i < j < |entries| ==> entries[i].key != entries[j].key }

  predicate InOrder(entries: seq<Entry>) { forall i, j :: 0 <= i < j < |entries| ==> entries[i].at <= entries[j].at }

  predicate Until(entries: seq<Entry>, now: int) { forall i :: 0 <= i < |entries| ==> entries[i].at <= now }

  predicate HaveFiles(entries: seq<Entry>, files: map<Key, Option<Envelope>>) {
    forall i :: 0 <= i < |entries| ==> entries[i].key in files
  }

  /** Map order is last-access order up to a time, and every entry has its file. */
  predicate Inv(s: Store, now: int) {
    DistinctKeys(s.entries) && InOrder(s.entries) && Until(s.entries, now) && HaveFiles(s.entries, s.files)
  }

  lemma {:induction false} WithoutFacts(entries: seq<Entry>, key: Key, files: map<Key, Option<Envelope>>, now: int)
    requires DistinctKeys(entries) && InOrder(entries) && Until(entries, now) && HaveFiles(entries, files)
    ensures var w := Without(entries, key);
      && DistinctKeys(w) && InOrder(w) && Until(w, now) && HaveFiles(w, files)
      && |w| <= |entries|
      && (forall e :: e in w <==> e in entries && e.key != key)
  {
    if entries == [] {
    } else {
      var rest := entries[1..];
      forall i, j | 0 <= i < j < |rest| ensures rest[i].key != rest[j].key && rest[i].at <= rest[j].at {
        assert rest[i] == entries[i + 1] && rest[j] == entries[j + 1];
      }
      WithoutFacts(rest, key, files, now);
      if entries[0].key != key { HeadFacts(entries[0], entries, Without(rest, key)); }
    }
  }

  lemma HeadFacts(head: Entry, entries: seq<Entry>, w: seq<Entry>)
    requires entries != [] && head == entries[0] && DistinctKeys(entries) && InOrder(entries)
    requires DistinctKeys(w) && InOrder(w) && forall e :: e in w ==> e in entries[1..]
    ensures DistinctKeys([head] + w) && InOrder([head] + w)
  {
    forall j | 0 <= j < |w| ensures head.key != w[j].key && head.at <= w[j].at {
      assert w[j] in entries[1..];
      var k :| 0 <= k < |entries[1..]| && entries[1..][k] == w[j];
      assert entries[k + 1] == w[j];
    }
  }

  /** A touch keeps the order, for it is the newest access, and makes the key the last one. */
  lemma TouchKeepsInv(s: Store, key: Key, before: int, now: int)
    requires Inv(s, before) && before <= now && key in s.files
    ensures Inv(Touch(s, key, now), now)
    ensures |Touch(s, key, now).entries| <= |s.entries| + 1
  {
    WithoutFacts(s.entries, key, s.files, before);
    var w := Without(s.entries, key);
    forall i | 0 <= i < |w| ensures w[i].key != key && w[i].at <= now { assert w[i] in w; }
  }

  /** In access order the oldest entry is the first. */
  lemma {:induction false} OldestIsFirst(entries: seq<Entry>)
    requires entries != [] && InOrder(entries)
    ensures Oldest(entries) == 0
  {
    if |entries| == 1 {
    } else {
      OldestIsFirst(entries[..|entries| - 1]);
      assert entries[0].at <= entries[|entries| - 1].at;
    }
  }

  /** A key among the least recently accessed entries beyond the cap. */
  predicate Overflows(entries: seq<Entry>, key: Key) {
    exists i :: 0 <= i < |entries| - MAX_ENTRIES && entries[i].key == key
  }

  /** The newest entries that fit. */
  function Newest(entries: seq<Entry>): seq<Entry> {
    if |entries| <= MAX_ENTRIES then entries else entries[|entries| - MAX_ENTRIES..]
  }

  lemma DropFirst(s: Store, now: int)
    requires Inv(s, now) && s.entries != []
    ensures Inv(Store(s.entries[1..], s.files - {s.entries[0].key}), now)
  {
    var rest := s.entries[1..];
    forall i, j | 0 <= i < j < |rest| ensures rest[i].key != rest[j].key && rest[i].at <= rest[j].at {
      assert rest[i] == s.entries[i + 1] && rest[j] == s.entries[j + 1];
    }
    forall i | 0 <= i < |rest| ensures rest[i].key != s.entries[0].key && rest[i].key in s.files && rest[i].at <= now {
      assert rest[i] == s.entries[i + 1];
    }
  }

  lemma NewestByFirst(entries: seq<Entry>)
    requires |entries| > MAX_ENTRIES
    ensures Newest(entries) == Newest(entries[1..])
  {
    assert entries[1..][|entries| - 1 - MAX_ENTRIES..] == entries[|entries| - MAX_ENTRIES..];
  }

  lemma OverflowByFirst(entries: seq<Entry>, key: Key)
    requires |entries| > MAX_ENTRIES
    ensures Overflows(entries, key) <==> entries[0].key == key || Overflows(entries[1..], key)
    ensures Newest(entries) == Newest(entries[1..])
  {
    hide Newest;
    NewestByFirst(entries);
    if Overflows(entries, key) && entries[0].key != key {
      var i :| 0 <= i < |entries| - MAX_ENTRIES && entries[i].key == key;
      assert entries[1..][i - 1].key == key;
    }
    if Overflows(entries[1..], key) {
      var i :| 0 <= i < |entries[1..]| - MAX_ENTRIES && entries[1..][i].key == key;
      assert entries[i + 1].key == key;
    }
  }

  lemma EvictStep(s: Store)
    requires |s.entries| > MAX_ENTRIES && Oldest(s.entries) == 0
    ensures EvictOverCap(s) == EvictOverCap(Store(s.entries[1..], s.files - {s.entries[0].key}))
  {
    hide Oldest, WithoutEntry;
    WithoutFirst(s);
  }

  lemma WithoutFirst(s: Store)
    requires s.entries != []
    ensures WithoutEntry(s, 0) == Store(s.entries[1..], s.files - {s.entries[0].key})
  {
    assert s.entries[..0] + s.entries[0 + 1..] == s.entries[1..];
  }

  lemma FirstIsOldest(s: Store, now: int)
    requires Inv(s, now) && s.entries != []
    ensures Oldest(s.entries) == 0
  {
    hide Oldest;
    OldestIsFirst(s.entries);
  }

  /** Eviction drops exactly the least recently accessed overflow, and exactly those files. */
  lemma {:induction false} EvictionIsLru(s: Store, now: int)
    requires Inv(s, now)
    ensures EvictOverCap(s).entries == Newest(s.entries) && Inv(EvictOverCap(s), now)
    ensures forall k :: k in EvictOverCap(s).files <==> k in s.files && !Overflows(s.entries, k)
    ensures forall k :: k in EvictOverCap(s).files ==> EvictOverCap(s).files[k] == s.files[k]
    decreases |s.entries|
  {
    hide Inv, Oldest, Overflows, Newest, EvictOverCap;
    if |s.entries| <= MAX_ENTRIES {
      FitsAlready(s);
    } else {
      var next := Store(s.entries[1..], s.files - {s.entries[0].key});
      FirstIsOldest(s, now);
      EvictStep(s);
      DropFirst(s, now);
      EvictionIsLru(next, now);
      forall k ensures Overflows(s.entries, k) <==> s.entries[0].key == k || Overflows(s.entries[1..], k) {
        OverflowByFirst(s.entries, k);
      }
      OverflowByFirst(s.entries, s.entries[0].key);
    }
  }

  lemma FitsAlready(s: Store)
    requires |s.entries| <= MAX_ENTRIES
    ensures EvictOverCap(s) == s && Newest(s.entries) == s.entries && forall k :: !Overflows(s.entries, k)
  {
  }

  /** In access order the entries that a sweep forgets are the first ones. */
  lemma {:induction false} FreshIsSuffix(entries: seq<Entry>, now: int)
    requires InOrder(entries)
    ensures |Fresh(entries, now)| <= |entries|
    ensures Fresh(entries, now) == entries[|entries| - |Fresh(entries, now)|..]
    ensures forall i :: 0 <= i < |entries| - |Fresh(entries, now)| ==> now - entries[i].at > TTL_MS
  {
    if entries == [] {
    } else {
      var rest := entries[1..];
      forall i, j | 0 <= i < j < |rest| ensures rest[i].at <= rest[j].at { assert rest[i] == entries[i + 1] && rest[j] == entries[j + 1]; }
      FreshIsSuffix(rest, now);
      var n := |rest| - |Fresh(rest, now)|;
      assert |rest| > 0 ==> rest[0] == entries[1] && entries[0].at <= rest[0].at;
      if now - entries[0].at > TTL_MS {
        assert rest[n..] == entries[n + 1..];
        forall i | 0 <= i < n + 1 ensures now - entries[i].at > TTL_MS { if i > 0 { assert entries[i] == rest[i - 1]; } }
      } else {
        assert n == 0 && rest[0..] == rest;
        assert [entries[0]] + rest == entries && entries[0..] == entries;
      }
    }
  }

  lemma SuffixKeepsInv(s: Store, n: nat, now: int)
    requires Inv(s, now) && n <= |s.entries|
    ensures Inv(s.(entries := s.entries[n..]), now)
  {
    var rest := s.entries[n..];
    forall i, j | 0 <= i < j < |rest| ensures rest[i].key != rest[j].key && rest[i].at <= rest[j].at {
      assert rest[i] == s.entries[n + i] && rest[j] == s.entries[n + j];
    }
    forall i | 0 <= i < |rest| ensures rest[i].key in s.files && rest[i].at <= now { assert rest[i] == s.entries[n + i]; }
  }

  /** A sweep keeps the newest fresh entries; the only files it removes are those of the overflow. */
  lemma SweepKeepsInv(s: Store, before: int, now: int)
    requires Inv(s, before) && before <= now
    ensures Inv(Sweep(s, now), now) && Sweep(s, now).entries == Newest(Fresh(s.entries, now))
    ensures forall k :: k in Sweep(s, now).files <==> k in s.files && !Overflows(Fresh(s.entries, now), k)
    ensures forall k :: k in Sweep(s, now).files ==> Sweep(s, now).files[k] == s.files[k]
  {
    hide Fresh, EvictOverCap, Overflows, Newest;
    FreshIsSuffix(s.entries, now);
    Later(s, before, now);
    SuffixKeepsInv(s, |s.entries| - |Fresh(s.entries, now)|, now);
    EvictionIsLru(s.(entries := Fresh(s.entries, now)), now);
  }

  lemma Later(s: Store, before: int, now: int)
    requires Inv(s, before) && before <= now
    ensures Inv(s, now)
  {
  }

  /** Writing a file takes none away. */
  lemma WriteKeepsInv(s: Store, key: Key, envelope: Envelope, now: int)
    requires Inv(s, now)
    ensures Inv(s.(files := s.files[key := Some(envelope)]), now)
  {
  }

  // ---------------------------------------------------------------- what put and get do

  /** The access order after an access: the key moves to the end. */
  function Accessed(entries: seq<Entry>, key: Key, now: int): seq<Entry> { Without(entries, key) + [Entry(key, now)] }

  /**
   * A put keeps the order, leaves at most 200 entries, and they are the newest fresh part of the access order; with a
   * clock that does not run backwards this is a least-recently-used cache.
   */
  lemma PutIsLru(s: Store, project: string, text: string, before: int, written: int, touched: int, swept: int, f: Functions)
    requires Inv(s, before) && before <= written <= touched <= swept
    ensures var t := Put(s, project, text, written, touched, swept, f);
      && Inv(t, swept) && |t.entries| <= MAX_ENTRIES
      && t.entries == Fresh(Newest(Accessed(s.entries, KeyFor(project, text, f), touched)), swept)
  {
    hide Inv, Fresh, EvictOverCap, Sweep, Newest, Without;
    var key := KeyFor(project, text, f);
    var saved := s.(files := s.files[key := Some(Envelope(written, f.redact(text), f.redact(text) != text))]);
    WriteKeepsInv(s, key, Envelope(written, f.redact(text), f.redact(text) != text), before);
    TouchKeepsInv(saved, key, before, touched);
    var kept := EvictOverCap(Touch(saved, key, touched));
    EvictionIsLru(Touch(saved, key, touched), touched);
    SweepKeepsInv(kept, touched, swept);
    NewestFits(Accessed(s.entries, key, touched));
    FewerFresh(kept.entries, swept);
    NewestOfFew(Fresh(kept.entries, swept));
  }

  lemma NewestFits(entries: seq<Entry>)
    ensures |Newest(entries)| <= MAX_ENTRIES
  {
  }

  lemma NewestOfFew(entries: seq<Entry>)
    requires |entries| <= MAX_ENTRIES
    ensures Newest(entries) == entries
  {
  }

  lemma {:induction false} FewerFresh(entries: seq<Entry>, now: int)
    ensures |Fresh(entries, now)| <= |entries|
  {
    if entries == [] {
    } else {
      FewerFresh(entries[1..], now);
    }
  }

  /** The files after a put: the new envelope, and all others but those of keys it pushed beyond the cap. */
  lemma PutFiles(s: Store, project: string, text: string, before: int, written: int, touched: int, swept: int, f: Functions)
    requires Inv(s, before) && before <= written <= touched <= swept
    ensures var t, key := Put(s, project, text, written, touched, swept, f), KeyFor(project, text, f);
      && key in t.files && t.files[key] == Some(Envelope(written, f.redact(text), f.redact(text) != text))
      && (forall k :: k in t.files && k != key ==> k in s.files && t.files[k] == s.files[k])
      && (forall k :: k in s.files && k !in t.files ==> Overflows(Accessed(s.entries, key, touched), k))
  {
    hide Inv, Fresh, EvictOverCap, Sweep, Newest, Without, Overflows;
    var key := KeyFor(project, text, f);
    var envelope := Envelope(written, f.redact(text), f.redact(text) != text);
    var saved := s.(files := s.files[key := Some(envelope)]);
    WriteKeepsInv(s, key, envelope, before);
    TouchKeepsInv(saved, key, before, touched);
    var touchedStore := Touch(saved, key, touched);
    EvictionIsLru(touchedStore, touched);
    var kept := EvictOverCap(touchedStore);
    SweepKeepsInv(kept, touched, swept);
    NewestFits(touchedStore.entries);
    FewerFresh(kept.entries, swept);
    NothingOverflows(Fresh(kept.entries, swept));
    LastNeverOverflows(s, key, touched, before);
  }

  lemma NothingOverflows(entries: seq<Entry>)
    requires |entries| <= MAX_ENTRIES
    ensures forall k :: !Overflows(entries, k)
  {
  }

  lemma LastNeverOverflows(s: Store, key: Key, now: int, before: int)
    requires Inv(s, before)
    ensures !Overflows(Accessed(s.entries, key, now), key)
  {
    hide Without;
    WithoutFacts(s.entries, key, s.files, before);
    var w := Without(s.entries, key);
    forall i | 0 <= i < |w| ensures w[i].key != key { assert w[i] in w; }
  }

  /** A get after a put returns the redacted text, and says whether redaction changed it, until the lifetime is over. */
  lemma GetAfterPut(s: Store, project: string, text: string, before: int, written: int, touched: int, swept: int,
                    checked: int, at: int, f: Functions)
    requires Inv(s, before) && before <= written <= touched <= swept <= checked <= at
    requires f.wellFormed(f.hash(f.redact(text)))
    ensures var t := Put(s, project, text, written, touched, swept, f);
      Get(t, project, f.hash(f.redact(text)), checked, at, f).result
        == if checked - written > TTL_MS then Failed(Expired) else Found(f.redact(text), f.redact(text) != text)
  {
    hide Inv, Put, Touch;
    PutFiles(s, project, text, before, written, touched, swept, f);
  }

  predicate HasEntry(entries: seq<Entry>, key: Key) { exists i :: 0 <= i < |entries| && entries[i].key == key }

  /** Taking a key out makes the map smaller exactly if it has an entry. */
  lemma {:induction false} WithoutLength(entries: seq<Entry>, key: Key)
    requires DistinctKeys(entries)
    ensures |Without(entries, key)| == |entries| - (if HasEntry(entries, key) then 1 else 0)
  {
    if entries == [] {
    } else {
      var rest := entries[1..];
      forall i, j | 0 <= i < j < |rest| ensures rest[i].key != rest[j].key { assert rest[i] == entries[i + 1] && rest[j] == entries[j + 1]; }
      WithoutLength(rest, key);
      assert HasEntry(rest, key) ==> HasEntry(entries, key) by {
        if i :| 0 <= i < |rest| && rest[i].key == key { assert entries[i + 1].key == key; }
      }
      assert HasEntry(entries, key) && entries[0].key != key ==> HasEntry(rest, key) by {
        if entries[0].key != key {
          if i :| 0 <= i < |entries| && entries[i].key == key { assert rest[i - 1].key == key; }
        }
      }
      assert entries[0].key == key ==> !HasEntry(rest, key) by {
        if i :| 0 <= i < |rest| && rest[i].key == key { assert entries[i + 1].key == key; }
      }
    }
  }

  /** A get keeps the invariant and the files; a successful one is an access, which adds an entry if the key had none. */
  lemma GetKeepsInv(s: Store, project: string, hash: string, before: int, checked: int, touched: int, f: Functions)
    requires Inv(s, before) && before <= checked <= touched
    ensures var r := Get(s, project, hash, checked, touched, f);
      && Inv(r.store, touched) && r.store.files == s.files
      && |r.store.entries| == |s.entries| + (if r.result.Found? && !HasEntry(s.entries, Key(project, hash)) then 1 else 0)
      && (r.result.Found? ==> r.store.entries == Accessed(s.entries, Key(project, hash), touched))
      && (r.result.Failed? ==> r.store == s)
  {
    hide Inv, Without, HasEntry;
    Later(s, before, touched);
    if Key(project, hash) in s.files { TouchKeepsInv(s, Key(project, hash), before, touched); }
    KeysAreDistinct(s, before);
    WithoutLength(s.entries, Key(project, hash));
  }

  lemma KeysAreDistinct(s: Store, now: int)
    requires Inv(s, now)
    ensures DistinctKeys(s.entries)
  {
  }

  // ---------------------------------------------------------------- runs

  datatype Op =
    | DoPut(project: string, text: string, written: int, touched: int, swept: int)
    | DoGet(project: string, hash: string, checked: int, at: int)
    | DoSweep(now: int)

  /** The last clock reading of an operation. */
  function Clock(op: Op): int { match op case DoPut(_, _, _, _, swept) => swept case DoGet(_, _, _, at) => at case DoSweep(now) => now }

  /** The clock does not run backwards through an operation that starts at a time. */
  predicate Timely(op: Op, before: int) {
    match op
    case DoPut(_, _, written, touched, swept) => before <= written <= touched <= swept
    case DoGet(_, _, checked, at) => before <= checked <= at
    case DoSweep(now) => before <= now
  }

  function Apply(s: Store, op: Op, f: Functions): Store {
    match op
    case DoPut(project, text, written, touched, swept) => Put(s, project, text, written, touched, swept, f)
    case DoGet(project, hash, checked, at) => Get(s, project, hash, checked, at, f).store
    case DoSweep(now) => Sweep(s, now)
  }

  /** Every file under a key holds a redacted text of that hash: the store is content-addressed. */
  ghost predicate ContentAddressed(s: Store, f: Functions) {
    forall k :: k in s.files && s.files[k].Some? ==> f.hash(s.files[k].value.text) == k.hash
  }

  /** The last clock reading before the operation number `i`. */
  function Since(ops: seq<Op>, start: int, i: nat): int
    requires i <= |ops|
  {
    if i == 0 then start else Clock(ops[i - 1])
  }

  /** A new process: no entries yet, over whatever files earlier processes have left. */
  ghost predicate IsRun(states: seq<Store>, ops: seq<Op>, start: int, f: Functions) {
    && |states| == |ops| + 1 && states[0].entries == [] && ContentAddressed(states[0], f)
    && forall i :: 0 <= i < |ops| ==> Timely(ops[i], Since(ops, start, i)) && states[i + 1] == Apply(states[i], ops[i], f)
  }

  lemma StepKeeps(s: Store, op: Op, before: int, f: Functions)
    requires Inv(s, before) && ContentAddressed(s, f) && Timely(op, before)
    ensures Inv(Apply(s, op, f), Clock(op)) && ContentAddressed(Apply(s, op, f), f)
    ensures op.DoPut? ==> |Apply(s, op, f).entries| <= MAX_ENTRIES
  {
    hide Inv, Put, Get, Sweep, Fresh, Newest, Overflows, Without;
    match op
    case DoPut(project, text, written, touched, swept) =>
      PutIsLru(s, project, text, before, written, touched, swept, f);
      PutFiles(s, project, text, before, written, touched, swept, f);
    case DoGet(project, hash, checked, at) => GetKeepsInv(s, project, hash, before, checked, at, f);
    case DoSweep(now) => SweepKeepsInv(s, before, now);
  }

  lemma {:induction false} RunKeeps(states: seq<Store>, ops: seq<Op>, start: int, f: Functions, n: nat)
    requires IsRun(states, ops, start, f) && n <= |ops|
    ensures Inv(states[n], Since(ops, start, n)) && ContentAddressed(states[n], f)
    decreases n
  {
    hide Apply, Clock, Timely, Inv, ContentAddressed;
    if n == 0 {
      NewProcessIsOk(states[0], start);
    } else {
      RunKeeps(states, ops, start, f, n - 1);
      StepKeeps(states[n - 1], ops[n - 1], Since(ops, start, n - 1), f);
    }
  }

  lemma NewProcessIsOk(s: Store, now: int)
    requires s.entries == []
    ensures Inv(s, now)
  {
  }

  /**
   * In every run, a successful get under the hash of a text returns exactly that text, if the hash function does not
   * collide; whatever was put, evicted or swept in between.
   */
  lemma GetIsFaithful(states: seq<Store>, ops: seq<Op>, start: int, f: Functions, n: nat, project: string, text: string, checked: int, at: int)
    requires IsRun(states, ops, start, f) && n <= |ops|
    requires forall a, b :: f.hash(a) == f.hash(b) ==> a == b
    ensures var r := Get(states[n], project, f.hash(text), checked, at, f).result; r.Found? ==> r.text == text
  {
    hide Apply, Inv, Touch;
    RunKeeps(states, ops, start, f, n);
    var key := Key(project, f.hash(text));
    if key in states[n].files && states[n].files[key].Some? {
      assert f.hash(states[n].files[key].value.text) == f.hash(text);
    }
  }

  /** A file disappears in a run only when 200 keys with later accesses are held instead. */
  lemma FileLostOnlyToNewer(states: seq<Store>, ops: seq<Op>, start: int, f: Functions, n: nat, key: Key)
    requires IsRun(states, ops, start, f) && n < |ops|
    requires key in states[n].files && key !in states[n + 1].files
    ensures match ops[n]
      case DoPut(project, text, _, touched, _) =>
        Overflows(Accessed(states[n].entries, KeyFor(project, text, f), touched), key)
      case DoSweep(now) => Overflows(Fresh(states[n].entries, now), key)
      case DoGet(_, _, _, _) => false
  {
    hide Inv, Put, Sweep, Fresh, Overflows, Without, ContentAddressed, Get;
    RunKeeps(states, ops, start, f, n);
    var s, before := states[n], Since(ops, start, n);
    assert Timely(ops[n], before) && states[n + 1] == Apply(s, ops[n], f);
    match ops[n]
    case DoPut(project, text, written, touched, swept) => PutFiles(s, project, text, before, written, touched, swept, f);
    case DoGet(project, hash, checked, at) => GetKeepsInv(s, project, hash, before, checked, at, f);
    case DoSweep(now) => SweepKeepsInv(s, before, now);
  }

  /** A sweep that only forgets expired entries leaves their files on disk. */
  lemma SweepLeavesFiles(s: Store, before: int, now: int)
    requires Inv(s, before) && before <= now && |s.entries| <= MAX_ENTRIES
    ensures Sweep(s, now).files == s.files
  {
    hide Inv, Sweep, Fresh, Overflows, Newest;
    SweepKeepsInv(s, before, now);
    FewerFresh(s.entries, now);
    NothingOverflows(Fresh(s.entries, now));
  }
}
