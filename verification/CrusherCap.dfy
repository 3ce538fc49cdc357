/** How large the crusher store's map gets: within its cap, but for files of earlier processes that a get brings back. */
module CrusherCap {
  import opened Basics
  import opened CrusherStore

  // ---------------------------------------------------------------- files of this process

  /** An entry of a key that was accessed no earlier than a file was written. */
  predicate HeldSince(entries: seq<Entry>, key: Key, written: int) {
    exists i :: 0 <= i < |entries| && entries[i].key == key && entries[i].at >= written
  }

  /** A file that an earlier process left and this one has not written again. */
  predicate Leftover(s: Store, initial: Store, key: Key) {
    key in s.files && key in initial.files && s.files[key] == initial.files[key]
  }

  /** Every file is a leftover, or has an entry at least as young as itself, or has expired. */
  ghost predicate Accounted(s: Store, initial: Store, now: int) {
    forall k :: k in s.files && s.files[k].Some? && !Leftover(s, initial, k) ==>
      HeldSince(s.entries, k, s.files[k].value.at) || now - s.files[k].value.at > TTL_MS
  }

  lemma {:induction false} FreshKeeps(entries: seq<Entry>, now: int, e: Entry)
    requires e in entries && now - e.at <= TTL_MS
    ensures e in Fresh(entries, now)
  {
    if entries[0] == e {
    } else {
      FreshKeeps(entries[1..], now, e);
    }
  }

  /** What a sweep forgets, it forgets after the file has expired. */
  lemma ForgettingIsAccounted(s: Store, initial: Store, before: int, now: int)
    requires Accounted(s, initial, before) && before <= now
    ensures Accounted(s.(entries := Fresh(s.entries, now)), initial, now)
  {
    hide Fresh;
    var t := s.(entries := Fresh(s.entries, now));
    forall k | k in t.files && t.files[k].Some? && !Leftover(t, initial, k)
      ensures HeldSince(t.entries, k, t.files[k].value.at) || now - t.files[k].value.at > TTL_MS
    {
      assert !Leftover(s, initial, k);
      if i :| 0 <= i < |s.entries| && s.entries[i].key == k && s.entries[i].at >= s.files[k].value.at {
        if now - s.entries[i].at <= TTL_MS { FreshKeeps(s.entries, now, s.entries[i]); }
      }
    }
  }

  /** What eviction drops, it drops with its file. */
  lemma EvictionIsAccounted(s: Store, initial: Store, now: int)
    requires Inv(s, now) && Accounted(s, initial, now)
    ensures Accounted(EvictOverCap(s), initial, now)
  {
    hide Inv, EvictOverCap;
    EvictionIsLru(s, now);
    var t := EvictOverCap(s);
    forall k | k in t.files && t.files[k].Some? && !Leftover(t, initial, k)
      ensures HeldSince(t.entries, k, t.files[k].value.at) || now - t.files[k].value.at > TTL_MS
    {
      assert k in s.files && s.files[k] == t.files[k] && !Leftover(s, initial, k);
      if i :| 0 <= i < |s.entries| && s.entries[i].key == k && s.entries[i].at >= s.files[k].value.at {
        var cut := |s.entries| - MAX_ENTRIES;
        if cut > 0 {
          assert i >= cut;
          assert t.entries[i - cut] == s.entries[i];
        }
      }
    }
  }

  lemma SweepIsAccounted(s: Store, initial: Store, before: int, now: int)
    requires Inv(s, before) && before <= now && Accounted(s, initial, before)
    ensures Accounted(Sweep(s, now), initial, now)
  {
    hide Inv, EvictOverCap, Fresh, Accounted;
    ForgettingIsAccounted(s, initial, before, now);
    FreshIsSuffix(s.entries, now) by { EntriesInOrder(s, before); }
    Later(s, before, now);
    SuffixKeepsInv(s, |s.entries| - |Fresh(s.entries, now)|, now);
    EvictionIsAccounted(s.(entries := Fresh(s.entries, now)), initial, now);
  }

  lemma EntriesInOrder(s: Store, now: int)
    requires Inv(s, now)
    ensures InOrder(s.entries)
  {
  }

  /** An access leaves every other entry, and its own is the youngest. */
  lemma AccessIsAccounted(s: Store, initial: Store, key: Key, before: int, now: int)
    requires Inv(s, before) && before <= now && key in s.files
    requires forall k :: k in s.files && k != key && s.files[k].Some? && !Leftover(s, initial, k) ==>
      HeldSince(s.entries, k, s.files[k].value.at) || before - s.files[k].value.at > TTL_MS
    requires s.files[key].Some? ==> s.files[key].value.at <= now || Leftover(s, initial, key)
    ensures Accounted(Touch(s, key, now), initial, now)
  {
    hide Without;
    WithoutFacts(s.entries, key, s.files, before);
    var t := Touch(s, key, now);
    forall k | k in t.files && t.files[k].Some? && !Leftover(t, initial, k)
      ensures HeldSince(t.entries, k, t.files[k].value.at) || now - t.files[k].value.at > TTL_MS
    {
      assert !Leftover(s, initial, k);
      if k == key {
        assert t.entries[|t.entries| - 1] == Entry(key, now);
      } else if i :| 0 <= i < |s.entries| && s.entries[i].key == k && s.entries[i].at >= s.files[k].value.at {
        assert s.entries[i] in Without(s.entries, key);
        var j :| 0 <= j < |Without(s.entries, key)| && Without(s.entries, key)[j] == s.entries[i];
        assert t.entries[j] == s.entries[i];
      }
    }
  }

  lemma PutIsAccounted(s: Store, initial: Store, project: string, text: string, before: int, written: int, touched: int, swept: int, f: Functions)
    requires Inv(s, before) && Accounted(s, initial, before) && before <= written <= touched <= swept
    ensures Accounted(Put(s, project, text, written, touched, swept, f), initial, swept)
  {
    hide Inv, EvictOverCap, Fresh, Sweep, Touch;
    var key := KeyFor(project, text, f);
    var envelope := Envelope(written, f.redact(text), f.redact(text) != text);
    var saved := s.(files := s.files[key := Some(envelope)]);
    WriteKeepsInv(s, key, envelope, before);
    assert forall k :: k in s.files && k != key && s.files[k].Some? && !Leftover(saved, initial, k) ==> !Leftover(s, initial, k);
    AccessIsAccounted(saved, initial, key, before, touched);
    TouchKeepsInv(saved, key, before, touched);
    EvictionIsAccounted(Touch(saved, key, touched), initial, touched);
    EvictionIsLru(Touch(saved, key, touched), touched);
    SweepIsAccounted(EvictOverCap(Touch(saved, key, touched)), initial, touched, swept);
  }

  lemma GetIsAccounted(s: Store, initial: Store, project: string, hash: string, before: int, checked: int, touched: int, f: Functions)
    requires Inv(s, before) && Accounted(s, initial, before) && before <= checked <= touched
    ensures Accounted(Get(s, project, hash, checked, touched, f).store, initial, touched)
  {
    hide Inv, Touch;
    var key := Key(project, hash);
    if Get(s, project, hash, checked, touched, f).result.Found? {
      EntriesUntil(s, before);
      AccessIsAccounted(s, initial, key, before, touched);
    }
  }

  lemma EntriesUntil(s: Store, now: int)
    requires Inv(s, now)
    ensures Until(s.entries, now)
  {
  }

  lemma {:induction false} RunIsAccounted(states: seq<Store>, ops: seq<Op>, start: int, f: Functions, n: nat)
    requires IsRun(states, ops, start, f) && n <= |ops|
    ensures Accounted(states[n], states[0], Since(ops, start, n))
    decreases n
  {
    hide Put, Get, Sweep, Inv, Accounted, ContentAddressed;
    if n == 0 {
      NothingWritten(states[0], start);
    } else {
      RunKeeps(states, ops, start, f, n - 1);
      RunIsAccounted(states, ops, start, f, n - 1);
      StepIsAccounted(states[n - 1], states[0], ops[n - 1], Since(ops, start, n - 1), f);
    }
  }

  lemma NothingWritten(s: Store, now: int)
    ensures Accounted(s, s, now)
  {
  }

  lemma StepIsAccounted(s: Store, initial: Store, op: Op, before: int, f: Functions)
    requires Inv(s, before) && Accounted(s, initial, before) && Timely(op, before)
    ensures Accounted(Apply(s, op, f), initial, Clock(op))
  {
    hide Put, Get, Sweep, Inv, Accounted;
    match op
    case DoPut(project, text, written, touched, swept) =>
      PutIsAccounted(s, initial, project, text, before, written, touched, swept, f);
    case DoGet(project, hash, checked, at) => GetIsAccounted(s, initial, project, hash, before, checked, at, f);
    case DoSweep(now) => SweepIsAccounted(s, initial, before, now);
  }

  // ---------------------------------------------------------------- the size of the map

  /** A get that succeeds on a key without an entry. */
  predicate Revives(s: Store, op: Op, f: Functions) {
    op.DoGet? && Get(s, op.project, op.hash, op.checked, op.at, f).result.Found? && !HasEntry(s.entries, Key(op.project, op.hash))
  }

  /** Only a file that an earlier process left, and this one has not written, can be brought back. */
  lemma OnlyLeftoversRevive(states: seq<Store>, ops: seq<Op>, start: int, f: Functions, n: nat)
    requires IsRun(states, ops, start, f) && n < |ops| && Revives(states[n], ops[n], f)
    ensures Leftover(states[n], states[0], Key(ops[n].project, ops[n].hash))
  {
    hide Inv, Touch, Apply, ContentAddressed, Leftover;
    RunIsAccounted(states, ops, start, f, n);
    assert Timely(ops[n], Since(ops, start, n));
    var key := Key(ops[n].project, ops[n].hash);
  }

  /** The entries right after the last put or sweep, or at the start. */
  function Settled(states: seq<Store>, ops: seq<Op>, n: nat): nat
    requires |states| == |ops| + 1 && n <= |ops|
  {
    if n == 0 then 0
    else if ops[n - 1].DoGet? then Settled(states, ops, n - 1)
    else |states[n].entries|
  }

  /** The files brought back since then. */
  function Revived(states: seq<Store>, ops: seq<Op>, n: nat, f: Functions): nat
    requires |states| == |ops| + 1 && n <= |ops|
  {
    if n == 0 || !ops[n - 1].DoGet? then 0
    else Revived(states, ops, n - 1, f) + if Revives(states[n - 1], ops[n - 1], f) then 1 else 0
  }

  /**
   * The map holds exactly what it held after the last put or sweep, which is within the cap, and the files brought back
   * since; so it exceeds the cap exactly when these make up more than the room that was left, and by that much.
   */
  lemma {:induction false} SizeIsExact(states: seq<Store>, ops: seq<Op>, start: int, f: Functions, n: nat)
    requires IsRun(states, ops, start, f) && n <= |ops|
    ensures |states[n].entries| == Settled(states, ops, n) + Revived(states, ops, n, f)
    ensures Settled(states, ops, n) <= MAX_ENTRIES
    decreases n
  {
    hide Inv, Apply, ContentAddressed, Revives, Timely, Clock;
    if n == 0 {
    } else {
      SizeIsExact(states, ops, start, f, n - 1);
      RunKeeps(states, ops, start, f, n - 1);
      SizeStep(states[n - 1], ops[n - 1], Since(ops, start, n - 1), f);
    }
  }

  lemma SizeStep(s: Store, op: Op, before: int, f: Functions)
    requires Inv(s, before) && Timely(op, before)
    ensures if op.DoGet? then |Apply(s, op, f).entries| == |s.entries| + (if Revives(s, op, f) then 1 else 0)
            else |Apply(s, op, f).entries| <= MAX_ENTRIES
  {
    hide Inv, Put, Get, Sweep, HasEntry, Newest, Fresh;
    match op
    case DoGet(project, hash, checked, at) => GetKeepsInv(s, project, hash, before, checked, at, f);
    case DoPut(project, text, written, touched, swept) => PutIsLru(s, project, text, before, written, touched, swept, f);
    case DoSweep(now) =>
      SweepKeepsInv(s, before, now);
      NewestFits(Fresh(s.entries, now));
  }

  /** In an empty directory nothing can be brought back: the map stays within its cap in every state of every run. */
  lemma CapHolds(states: seq<Store>, ops: seq<Op>, start: int, f: Functions, n: nat)
    requires IsRun(states, ops, start, f) && n <= |ops| && states[0].files == map[]
    ensures |states[n].entries| <= MAX_ENTRIES
  {
    hide IsRun, Revives;
    SizeIsExact(states, ops, start, f, n);
    NoneRevived(states, ops, start, f, n);
  }

  lemma {:induction false} NoneRevived(states: seq<Store>, ops: seq<Op>, start: int, f: Functions, n: nat)
    requires IsRun(states, ops, start, f) && n <= |ops| && states[0].files == map[]
    ensures Revived(states, ops, n, f) == 0
    decreases n
  {
    hide Revives, Apply, ContentAddressed;
    if n == 0 {
    } else {
      NoneRevived(states, ops, start, f, n - 1);
      if Revives(states[n - 1], ops[n - 1], f) { OnlyLeftoversRevive(states, ops, start, f, n - 1); }
    }
  }

  // ---------------------------------------------------------------- a directory that makes it overflow

  const PLAIN := Functions(text => text, hash => true, text => text)

  function Name(i: nat): string { if i == 0 then "" else Name(i - 1) + "x" }

  /** A directory with that many files, all written at time 0. */
  function Directory(n: nat): map<Key, Option<Envelope>> {
    if n == 0 then map[] else Directory(n - 1)[Key("", Name(n - 1)) := Some(Envelope(0, Name(n - 1), false))]
  }

  lemma {:induction false} NameLength(i: nat)
    ensures |Name(i)| == i
  {
    if i == 0 {
    } else {
      NameLength(i - 1);
    }
  }

  lemma {:induction false} DirectoryHolds(n: nat, k: Key)
    ensures k in Directory(n) <==> k.project == "" && |k.hash| < n && k.hash == Name(|k.hash|)
    ensures k in Directory(n) ==> Directory(n)[k] == Some(Envelope(0, k.hash, false))
  {
    if n == 0 {
    } else {
      DirectoryHolds(n - 1, k);
      NameLength(n - 1);
    }
  }

  /** After `i` gets of different files that an earlier process left in a directory, the map has `i` entries. */
  lemma {:induction false} GetsOverflow(n: nat, i: nat) returns (states: seq<Store>, ops: seq<Op>)
    requires i <= n
    ensures IsRun(states, ops, 0, PLAIN) && |ops| == i && states[0] == Store([], Directory(n))
    ensures |states[i].entries| == i && states[i].files == Directory(n)
    ensures Since(ops, 0, i) == 0 && Inv(states[i], 0)
    ensures forall e :: e in states[i].entries ==> |e.key.hash| < i
  {
    hide Inv, Name, Directory, Apply, Clock, Timely, ContentAddressed, Since;
    if i == 0 {
      states, ops := [Store([], Directory(n))], [];
      DirectoryIsAddressed(n);
      NewProcessIsOk(states[0], 0);
      StartOfTime();
    } else {
      var before, done := GetsOverflow(n, i - 1);
      var s, op := before[i - 1], DoGet("", Name(i - 1), 0, 0);
      OneMoreGet(s, n, i);
      states, ops := before + [Apply(s, op, PLAIN)], done + [op];
      LongerRun(before, done, op);
    }
  }

  lemma StartOfTime()
    ensures Since([], 0, 0) == 0
  {
  }

  lemma OneMoreGet(s: Store, n: nat, i: nat)
    requires 0 < i <= n && Inv(s, 0) && |s.entries| == i - 1 && s.files == Directory(n)
    requires forall e :: e in s.entries ==> |e.key.hash| < i - 1
    ensures var op := DoGet("", Name(i - 1), 0, 0); var t := Apply(s, op, PLAIN);
      && Timely(op, 0) && Clock(op) == 0 && Inv(t, 0)
      && |t.entries| == i && t.files == Directory(n) && forall e :: e in t.entries ==> |e.key.hash| < i
  {
    hide Inv, Without, Name, Directory, Touch;
    NameLength(i - 1);
    DirectoryHolds(n, Key("", Name(i - 1)));
    GetKeepsInv(s, "", Name(i - 1), 0, 0, 0, PLAIN);
    AccessedNames(s, Name(i - 1), i);
  }

  lemma LongerRun(states: seq<Store>, ops: seq<Op>, op: Op)
    requires IsRun(states, ops, 0, PLAIN) && Timely(op, Since(ops, 0, |ops|))
    ensures IsRun(states + [Apply(states[|ops|], op, PLAIN)], ops + [op], 0, PLAIN)
    ensures Since(ops + [op], 0, |ops| + 1) == Clock(op)
  {
    hide Apply, Timely, Clock, ContentAddressed;
    var more, taken := states + [Apply(states[|ops|], op, PLAIN)], ops + [op];
    forall i | 0 <= i < |taken| ensures Timely(taken[i], Since(taken, 0, i)) && more[i + 1] == Apply(more[i], taken[i], PLAIN) {
      assert Since(taken, 0, i) == Since(ops, 0, i);
      if i < |ops| { assert more[i + 1] == states[i + 1] && taken[i] == ops[i]; }
    }
  }

  lemma DirectoryIsAddressed(n: nat)
    ensures ContentAddressed(Store([], Directory(n)), PLAIN)
  {
    forall k | k in Directory(n) ensures Directory(n)[k].Some? && Directory(n)[k].value.text == k.hash { DirectoryHolds(n, k); }
  }

  lemma AccessedNames(s: Store, name: string, i: nat)
    requires Inv(s, 0) && |name| < i && forall e :: e in s.entries ==> |e.key.hash| < i
    ensures forall e :: e in Accessed(s.entries, Key("", name), 0) ==> |e.key.hash| < i
  {
    hide Without;
    WithoutFacts(s.entries, Key("", name), s.files, 0);
  }
}
