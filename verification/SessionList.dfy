/** Keyset pagination of `session/list` over a set of sessions that may change between pages. */
module SessionList {
  import opened Basics
  import opened Encodings
  import opened SessionCursor

  // ---------------------------------------------------------------- the order

  /** `Buffer.compare`: bytewise, a prefix first. */
  predicate BytesLess(a: Bytes, b: Bytes) {
    if b == [] then false
    else if a == [] then true
    else a[0] < b[0] || (a[0] == b[0] && BytesLess(a[1..], b[1..]))
  }

  /** Newest first, then by the UTF-8 bytes of the id. */
  predicate Before(a: Key, b: Key) {
    a.createdAt > b.createdAt || (a.createdAt == b.createdAt && BytesLess(Utf8(a.sessionId), Utf8(b.sessionId)))
  }

  /** Neither key comes before the other. */
  predicate Tied(a: Key, b: Key) { a.createdAt == b.createdAt && Utf8(a.sessionId) == Utf8(b.sessionId) }

  lemma {:induction false} BytesLessTotal(a: Bytes, b: Bytes)
    ensures !(BytesLess(a, b) && BytesLess(b, a))
    ensures BytesLess(a, b) || BytesLess(b, a) <==> a != b
  {
    if a == [] || b == [] || a[0] != b[0] {
    } else {
      BytesLessTotal(a[1..], b[1..]);
      assert [a[0]] + a[1..] == a && [b[0]] + b[1..] == b;
    }
  }

  lemma {:induction false} BytesLessTransitive(a: Bytes, b: Bytes, c: Bytes)
    requires BytesLess(a, b) && BytesLess(b, c)
    ensures BytesLess(a, c)
  {
    if a == [] || !(a[0] == b[0] == c[0]) {
    } else {
      BytesLessTransitive(a[1..], b[1..], c[1..]);
    }
  }

  lemma BeforeIsStrict(a: Key, b: Key)
    ensures !(Before(a, b) && Before(b, a))
    ensures Before(a, b) || Before(b, a) <==> !Tied(a, b)
  {
    hide BytesLess, Utf8;
    BytesLessTotal(Utf8(a.sessionId), Utf8(b.sessionId));
  }

  lemma BeforeTransitive(a: Key, b: Key, c: Key)
    requires Before(a, b) && Before(b, c)
    ensures Before(a, c)
  {
    hide BytesLess, Utf8;
    if a.createdAt == b.createdAt == c.createdAt {
      BytesLessTransitive(Utf8(a.sessionId), Utf8(b.sessionId), Utf8(c.sessionId));
    }
  }

  /** Ids of proper Unicode text are never tied with one another. */
  lemma TiedMeansEqual(a: Key, b: Key)
    requires WellFormed(a.sessionId) && WellFormed(b.sessionId)
    ensures Tied(a, b) <==> a == b
  {
    hide Utf8, WellFormed;
    if Tied(a, b) { Utf8IsInjective(a.sessionId, b.sessionId); }
  }

  ghost predicate Ascending(keys: seq<Key>) { forall i, j :: 0 <= i < j < |keys| ==> Before(keys[i], keys[j]) }

  /** A snapshot in which no two sessions are tied; with well-formed ids, one that lists no session twice. */
  ghost predicate Untied(keys: seq<Key>) { forall i, j :: 0 <= i < j < |keys| ==> !Tied(keys[i], keys[j]) }

  // ---------------------------------------------------------------- one page

  function Insert(k: Key, sorted: seq<Key>): seq<Key> {
    if sorted == [] || !Before(sorted[0], k) then [k] + sorted else [sorted[0]] + Insert(k, sorted[1..])
  }

  /** The entries of a snapshot in list order. */
  function Sort(keys: seq<Key>): seq<Key> {
    if keys == [] then [] else Insert(keys[0], Sort(keys[1..]))
  }

  /** `isAfterSessionListCursor`, true of everything when there is no cursor. */
  predicate After(k: Key, cursor: Option<Key>) { cursor.Some? ==> Before(cursor.value, k) }

  function Remaining(sorted: seq<Key>, cursor: Option<Key>): seq<Key> {
    if sorted == [] then []
    else if After(sorted[0], cursor) then [sorted[0]] + Remaining(sorted[1..], cursor)
    else Remaining(sorted[1..], cursor)
  }

  datatype Page = Page(keys: seq<Key>, next: Option<Key>)

  /** `listSessions` over the visible entries of one snapshot. */
  function ListPage(snapshot: seq<Key>, cursor: Option<Key>, size: nat): Page
    requires size > 0
  {
    var remaining := Remaining(Sort(snapshot), cursor);
    if |remaining| > size then Page(remaining[..size], Some(remaining[size - 1])) else Page(remaining, None)
  }

  lemma {:induction false} InsertKeeps(k: Key, sorted: seq<Key>)
    ensures forall x :: x in Insert(k, sorted) <==> x == k || x in sorted
    ensures |Insert(k, sorted)| == |sorted| + 1
  {
    hide Before;
    if sorted == [] || !Before(sorted[0], k) {
    } else {
      InsertKeeps(k, sorted[1..]);
    }
  }

  lemma {:induction false} InsertAscends(k: Key, sorted: seq<Key>)
    requires Ascending(sorted) && forall x :: x in sorted ==> !Tied(x, k)
    ensures Ascending(Insert(k, sorted))
  {
    hide Before, Tied;
    if sorted == [] {
    } else if Before(sorted[0], k) {
      TailAscends(sorted);
      InsertAscends(k, sorted[1..]);
      InsertKeeps(k, sorted[1..]);
      HeadAscends(sorted[0], Insert(k, sorted[1..]));
    } else {
      BeforeIsStrict(sorted[0], k);
      forall x | x in sorted ensures Before(k, x) {
        assert !Tied(sorted[0], k);
        if x != sorted[0] { BeforeTransitive(k, sorted[0], x); }
      }
      HeadAscends(k, sorted);
    }
  }

  lemma TailAscends(keys: seq<Key>)
    requires keys != [] && Ascending(keys)
    ensures Ascending(keys[1..])
    ensures forall x :: x in keys[1..] ==> Before(keys[0], x)
  {
    hide Before;
  }

  lemma HeadAscends(k: Key, keys: seq<Key>)
    requires Ascending(keys) && forall x :: x in keys ==> Before(k, x)
    ensures Ascending([k] + keys)
  {
    hide Before;
  }

  lemma {:induction false} SortSorts(keys: seq<Key>)
    ensures forall x :: x in Sort(keys) <==> x in keys
    ensures |Sort(keys)| == |keys|
    ensures Untied(keys) ==> Ascending(Sort(keys))
  {
    hide Before, Tied, Insert;
    if keys == [] {
    } else {
      SortSorts(keys[1..]);
      InsertKeeps(keys[0], Sort(keys[1..]));
      if Untied(keys) {
        UntiedTail(keys);
        InsertAscends(keys[0], Sort(keys[1..]));
      }
    }
  }

  lemma UntiedTail(keys: seq<Key>)
    requires keys != [] && Untied(keys)
    ensures Untied(keys[1..]) && forall x :: x in keys[1..] ==> !Tied(x, keys[0])
  {
    hide Utf8;
    forall x | x in keys[1..] ensures !Tied(x, keys[0]) {
      var j :| 0 <= j < |keys[1..]| && keys[1..][j] == x;
      assert !Tied(keys[0], keys[j + 1]);
    }
  }

  lemma {:induction false} RemainingKeeps(sorted: seq<Key>, cursor: Option<Key>)
    requires Ascending(sorted)
    ensures Ascending(Remaining(sorted, cursor))
    ensures forall x :: x in Remaining(sorted, cursor) <==> x in sorted && After(x, cursor)
  {
    hide Before, After;
    if sorted == [] {
    } else {
      TailAscends(sorted);
      RemainingKeeps(sorted[1..], cursor);
      if After(sorted[0], cursor) { HeadAscends(sorted[0], Remaining(sorted[1..], cursor)); }
    }
  }

  /** One page: its keys ascend after the cursor, and the snapshot's other keys after the cursor come after the page. */
  lemma PageIsPrefix(snapshot: seq<Key>, cursor: Option<Key>, size: nat)
    requires size > 0 && Untied(snapshot)
    ensures var page := ListPage(snapshot, cursor, size);
      && Ascending(page.keys)
      && |page.keys| <= size
      && (forall x :: x in page.keys ==> x in snapshot && After(x, cursor))
    ensures var page := ListPage(snapshot, cursor, size);
      page.next.Some? ==> page.keys != [] && page.next.value == page.keys[|page.keys| - 1]
    ensures var page := ListPage(snapshot, cursor, size);
      forall x :: x in snapshot && After(x, cursor) && x !in page.keys ==> page.next.Some? && After(x, page.next)
  {
    hide Before, Sort, Remaining, Untied;
    SortSorts(snapshot);
    RemainingKeeps(Sort(snapshot), cursor);
    var remaining := Remaining(Sort(snapshot), cursor);
    var page := ListPage(snapshot, cursor, size);
    forall x | x in snapshot && After(x, cursor) && x !in page.keys ensures page.next.Some? && After(x, page.next) {
      var j :| 0 <= j < |remaining| && remaining[j] == x;
      if |remaining| > size {
        InPrefix(remaining, size, j);
        assert Before(remaining[size - 1], remaining[j]);
      }
    }
  }

  lemma InPrefix(keys: seq<Key>, n: nat, j: nat)
    requires n <= |keys| && j < |keys|
    ensures j < n ==> keys[j] in keys[..n]
  {
    if j < n { assert keys[..n][j] == keys[j]; }
  }

  // ---------------------------------------------------------------- following the cursor

  /** Everything a client collects, and whether the last page had no successor. */
  datatype Walk = Walk(keys: seq<Key>, pages: nat, ended: bool)

  /** Asking for page after page, each answered from the snapshot of that moment. */
  function Follow(snapshots: seq<seq<Key>>, cursor: Option<Key>, size: nat): Walk
    requires size > 0
  {
    if snapshots == [] then Walk([], 0, false)
    else
      var page := ListPage(snapshots[0], cursor, size);
      if page.next.None? then Walk(page.keys, 1, true)
      else
        var more := Follow(snapshots[1..], page.next, size);
        Walk(page.keys + more.keys, 1 + more.pages, more.ended)
  }

  lemma PageThenMore(keys: seq<Key>, next: Key, more: seq<Key>, cursor: Option<Key>)
    requires Ascending(keys) && Ascending(more)
    requires keys != [] && next == keys[|keys| - 1]
    requires forall x :: x in keys ==> After(x, cursor)
    requires forall x :: x in more ==> Before(next, x)
    ensures Ascending(keys + more)
    ensures forall x :: x in keys + more ==> After(x, cursor)
  {
    hide Before;
    var all := keys + more;
    forall i, j | 0 <= i < j < |all| ensures Before(all[i], all[j]) {
      if i < |keys| <= j {
        assert all[j] in more;
        if i < |keys| - 1 { BeforeTransitive(all[i], next, all[j]); }
      }
    }
    forall x | x in more ensures After(x, cursor) {
      assert After(next, cursor);
      if cursor.Some? { BeforeTransitive(cursor.value, next, x); }
    }
  }

  /**
   * However the set changes between pages, the collected keys strictly ascend, so none comes twice, and each was listed
   * by a snapshot.
   */
  lemma {:induction false} WalkAscends(snapshots: seq<seq<Key>>, cursor: Option<Key>, size: nat)
    requires size > 0 && forall s :: s in snapshots ==> Untied(s)
    ensures var walk := Follow(snapshots, cursor, size);
      && Ascending(walk.keys)
      && (forall x :: x in walk.keys ==> After(x, cursor))
      && (forall x :: x in walk.keys ==> exists s :: s in snapshots && x in s)
    decreases |snapshots|
  {
    hide Before, ListPage, Untied, Ascending;
    if snapshots == [] {
      NothingAscends();
    } else {
      var page := ListPage(snapshots[0], cursor, size);
      PageIsPrefix(snapshots[0], cursor, size);
      if page.next.Some? {
        WalkAscends(snapshots[1..], page.next, size);
        PageThenMore(page.keys, page.next.value, Follow(snapshots[1..], page.next, size).keys, cursor);
      }
    }
  }

  lemma NothingAscends()
    ensures Ascending([])
  {
  }

  /** The first `n` snapshots all list a key. */
  predicate ListedBy(snapshots: seq<seq<Key>>, n: nat, k: Key) {
    n <= |snapshots| && forall i :: 0 <= i < n ==> k in snapshots[i]
  }

  lemma ListedByRest(snapshots: seq<seq<Key>>, n: nat, k: Key)
    requires snapshots != [] && ListedBy(snapshots, 1 + n, k)
    ensures k in snapshots[0] && ListedBy(snapshots[1..], n, k)
  {
    assert k in snapshots[0];
    forall i | 0 <= i < n ensures k in snapshots[1..][i] { assert k in snapshots[i + 1]; }
  }

  /** Once a walk has ended, it has collected every key that all the snapshots it asked list. */
  lemma {:induction false} WalkIsComplete(snapshots: seq<seq<Key>>, cursor: Option<Key>, size: nat, k: Key)
    requires size > 0 && forall s :: s in snapshots ==> Untied(s)
    requires Follow(snapshots, cursor, size).ended
    requires After(k, cursor) && ListedBy(snapshots, Follow(snapshots, cursor, size).pages, k)
    ensures k in Follow(snapshots, cursor, size).keys
    decreases |snapshots|
  {
    hide Before, After, ListPage, Untied, Ascending, ListedBy;
    if snapshots == [] {
    } else {
      var page := ListPage(snapshots[0], cursor, size);
      PageIsPrefix(snapshots[0], cursor, size);
      var more := if page.next.None? then 0 else Follow(snapshots[1..], page.next, size).pages;
      ListedByRest(snapshots, more, k);
      if k !in page.keys { WalkIsComplete(snapshots[1..], page.next, size, k); }
    }
  }

  /** A session keeps its creation time, so a key that ascends past another one with the same id is impossible. */
  ghost predicate StableTimes(snapshots: seq<seq<Key>>) {
    forall s, t, a, b :: s in snapshots && t in snapshots && a in s && b in t && a.sessionId == b.sessionId ==> a == b
  }

  /** No session id is returned twice, whatever comes and goes between the pages. */
  lemma NoIdTwice(snapshots: seq<seq<Key>>, size: nat, i: nat, j: nat)
    requires size > 0 && StableTimes(snapshots) && forall s :: s in snapshots ==> Untied(s)
    requires i < j < |Follow(snapshots, None, size).keys|
    ensures Follow(snapshots, None, size).keys[i].sessionId != Follow(snapshots, None, size).keys[j].sessionId
  {
    hide Follow, Untied, Before;
    WalkAscends(snapshots, None, size);
    var keys := Follow(snapshots, None, size).keys;
    assert Before(keys[i], keys[j]);
    BeforeIsStrict(keys[i], keys[j]);
    assert keys[i] in keys && keys[j] in keys;
    var s :| s in snapshots && keys[i] in s;
    var t :| t in snapshots && keys[j] in t;
  }

  // ---------------------------------------------------------------- an unchanging set

  predicate Unchanging(snapshots: seq<seq<Key>>, snapshot: seq<Key>) { forall s :: s in snapshots ==> s == snapshot }

  lemma {:induction false} RemainingAfterPrefix(sorted: seq<Key>, n: nat, k: Key)
    requires Ascending(sorted) && n < |sorted| && k == sorted[n]
    ensures Remaining(sorted, Some(k)) == sorted[n + 1..]
    decreases n
  {
    hide Before, Ascending, Remaining;
    TailAscends(sorted);
    RemainingStep(sorted, Some(k));
    BeforeIsStrict(sorted[0], k);
    if n == 0 {
      AllRemain(sorted[1..], Some(k));
      BeforeIsStrict(k, k);
      assert sorted[1..] == sorted[n + 1..];
    } else {
      assert sorted[1..][n - 1] == k;
      RemainingAfterPrefix(sorted[1..], n - 1, k);
      assert sorted[1..][n..] == sorted[n + 1..];
    }
  }

  lemma RemainingStep(sorted: seq<Key>, cursor: Option<Key>)
    requires sorted != []
    ensures Remaining(sorted, cursor)
         == if After(sorted[0], cursor) then [sorted[0]] + Remaining(sorted[1..], cursor) else Remaining(sorted[1..], cursor)
  {
    hide Before;
  }

  lemma {:induction false} AllRemain(sorted: seq<Key>, cursor: Option<Key>)
    requires forall x :: x in sorted ==> After(x, cursor)
    ensures Remaining(sorted, cursor) == sorted
  {
    hide Before, After;
    if sorted == [] {
    } else {
      AllRemain(sorted[1..], cursor);
      assert [sorted[0]] + sorted[1..] == sorted;
    }
  }

  /** The cursor that stands behind the first `done` keys of a sorted list. */
  function Behind(sorted: seq<Key>, done: nat): Option<Key>
    requires done <= |sorted|
  {
    if done == 0 then None else Some(sorted[done - 1])
  }

  lemma RemainingBehind(sorted: seq<Key>, done: nat)
    requires Ascending(sorted) && done <= |sorted|
    ensures Remaining(sorted, Behind(sorted, done)) == sorted[done..]
  {
    hide Before, Remaining, Ascending;
    if done == 0 { AllRemain(sorted, None); } else { RemainingAfterPrefix(sorted, done - 1, sorted[done - 1]); }
  }

  /** How many pages `n` further keys take: one at least. */
  function PagesFor(n: nat, size: nat): nat
    requires size > 0
  {
    if n <= size then 1 else 1 + PagesFor(n - size, size)
  }

  /** That is the quotient rounded up, and one for nothing. */
  lemma {:induction false} PagesForIsCeiling(n: nat, size: nat)
    requires size > 0
    ensures n <= PagesFor(n, size) * size
    ensures n > 0 ==> (PagesFor(n, size) - 1) * size < n
  {
    if n <= size {
    } else {
      PagesForIsCeiling(n - size, size);
      var p := PagesFor(n - size, size);
      assert (1 + p) * size == size + p * size;
      assert p * size == (p - 1) * size + size;
    }
  }

  lemma {:induction false} UnchangingFrom(snapshots: seq<seq<Key>>, snapshot: seq<Key>, size: nat, done: nat)
    requires size > 0 && Untied(snapshot) && Unchanging(snapshots, snapshot)
    requires done <= |Sort(snapshot)| && |snapshots| >= PagesFor(|Sort(snapshot)| - done, size)
    ensures var sorted := Sort(snapshot);
      Follow(snapshots, Behind(sorted, done), size) == Walk(sorted[done..], PagesFor(|sorted| - done, size), true)
    decreases |snapshots|
  {
    hide Before, Sort, Remaining, Untied, Ascending, Behind;
    var sorted := Sort(snapshot);
    SortSorts(snapshot);
    RemainingBehind(sorted, done);
    assert snapshots[0] in snapshots;
    if |sorted| - done <= size {
    } else {
      BehindNext(sorted, done, size);
      assert |sorted| - done - size == |sorted| - (done + size);
      assert PagesFor(|sorted| - done, size) == 1 + PagesFor(|sorted| - (done + size), size);
      assert forall s :: s in snapshots[1..] ==> s in snapshots;
      UnchangingFrom(snapshots[1..], snapshot, size, done + size);
      assert sorted[done..][..size] + sorted[done + size..] == sorted[done..];
    }
  }

  lemma BehindNext(sorted: seq<Key>, done: nat, size: nat)
    requires size > 0 && done + size <= |sorted|
    ensures Behind(sorted, done + size) == Some(sorted[done..][size - 1])
  {
  }

  /** Over an unchanging set the client collects the whole list, in order, in as many pages as it takes to fill. */
  lemma UnchangingWalk(snapshots: seq<seq<Key>>, snapshot: seq<Key>, size: nat)
    requires size > 0 && Untied(snapshot) && Unchanging(snapshots, snapshot)
    requires |snapshots| >= PagesFor(|snapshot|, size)
    ensures Follow(snapshots, None, size) == Walk(Sort(snapshot), PagesFor(|snapshot|, size), true)
  {
    hide Before, Sort, Remaining, Untied, Ascending, Follow;
    SortSorts(snapshot);
    UnchangingFrom(snapshots, snapshot, size, 0);
    assert Sort(snapshot)[0..] == Sort(snapshot);
  }

  // ---------------------------------------------------------------- proper ids, and ties

  /** No session is listed twice, and every id is proper Unicode text. */
  ghost predicate Proper(keys: seq<Key>) {
    && (forall i, j :: 0 <= i < j < |keys| ==> keys[i] != keys[j])
    && (forall i :: 0 <= i < |keys| ==> WellFormed(keys[i].sessionId))
  }

  lemma ProperIsUntied(keys: seq<Key>)
    requires Proper(keys)
    ensures Untied(keys)
  {
    hide Tied, WellFormed;
    forall i, j | 0 <= i < j < |keys| ensures !Tied(keys[i], keys[j]) { TiedMeansEqual(keys[i], keys[j]); }
  }

  lemma AllProperAreUntied(snapshots: seq<seq<Key>>)
    requires forall s :: s in snapshots ==> Proper(s)
    ensures forall s :: s in snapshots ==> Untied(s)
  {
    hide Proper, Untied;
    forall s | s in snapshots ensures Untied(s) { ProperIsUntied(s); }
  }

  /**
   * For proper ids, whatever comes and goes between the pages: the collected keys strictly ascend and were listed, and once
   * the walk has ended they include every key that all the snapshots list.
   */
  lemma ProperWalk(snapshots: seq<seq<Key>>, size: nat)
    requires size > 0 && forall s :: s in snapshots ==> Proper(s)
    ensures var walk := Follow(snapshots, None, size);
      && Ascending(walk.keys)
      && (forall x :: x in walk.keys ==> exists s :: s in snapshots && x in s)
      && (forall k :: walk.ended && ListedBy(snapshots, walk.pages, k) ==> k in walk.keys)
  {
    hide Proper, Untied, Follow, Ascending, ListedBy;
    AllProperAreUntied(snapshots);
    WalkAscends(snapshots, None, size);
    forall k | Follow(snapshots, None, size).ended && ListedBy(snapshots, Follow(snapshots, None, size).pages, k)
      ensures k in Follow(snapshots, None, size).keys
    {
      WalkIsComplete(snapshots, None, size, k);
    }
  }

  /** For proper ids over an unchanging set: the sorted list, in as many pages as it fills. */
  lemma ProperUnchangingWalk(snapshots: seq<seq<Key>>, snapshot: seq<Key>, size: nat)
    requires size > 0 && Proper(snapshot) && Unchanging(snapshots, snapshot) && |snapshots| >= PagesFor(|snapshot|, size)
    ensures Follow(snapshots, None, size) == Walk(Sort(snapshot), PagesFor(|snapshot|, size), true)
  {
    hide Proper, Untied, Follow, Sort;
    ProperIsUntied(snapshot);
    UnchangingWalk(snapshots, snapshot, size);
  }

  lemma {:induction false} RemainingMembers(sorted: seq<Key>, cursor: Option<Key>)
    ensures forall x :: x in Remaining(sorted, cursor) ==> x in sorted && After(x, cursor)
  {
    hide After;
    if sorted == [] {
    } else {
      RemainingMembers(sorted[1..], cursor);
    }
  }

  /** Page by page with one key each, no tie can make a walk return two tied keys. */
  lemma {:induction false} SinglesAscend(snapshots: seq<seq<Key>>, cursor: Option<Key>)
    ensures Ascending(Follow(snapshots, cursor, 1).keys)
    ensures forall x :: x in Follow(snapshots, cursor, 1).keys ==> After(x, cursor)
    decreases |snapshots|
  {
    hide Before, Sort, Remaining, Ascending, After;
    if snapshots == [] {
      NothingAscends();
    } else {
      var page := ListPage(snapshots[0], cursor, 1);
      RemainingMembers(Sort(snapshots[0]), cursor);
      OneAscends(page.keys);
      if page.next.Some? {
        SinglesAscend(snapshots[1..], page.next);
        AfterSome(page.next.value);
        PageThenMore(page.keys, page.next.value, Follow(snapshots[1..], page.next, 1).keys, cursor);
      }
    }
  }

  lemma OneAscends(keys: seq<Key>)
    ensures |keys| <= 1 ==> Ascending(keys)
  {
  }

  lemma AfterSome(k: Key)
    ensures forall x :: After(x, Some(k)) <==> Before(k, x)
  {
    hide Before;
  }

  /**
   * One key a page over an unchanging set that lists no key twice: the client gets every key if and only if no two of them
   * are tied.
   */
  lemma SinglesCollectAllIffUntied(snapshots: seq<seq<Key>>, snapshot: seq<Key>)
    requires Unchanging(snapshots, snapshot) && |snapshots| >= PagesFor(|snapshot|, 1)
    requires forall i, j :: 0 <= i < j < |snapshot| ==> snapshot[i] != snapshot[j]
    ensures (forall k :: k in snapshot ==> k in Follow(snapshots, None, 1).keys) <==> Untied(snapshot)
  {
    hide Follow, Untied, Sort, Before, Tied, Unchanging;
    var keys := Follow(snapshots, None, 1).keys;
    if Untied(snapshot) {
      UnchangingWalk(snapshots, snapshot, 1);
      SortSorts(snapshot);
    } else if forall k :: k in snapshot ==> k in keys {
      TiedAmong(snapshot);
      var i, j :| 0 <= i < j < |snapshot| && Tied(snapshot[i], snapshot[j]);
      SinglesAscend(snapshots, None);
      assert snapshot[i] in keys && snapshot[j] in keys;
      TiedApart(keys, snapshot[i], snapshot[j]);
    }
  }

  lemma TiedAmong(keys: seq<Key>)
    requires !Untied(keys)
    ensures exists i, j :: 0 <= i < j < |keys| && Tied(keys[i], keys[j])
  {
    hide Tied;
  }

  /** Ascending keys hold no two different tied ones. */
  lemma TiedApart(keys: seq<Key>, a: Key, b: Key)
    requires Ascending(keys) && a in keys && b in keys && a != b
    ensures !Tied(a, b)
  {
    hide Before, Tied;
    var i :| 0 <= i < |keys| && keys[i] == a;
    var j :| 0 <= j < |keys| && keys[j] == b;
    BeforeIsStrict(a, b);
    assert if i < j then Before(keys[i], keys[j]) else Before(keys[j], keys[i]);
  }

  // ---------------------------------------------------------------- how many pages

  /** Every page but the last is full. */
  lemma {:induction false} PagesAreFull(snapshots: seq<seq<Key>>, cursor: Option<Key>, size: nat)
    requires size > 0
    ensures var walk := Follow(snapshots, cursor, size); walk.pages > 0 ==> (walk.pages - 1) * size <= |walk.keys|
    ensures var walk := Follow(snapshots, cursor, size); !walk.ended ==> walk.pages * size == |walk.keys|
    decreases |snapshots|
  {
    hide Sort, Remaining;
    if snapshots == [] {
    } else {
      var page := ListPage(snapshots[0], cursor, size);
      if page.next.Some? {
        PagesAreFull(snapshots[1..], page.next, size);
        var more := Follow(snapshots[1..], page.next, size);
        assert (1 + more.pages) * size == size + more.pages * size;
        if more.pages > 0 { assert more.pages * size == (more.pages - 1) * size + size; }
      }
    }
  }

  lemma {:induction false} DistinctFit(keys: seq<Key>, all: set<Key>)
    requires (forall i, j :: 0 <= i < j < |keys| ==> keys[i] != keys[j]) && forall k :: k in keys ==> k in all
    ensures |keys| <= |all|
  {
    if keys == [] {
    } else {
      var first, rest := keys[0], keys[1..];
      forall k | k in rest ensures k in all - {first} {
        var j :| 0 <= j < |rest| && rest[j] == k;
        assert keys[j + 1] == k;
      }
      DistinctFit(rest, all - {first});
    }
  }

  /**
   * However the set changes, a walk takes at most one page more than the keys ever listed fill, so it ends unless new keys
   * keep turning up.
   */
  lemma WalkIsBounded(snapshots: seq<seq<Key>>, size: nat, all: set<Key>)
    requires size > 0 && (forall s :: s in snapshots ==> Untied(s)) && forall s, k :: s in snapshots && k in s ==> k in all
    ensures var walk := Follow(snapshots, None, size);
      && |walk.keys| <= |all|
      && (walk.pages > 0 ==> (walk.pages - 1) * size <= |all|)
      && (!walk.ended ==> walk.pages * size <= |all|)
  {
    hide Follow, Untied, Before;
    WalkAscends(snapshots, None, size);
    PagesAreFull(snapshots, None, size);
    var keys := Follow(snapshots, None, size).keys;
    forall i, j | 0 <= i < j < |keys| ensures keys[i] != keys[j] {
      assert Before(keys[i], keys[j]);
      BeforeIsStrict(keys[i], keys[j]);
    }
    DistinctFit(keys, all);
  }

  /** Ids with lone surrogates can be tied, and then a page boundary between them drops one for good. */
  lemma TiedSessionIsLost()
    ensures var a, b := Key(0, [0xD800]), Key(0, [0xD801]);
      var walk := Follow([[a, b], [a, b]], None, 1);
      walk.ended && b !in walk.keys
  {
    hide Utf8, BytesLess;
    var a, b := Key(0, [0xD800]), Key(0, [0xD801]);
    LoneSurrogatesCollide();
    TiedPair(a, b);
    TiedPages(a, b);
    assert [[a, b], [a, b]][1..] == [[a, b]];
  }

  lemma TiedPair(a: Key, b: Key)
    requires Tied(a, b)
    ensures !Before(a, b) && !Before(b, a) && !Before(a, a) && !Before(b, b)
    ensures Sort([a, b]) == [a, b]
  {
    hide Utf8, BytesLess;
    BeforeIsStrict(a, b);
    BeforeIsStrict(b, a);
    BeforeIsStrict(a, a);
    BeforeIsStrict(b, b);
    assert [a, b][1..] == [b] && [b][1..] == [];
    assert Sort([b]) == [b];
  }

  lemma TiedPages(a: Key, b: Key)
    requires Tied(a, b)
    ensures ListPage([a, b], None, 1) == Page([a], Some(a))
    ensures ListPage([a, b], Some(a), 1) == Page([], None)
  {
    hide Before, Tied, Sort;
    TiedPair(a, b);
    AllRemain([a, b], None);
    assert [a, b][1..] == [b] && [b][1..] == [];
    assert Remaining([b], Some(a)) == [];
    RemainingStep([a, b], Some(a));
  }
}
