/** The order in which a client sees sessions, said without the comparison of the code: newest first, then by the bytes of the id. */
module SessionOrder {
  import opened Basics
  import opened Encodings
  import opened SessionCursor
  import opened SessionList

  /** The two agree on `n` bytes; then the first one has ended, or has the smaller byte. */
  predicate DifferAt(a: Bytes, b: Bytes, n: nat) {
    && n <= |a| && n <= |b| && a[..n] == b[..n]
    && ((n == |a| && n < |b|) || (n < |a| && n < |b| && a[n] < b[n]))
  }

  /** A proper prefix, or smaller at the first byte that differs. */
  ghost predicate Smaller(a: Bytes, b: Bytes) { exists n: nat :: DifferAt(a, b, n) }

  /** The first session is the newer one; of two equally old ones it has the smaller id. */
  ghost predicate Earlier(a: Key, b: Key) {
    a.createdAt > b.createdAt || (a.createdAt == b.createdAt && Smaller(Utf8(a.sessionId), Utf8(b.sessionId)))
  }

  /** Creation times never increase along the keys, and the bytes of equally old ids never decrease. */
  ghost predicate NewestFirst(keys: seq<Key>) {
    forall i, j :: 0 <= i < j < |keys| ==> Earlier(keys[i], keys[j]) || Tied(keys[i], keys[j])
  }

  lemma {:induction false} BytesLessMeans(a: Bytes, b: Bytes)
    ensures BytesLess(a, b) <==> Smaller(a, b)
  {
    if a == [] || b == [] || a[0] != b[0] {
      if BytesLess(a, b) { assert DifferAt(a, b, 0); }
      if Smaller(a, b) {
        var n: nat :| DifferAt(a, b, n);
        SharedByte(a, b, n);
      }
    } else {
      BytesLessMeans(a[1..], b[1..]);
      if Smaller(a[1..], b[1..]) {
        var n: nat :| DifferAt(a[1..], b[1..], n);
        assert a[..n + 1] == [a[0]] + a[1..][..n] && b[..n + 1] == [b[0]] + b[1..][..n];
        assert DifferAt(a, b, n + 1);
      }
      if Smaller(a, b) {
        var n: nat :| DifferAt(a, b, n);
        assert n > 0;
        assert a[1..][..n - 1] == a[..n][1..] && b[1..][..n - 1] == b[..n][1..];
        assert DifferAt(a[1..], b[1..], n - 1);
      }
    }
  }

  lemma SharedByte(a: Bytes, b: Bytes, n: nat)
    requires DifferAt(a, b, n)
    ensures n > 0 ==> a != [] && b != [] && a[0] == b[0]
  {
    if n > 0 { assert a[..n][0] == a[0] && b[..n][0] == b[0]; }
  }

  lemma BeforeMeansEarlier(a: Key, b: Key)
    ensures Before(a, b) <==> Earlier(a, b)
  {
    hide BytesLess, Smaller, Utf8;
    BytesLessMeans(Utf8(a.sessionId), Utf8(b.sessionId));
  }

  /** Of any two keys, one is earlier or they are tied. */
  lemma EarlierIsTotal(a: Key, b: Key)
    ensures Before(a, b) || Before(b, a) || Tied(a, b)
    ensures !(Before(a, b) && Before(b, a)) && !(Before(a, b) && Tied(a, b))
  {
    hide Before, Tied;
    BeforeIsStrict(a, b);
  }

  /** The order that sorting keeps, with ties. */
  ghost predicate NotAfter(a: Key, b: Key) { Before(a, b) || Tied(a, b) }

  ghost predicate Ordered(keys: seq<Key>) { forall i, j :: 0 <= i < j < |keys| ==> NotAfter(keys[i], keys[j]) }

  lemma NotAfterTransitive(a: Key, b: Key, c: Key)
    requires NotAfter(a, b) && NotAfter(b, c)
    ensures NotAfter(a, c)
    ensures Before(a, b) || Before(b, c) ==> Before(a, c)
  {
    hide BytesLess, Utf8;
    if Before(a, b) && Before(b, c) { BeforeTransitive(a, b, c); }
  }

  lemma OrderedMeansNewestFirst(keys: seq<Key>)
    requires Ordered(keys)
    ensures NewestFirst(keys)
  {
    hide Before, Tied, Earlier;
    forall i, j | 0 <= i < j < |keys| ensures Earlier(keys[i], keys[j]) || Tied(keys[i], keys[j]) {
      assert NotAfter(keys[i], keys[j]);
      BeforeMeansEarlier(keys[i], keys[j]);
    }
  }

  lemma OrderedTail(keys: seq<Key>)
    requires keys != [] && Ordered(keys)
    ensures Ordered(keys[1..])
    ensures forall x :: x in keys[1..] ==> NotAfter(keys[0], x)
  {
    hide NotAfter;
  }

  lemma OrderedHead(k: Key, keys: seq<Key>)
    requires Ordered(keys) && forall x :: x in keys ==> NotAfter(k, x)
    ensures Ordered([k] + keys)
  {
    hide NotAfter;
  }

  lemma {:induction false} InsertOrders(k: Key, sorted: seq<Key>)
    requires Ordered(sorted)
    ensures Ordered(Insert(k, sorted))
  {
    hide Before, Tied;
    if sorted == [] {
    } else if Before(sorted[0], k) {
      OrderedTail(sorted);
      InsertOrders(k, sorted[1..]);
      InsertKeeps(k, sorted[1..]);
      OrderedHead(sorted[0], Insert(k, sorted[1..]));
    } else {
      EarlierIsTotal(sorted[0], k);
      TiedBack(sorted[0], k);
      assert NotAfter(k, sorted[0]);
      OrderedTail(sorted);
      forall x | x in sorted ensures NotAfter(k, x) {
        if x != sorted[0] { NotAfterTransitive(k, sorted[0], x); }
      }
      OrderedHead(k, sorted);
    }
  }

  lemma TiedBack(a: Key, b: Key)
    ensures Tied(a, b) <==> Tied(b, a)
  {
  }

  lemma {:induction false} SortOrders(keys: seq<Key>)
    ensures Ordered(Sort(keys))
  {
    hide Insert, NotAfter;
    if keys == [] {
    } else {
      SortOrders(keys[1..]);
      InsertOrders(keys[0], Sort(keys[1..]));
    }
  }

  lemma {:induction false} RemainingOrders(sorted: seq<Key>, cursor: Option<Key>)
    requires Ordered(sorted)
    ensures Ordered(Remaining(sorted, cursor))
    ensures forall x :: x in Remaining(sorted, cursor) <==> x in sorted && After(x, cursor)
  {
    hide NotAfter, After;
    if sorted == [] {
    } else {
      OrderedTail(sorted);
      RemainingOrders(sorted[1..], cursor);
      if After(sorted[0], cursor) { OrderedHead(sorted[0], Remaining(sorted[1..], cursor)); }
    }
  }

  /** For every list of sessions, ties and repetitions included, the sorted list is newest first. */
  lemma SortIsNewestFirst(keys: seq<Key>)
    ensures NewestFirst(Sort(keys)) && multiset(Sort(keys)) == multiset(keys)
  {
    hide NewestFirst, Ordered, Sort;
    SortOrders(keys);
    OrderedMeansNewestFirst(Sort(keys));
    SortPermutes(keys);
  }

  lemma {:induction false} SortPermutes(keys: seq<Key>)
    ensures multiset(Sort(keys)) == multiset(keys)
  {
    hide Before;
    if keys == [] {
    } else {
      SortPermutes(keys[1..]);
      InsertPermutes(keys[0], Sort(keys[1..]));
      assert keys == [keys[0]] + keys[1..];
    }
  }

  lemma {:induction false} InsertPermutes(k: Key, sorted: seq<Key>)
    ensures multiset(Insert(k, sorted)) == multiset([k]) + multiset(sorted)
  {
    hide Before;
    if sorted == [] || !Before(sorted[0], k) {
    } else {
      InsertPermutes(k, sorted[1..]);
      assert sorted == [sorted[0]] + sorted[1..];
    }
  }

  /**
   * A page is newest first. Its keys are listed and come behind the cursor, and no listed key behind the cursor that the page
   * leaves out is earlier than one it has. It is as long as it can be, and names its last key if it leaves out any.
   */
  lemma PageIsNewestFirst(snapshot: seq<Key>, cursor: Option<Key>, size: nat)
    requires size > 0
    ensures var page := ListPage(snapshot, cursor, size);
      && NewestFirst(page.keys) && |page.keys| <= size
      && (forall x :: x in page.keys ==> x in snapshot && (cursor.Some? ==> Earlier(cursor.value, x)))
      && (forall x, y :: x in snapshot && (cursor.Some? ==> Earlier(cursor.value, x)) && x !in page.keys && y in page.keys ==>
            Earlier(y, x) || Tied(y, x))
      && (page.next.Some? ==> |page.keys| == size && page.next.value == page.keys[size - 1])
      && (page.next.None? ==> forall x :: x in snapshot && (cursor.Some? ==> Earlier(cursor.value, x)) ==> x in page.keys)
  {
    hide Before, Tied, Earlier, Sort, Remaining, NewestFirst;
    SortOrders(snapshot);
    SortSorts(snapshot);
    RemainingOrders(Sort(snapshot), cursor);
    var remaining := Remaining(Sort(snapshot), cursor);
    var page := ListPage(snapshot, cursor, size);
    OrderedMeansNewestFirst(page.keys);
    if cursor.Some? {
      forall x | x in snapshot ensures After(x, cursor) <==> Earlier(cursor.value, x) { BeforeMeansEarlier(cursor.value, x); }
    }
    forall x, y | x in snapshot && After(x, cursor) && x !in page.keys && y in page.keys ensures Earlier(y, x) || Tied(y, x) {
      var j :| 0 <= j < |remaining| && remaining[j] == x;
      var i :| 0 <= i < |page.keys| && page.keys[i] == y;
      if |remaining| > size { InPrefix(remaining, size, j); }
      assert NotAfter(remaining[i], remaining[j]);
      BeforeMeansEarlier(y, x);
    }
  }

  /** However the set changes between pages, what a client collects is newest first, and all of it is behind the cursor. */
  lemma {:induction false} WalkIsNewestFirst(snapshots: seq<seq<Key>>, cursor: Option<Key>, size: nat)
    requires size > 0
    ensures NewestFirst(Follow(snapshots, cursor, size).keys)
    ensures forall x :: x in Follow(snapshots, cursor, size).keys && cursor.Some? ==> Earlier(cursor.value, x)
    decreases |snapshots|
  {
    hide ListPage, Earlier, Tied, Before;
    if snapshots == [] {
    } else {
      var page := ListPage(snapshots[0], cursor, size);
      PageIsNewestFirst(snapshots[0], cursor, size);
      if page.next.Some? {
        var more := Follow(snapshots[1..], page.next, size).keys;
        WalkIsNewestFirst(snapshots[1..], page.next, size);
        var last := page.keys[size - 1];
        forall x, y | (x in page.keys || Some(x) == cursor) && y in more ensures Earlier(x, y) {
          assert Earlier(last, y);
          if x != last {
            if x in page.keys {
              var i :| 0 <= i < |page.keys| && page.keys[i] == x;
              assert Earlier(page.keys[i], page.keys[size - 1]) || Tied(page.keys[i], page.keys[size - 1]);
            }
            EarlierThrough(x, last, y);
          }
        }
        JoinedNewestFirst(page.keys, more);
      }
    }
  }

  lemma EarlierThrough(a: Key, b: Key, c: Key)
    requires (Earlier(a, b) || Tied(a, b)) && Earlier(b, c)
    ensures Earlier(a, c)
  {
    hide Earlier, Before, Tied;
    BeforeMeansEarlier(a, b);
    BeforeMeansEarlier(b, c);
    BeforeMeansEarlier(a, c);
    NotAfterTransitive(a, b, c);
  }

  lemma JoinedNewestFirst(keys: seq<Key>, more: seq<Key>)
    requires NewestFirst(keys) && NewestFirst(more) && forall x, y :: x in keys && y in more ==> Earlier(x, y)
    ensures NewestFirst(keys + more)
  {
    hide Earlier, Tied;
    var all := keys + more;
    forall i, j | 0 <= i < j < |all| ensures Earlier(all[i], all[j]) || Tied(all[i], all[j]) {
      if i < |keys| <= j { assert all[i] in keys && all[j] in more; }
    }
  }
}
