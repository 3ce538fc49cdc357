/** Paging as the client does it, by the opaque tokens it is handed, against paging by keys. */
module SessionTokens {
  import opened Basics
  import opened Json
  import opened Encodings
  import opened Journal
  import opened SessionCursor
  import opened SessionList

  /** A walk by tokens, and whether the server refused a token. */
  datatype TokenWalk = TokenWalk(walk: Walk, refused: bool)

  /** Asking for page after page with the token of the page before, which the server decodes and may refuse. */
  function FollowTokens(snapshots: seq<seq<Key>>, token: Option<Text>, size: nat, reading: Reading, lenient: Bytes -> Text): TokenWalk
    requires size > 0
    decreases |snapshots|
  {
    if snapshots == [] then TokenWalk(Walk([], 0, false), false)
    else
      var decoded := if token.None? then None else DecodeCursor(token.value, reading, lenient);
      if token.Some? && decoded.None? then TokenWalk(Walk([], 0, false), true)
      else
        var page := ListPage(snapshots[0], decoded, size);
        if page.next.None? then TokenWalk(Walk(page.keys, 1, true), false)
        else
          var more := FollowTokens(snapshots[1..], Some(EncodeCursor(page.next.value)), size, reading, lenient);
          TokenWalk(Walk(page.keys + more.walk.keys, 1 + more.walk.pages, more.walk.ended), more.refused)
  }

  /** Every page of a walk that another request follows ends in a key that a cursor may carry. */
  predicate CursorsAreValid(snapshots: seq<seq<Key>>, cursor: Option<Key>, size: nat)
    requires size > 0
    decreases |snapshots|
  {
    |snapshots| > 1 ==>
      var next := ListPage(snapshots[0], cursor, size).next;
      next.Some? ==> ValidKey(next.value) && CursorsAreValid(snapshots[1..], next, size)
  }

  function TokenFor(cursor: Option<Key>): Option<Text> { if cursor.None? then None else Some(EncodeCursor(cursor.value)) }

  /**
   * Following tokens is following keys exactly if every page that another request follows ends in a valid key; otherwise the
   * server refuses a token of its own.
   */
  lemma {:induction false} TokensFollowKeys(snapshots: seq<seq<Key>>, cursor: Option<Key>, size: nat, reading: Reading, lenient: Bytes -> Text)
    requires size > 0 && ReadsIntegers(reading) && (cursor.Some? ==> ValidKey(cursor.value))
    ensures var tokens := FollowTokens(snapshots, TokenFor(cursor), size, reading, lenient);
      && (tokens.refused <==> !CursorsAreValid(snapshots, cursor, size))
      && (!tokens.refused ==> tokens.walk == Follow(snapshots, cursor, size))
    decreases |snapshots|
  {
    hide ListPage, EncodeCursor, DecodeCursor, ReadsIntegers, ValidKey;
    if snapshots == [] {
    } else {
      if cursor.Some? { OwnTokenIsAccepted(cursor.value, reading, lenient); }
      var next := ListPage(snapshots[0], cursor, size).next;
      if next.Some? {
        OwnTokenIsAccepted(next.value, reading, lenient);
        if ValidKey(next.value) { TokensFollowKeys(snapshots[1..], next, size, reading, lenient); }
      }
    }
  }

  /** Sessions with ids and non-negative safe creation times are paged by tokens as they are by keys. */
  lemma ValidSessionsFollow(snapshots: seq<seq<Key>>, size: nat, reading: Reading, lenient: Bytes -> Text)
    requires size > 0 && ReadsIntegers(reading)
    requires forall s, k :: s in snapshots && k in s ==> ValidKey(k)
    ensures FollowTokens(snapshots, None, size, reading, lenient) == TokenWalk(Follow(snapshots, None, size), false)
  {
    hide FollowTokens, Follow, CursorsAreValid, ReadsIntegers, ValidKey;
    TokensFollowKeys(snapshots, None, size, reading, lenient);
    ValidSessionsValidCursors(snapshots, None, size);
  }

  lemma {:induction false} ValidSessionsValidCursors(snapshots: seq<seq<Key>>, cursor: Option<Key>, size: nat)
    requires size > 0 && forall s, k :: s in snapshots && k in s ==> ValidKey(k)
    ensures CursorsAreValid(snapshots, cursor, size)
    decreases |snapshots|
  {
    hide Sort, Remaining, ValidKey, After;
    if |snapshots| <= 1 {
    } else {
      SortSorts(snapshots[0]);
      RemainingMembers(Sort(snapshots[0]), cursor);
      var page := ListPage(snapshots[0], cursor, size);
      if page.next.Some? {
        assert page.next.value in Remaining(Sort(snapshots[0]), cursor);
        assert page.next.value in snapshots[0];
        ValidSessionsValidCursors(snapshots[1..], page.next, size);
      }
    }
  }

  /** A session with a negative creation time at the end of a page makes the server refuse the token it issued. */
  lemma RefusedToken(reading: Reading, lenient: Bytes -> Text)
    requires ReadsIntegers(reading)
    ensures var s := [Key(-1, [97]), Key(-2, [97])];
      FollowTokens([s, s], None, 1, reading, lenient).refused
  {
    hide FollowTokens, ReadsIntegers, Utf8, BytesLess;
    var a, b := Key(-1, [97]), Key(-2, [97]);
    var s := [a, b];
    TokensFollowKeys([s, s], None, 1, reading, lenient);
    assert s[1..] == [b] && [b][1..] == [];
    assert Sort([b]) == [b];
    assert Sort(s) == s;
    AllRemain(s, None);
    assert ListPage(s, None, 1).next == Some(a);
  }
}
