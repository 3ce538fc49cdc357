/** The two encodings in the terms of their standards: RFC 3629 for UTF-8, section 5 of RFC 4648 for base64url. */
module EncodingTables {
  import opened Basics
  import opened Json
  import opened Encodings
  import opened SessionCursor
  import opened SessionList

  // ---------------------------------------------------------------- UTF-8

  /** A text's code points: pairs of surrogates are one, a lone surrogate counts as U+FFFD. */
  function Points(s: Text): (points: seq<int>)
    ensures forall i :: 0 <= i < |points| ==> 0 <= points[i] < 0x11_0000
  {
    if s == [] then []
    else if |s| > 1 && 0xD800 <= s[0] < 0xDC00 && 0xDC00 <= s[1] < 0xE000
    then [0x1_0000 + (s[0] - 0xD800) * 0x400 + (s[1] - 0xDC00)] + Points(s[2..])
    else [if 0xD800 <= s[0] < 0xE000 then 0xFFFD else s[0]] + Points(s[1..])
  }

  /** The payload of a continuation byte, which starts with the bits 10. */
  predicate IsTail(b: Byte, payload: int) { 128 <= b < 192 && payload == b as int - 128 }

  /** The bytes of a code point by the table of section 3 of RFC 3629: as few as its bits fit in. */
  predicate ByTable(p: int, b: Bytes) {
    if p < 0x80 then |b| == 1 && b[0] == p
    else if p < 0x800 then |b| == 2 && 192 <= b[0] < 224 && IsTail(b[1], p - (b[0] as int - 192) * 64)
    else if p < 0x1_0000 then
      && |b| == 3 && 224 <= b[0] < 240 && 128 <= b[1] < 192
      && IsTail(b[2], p - (b[0] as int - 224) * 4096 - (b[1] as int - 128) * 64)
    else
      && |b| == 4 && 240 <= b[0] < 248 && 128 <= b[1] < 192 && 128 <= b[2] < 192
      && IsTail(b[3], p - (b[0] as int - 240) * 262144 - (b[1] as int - 128) * 4096 - (b[2] as int - 128) * 64)
  }

  lemma EncodesByTable(p: int)
    requires 0 <= p < 0x11_0000
    ensures ByTable(p, EncodePoint(p))
  {
    var q := p / 64;
    var r := q / 64;
    assert p == q * 64 + p % 64 && q == r * 64 + q % 64 && r == r / 64 * 64 + r % 64;
  }

  function Flat(parts: seq<Bytes>): Bytes { if parts == [] then [] else parts[0] + Flat(parts[1..]) }

  /** A text is encoded point by point, each by the table. */
  predicate AreEncoded(points: seq<int>, parts: seq<Bytes>) {
    |parts| == |points| && forall i :: 0 <= i < |points| ==> ByTable(points[i], parts[i])
  }

  /** What is left of a text behind its first code point. */
  function Behind(s: Text): Text
    requires s != []
  {
    if |s| > 1 && IsHigh(s[0]) && IsLow(s[1]) then s[2..] else s[1..]
  }

  lemma Utf8ByHead(s: Text)
    requires s != []
    ensures Points(s) != [] && Points(s)[1..] == Points(Behind(s)) && Utf8(s) == EncodePoint(Points(s)[0]) + Utf8(Behind(s))
  {
    hide EncodePoint;
  }

  lemma {:induction false} Utf8ByTable(s: Text) returns (parts: seq<Bytes>)
    ensures AreEncoded(Points(s), parts) && Flat(parts) == Utf8(s)
    decreases |s|
  {
    hide ByTable, EncodePoint, Utf8, Points;
    if s == [] {
      parts := [];
      NothingEncoded();
    } else {
      var more := Utf8ByTable(Behind(s));
      Utf8ByHead(s);
      EncodesByTable(Points(s)[0]);
      parts := [EncodePoint(Points(s)[0])] + more;
      assert parts[1..] == more;
      assert forall i :: 0 < i < |Points(s)| ==> Points(s)[i] == Points(Behind(s))[i - 1] && parts[i] == more[i - 1];
    }
  }

  lemma NothingEncoded()
    ensures Points([]) == [] && Utf8([]) == []
  {
  }

  /** Of two code points the smaller one's bytes are smaller at the first byte that differs, and neither starts the other. */
  lemma TableKeepsOrder(p: int, q: int, a: Bytes, b: Bytes) returns (n: nat)
    requires 0 <= p < q < 0x11_0000 && ByTable(p, a) && ByTable(q, b)
    ensures n < |a| && n < |b| && a[..n] == b[..n] && a[n] < b[n]
  {
    n := if a[0] != b[0] then 0 else if a[1] != b[1] then 1 else if a[2] != b[2] then 2 else 3;
  }

  lemma TableIsExact(p: int, a: Bytes, b: Bytes)
    requires 0 <= p < 0x11_0000 && ByTable(p, a) && ByTable(p, b)
    ensures a == b
  {
    assert |a| == |b| && a[0] == b[0];
    if p >= 0x80 {
      assert a[1] == b[1];
      if p >= 0x800 { assert a[2] == b[2]; }
    }
  }

  predicate PointsDifferAt(a: seq<int>, b: seq<int>, n: nat) {
    && n <= |a| && n <= |b| && a[..n] == b[..n]
    && ((n == |a| && n < |b|) || (n < |a| && n < |b| && a[n] < b[n]))
  }

  /** The order of code points: a proper prefix, or smaller at the first point that differs. */
  ghost predicate PointsSmaller(a: seq<int>, b: seq<int>) { exists n: nat :: PointsDifferAt(a, b, n) }

  lemma SmallerByHead(a: seq<int>, b: seq<int>)
    requires a != [] && b != []
    ensures PointsSmaller(a, b) <==> a[0] < b[0] || (a[0] == b[0] && PointsSmaller(a[1..], b[1..]))
  {
    if PointsSmaller(a, b) {
      var n: nat :| PointsDifferAt(a, b, n);
      if n > 0 {
        assert a[..n][0] == a[0] && b[..n][0] == b[0];
        assert a[1..][..n - 1] == a[..n][1..] && b[1..][..n - 1] == b[..n][1..];
        assert PointsDifferAt(a[1..], b[1..], n - 1);
      }
    }
    if a[0] < b[0] { assert PointsDifferAt(a, b, 0); }
    if a[0] == b[0] && PointsSmaller(a[1..], b[1..]) {
      var n: nat :| PointsDifferAt(a[1..], b[1..], n);
      assert a[..n + 1] == [a[0]] + a[1..][..n] && b[..n + 1] == [b[0]] + b[1..][..n];
      assert PointsDifferAt(a, b, n + 1);
    }
  }

  /** Bytes in front of both sides change nothing. */
  lemma {:induction false} SamePrefix(prefix: Bytes, a: Bytes, b: Bytes)
    ensures BytesLess(prefix + a, prefix + b) <==> BytesLess(a, b)
  {
    if prefix == [] {
      assert prefix + a == a && prefix + b == b;
    } else {
      assert (prefix + a)[1..] == prefix[1..] + a && (prefix + b)[1..] == prefix[1..] + b;
      SamePrefix(prefix[1..], a, b);
    }
  }

  lemma DecidedEarly(a: Bytes, b: Bytes, n: nat, x: Bytes, y: Bytes)
    requires n < |a| && n < |b| && a[..n] == b[..n] && a[n] < b[n]
    ensures BytesLess(a + x, b + y) && !BytesLess(b + y, a + x)
  {
    var u, v := a[n..] + x, b[n..] + y;
    assert a + x == a[..n] + u && b + y == b[..n] + v;
    SamePrefix(a[..n], u, v);
    SamePrefix(a[..n], v, u);
    assert u[0] == a[n] && v[0] == b[n];
  }

  /** The bytes of encoded points compare as the points do. */
  lemma {:induction false} EncodedOrder(a: seq<int>, b: seq<int>, x: seq<Bytes>, y: seq<Bytes>)
    requires AreEncoded(a, x) && AreEncoded(b, y)
    requires (forall i :: 0 <= i < |a| ==> 0 <= a[i] < 0x11_0000) && (forall i :: 0 <= i < |b| ==> 0 <= b[i] < 0x11_0000)
    ensures BytesLess(Flat(x), Flat(y)) <==> PointsSmaller(a, b)
  {
    hide ByTable, BytesLess, PointsSmaller;
    if b == [] {
      NothingSmaller(a, Flat(x));
    } else if a == [] {
      SomeBytes(b[0], y[0]);
      NothingFirst(b, Flat(y));
    } else {
      SmallerByHead(a, b);
      if a[0] < b[0] {
        var n := TableKeepsOrder(a[0], b[0], x[0], y[0]);
        DecidedEarly(x[0], y[0], n, Flat(x[1..]), Flat(y[1..]));
      } else if a[0] > b[0] {
        var n := TableKeepsOrder(b[0], a[0], y[0], x[0]);
        DecidedEarly(y[0], x[0], n, Flat(y[1..]), Flat(x[1..]));
      } else {
        TableIsExact(a[0], x[0], y[0]);
        SamePrefix(x[0], Flat(x[1..]), Flat(y[1..]));
        EncodedOrder(a[1..], b[1..], x[1..], y[1..]);
      }
    }
  }

  lemma SomeBytes(p: int, b: Bytes)
    requires ByTable(p, b)
    ensures b != []
  {
  }

  lemma NothingSmaller(a: seq<int>, x: Bytes)
    ensures !PointsSmaller(a, []) && !BytesLess(x, [])
  {
  }

  lemma NothingFirst(b: seq<int>, y: Bytes)
    requires b != [] && y != []
    ensures PointsSmaller([], b) && BytesLess([], y)
  {
    assert PointsDifferAt([], b, 0);
  }

  /** So equally old sessions are listed by the code points of their ids. */
  lemma IdsByPoints(a: Key, b: Key)
    requires a.createdAt == b.createdAt
    ensures Before(a, b) <==> PointsSmaller(Points(a.sessionId), Points(b.sessionId))
  {
    hide BytesLess, PointsSmaller, Utf8, Points;
    var x := Utf8ByTable(a.sessionId);
    var y := Utf8ByTable(b.sessionId);
    EncodedOrder(Points(a.sessionId), Points(b.sessionId), x, y);
  }

  // ---------------------------------------------------------------- base64url

  /** The character of a sextet in the URL-safe alphabet: letters, digits, `-` and `_`. */
  predicate IsCharacter(u: Unit, n: int) {
    || (0 <= n < 26 && u as int == 'A' as int + n)
    || (26 <= n < 52 && u as int == 'a' as int + n - 26)
    || (52 <= n < 62 && u as int == '0' as int + n - 52)
    || (n == 62 && u as int == '-' as int)
    || (n == 63 && u as int == '_' as int)
  }

  lemma SextetsByAlphabet(n: int)
    requires 0 <= n < 64
    ensures IsCharacter(Sextet(n), n)
  {
  }

  lemma CharacterIsUnique(u: Unit, n: int)
    requires IsCharacter(u, n)
    ensures FromSextet(u) == Some(n)
  {
  }

  /** Up to three bytes as the sextets of their bits, filled up with zero bits to whole sextets. */
  predicate IsGroup(b: Bytes, v: seq<int>) {
    && (forall i :: 0 <= i < |v| ==> 0 <= v[i] < 64)
    && if |b| == 1 then |v| == 2 && v[0] * 64 + v[1] == b[0] as int * 16
       else if |b| == 2 then |v| == 3 && v[0] * 4096 + v[1] * 64 + v[2] == (b[0] as int * 256 + b[1] as int) * 4
       else |b| == 3 && |v| == 4
            && v[0] * 262144 + v[1] * 4096 + v[2] * 64 + v[3] == b[0] as int * 65536 + b[1] as int * 256 + b[2] as int
  }

  predicate AreCharacters(text: Text, v: seq<int>) { |text| == |v| && forall i :: 0 <= i < |v| ==> IsCharacter(text[i], v[i]) }

  /** Bytes are written in groups of three, the last one of one to three, each as the characters of its sextets. */
  ghost predicate ByGroups(b: Bytes, text: Text)
    decreases |b|
  {
    if b == [] then text == []
    else
      var n := if |b| < 3 then |b| else 3;
      n + 1 <= |text| && ByGroups(b[n..], text[n + 1..]) && exists v: seq<int> :: IsGroup(b[..n], v) && AreCharacters(text[..n + 1], v)
  }

  lemma SplitBits(a: Byte, b: Byte, c: Byte)
    ensures var w, x, y, z := a / 4, Bits(a, b), LowBits(b, c), c % 64;
      w * 262144 + x * 4096 + y * 64 + z == a as int * 65536 + b as int * 256 + c as int
  {
    var x, y := Bits(a, b), LowBits(b, c);
    assert x == x / 16 * 16 + x % 16 && y == y / 4 * 4 + y % 4;
    assert a == a / 4 * 4 + a % 4 && b == b / 16 * 16 + b % 16 && c == c / 64 * 64 + c % 64;
  }

  lemma GroupThenRest(b: Bytes, text: Text, v: seq<int>, n: nat)
    requires b != [] && n == (if |b| < 3 then |b| else 3) && n + 1 <= |text|
    requires IsGroup(b[..n], v) && AreCharacters(text[..n + 1], v) && ByGroups(b[n..], text[n + 1..])
    ensures ByGroups(b, text)
  {
    hide IsGroup, AreCharacters;
  }

  lemma FirstGroup(b: Bytes, n: nat) returns (v: seq<int>)
    requires b != [] && n == if |b| < 3 then |b| else 3
    ensures n + 1 <= |Base64(b)| && IsGroup(b[..n], v) && AreCharacters(Base64(b)[..n + 1], v)
  {
    hide Sextet, IsCharacter, Bits, LowBits;
    var second, third := if n > 1 then b[1] else 0, if n > 2 then b[2] else 0;
    v := [b[0] / 4, Bits(b[0], second), LowBits(second, third), third % 64][..n + 1];
    SplitBits(b[0], second, third);
    forall i | 0 <= i < |v| ensures IsCharacter(Base64(b)[i], v[i]) { SextetsByAlphabet(v[i]); }
  }

  /** The bytes of a text are written so. */
  lemma {:induction false} Base64ByGroups(b: Bytes)
    ensures ByGroups(b, Base64(b))
    decreases |b|
  {
    hide Sextet, IsCharacter, Bits, LowBits, IsGroup, AreCharacters;
    if b == [] {
    } else {
      var n := if |b| < 3 then |b| else 3;
      var v := FirstGroup(b, n);
      Base64ByGroups(b[n..]);
      assert Base64(b)[n + 1..] == Base64(b[n..]);
      GroupThenRest(b, Base64(b), v, n);
    }
  }
}
