/** UTF-8 and base64url (section 5 of RFC 4648), as Node's `Buffer` writes and reads them. */
module Encodings {
  import opened Basics
  import opened Json

  type Byte = b: int | 0 <= b < 256 witness 0
  type Bytes = seq<Byte>

  // ---------------------------------------------------------------- UTF-8

  /** No surrogate of the text stands alone. */
  predicate WellFormed(s: Text) {
    if s == [] then true
    else if IsHigh(s[0]) then |s| > 1 && IsLow(s[1]) && WellFormed(s[2..])
    else !IsLow(s[0]) && WellFormed(s[1..])
  }

  predicate Continues(b: Byte) { 128 <= b < 192 }

  /** The bytes of a code point. */
  function EncodePoint(p: int): Bytes
    requires 0 <= p < 0x11_0000
  {
    var q := p / 64;
    var r := q / 64;
    if p < 0x80 then [p]
    else if p < 0x800 then [192 + q, 128 + p % 64]
    else if p < 0x1_0000 then [224 + r, 128 + q % 64, 128 + p % 64]
    else [240 + r / 64, 128 + r % 64, 128 + q % 64, 128 + p % 64]
  }

  function PairPoint(high: Unit, low: Unit): int
    requires IsHigh(high) && IsLow(low)
  {
    0x1_0000 + (high - 0xD800) * 1024 + (low - 0xDC00)
  }

  /** `Buffer.from(s, 'utf8')`: a lone surrogate becomes U+FFFD. */
  function Utf8(s: Text): Bytes {
    if s == [] then []
    else if |s| > 1 && IsHigh(s[0]) && IsLow(s[1]) then EncodePoint(PairPoint(s[0], s[1])) + Utf8(s[2..])
    else EncodePoint(if IsHigh(s[0]) || IsLow(s[0]) then 0xFFFD else s[0]) + Utf8(s[1..])
  }

  /** Six more bits, from a continuation byte. */
  function Shift(p: int, b: Byte): int { p * 64 + b as int - 128 }

  datatype Point = Point(value: int, size: nat)

  /** The code point a byte string starts with, in its shortest form; `None` for anything else. */
  function DecodePoint(b: Bytes): (r: Option<Point>)
    ensures r.Some? ==> 0 < r.value.size <= |b|
    ensures r.Some? ==> 0 <= r.value.value < 0x11_0000 && !(0xD800 <= r.value.value < 0xE000)
  {
    if b == [] then None
    else if b[0] < 128 then Some(Point(b[0], 1))
    else if 192 <= b[0] < 224 then
      if |b| < 2 || !Continues(b[1]) then None
      else
        var p := Shift(b[0] - 192, b[1]);
        if p < 0x80 then None else Some(Point(p, 2))
    else if 224 <= b[0] < 240 then
      if |b| < 3 || !Continues(b[1]) || !Continues(b[2]) then None
      else
        var p := Shift(Shift(b[0] - 224, b[1]), b[2]);
        if p < 0x800 || 0xD800 <= p < 0xE000 then None else Some(Point(p, 3))
    else if 240 <= b[0] < 248 then
      if |b| < 4 || !Continues(b[1]) || !Continues(b[2]) || !Continues(b[3]) then None
      else
        var p := Shift(Shift(Shift(b[0] - 240, b[1]), b[2]), b[3]);
        if p < 0x1_0000 || p >= 0x11_0000 then None else Some(Point(p, 4))
    else None
  }

  function PointUnits(p: int): Text
    requires 0 <= p < 0x11_0000
  {
    if p < 0x1_0000 then [p] else [0xD800 + (p - 0x1_0000) / 1024, 0xDC00 + (p - 0x1_0000) % 1024]
  }

  /** The text of well-formed UTF-8; `None` for malformed bytes. */
  function DecodeUtf8(b: Bytes): Option<Text>
    decreases |b|
  {
    if b == [] then Some([])
    else match DecodePoint(b)
      case None => None
      case Some(point) =>
        match DecodeUtf8(b[point.size..])
        case None => None
        case Some(rest) => Some(PointUnits(point.value) + rest)
  }

  lemma PointReads(p: int, rest: Bytes)
    requires 0 <= p < 0x11_0000 && !(0xD800 <= p < 0xE000)
    ensures DecodePoint(EncodePoint(p) + rest) == Some(Point(p, |EncodePoint(p)|))
  {
    if 0x1_0000 <= p { LongPointReads(p, rest); } else if 0x800 <= p { ThreeBytesRead(p, rest); }
  }

  lemma ThreeBytesRead(p: int, rest: Bytes)
    requires 0x800 <= p < 0x1_0000 && !(0xD800 <= p < 0xE000)
    ensures DecodePoint(EncodePoint(p) + rest) == Some(Point(p, 3))
  {
    var q := p / 64;
    var r := q / 64;
    var b := [224 + r, 128 + q % 64, 128 + p % 64] + rest;
    assert Shift(Shift(r, b[1]), b[2]) == p;
  }

  lemma LongPointReads(p: int, rest: Bytes)
    requires 0x1_0000 <= p < 0x11_0000
    ensures DecodePoint(EncodePoint(p) + rest) == Some(Point(p, 4))
  {
    var q := p / 64;
    var r := q / 64;
    var b := [240 + r / 64, 128 + r % 64, 128 + q % 64, 128 + p % 64] + rest;
    assert Shift(Shift(Shift(r / 64, b[1]), b[2]), b[3]) == p;
  }

  lemma PointStep(p: int, rest: Bytes, text: Text)
    requires 0 <= p < 0x11_0000 && !(0xD800 <= p < 0xE000)
    requires DecodeUtf8(rest) == Some(text)
    ensures DecodeUtf8(EncodePoint(p) + rest) == Some(PointUnits(p) + text)
  {
    hide DecodePoint, PointUnits;
    PointReads(p, rest);
    assert (EncodePoint(p) + rest)[|EncodePoint(p)|..] == rest;
  }

  lemma PairUnits(high: Unit, low: Unit)
    requires IsHigh(high) && IsLow(low)
    ensures var p := PairPoint(high, low);
      0x1_0000 <= p < 0x11_0000 && PointUnits(p) == [high, low]
  {
    var p := PairPoint(high, low);
    assert p - 0x1_0000 == (high - 0xD800) * 1024 + (low - 0xDC00);
    assert (p - 0x1_0000) / 1024 == high - 0xD800;
  }

  /** Well-formed text survives UTF-8. */
  lemma {:induction false} Utf8RoundTrip(s: Text)
    requires WellFormed(s)
    ensures DecodeUtf8(Utf8(s)) == Some(s)
    decreases |s|
  {
    hide EncodePoint, DecodePoint, DecodeUtf8, PairPoint, PointUnits;
    if s == [] {
      EmptyUtf8();
    } else if IsHigh(s[0]) {
      Utf8RoundTrip(s[2..]);
      PairUnits(s[0], s[1]);
      PointStep(PairPoint(s[0], s[1]), Utf8(s[2..]), s[2..]);
      assert [s[0], s[1]] + s[2..] == s;
    } else {
      Utf8RoundTrip(s[1..]);
      OneUnit(s[0]);
      PointStep(s[0], Utf8(s[1..]), s[1..]);
      assert [s[0]] + s[1..] == s;
    }
  }

  lemma EmptyUtf8()
    ensures DecodeUtf8([]) == Some([])
  {
  }

  lemma OneUnit(u: Unit)
    ensures PointUnits(u) == [u]
  {
  }

  /** Distinct well-formed texts have distinct bytes. */
  lemma Utf8IsInjective(s: Text, t: Text)
    requires WellFormed(s) && WellFormed(t) && Utf8(s) == Utf8(t)
    ensures s == t
  {
    hide Utf8, WellFormed;
    Utf8RoundTrip(s);
    Utf8RoundTrip(t);
  }

  /** Texts with lone surrogates are not told apart. */
  lemma LoneSurrogatesCollide()
    ensures Utf8([0xD800]) == Utf8([0xD801])
  {
  }

  // ---------------------------------------------------------------- base64url

  function Sextet(n: int): Unit
    requires 0 <= n < 64
  {
    if n < 26 then 65 + n else if n < 52 then 71 + n else if n < 62 then n - 4 else if n == 62 then 45 else 95
  }

  /** The value of a character of the URL-safe alphabet. */
  function FromSextet(u: Unit): (r: Option<int>)
    ensures r.Some? ==> 0 <= r.value < 64
  {
    if 65 <= u <= 90 then Some(u - 65)
    else if 97 <= u <= 122 then Some(u - 71)
    else if 48 <= u <= 57 then Some(u + 4)
    else if u == 45 then Some(62)
    else if u == 95 then Some(63)
    else None
  }

  predicate UrlSafe(s: Text) { forall i :: 0 <= i < |s| ==> FromSextet(s[i]).Some? }

  /** Bits cut off the end of one number and put in front of the next. */
  lemma Carry(k: int, q: int)
    requires 0 <= q
    ensures q < 4 ==> (k * 4 + q) / 4 == k && (k * 4 + q) % 4 == q
    ensures q < 16 ==> (k * 16 + q) / 16 == k && (k * 16 + q) % 16 == q
  {
  }

  function Bits(a: Byte, b: Byte): (r: int)
    ensures 0 <= r < 64
    ensures r / 16 == a % 4 && r % 16 == b / 16
  {
    var k, q := a % 4, b / 16;
    Carry(k, q);
    k * 16 + q
  }

  function LowBits(b: Byte, c: Byte): (r: int)
    ensures 0 <= r < 64
    ensures r / 4 == b % 16 && r % 4 == c / 64
  {
    var k, q := b % 16, c / 64;
    Carry(k, q);
    k * 4 + q
  }

  /** Unpadded; the bits missing from the last character are zero. */
  function Base64(b: Bytes): Text {
    if b == [] then []
    else if |b| == 1 then [Sextet(b[0] / 4), Sextet(Bits(b[0], 0))]
    else if |b| == 2 then [Sextet(b[0] / 4), Sextet(Bits(b[0], b[1])), Sextet(LowBits(b[1], 0))]
    else [Sextet(b[0] / 4), Sextet(Bits(b[0], b[1])), Sextet(LowBits(b[1], b[2])), Sextet(b[2] % 64)] + Base64(b[3..])
  }

  /** Reading alphabet characters; bits that do not fill a byte are dropped. */
  function FromBase64(s: Text): Bytes
    requires UrlSafe(s)
  {
    if |s| < 2 then []
    else
      var w, x := FromSextet(s[0]).value, FromSextet(s[1]).value;
      if |s| == 2 then [w * 4 + x / 16]
      else
        var y := FromSextet(s[2]).value;
        if |s| == 3 then [w * 4 + x / 16, x % 16 * 16 + y / 4]
        else
          var z := FromSextet(s[3]).value;
          [w * 4 + x / 16, x % 16 * 16 + y / 4, y % 4 * 64 + z] + FromBase64(s[4..])
  }

  lemma SextetReads(n: int)
    requires 0 <= n < 64
    ensures FromSextet(Sextet(n)) == Some(n)
  {
  }

  lemma QuadReads(a: Byte, b: Byte, c: Byte, rest: Text)
    requires UrlSafe(rest)
    ensures var s := [Sextet(a / 4), Sextet(Bits(a, b)), Sextet(LowBits(b, c)), Sextet(c % 64)] + rest;
      UrlSafe(s) && FromBase64(s) == [a, b, c] + FromBase64(rest)
  {
    hide Sextet, FromSextet, Bits, LowBits;
    SextetReads(a / 4);
    SextetReads(Bits(a, b));
    SextetReads(LowBits(b, c));
    SextetReads(c % 64);
    var head := [Sextet(a / 4), Sextet(Bits(a, b)), Sextet(LowBits(b, c)), Sextet(c % 64)];
    assert (head + rest)[4..] == rest;
  }

  lemma TailReads(b: Bytes)
    requires |b| < 3
    ensures UrlSafe(Base64(b)) && FromBase64(Base64(b)) == b
  {
    hide Sextet, FromSextet, Bits, LowBits;
    if |b| > 0 {
      SextetReads(b[0] / 4);
      SextetReads(Bits(b[0], 0));
      if |b| > 1 {
        SextetReads(Bits(b[0], b[1]));
        SextetReads(LowBits(b[1], 0));
      }
    }
  }

  /** Bytes survive base64url. */
  lemma {:induction false} Base64RoundTrip(b: Bytes)
    ensures UrlSafe(Base64(b)) && FromBase64(Base64(b)) == b
    ensures b != [] ==> Base64(b) != []
    decreases |b|
  {
    hide Sextet, FromSextet, UrlSafe, FromBase64;
    if |b| < 3 {
      TailReads(b);
    } else {
      Base64RoundTrip(b[3..]);
      QuadReads(b[0], b[1], b[2], Base64(b[3..]));
      assert [b[0], b[1], b[2]] + b[3..] == b;
    }
  }

  // ---------------------------------------------------------------- printed JSON is well-formed text

  lemma {:induction false} WellFormedPlus(s: Text, t: Text)
    requires WellFormed(s) && WellFormed(t)
    ensures WellFormed(s + t)
    decreases |s|
  {
    if s == [] {
      assert s + t == t;
    } else if IsHigh(s[0]) {
      WellFormedPlus(s[2..], t);
      assert (s + t)[2..] == s[2..] + t;
    } else {
      WellFormedPlus(s[1..], t);
      assert (s + t)[1..] == s[1..] + t;
    }
  }

  lemma {:induction false} PlainIsWellFormed(s: Text)
    requires forall i :: 0 <= i < |s| ==> s[i] < 0xD800
    ensures WellFormed(s)
  {
    if s == [] {
    } else {
      PlainIsWellFormed(s[1..]);
    }
  }

  lemma EscapedUnitIsWellFormed(u: Unit)
    ensures WellFormed(EscapeUnit(u))
  {
    PlainIsWellFormed(if EscapeUnit(u) == [u] then [] else EscapeUnit(u));
  }

  /** Escaping leaves no surrogate alone, so string literals are always well-formed. */
  lemma {:induction false} EscapeIsWellFormed(s: Text)
    ensures WellFormed(Escape(s))
    decreases |s|
  {
    hide EscapeUnit;
    if s == [] {
    } else if |s| > 1 && IsHigh(s[0]) && IsLow(s[1]) {
      EscapeIsWellFormed(s[2..]);
      assert Escape(s)[2..] == Escape(s[2..]);
    } else {
      EscapedUnitIsWellFormed(s[0]);
      EscapeIsWellFormed(s[1..]);
      WellFormedPlus(EscapeUnit(s[0]), Escape(s[1..]));
    }
  }

  lemma StringIsWellFormed(s: Text)
    ensures WellFormed(PrintString(s))
  {
    hide Escape, WellFormed;
    EscapeIsWellFormed(s);
    PlainIsWellFormed([QUOTE]);
    WellFormedPlus(Escape(s), [QUOTE]);
    WellFormedPlus([QUOTE], Escape(s) + [QUOTE]);
  }
}
