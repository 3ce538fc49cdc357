/** The parser accepts exactly the grammar of RFC 8259, and gives exactly the value that the text denotes. */
module JsonGrammar {
  import opened Basics
  import opened Json
  import opened JsonRoundTrip

  // ---------------------------------------------------------------- the grammar

  /** White space of section 2: blanks, tabs, line feeds and carriage returns. */
  predicate IsWhite(s: Text) { forall i :: 0 <= i < |s| ==> s[i] in {32, 9, 10, 13} }

  predicate AllDigits(s: Text) { s != [] && forall i :: 0 <= i < |s| ==> 48 <= s[i] <= 57 }

  /** Section 6: a minus, if any; digits without a leading zero; a fraction, if any; an exponent, if any. */
  predicate IsNumeral(s: Text, a: nat, b: nat, c: nat) {
    && a <= b <= c <= |s|
    && (a == 0 || (a == 1 && s[0] == 45))
    && AllDigits(s[a..b]) && (s[a] == 48 ==> b == a + 1)
    && (b == c || (s[b] == 46 && AllDigits(s[b + 1..c])))
    && (c == |s| || (s[c] in {69, 101} && (AllDigits(s[c + 1..]) || (c + 1 < |s| && s[c + 1] in {43, 45} && AllDigits(s[c + 2..])))))
  }

  ghost predicate IsNumeralText(s: Text) { exists a: nat, b: nat, c: nat :: IsNumeral(s, a, b, c) }

  /** The value of a hexadecimal digit, in either case. */
  predicate IsHex(u: Unit, n: int) {
    (48 <= u <= 57 && n == u - 48) || (65 <= u <= 70 && n == u - 55) || (97 <= u <= 102 && n == u - 87)
  }

  /** Section 7: a unit as it is, behind a backslash as one of eight characters, or in four hexadecimal digits. */
  ghost predicate DenotesUnit(s: Text, u: Unit) {
    || (s == [u] && u >= 32 && u != 34 && u != 92)
    || (|s| == 2 && s[0] == 92 && (s[1], u) in {(34, 34), (92, 92), (47, 47), (98, 8), (102, 12), (110, 10), (114, 13), (116, 9)})
    || (|s| == 6 && s[0] == 92 && s[1] == 117
        && exists w, x, y, z :: IsHex(s[2], w) && IsHex(s[3], x) && IsHex(s[4], y) && IsHex(s[5], z)
                                && u as int == w * 4096 + x * 256 + y * 16 + z)
  }

  /** The inside of a string literal. */
  ghost predicate DenotesText(s: Text, t: Text) {
    if t == [] then s == [] else exists n: nat :: UnitAhead(s, t[0], n) && DenotesText(s[n..], t[1..])
  }

  ghost predicate UnitAhead(s: Text, u: Unit, n: nat) { n <= |s| && DenotesUnit(s[..n], u) }

  ghost predicate DenotesString(s: Text, t: Text) {
    |s| >= 2 && s[0] == 34 && s[|s| - 1] == 34 && DenotesText(s[1..|s| - 1], t)
  }

  /** Section 3: the text of a value, without white space around it. */
  ghost predicate Denotes(s: Text, x: Json)
    decreases x, 0
  {
    match x
    case Null => s == [110, 117, 108, 108]
    case Bool(b) => s == if b then [116, 114, 117, 101] else [102, 97, 108, 115, 101]
    case Num(lexeme) => s == lexeme && IsNumeralText(s)
    case Str(text) => DenotesString(s, text)
    case Arr(items) => |s| >= 2 && s[0] == 91 && s[|s| - 1] == 93 && DenotesItems(s[1..|s| - 1], items)
    case Obj(fields) => |s| >= 2 && s[0] == 123 && s[|s| - 1] == 125 && DenotesFields(s[1..|s| - 1], fields)
  }

  /** A value between white space, and what follows behind the comma. */
  ghost predicate ItemAhead(s: Text, head: Json, tail: Items, a: nat, b: nat, c: nat)
    decreases tail, head, 1
  {
    && a <= b <= c <= |s| && IsWhite(s[..a]) && IsWhite(s[b..c]) && (c < |s| <==> tail.Item?) && (c < |s| ==> s[c] == 44)
  }

  /** Section 5: the inside of an array. */
  ghost predicate DenotesItems(s: Text, items: Items)
    decreases items, 1
  {
    match items
    case NoItems => IsWhite(s)
    case Item(head, tail) =>
      exists a: nat, b: nat, c: nat ::
        ItemAhead(s, head, tail, a, b, c) && Denotes(s[a..b], head) && (tail.Item? ==> DenotesItems(s[c + 1..], tail))
  }

  /** A key and a value, with white space around the key, the colon and the value, and what follows behind the comma. */
  ghost predicate FieldAhead(s: Text, rest: Fields, a: nat, b: nat, c: nat, d: nat, e: nat, f: nat) {
    && a <= b <= c < d <= e <= f <= |s|
    && IsWhite(s[..a]) && IsWhite(s[b..c]) && s[c] == 58 && IsWhite(s[c + 1..d]) && IsWhite(s[e..f])
    && (f < |s| <==> rest.Field?) && (f < |s| ==> s[f] == 44)
  }

  /** Section 4: the inside of an object. */
  ghost predicate DenotesFields(s: Text, fields: Fields)
    decreases fields, 1
  {
    match fields
    case NoFields => IsWhite(s)
    case Field(key, value, rest) =>
      exists a: nat, b: nat, c: nat, d: nat, e: nat, f: nat ::
        FieldAhead(s, rest, a, b, c, d, e, f) && FieldMore(s, fields, a, b, d, e, f)
  }

  /** The key, the value and the fields behind the comma at their places. */
  ghost predicate FieldMore(s: Text, fields: Fields, a: nat, b: nat, d: nat, e: nat, f: nat)
    requires a <= b <= d <= e <= f <= |s| && fields.Field?
    decreases fields, 0
  {
    && DenotesString(s[a..b], fields.key) && Denotes(s[d..e], fields.value)
    && (fields.rest.Field? ==> f < |s| && DenotesFields(s[f + 1..], fields.rest))
  }

  /** Section 2: a document is a value with white space around it. */
  ghost predicate DenotesDocument(s: Text, x: Json) {
    exists a: nat, b: nat :: a <= b <= |s| && IsWhite(s[..a]) && IsWhite(s[b..]) && Denotes(s[a..b], x)
  }

  // ---------------------------------------------------------------- white space

  lemma {:induction false} SkipIs(s: Text) returns (a: nat)
    ensures a <= |s| && IsWhite(s[..a]) && Skip(s) == s[a..]
  {
    a := 0;
    if s == [] || !IsSpace(s[0]) {
    } else {
      a := SkipIs(s[1..]);
      a := a + 1;
      assert s[..a] == [s[0]] + s[1..][..a - 1];
    }
  }

  lemma {:induction false} SkipWhite(w: Text, s: Text)
    requires IsWhite(w) && (s == [] || !IsSpace(s[0]))
    ensures Skip(w + s) == s
  {
    if w == [] {
      assert w + s == s;
    } else {
      assert (w + s)[1..] == w[1..] + s;
      SkipWhite(w[1..], s);
    }
  }

  // ---------------------------------------------------------------- string literals

  lemma UnitIs(s: Text) returns (n: nat)
    requires ParseUnit(s).Some?
    ensures n <= |s| && DenotesUnit(s[..n], ParseUnit(s).value.value) && ParseUnit(s).value.rest == s[n..]
  {
    if s[0] != BACKSLASH {
      n := 1;
    } else if s[1] == 117 {
      n := 6;
      var w, x, y, z := HexValue(s[2]).value, HexValue(s[3]).value, HexValue(s[4]).value, HexValue(s[5]).value;
      assert IsHex(s[2], w) && IsHex(s[3], x) && IsHex(s[4], y) && IsHex(s[5], z);
    } else {
      n := 2;
    }
  }

  lemma UnitReads(s: Text, u: Unit, rest: Text)
    requires DenotesUnit(s, u)
    ensures ParseUnit(s + rest) == Some(Read(u, rest)) && s != [] && s[0] != 34
  {
    assert (s + rest)[|s|..] == rest;
    if |s| == 6 {
      var w, x, y, z :| IsHex(s[2], w) && IsHex(s[3], x) && IsHex(s[4], y) && IsHex(s[5], z)
                        && u as int == w * 4096 + x * 256 + y * 16 + z;
      assert HexValue(s[2]) == Some(w) && HexValue(s[3]) == Some(x) && HexValue(s[4]) == Some(y) && HexValue(s[5]) == Some(z);
    }
  }

  lemma {:induction false} TextIs(s: Text) returns (n: nat)
    requires ParseString(s).Some?
    ensures n < |s| && s[n] == 34 && DenotesText(s[..n], ParseString(s).value.value) && ParseString(s).value.rest == s[n + 1..]
    decreases |s|
  {
    hide DenotesUnit, ParseUnit;
    if s[0] == QUOTE {
      n := 0;
    } else {
      var k := UnitIs(s);
      var m := TextIs(s[k..]);
      n := k + m;
      assert s[..n][..k] == s[..k] && s[..n][k..] == s[k..][..m];
      assert UnitAhead(s[..n], ParseUnit(s).value.value, k);
      var t := ParseString(s).value.value;
      assert t[1..] == ParseString(s[k..]).value.value;
    }
  }

  lemma {:induction false} TextReads(s: Text, t: Text, rest: Text)
    requires DenotesText(s, t)
    ensures ParseString(s + ([QUOTE] + rest)) == Some(Read(t, rest))
    decreases |t|
  {
    hide DenotesUnit, ParseUnit, ParseString;
    var end := [QUOTE] + rest;
    if t == [] {
      assert s + end == Escape([]) + end;
      EmptyStringReads(rest);
    } else {
      var n: nat :| UnitAhead(s, t[0], n) && DenotesText(s[n..], t[1..]);
      TextReads(s[n..], t[1..], rest);
      UnitReads(s[..n], t[0], s[n..] + end);
      assert s + end == s[..n] + (s[n..] + end);
      UnitThenString(s + end, t[0], s[n..] + end, t[1..], rest);
      assert [t[0]] + t[1..] == t;
    }
  }

  /** A string literal at the start of a text, and nothing else, is read as one. */
  lemma StringIs(s: Text) returns (n: nat)
    requires s != [] && s[0] == 34 && ParseString(s[1..]).Some?
    ensures n <= |s| && DenotesString(s[..n], ParseString(s[1..]).value.value) && ParseString(s[1..]).value.rest == s[n..]
  {
    var k := TextIs(s[1..]);
    n := k + 2;
    assert s[..n][1..n - 1] == s[1..][..k];
  }

  lemma StringReads(s: Text, t: Text, rest: Text)
    requires DenotesString(s, t)
    ensures ParseString((s + rest)[1..]) == Some(Read(t, rest))
  {
    hide ParseString, DenotesText;
    TextReads(s[1..|s| - 1], t, rest);
    assert (s + rest)[1..] == s[1..|s| - 1] + ([QUOTE] + rest);
  }

  // ---------------------------------------------------------------- numbers

  lemma {:induction false} DigitsAhead(s: Text)
    ensures forall i :: 0 <= i < LeadingDigits(s) ==> 48 <= s[i] <= 57
    ensures LeadingDigits(s) < |s| ==> !IsDigit(s[LeadingDigits(s)])
  {
    if s == [] || !IsDigit(s[0]) {
    } else {
      DigitsAhead(s[1..]);
      assert forall i :: 0 < i < |s| ==> s[i] == s[1..][i - 1];
    }
  }

  lemma {:induction false} DigitsCounted(s: Text, n: nat)
    requires n <= |s| && (forall i :: 0 <= i < n ==> 48 <= s[i] <= 57) && (n < |s| ==> !IsDigit(s[n]))
    ensures LeadingDigits(s) == n
  {
    if n == 0 {
    } else {
      assert forall i :: 0 < i < |s| ==> s[i] == s[1..][i - 1];
      DigitsCounted(s[1..], n - 1);
    }
  }

  predicate IsPower(s: Text) {
    s == [] || (s[0] in {69, 101} && (AllDigits(s[1..]) || (1 < |s| && s[1] in {43, 45} && AllDigits(s[2..]))))
  }

  lemma ExponentIsPower(s: Text)
    ensures IsExponent(s) <==> IsPower(s)
  {
    if s != [] && (s[0] == 69 || s[0] == 101) {
      var digits := if |s| > 1 && (s[1] == 43 || s[1] == 45) then s[2..] else s[1..];
      DigitsAhead(digits);
      if AllDigits(s[1..]) { assert s[1] == s[1..][0]; }
      if AllDigits(digits) { DigitsCounted(digits, |digits|); }
    }
  }

  /** The fraction, if any, and what follows it. */
  predicate IsTail(s: Text, m: nat) { m <= |s| && (m == 0 || (s[0] == 46 && AllDigits(s[1..m]))) && IsPower(s[m..]) }

  lemma FractionIsTail(s: Text) returns (m: nat)
    requires IsFraction(s)
    ensures IsTail(s, m)
  {
    hide IsExponent, IsPower;
    m := 0;
    if s != [] && s[0] == 46 {
      var n := LeadingDigits(s[1..]);
      DigitsAhead(s[1..]);
      m := 1 + n;
      assert forall i :: 0 <= i < n ==> s[1..m][i] == s[1..][i];
    }
    assert s[0..] == s;
    ExponentIsPower(s[m..]);
  }

  lemma TailIsFraction(s: Text, m: nat)
    requires IsTail(s, m)
    ensures IsFraction(s)
  {
    hide IsExponent;
    ExponentIsPower(s[m..]);
    if m == 0 {
      assert s[0..] == s;
    } else {
      assert forall i :: 0 <= i < m - 1 ==> s[1..][i] == s[1..m][i];
      NotDigit(s[m..]);
      if m < |s| { assert s[1..][m - 1] == s[m..][0]; }
      DigitsCounted(s[1..], m - 1);
    }
  }

  lemma NotDigit(s: Text)
    requires IsPower(s)
    ensures s != [] ==> !IsDigit(s[0])
  {
  }

  /** A tail of the text behind its first `b` units, in the terms of the whole. */
  lemma TailAt(s: Text, b: nat, m: nat)
    requires b + m <= |s|
    ensures IsTail(s[b..], m) <==>
      var c := b + m;
      && (b == c || (s[b] == 46 && AllDigits(s[b + 1..c])))
      && (c == |s| || (s[c] in {69, 101} && (AllDigits(s[c + 1..]) || (c + 1 < |s| && s[c + 1] in {43, 45} && AllDigits(s[c + 2..])))))
  {
    hide AllDigits, IsPower;
    PowerAt(s, b + m);
    assert s[b..][m..] == s[b + m..];
    if m > 0 { assert s[b..][1..m] == s[b + 1..b + m]; }
  }

  lemma NumberIsNumeral(s: Text) returns (a: nat, b: nat, c: nat)
    requires IsNumber(s)
    ensures IsNumeral(s, a, b, c)
  {
    hide IsFraction, IsTail, AllDigits;
    a := if s != [] && s[0] == 45 then 1 else 0;
    var unsigned := s[a..];
    assert unsigned == if s != [] && s[0] == 45 then s[1..] else s;
    var n := LeadingDigits(unsigned);
    DigitsAhead(unsigned);
    b := a + n;
    assert s[a..b] == unsigned[..n] && unsigned[n..] == s[b..];
    SomeDigits(unsigned, n);
    var m := FractionIsTail(s[b..]);
    c := b + m;
    TailIsWithin(s[b..], m);
    TailAt(s, b, m);
  }

  lemma TailIsWithin(s: Text, m: nat)
    requires IsTail(s, m)
    ensures m <= |s|
    ensures s != [] ==> !IsDigit(s[0])
  {
    hide IsPower;
    NotDigit(s[m..]);
  }

  lemma SomeDigits(s: Text, n: nat)
    requires 0 < n <= |s|
    ensures AllDigits(s[..n]) <==> forall i :: 0 <= i < n ==> 48 <= s[i] <= 57
  {
    assert forall i :: 0 <= i < n ==> s[..n][i] == s[i];
  }

  lemma PowerAt(s: Text, c: nat)
    requires c <= |s|
    ensures IsPower(s[c..]) <==>
      (c == |s| || (s[c] in {69, 101} && (AllDigits(s[c + 1..]) || (c + 1 < |s| && s[c + 1] in {43, 45} && AllDigits(s[c + 2..])))))
  {
    if c < |s| {
      assert s[c..][1..] == s[c + 1..];
      if c + 1 < |s| { assert s[c..][2..] == s[c + 2..]; }
    }
  }

  lemma NumeralIsNumber(s: Text, a: nat, b: nat, c: nat)
    requires IsNumeral(s, a, b, c)
    ensures IsNumber(s) && s != [] && IsNumberUnit(s[0])
  {
    hide IsFraction, IsTail, AllDigits;
    DigitsAreSome(s[a..b]);
    assert s[a] == s[a..b][0];
    var unsigned := s[a..];
    var n := b - a;
    assert unsigned[..n] == s[a..b] && unsigned[n..] == s[b..];
    SomeDigits(unsigned, n);
    TailAt(s, b, c - b);
    TailIsWithin(s[b..], c - b);
    if n < |unsigned| { assert unsigned[n] == s[b..][0]; }
    DigitsCounted(unsigned, n);
    TailIsFraction(s[b..], c - b);
    assert unsigned == if s[0] == 45 then s[1..] else s;
  }

  lemma DigitsAreSome(s: Text)
    requires AllDigits(s)
    ensures s != [] && 48 <= s[0] <= 57
  {
  }

  // ---------------------------------------------------------------- values: what is read is in the grammar

  lemma LexemeIs(s: Text) returns (n: nat)
    requires ParseNumber(s).Some?
    ensures n <= |s| && IsNumeralText(s[..n]) && ParseNumber(s) == Some(Read(Num(s[..n]), s[n..]))
  {
    hide IsNumeral, IsNumber, NumberLength;
    n := NumberLength(s);
    var a, b, c := NumberIsNumeral(s[..n]);
  }

  lemma {:induction false} ValueIs(s: Text) returns (n: nat)
    requires ParseValue(s).Some?
    ensures n <= |s| && Denotes(s[..n], ParseValue(s).value.value) && ParseValue(s).value.rest == s[n..]
    decreases |s|, 0
  {
    hide ParseString, IsNumber, DenotesString, DenotesItems, DenotesFields, NumberLength, ParseArray, ParseObject, ParseNumber,
         IsNumeralText;
    if s[0] == OPEN_BRACE {
      var k := ObjectIs(s[1..]);
      n := k + 2;
      assert s[..n][1..n - 1] == s[1..][..k];
    } else if s[0] == OPEN_BRACKET {
      var k := ArrayIs(s[1..]);
      n := k + 2;
      assert s[..n][1..n - 1] == s[1..][..k];
    } else if s[0] == QUOTE {
      n := StringIs(s);
    } else if s[0] == 110 {
      n := 4;
    } else if s[0] == 116 {
      n := 4;
    } else if s[0] == 102 {
      n := 5;
    } else {
      n := LexemeIs(s);
    }
  }

  lemma {:induction false} ArrayIs(s: Text) returns (n: nat)
    requires ParseArray(s).Some?
    ensures n < |s| && s[n] == 93 && DenotesItems(s[..n], ParseArray(s).value.value.items) && ParseArray(s).value.rest == s[n + 1..]
    decreases |s|, 2
  {
    hide ParseItems;
    var a := SkipIs(s);
    if Skip(s) != [] && Skip(s)[0] == CLOSE_BRACKET {
      n := a;
    } else {
      n := ItemsAre(s);
    }
  }

  lemma ItemThenTail(s: Text, head: Json, tail: Items, a: nat, b: nat, c: nat)
    requires ItemAhead(s, head, tail, a, b, c) && Denotes(s[a..b], head) && (tail.Item? ==> DenotesItems(s[c + 1..], tail))
    ensures DenotesItems(s, Item(head, tail))
  {
    hide IsWhite;
  }

  /** What reading items comes to: a value, and then the bracket, or a comma and further items. */
  lemma ItemsByHead(s: Text)
    requires ParseItems(s).Some?
    ensures ParseValue(Skip(s)).Some?
    ensures var head, items := ParseValue(Skip(s)).value, ParseItems(s).value;
      var t := Skip(head.rest);
      && t != [] && |t| <= |head.rest| < |Skip(s)| <= |s|
      && if t[0] == CLOSE_BRACKET then items == Read(Item(head.value, NoItems), t[1..])
         else t[0] == COMMA && ParseItems(t[1..]).Some?
              && items == Read(Item(head.value, ParseItems(t[1..]).value.value), ParseItems(t[1..]).value.rest)
  {
    hide ParseValue, Skip;
  }

  /** The first item of a list and the white space around it, at their places, when the value is where it was found to be. */
  lemma ItemIs(s: Text, k: nat) returns (a: nat, b: nat, c: nat)
    requires ParseValue(Skip(s)).Some? && k <= |Skip(s)| && ParseValue(Skip(s)).value.rest == Skip(s)[k..]
    ensures a <= b <= c <= |s| && IsWhite(s[..a]) && IsWhite(s[b..c]) && s[a..b] == Skip(s)[..k]
    ensures Skip(ParseValue(Skip(s)).value.rest) == s[c..]
  {
    hide ParseValue, Skip, IsWhite;
    a := SkipIs(s);
    var rest := ParseValue(Skip(s)).value.rest;
    b := a + k;
    assert rest == s[b..];
    var w := SkipIs(rest);
    c := b + w;
    assert s[b..c] == rest[..w];
  }

  /** An item of the first `n` units of a longer text. */
  lemma ItemOfPrefix(s: Text, n: nat, head: Json, tail: Items, a: nat, b: nat, c: nat)
    requires a <= b <= c <= n <= |s| && IsWhite(s[..a]) && IsWhite(s[b..c]) && Denotes(s[a..b], head) && (c < n <==> tail.Item?)
    requires c < n ==> s[c] == 44 && DenotesItems(s[c + 1..n], tail)
    ensures DenotesItems(s[..n], Item(head, tail))
  {
    hide IsWhite, Denotes, DenotesItems;
    SameItem(s, n, a, b, c);
    if c < n { assert s[..n][c + 1..] == s[c + 1..n]; }
    ItemThenTail(s[..n], head, tail, a, b, c);
  }

  lemma {:induction false} ItemsAre(s: Text) returns (n: nat)
    requires ParseItems(s).Some?
    ensures n < |s| && s[n] == 93 && ParseItems(s).value.value.Item?
    ensures DenotesItems(s[..n], ParseItems(s).value.value) && ParseItems(s).value.rest == s[n + 1..]
    decreases |s|, 1
  {
    hide Denotes, DenotesItems, ParseValue, ParseItems, Skip, IsWhite;
    ItemsByHead(s);
    var k := ValueIs(Skip(s));
    var head := ParseValue(Skip(s)).value;
    var a, b, c := ItemIs(s, k);
    if s[c] == CLOSE_BRACKET {
      n := c;
      ItemOfPrefix(s, n, head.value, NoItems, a, b, c);
    } else {
      var more := s[c..][1..];
      var m := ItemsAre(more);
      n := c + 1 + m;
      assert s[c + 1..n] == more[..m] && more[m + 1..] == s[n + 1..];
      ItemOfPrefix(s, n, head.value, ParseItems(more).value.value, a, b, c);
    }
  }

  lemma SameItem(s: Text, n: nat, a: nat, b: nat, c: nat)
    requires a <= b <= c <= n <= |s|
    ensures s[..n][..a] == s[..a] && s[..n][a..b] == s[a..b] && s[..n][b..c] == s[b..c]
  {
  }

  lemma {:induction false} ObjectIs(s: Text) returns (n: nat)
    requires ParseObject(s).Some?
    ensures n < |s| && s[n] == 125 && DenotesFields(s[..n], ParseObject(s).value.value.fields) && ParseObject(s).value.rest == s[n + 1..]
    decreases |s|, 2
  {
    hide ParseFields;
    var a := SkipIs(s);
    if Skip(s) != [] && Skip(s)[0] == CLOSE_BRACE {
      n := a;
    } else {
      n := FieldsAre(s);
    }
  }

  lemma KeyIs(s: Text) returns (b: nat, c: nat)
    requires ParseKey(s).Some?
    ensures b <= c < |s| && DenotesString(s[..b], ParseKey(s).value.value) && IsWhite(s[b..c]) && s[c] == 58
    ensures ParseKey(s).value.rest == s[c + 1..]
  {
    hide ParseString, DenotesString, Skip;
    b := StringIs(s);
    var key := ParseString(s[1..]).value;
    var w := SkipIs(key.rest);
    c := b + w;
    assert Skip(key.rest) == s[c..] && s[b..c] == key.rest[..w];
  }

  lemma FieldThenRest(s: Text, key: Text, value: Json, rest: Fields, a: nat, b: nat, c: nat, d: nat, e: nat, f: nat)
    requires FieldAhead(s, rest, a, b, c, d, e, f) && DenotesString(s[a..b], key) && Denotes(s[d..e], value)
    requires rest.Field? ==> DenotesFields(s[f + 1..], rest)
    ensures DenotesFields(s, Field(key, value, rest))
  {
    hide IsWhite, DenotesString, Denotes;
    assert FieldMore(s, Field(key, value, rest), a, b, d, e, f);
  }

  /** The same for the first `n` units of a longer text. */
  lemma FieldOfPrefix(s: Text, n: nat, key: Text, value: Json, rest: Fields, a: nat, b: nat, c: nat, d: nat, e: nat, f: nat)
    requires a <= b <= c < d <= e <= f <= n <= |s| && IsWhite(s[..a]) && IsWhite(s[b..c]) && s[c] == 58
    requires IsWhite(s[c + 1..d]) && IsWhite(s[e..f]) && (f < n <==> rest.Field?)
    requires f < n ==> s[f] == 44 && DenotesFields(s[f + 1..n], rest)
    requires DenotesString(s[a..b], key) && Denotes(s[d..e], value)
    ensures DenotesFields(s[..n], Field(key, value, rest))
  {
    hide IsWhite, DenotesString, Denotes, DenotesFields;
    SamePieces(s, n, a, b, c, d, e, f);
    if f < n { assert s[..n][f + 1..] == s[f + 1..n]; }
    FieldThenRest(s[..n], key, value, rest, a, b, c, d, e, f);
  }

  /** The key, the colon and the value of the first field, at their places. */
  lemma FieldIs(s: Text) returns (a: nat, b: nat, c: nat, d: nat)
    requires ParseKey(Skip(s)).Some?
    ensures a <= b <= c < d <= |s| && IsWhite(s[..a]) && IsWhite(s[b..c]) && s[c] == 58 && IsWhite(s[c + 1..d])
    ensures DenotesString(s[a..b], ParseKey(Skip(s)).value.value) && Skip(ParseKey(Skip(s)).value.rest) == s[d..]
  {
    hide DenotesString, ParseKey, Skip, IsWhite;
    a := SkipIs(s);
    var key := ParseKey(Skip(s)).value;
    var kb, kc := KeyIs(Skip(s));
    b, c := a + kb, a + kc;
    assert key.rest == s[c + 1..];
    var w := SkipIs(key.rest);
    d := c + 1 + w;
    assert s[a..b] == Skip(s)[..kb] && s[b..c] == Skip(s)[kb..kc] && s[c] == Skip(s)[kc] && s[c + 1..d] == key.rest[..w];
  }

  /** What reading fields comes to: a key, a value, and then the brace, or a comma and further fields. */
  lemma FieldsByHead(s: Text)
    requires ParseFields(s).Some?
    ensures ParseKey(Skip(s)).Some? && ParseValue(Skip(ParseKey(Skip(s)).value.rest)).Some?
    ensures var key, fields := ParseKey(Skip(s)).value, ParseFields(s).value;
      var value := ParseValue(Skip(key.rest)).value;
      var t := Skip(value.rest);
      && t != [] && |t| <= |value.rest| < |s| && |Skip(key.rest)| < |s|
      && if t[0] == CLOSE_BRACE then fields == Read(Field(key.value, value.value, NoFields), t[1..])
         else t[0] == COMMA && ParseFields(t[1..]).Some?
              && fields == Read(Field(key.value, value.value, ParseFields(t[1..]).value.value), ParseFields(t[1..]).value.rest)
  {
    hide ParseValue, ParseKey, Skip;
  }

  lemma {:induction false} FieldsAre(s: Text) returns (n: nat)
    requires ParseFields(s).Some?
    ensures n < |s| && s[n] == 125 && ParseFields(s).value.value.Field?
    ensures DenotesFields(s[..n], ParseFields(s).value.value) && ParseFields(s).value.rest == s[n + 1..]
    decreases |s|, 1
  {
    hide Denotes, DenotesFields, DenotesString, ParseValue, ParseKey, ParseFields, Skip, IsWhite;
    FieldsByHead(s);
    var a, b, c, d := FieldIs(s);
    var key := ParseKey(Skip(s)).value;
    var k := ValueIs(Skip(key.rest));
    var value := ParseValue(Skip(key.rest)).value;
    var e, f := ValueAt(s, d, k, value.rest);
    if s[f] == CLOSE_BRACE {
      n := f;
      FieldOfPrefix(s, n, key.value, value.value, NoFields, a, b, c, d, e, f);
    } else {
      var more := s[f..][1..];
      var m := FieldsAre(more);
      n := f + 1 + m;
      assert s[f + 1..n] == more[..m] && more[m + 1..] == s[n + 1..];
      FieldOfPrefix(s, n, key.value, value.value, ParseFields(more).value.value, a, b, c, d, e, f);
    }
  }

  /** Where a value that takes `k` units of the text from `d` on ends, and where the white space behind it does. */
  lemma ValueAt(s: Text, d: nat, k: nat, rest: Text) returns (e: nat, f: nat)
    requires d + k <= |s| && rest == s[d..][k..]
    ensures d <= e <= f <= |s| && s[d..e] == s[d..][..k] && IsWhite(s[e..f]) && Skip(rest) == s[f..]
  {
    hide Skip, IsWhite;
    e := d + k;
    assert rest == s[e..];
    var v := SkipIs(rest);
    f := e + v;
    assert s[e..f] == rest[..v];
  }

  lemma SamePieces(s: Text, n: nat, a: nat, b: nat, c: nat, d: nat, e: nat, f: nat)
    requires a <= b <= c < d <= e <= f <= n <= |s|
    ensures s[..n][..a] == s[..a] && s[..n][a..b] == s[a..b] && s[..n][b..c] == s[b..c] && s[..n][c] == s[c]
    ensures s[..n][c + 1..d] == s[c + 1..d] && s[..n][d..e] == s[d..e] && s[..n][e..f] == s[e..f]
    ensures f < n ==> s[..n][f] == s[f]
  {
  }

  // ---------------------------------------------------------------- values: the grammar is read

  /** A value's text starts with its own kind of character, and never with white space. */
  lemma StartOf(s: Text, x: Json)
    requires Denotes(s, x)
    ensures s != [] && !IsSpace(s[0]) && s[0] != 93 && s[0] != 125
    ensures x.Num? ==> IsNumberUnit(s[0])
  {
    hide DenotesItems, DenotesFields, DenotesText;
    if x.Num? {
      var a: nat, b: nat, c: nat :| IsNumeral(s, a, b, c);
      NumeralIsNumber(s, a, b, c);
    }
  }

  lemma {:induction false} ValueIsRead(s: Text, x: Json, rest: Text)
    requires Denotes(s, x) && (x.Num? ==> EndsNumber(rest))
    ensures ParseValue(s + rest) == Some(Read(x, rest))
    decreases x, 0
  {
    hide DenotesString, DenotesItems, DenotesFields, ParseString, ParseArray, ParseObject, ParseNumber, IsNumber, IsNumeral;
    StartOf(s, x);
    assert s + rest == [s[0]] + (s[1..] + rest);
    match x
    case Null => LiteralReads(Print(Null), Null, rest);
    case Bool(b) => LiteralReads(Print(Bool(b)), Bool(b), rest);
    case Num(lexeme) =>
      var a: nat, b: nat, c: nat :| IsNumeral(s, a, b, c);
      NumeralIsNumber(s, a, b, c);
      NumberReads(lexeme, rest);
    case Str(text) =>
      QuoteFirst(s, text);
      StringReads(s, text, rest);
    case Arr(items) =>
      var inner := s[1..|s| - 1];
      assert s[1..] + rest == inner + ([CLOSE_BRACKET] + rest);
      ArrayIsRead(inner, items, rest);
    case Obj(fields) =>
      var inner := s[1..|s| - 1];
      assert s[1..] + rest == inner + ([CLOSE_BRACE] + rest);
      ObjectIsRead(inner, fields, rest);
  }

  lemma QuoteFirst(s: Text, t: Text)
    requires DenotesString(s, t)
    ensures s != [] && s[0] == 34
  {
  }

  lemma {:induction false} ArrayIsRead(s: Text, items: Items, rest: Text)
    requires DenotesItems(s, items)
    ensures ParseArray(s + ([CLOSE_BRACKET] + rest)) == Some(Read(Arr(items), rest))
    decreases items, 2
  {
    hide ParseItems, Denotes, Skip, IsWhite;
    var end := [CLOSE_BRACKET] + rest;
    if items.NoItems? {
      OnlyWhite(s, items, NoFields);
      SkipWhite(s, end);
    } else {
      var a, b, c := ItemPieces(s, items);
      StartOf(s[a..b], items.head);
      StartBehind(s, a, b, end);
      ItemsAreRead(s, items, rest);
    }
  }

  lemma OnlyWhite(s: Text, items: Items, fields: Fields)
    ensures items.NoItems? && DenotesItems(s, items) ==> IsWhite(s)
    ensures fields.NoFields? && DenotesFields(s, fields) ==> IsWhite(s)
  {
  }

  lemma ItemPieces(s: Text, items: Items) returns (a: nat, b: nat, c: nat)
    requires items.Item? && DenotesItems(s, items)
    ensures ItemAhead(s, items.head, items.tail, a, b, c) && Denotes(s[a..b], items.head)
    ensures items.tail.Item? ==> DenotesItems(s[c + 1..], items.tail)
  {
    hide Denotes, IsWhite;
    a, b, c :|
      ItemAhead(s, items.head, items.tail, a, b, c) && Denotes(s[a..b], items.head) && (items.tail.Item? ==> DenotesItems(s[c + 1..], items.tail));
  }

  /** White space in front of a piece that does not start with any is skipped. */
  lemma StartBehind(s: Text, a: nat, b: nat, end: Text)
    requires a < b <= |s| && IsWhite(s[..a]) && !IsSpace(s[a..b][0])
    ensures Skip(s + end) == s[a..] + end && (s[a..] + end)[0] == s[a..b][0]
  {
    hide Skip, IsWhite;
    assert (s[a..] + end)[0] == s[a..b][0];
    SkipWhite(s[..a], s[a..] + end);
    assert s + end == s[..a] + (s[a..] + end);
  }

  lemma {:induction false} ItemsAreRead(s: Text, items: Items, rest: Text)
    requires items.Item? && DenotesItems(s, items)
    ensures ParseItems(s + ([CLOSE_BRACKET] + rest)) == Some(Read(items, rest))
    decreases items, 1
  {
    hide ParseValue, Denotes, DenotesItems, Skip, IsWhite;
    var end := [CLOSE_BRACKET] + rest;
    var a, b, c := ItemPieces(s, items);
    StartOf(s[a..b], items.head);
    StartBehind(s, a, b, end);
    var after := s[b..c] + (s[c..] + end);
    assert s[a..] + end == s[a..b] + after;
    assert (s[c..] + end)[0] == if c < |s| then s[c] else CLOSE_BRACKET;
    WhiteEndsNumber(s[b..c], s[c..] + end);
    ValueIsRead(s[a..b], items.head, after);
    SkipWhite(s[b..c], s[c..] + end);
    if items.tail.Item? {
      ItemsAreRead(s[c + 1..], items.tail, rest);
      assert (s[c..] + end)[1..] == s[c + 1..] + end;
    } else {
      assert s[c..] + end == end;
    }
  }

  lemma WhiteEndsNumber(w: Text, s: Text)
    requires IsWhite(w) && s != [] && s[0] in {44, 93, 125}
    ensures EndsNumber(w + s)
  {
  }

  lemma FieldPieces(s: Text, fields: Fields) returns (a: nat, b: nat, c: nat, d: nat, e: nat, f: nat)
    requires fields.Field? && DenotesFields(s, fields)
    ensures FieldAhead(s, fields.rest, a, b, c, d, e, f) && DenotesString(s[a..b], fields.key) && Denotes(s[d..e], fields.value)
    ensures fields.rest.Field? ==> DenotesFields(s[f + 1..], fields.rest)
  {
    hide Denotes, DenotesString, FieldMore;
    a, b, c, d, e, f :| FieldAhead(s, fields.rest, a, b, c, d, e, f) && FieldMore(s, fields, a, b, d, e, f);
    MoreOfField(s, fields, a, b, d, e, f);
  }

  lemma MoreOfField(s: Text, fields: Fields, a: nat, b: nat, d: nat, e: nat, f: nat)
    requires a <= b <= d <= e <= f <= |s| && fields.Field? && FieldMore(s, fields, a, b, d, e, f)
    ensures DenotesString(s[a..b], fields.key) && Denotes(s[d..e], fields.value)
    ensures fields.rest.Field? ==> f < |s| && DenotesFields(s[f + 1..], fields.rest)
  {
    hide Denotes, DenotesString;
  }

  lemma {:induction false} ObjectIsRead(s: Text, fields: Fields, rest: Text)
    requires DenotesFields(s, fields)
    ensures ParseObject(s + ([CLOSE_BRACE] + rest)) == Some(Read(Obj(fields), rest))
    decreases fields, 2
  {
    hide ParseFields, Denotes, DenotesFields, DenotesString, Skip, IsWhite;
    var end := [CLOSE_BRACE] + rest;
    if fields.NoFields? {
      OnlyWhite(s, NoItems, fields);
      SkipWhite(s, end);
    } else {
      var a, b, c, d, e, f := FieldPieces(s, fields);
      QuoteFirst(s[a..b], fields.key);
      StartBehind(s, a, b, end);
      FieldsAreRead(s, fields, rest);
    }
  }

  lemma KeyIsRead(s: Text, key: Text, w: Text, rest: Text)
    requires DenotesString(s, key) && IsWhite(w)
    ensures ParseKey(s + (w + ([COLON] + rest))) == Some(Read(key, rest))
  {
    hide DenotesString, ParseString, Skip;
    QuoteFirst(s, key);
    StringReads(s, key, w + ([COLON] + rest));
    SkipWhite(w, [COLON] + rest);
    assert ([COLON] + rest)[1..] == rest;
  }

  lemma {:induction false} FieldsAreRead(s: Text, fields: Fields, rest: Text)
    requires fields.Field? && DenotesFields(s, fields)
    ensures ParseFields(s + ([CLOSE_BRACE] + rest)) == Some(Read(fields, rest))
    decreases fields, 1
  {
    hide ParseValue, ParseKey, Denotes, DenotesFields, DenotesString, Skip, IsWhite;
    var end := [CLOSE_BRACE] + rest;
    var a, b, c, d, e, f := FieldPieces(s, fields);
    QuoteFirst(s[a..b], fields.key);
    StartOf(s[d..e], fields.value);
    var afterValue := s[e..f] + (s[f..] + end);
    var afterColon := s[c + 1..d] + (s[d..e] + afterValue);
    StartBehind(s, a, b, end);
    PiecesOfField(s, a, b, c, d, e, f, end);
    KeyIsRead(s[a..b], fields.key, s[b..c], afterColon);
    assert (s[d..e] + afterValue)[0] == s[d..e][0];
    SkipWhite(s[c + 1..d], s[d..e] + afterValue);
    assert (s[f..] + end)[0] == if f < |s| then s[f] else CLOSE_BRACE;
    WhiteEndsNumber(s[e..f], s[f..] + end);
    ValueIsRead(s[d..e], fields.value, afterValue);
    SkipWhite(s[e..f], s[f..] + end);
    if fields.rest.Field? {
      FieldsAreRead(s[f + 1..], fields.rest, rest);
      assert (s[f..] + end)[1..] == s[f + 1..] + end;
    } else {
      assert s[f..] + end == end;
    }
  }

  lemma PiecesOfField(s: Text, a: nat, b: nat, c: nat, d: nat, e: nat, f: nat, end: Text)
    requires a <= b <= c < d <= e <= f <= |s| && s[c] == 58
    ensures s[a..] + end == s[a..b] + (s[b..c] + ([COLON] + (s[c + 1..d] + (s[d..e] + (s[e..f] + (s[f..] + end))))))
  {
    assert s[a..] == s[a..b] + (s[b..c] + ([COLON] + (s[c + 1..d] + (s[d..e] + (s[e..f] + s[f..])))));
  }

  // ---------------------------------------------------------------- documents

  /** A text parses to a value if and only if the grammar has it as a text of that value. */
  lemma ParserIsTheGrammar(s: Text, x: Json)
    ensures ParseDocument(s) == Some(x) <==> DenotesDocument(s, x)
  {
    hide ParseValue, Denotes, Skip;
    if ParseDocument(s) == Some(x) {
      var a := SkipIs(s);
      var n := ValueIs(Skip(s));
      var read := ParseValue(Skip(s)).value;
      var w := SkipIs(read.rest);
      AllSkipped(read.rest, w);
      var b := a + n;
      assert s[a..b] == Skip(s)[..n] && s[b..] == read.rest;
    }
    if DenotesDocument(s, x) {
      var a: nat, b: nat :| a <= b <= |s| && IsWhite(s[..a]) && IsWhite(s[b..]) && Denotes(s[a..b], x);
      StartOf(s[a..b], x);
      assert s == s[..a] + (s[a..b] + s[b..]);
      assert (s[a..b] + s[b..])[0] == s[a..b][0];
      SkipWhite(s[..a], s[a..b] + s[b..]);
      ValueIsRead(s[a..b], x, s[b..]);
      assert s[b..] == s[b..] + [];
      SkipWhite(s[b..], []);
    }
  }

  lemma AllSkipped(s: Text, w: nat)
    requires w <= |s| && IsWhite(s[..w]) && Skip(s) == s[w..] == []
    ensures IsWhite(s)
  {
    assert s[..w] == s;
  }

  // ---------------------------------------------------------------- printing

  lemma HexByTable(n: int)
    requires 0 <= n < 16
    ensures IsHex(HexDigit(n), n) && (48 <= HexDigit(n) <= 57 || 97 <= HexDigit(n) <= 102)
  {
  }

  lemma LongEscapeDenotes(u: Unit)
    ensures DenotesUnit(UnicodeEscape(u), u)
    ensures forall i :: 2 <= i < 6 ==> 48 <= UnicodeEscape(u)[i] <= 57 || 97 <= UnicodeEscape(u)[i] <= 102
  {
    hide HexDigit, IsHex;
    var q := u / 16;
    var r := q / 16;
    HexByTable(r / 16);
    HexByTable(r % 16);
    HexByTable(q % 16);
    HexByTable(u % 16);
    var e, w, x, y, z := UnicodeEscape(u), r / 16, r % 16, q % 16, u % 16;
    assert IsHex(e[2], w) && IsHex(e[3], x) && IsHex(e[4], y) && IsHex(e[5], z);
    assert u as int == w * 4096 + x * 256 + y * 16 + z;
  }

  /**
   * How a unit is printed inside a string literal: as it is, unless it is a quote, a backslash, a control character or a lone
   * surrogate; behind a backslash, if the grammar has a character for it; else in hexadecimal, in lower case.
   */
  lemma EscapeByTable(u: Unit)
    ensures DenotesUnit(EscapeUnit(u), u)
    ensures |EscapeUnit(u)| == 1 <==> u >= 32 && u != 34 && u != 92 && !(0xD800 <= u < 0xE000)
    ensures |EscapeUnit(u)| == 2 <==> u in {34, 92, 8, 9, 10, 12, 13}
    ensures |EscapeUnit(u)| == 6 ==> forall i :: 2 <= i < 6 ==> 48 <= EscapeUnit(u)[i] <= 57 || 97 <= EscapeUnit(u)[i] <= 102
    ensures |EscapeUnit(u)| in {1, 2, 6}
  {
    hide UnicodeEscape, DenotesUnit;
    LongEscapeDenotes(u);
    SixUnits(u);
    ShortEscapesDenote(u);
  }

  lemma ShortEscapesDenote(u: Unit)
    ensures |EscapeUnit(u)| < 6 ==> DenotesUnit(EscapeUnit(u), u)
  {
    hide UnicodeEscape;
    SixUnits(u);
  }

  lemma SixUnits(u: Unit)
    ensures |UnicodeEscape(u)| == 6
  {
  }
}
