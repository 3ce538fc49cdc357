/** Reading back printed JSON, and why a printed object is no proper prefix of anything that parses. */
module JsonRoundTrip {
  import opened Basics
  import opened Json

  // ---------------------------------------------------------------- string literals

  lemma HexDigitReads(n: int)
    requires 0 <= n < 16
    ensures HexValue(HexDigit(n)) == Some(n)
  {
  }

  lemma UnicodeReads(u: Unit)
    ensures var q := u / 16;
      var r := q / 16;
      FromHex(HexDigit(r / 16), HexDigit(r % 16), HexDigit(q % 16), HexDigit(u % 16)) == Some(u)
  {
    hide HexDigit, HexValue;
    var q := u / 16;
    var r := q / 16;
    HexDigitReads(r / 16);
    HexDigitReads(r % 16);
    HexDigitReads(q % 16);
    HexDigitReads(u % 16);
  }

  /** Whatever the escape of a unit, reading it gives the unit back and stops right behind it. */
  lemma EscapedUnitReads(u: Unit, rest: Text)
    ensures ParseUnit(EscapeUnit(u) + rest) == Some(Read(u, rest))
  {
    if EscapeUnit(u) == UnicodeEscape(u) { LongEscapeReads(u, rest); }
    else if |EscapeUnit(u)| == 2 { ShortEscapeReads(EscapeUnit(u)[1], rest); }
    else { assert (EscapeUnit(u) + rest)[1..] == rest; }
  }

  lemma LongEscapeReads(u: Unit, rest: Text)
    ensures ParseUnit(UnicodeEscape(u) + rest) == Some(Read(u, rest))
  {
    hide HexDigit, FromHex;
    UnicodeReads(u);
    assert (UnicodeEscape(u) + rest)[6..] == rest;
  }

  lemma ShortEscapeReads(escape: Unit, rest: Text)
    requires SimpleEscape(escape).Some?
    ensures ParseUnit([BACKSLASH, escape] + rest) == Some(Read(SimpleEscape(escape).value, rest))
  {
    assert ([BACKSLASH, escape] + rest)[2..] == rest;
  }

  lemma RawUnitReads(u: Unit, rest: Text)
    requires IsHigh(u) || IsLow(u)
    ensures ParseUnit([u] + rest) == Some(Read(u, rest))
  {
  }

  lemma UnitThenString(s: Text, u: Unit, rest: Text, more: Text, end: Text)
    requires ParseUnit(s) == Some(Read(u, rest)) && ParseString(rest) == Some(Read(more, end))
    ensures ParseString(s) == Some(Read([u] + more, end))
  {
  }

  lemma {:induction false} EscapedTextReads(s: Text, rest: Text)
    ensures ParseString(Escape(s) + ([QUOTE] + rest)) == Some(Read(s, rest))
    decreases |s|
  {
    hide Escape, EscapeUnit, ParseUnit, ParseString;
    if s == [] {
      EmptyStringReads(rest);
    } else if |s| > 1 && IsHigh(s[0]) && IsLow(s[1]) {
      EscapedTextReads(s[2..], rest);
      PairReads(s, [QUOTE] + rest, rest);
    } else {
      EscapedTextReads(s[1..], rest);
      SingleReads(s, [QUOTE] + rest, rest);
    }
  }

  lemma PairReads(s: Text, end: Text, rest: Text)
    requires |s| > 1 && IsHigh(s[0]) && IsLow(s[1])
    requires ParseString(Escape(s[2..]) + end) == Some(Read(s[2..], rest))
    ensures ParseString(Escape(s) + end) == Some(Read(s, rest))
  {
    hide EscapeUnit, ParseUnit, ParseString;
    var tail := Escape(s[2..]) + end;
    RawUnitReads(s[1], tail);
    UnitThenString([s[1]] + tail, s[1], tail, s[2..], rest);
    RawUnitReads(s[0], [s[1]] + tail);
    UnitThenString([s[0]] + ([s[1]] + tail), s[0], [s[1]] + tail, [s[1]] + s[2..], rest);
    assert Escape(s) + end == [s[0]] + ([s[1]] + tail);
    assert [s[0]] + ([s[1]] + s[2..]) == s;
  }

  lemma SingleReads(s: Text, end: Text, rest: Text)
    requires s != [] && !(|s| > 1 && IsHigh(s[0]) && IsLow(s[1]))
    requires ParseString(Escape(s[1..]) + end) == Some(Read(s[1..], rest))
    ensures ParseString(Escape(s) + end) == Some(Read(s, rest))
  {
    hide EscapeUnit, ParseUnit, ParseString;
    var tail := Escape(s[1..]) + end;
    EscapedUnitReads(s[0], tail);
    UnitThenString(EscapeUnit(s[0]) + tail, s[0], tail, s[1..], rest);
    assert Escape(s) + end == EscapeUnit(s[0]) + tail;
    assert [s[0]] + s[1..] == s;
  }

  lemma EmptyStringReads(rest: Text)
    ensures ParseString(Escape([]) + ([QUOTE] + rest)) == Some(Read([], rest))
  {
    assert Escape([]) + ([QUOTE] + rest) == [QUOTE] + rest;
    assert ([QUOTE] + rest)[1..] == rest;
  }

  lemma PrintedStringReads(s: Text, rest: Text)
    ensures PrintString(s) + rest == [QUOTE] + (Escape(s) + ([QUOTE] + rest))
    ensures (PrintString(s) + rest)[0] == QUOTE
    ensures ParseString((PrintString(s) + rest)[1..]) == Some(Read(s, rest))
  {
    hide Escape, ParseString;
    EscapedTextReads(s, rest);
    var body := Escape(s) + ([QUOTE] + rest);
    assert PrintString(s) + rest == [QUOTE] + body;
    assert ([QUOTE] + body)[1..] == body;
  }

  // ---------------------------------------------------------------- numbers

  /** Nothing that could lengthen a number follows. */
  predicate EndsNumber(rest: Text) { rest == [] || !IsNumberUnit(rest[0]) }

  lemma {:induction false} NumberUnits(s: Text)
    ensures IsExponent(s) || IsFraction(s) ==> forall i :: 0 <= i < |s| ==> IsNumberUnit(s[i])
  {
    LeadingDigitsAreDigits(s);
    if |s| == 0 {
    } else {
      LeadingDigitsAreDigits(s[1..]);
    }
    if |s| > 1 { LeadingDigitsAreDigits(s[2..]); }
    if s != [] && s[0] == 46 {
      var n := LeadingDigits(s[1..]);
      ExponentUnits(s[1 + n..]);
      if IsFraction(s) {
        forall i | 0 <= i < |s| ensures IsNumberUnit(s[i]) {
          if i >= 1 + n { assert s[1 + n..][i - 1 - n] == s[i]; } else if i >= 1 { assert s[1..][i - 1] == s[i]; }
        }
      }
    } else {
      ExponentUnits(s);
    }
  }

  lemma ExponentUnits(s: Text)
    ensures IsExponent(s) ==> forall i :: 0 <= i < |s| ==> IsNumberUnit(s[i])
  {
    if IsExponent(s) && s != [] {
      var k := if |s| > 1 && (s[1] == 43 || s[1] == 45) then 2 else 1;
      LeadingDigitsAreDigits(s[k..]);
      forall i | 0 <= i < |s| ensures IsNumberUnit(s[i]) {
        if i >= k { assert s[k..][i - k] == s[i]; }
      }
    }
  }

  lemma {:induction false} LeadingDigitsAreDigits(s: Text)
    ensures forall i :: 0 <= i < LeadingDigits(s) ==> IsDigit(s[i])
  {
    if s == [] || !IsDigit(s[0]) {
    } else {
      LeadingDigitsAreDigits(s[1..]);
      forall i | 0 <= i < LeadingDigits(s) ensures IsDigit(s[i]) {
        if i > 0 { assert s[1..][i - 1] == s[i]; }
      }
    }
  }

  lemma WholeNumberUnits(s: Text)
    requires IsNumber(s)
    ensures s != [] && forall i :: 0 <= i < |s| ==> IsNumberUnit(s[i])
  {
    hide IsFraction, IsExponent;
    var k := if s != [] && s[0] == 45 then 1 else 0;
    var n := LeadingDigits(s[k..]);
    LeadingDigitsAreDigits(s[k..]);
    NumberUnits(s[k..][n..]);
    forall i | 0 <= i < |s| ensures IsNumberUnit(s[i]) {
      if i >= k + n { assert s[k..][n..][i - k - n] == s[i]; } else if i >= k { assert s[k..][i - k] == s[i]; }
    }
  }

  lemma {:induction false} NumberLengthStops(s: Text, rest: Text)
    requires forall i :: 0 <= i < |s| ==> IsNumberUnit(s[i])
    requires EndsNumber(rest)
    ensures NumberLength(s + rest) == |s|
  {
    if s == [] {
      assert s + rest == rest;
    } else {
      forall i | 0 <= i < |s[1..]| ensures IsNumberUnit(s[1..][i]) { assert s[1..][i] == s[i + 1]; }
      NumberLengthStops(s[1..], rest);
      assert (s + rest)[1..] == s[1..] + rest;
    }
  }

  lemma NumberReads(lexeme: Text, rest: Text)
    requires IsNumber(lexeme) && EndsNumber(rest)
    ensures lexeme != [] && IsNumberUnit(lexeme[0])
    ensures ParseNumber(lexeme + rest) == Some(Read(Num(lexeme), rest))
  {
    hide IsNumber, IsNumberUnit;
    WholeNumberUnits(lexeme);
    NumberLengthStops(lexeme, rest);
    assert (lexeme + rest)[..|lexeme|] == lexeme && (lexeme + rest)[|lexeme|..] == rest;
  }

  lemma {:induction false} PrintNatIsDigits(n: nat)
    ensures LeadingDigits(PrintNat(n)) == |PrintNat(n)|
    ensures PrintNat(n)[0] == 48 ==> n == 0
  {
    if n < 10 {
    } else {
      PrintNatIsDigits(n / 10);
      AllDigits(PrintNat(n / 10), 48 + n % 10);
    }
  }

  lemma {:induction false} AllDigits(s: Text, last: Unit)
    requires LeadingDigits(s) == |s| && IsDigit(last)
    ensures LeadingDigits(s + [last]) == |s| + 1
  {
    if s == [] {
      assert s + [last] == [last];
      assert [last][1..] == [];
    } else {
      AllDigits(s[1..], last);
      assert (s + [last])[1..] == s[1..] + [last];
    }
  }

  lemma PrintIntIsNumber(n: int)
    ensures IsNumber(PrintInt(n))
  {
    var digits := PrintNat(if n < 0 then -n else n);
    PrintNatIsDigits(if n < 0 then -n else n);
    LeadingDigitsAreDigits(digits);
    assert digits[|digits|..] == [];
    if n < 0 { assert PrintInt(n)[1..] == digits; }
    assert digits[0] != 45;
  }

  // ---------------------------------------------------------------- values

  lemma NoSpace(s: Text)
    requires s != [] && !IsSpace(s[0])
    ensures Skip(s) == s
  {
  }

  /** How a printed value starts: never with white space, a comma, or a closing bracket. */
  lemma PrintedStart(x: Json, rest: Text)
    requires Printable(x)
    ensures Print(x) != [] && (Print(x) + rest)[0] == Print(x)[0]
    ensures !IsSpace(Print(x)[0]) && Print(x)[0] != CLOSE_BRACKET
    ensures !x.Num? ==> !IsNumberUnit(Print(x)[0])
    ensures x.Num? ==> IsNumberUnit(Print(x)[0])
  {
    hide IsNumber;
    if x.Num? { WholeNumberUnits(x.lexeme); }
  }

  lemma {:induction false} ValueReads(x: Json, rest: Text)
    requires Printable(x) && (x.Num? ==> EndsNumber(rest))
    ensures ParseValue(Print(x) + rest) == Some(Read(x, rest))
    decreases x, 0
  {
    hide ParseArray, ParseObject, ParseString, ParseNumber, Escape, IsNumber, PrintString, PrintItems, PrintFields;
    PrintedStart(x, rest);
    match x
    case Num(lexeme) => NumberReads(lexeme, rest);
    case Str(text) => PrintedStringReads(text, rest);
    case Arr(items) => ArrayReads(items, rest);
    case Obj(fields) => ObjectReads(fields, rest);
    case Null => LiteralReads(Print(x), x, rest);
    case Bool(b) => LiteralReads(Print(x), x, rest);
  }

  lemma LiteralReads(literal: Text, x: Json, rest: Text)
    requires literal != []
    ensures ParseLiteral(literal + rest, literal, x) == Some(Read(x, rest))
  {
    assert (literal + rest)[|literal|..] == rest;
  }

  lemma {:induction false} ArrayReads(items: Items, rest: Text)
    requires PrintableItems(items)
    ensures var s := Print(Arr(items)) + rest;
      s != [] && s[0] == OPEN_BRACKET && ParseArray(s[1..]) == Some(Read(Arr(items), rest))
    decreases items, 2
  {
    hide Printable, ParseItems, PrintItems;
    var s := Print(Arr(items)) + rest;
    if items.NoItems? {
      assert s[1..] == [CLOSE_BRACKET] + rest;
      NoSpace(s[1..]);
      assert s[1..][1..] == rest;
    } else {
      assert s[1..] == PrintItems(items) + rest;
      ItemsRead(items, rest);
    }
  }

  /** The text after an item: either it closes the array or a comma and the other items come. */
  function AfterItem(tail: Items): Text {
    if tail.NoItems? then [CLOSE_BRACKET] else [COMMA] + PrintItems(tail)
  }

  lemma {:induction false} ItemsRead(items: Items, rest: Text)
    requires items.Item? && PrintableItems(items)
    ensures ParseItems(PrintItems(items) + rest) == Some(Read(items, rest))
    ensures var t := Skip(PrintItems(items) + rest); t != [] && t[0] != CLOSE_BRACKET
    decreases items, 1
  {
    hide Printable, Print, ParseValue, ParseItemsAfter;
    var after := AfterItem(items.tail) + rest;
    var s := PrintItems(items) + rest;
    assert s == Print(items.head) + after;
    PrintedStart(items.head, after);
    NoSpace(s);
    assert EndsNumber(after) && after != [] && !IsSpace(after[0]);
    ValueReads(items.head, after);
    NoSpace(after);
    ItemsAfterRead(items.head, items.tail, rest);
  }

  lemma {:induction false} ItemsAfterRead(head: Json, tail: Items, rest: Text)
    requires PrintableItems(tail)
    ensures ParseItemsAfter(head, AfterItem(tail) + rest) == Some(Read(Item(head, tail), rest))
    decreases tail, 2
  {
    hide Printable, ParseItems, PrintItems;
    var s := AfterItem(tail) + rest;
    if tail.NoItems? {
      assert s[1..] == rest;
    } else {
      ItemsRead(tail, rest);
      assert s[1..] == PrintItems(tail) + rest;
    }
  }

  lemma {:induction false} ObjectReads(fields: Fields, rest: Text)
    requires PrintableFields(fields)
    ensures var s := Print(Obj(fields)) + rest;
      s != [] && s[0] == OPEN_BRACE && ParseObject(s[1..]) == Some(Read(Obj(fields), rest))
    decreases fields, 2
  {
    hide Printable, ParseFields, PrintFields;
    var s := Print(Obj(fields)) + rest;
    if fields.NoFields? {
      assert s[1..] == [CLOSE_BRACE] + rest;
      NoSpace(s[1..]);
      assert s[1..][1..] == rest;
    } else {
      assert s[1..] == PrintFields(fields) + rest;
      FieldsRead(fields, rest);
    }
  }

  function AfterField(more: Fields): Text {
    if more.NoFields? then [CLOSE_BRACE] else [COMMA] + PrintFields(more)
  }

  lemma KeyReads(key: Text, rest: Text)
    ensures ParseKey(PrintString(key) + ([COLON] + rest)) == Some(Read(key, rest))
  {
    hide ParseString, PrintString;
    PrintedStringReads(key, [COLON] + rest);
    NoSpace([COLON] + rest);
    assert ([COLON] + rest)[1..] == rest;
  }

  lemma {:induction false} FieldsRead(fields: Fields, rest: Text)
    requires fields.Field? && PrintableFields(fields)
    ensures ParseFields(PrintFields(fields) + rest) == Some(Read(fields, rest))
    ensures var t := Skip(PrintFields(fields) + rest); t != [] && t[0] == QUOTE
    decreases fields, 1
  {
    hide Printable, Print, PrintString, PrintFields, Skip, IsSpace, ParseValue, ParseKey, ParseFieldsAfter, AfterField;
    var after := AfterField(fields.rest) + rest;
    var value := Print(fields.value) + after;
    FieldPieces(fields, rest);
    KeyReads(fields.key, value);
    PrintedStart(fields.value, after);
    NoSpace(value);
    AfterFieldStart(fields.rest, rest);
    ValueReads(fields.value, after);
    NoSpace(after);
    FieldsAfterRead(fields.key, fields.value, fields.rest, rest);
  }

  lemma AfterFieldStart(more: Fields, rest: Text)
    ensures var after := AfterField(more) + rest; EndsNumber(after) && after != [] && !IsSpace(after[0])
  {
  }

  lemma Regroup(a: Text, b: Text, c: Text, d: Text, e: Text)
    ensures (a + (b + (c + d))) + e == a + (b + (c + (d + e)))
  {
  }

  lemma FieldPieces(fields: Fields, rest: Text)
    requires fields.Field?
    ensures var s := PrintFields(fields) + rest;
      && s == PrintString(fields.key) + ([COLON] + (Print(fields.value) + (AfterField(fields.rest) + rest)))
      && Skip(s) == s && s != [] && s[0] == QUOTE
  {
    hide Print, Escape, Skip, AfterField, PrintString;
    var s := PrintFields(fields) + rest;
    FieldText(fields);
    Regroup(PrintString(fields.key), [COLON], Print(fields.value), AfterField(fields.rest), rest);
    PrintedStringReads(fields.key, []);
    NoSpace(s);
  }

  lemma FieldText(fields: Fields)
    requires fields.Field?
    ensures PrintFields(fields) == PrintString(fields.key) + ([COLON] + (Print(fields.value) + AfterField(fields.rest)))
  {
    hide Print, PrintString;
  }

  lemma {:induction false} FieldsAfterRead(key: Text, value: Json, more: Fields, rest: Text)
    requires PrintableFields(more)
    ensures ParseFieldsAfter(key, value, AfterField(more) + rest) == Some(Read(Field(key, value, more), rest))
    decreases more, 2
  {
    hide Printable, ParseFields, PrintFields;
    var s := AfterField(more) + rest;
    if more.NoFields? {
      assert s[1..] == rest;
    } else {
      FieldsRead(more, rest);
      assert s[1..] == PrintFields(more) + rest;
    }
  }

  /** `JSON.parse(JSON.stringify(x))` is `x`. */
  lemma DocumentRoundTrip(x: Json)
    requires Printable(x)
    ensures ParseDocument(Print(x)) == Some(x)
  {
    hide ParseValue, Print, Printable;
    PrintedStart(x, []);
    NoSpace(Print(x));
    assert Print(x) + [] == Print(x);
    ValueReads(x, []);
  }
}
