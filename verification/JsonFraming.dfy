/** What makes printed JSON safe to frame by lines: no newline inside, and no proper prefix of an object parses. */
module JsonFraming {
  import opened Basics
  import opened Json
  import opened JsonRoundTrip

  // ---------------------------------------------------------------- no newline

  lemma EscapedUnitHasNoNewline(u: Unit)
    ensures NEWLINE !in EscapeUnit(u)
  {
  }

  lemma {:induction false} EscapeHasNoNewline(s: Text)
    ensures NEWLINE !in Escape(s)
    decreases |s|
  {
    hide EscapeUnit;
    if s == [] {
    } else if |s| > 1 && IsHigh(s[0]) && IsLow(s[1]) {
      EscapeHasNoNewline(s[2..]);
    } else {
      EscapedUnitHasNoNewline(s[0]);
      EscapeHasNoNewline(s[1..]);
    }
  }

  lemma StringHasNoNewline(s: Text)
    ensures NEWLINE !in PrintString(s)
  {
    hide Escape;
    EscapeHasNoNewline(s);
  }

  /** Printed JSON never contains a newline, whatever its strings contain. */
  lemma {:induction false} PrintHasNoNewline(x: Json)
    requires Printable(x)
    ensures NEWLINE !in Print(x)
    decreases x
  {
    hide IsNumber, PrintString, PrintItems, PrintFields;
    match x
    case Num(lexeme) => WholeNumberUnits(lexeme);
    case Str(text) => StringHasNoNewline(text);
    case Arr(items) => if items.Item? { ItemsHaveNoNewline(items); }
    case Obj(fields) => if fields.Field? { FieldsHaveNoNewline(fields); }
    case _ =>
  }

  lemma {:induction false} ItemsHaveNoNewline(items: Items)
    requires items.Item? && PrintableItems(items)
    ensures NEWLINE !in PrintItems(items)
    decreases items
  {
    hide Print, Printable;
    PrintHasNoNewline(items.head);
    if items.tail.NoItems? {
    } else {
      ItemsHaveNoNewline(items.tail);
    }
  }

  lemma {:induction false} FieldsHaveNoNewline(fields: Fields)
    requires fields.Field? && PrintableFields(fields)
    ensures NEWLINE !in PrintFields(fields)
    decreases fields
  {
    hide Print, Printable, PrintString;
    StringHasNoNewline(fields.key);
    PrintHasNoNewline(fields.value);
    if fields.rest.NoFields? {
    } else {
      FieldsHaveNoNewline(fields.rest);
    }
  }

  // ---------------------------------------------------------------- parsing under extension

  lemma SkipExtends(s: Text, more: Text)
    requires Skip(s) != []
    ensures Skip(s + more) == Skip(s) + more
  {
    if !IsSpace(s[0]) {
    } else {
      assert (s + more)[1..] == s[1..] + more;
      SkipExtends(s[1..], more);
    }
  }

  lemma UnitExtends(s: Text, more: Text)
    requires ParseUnit(s).Some?
    ensures ParseUnit(s + more) == Some(Read(ParseUnit(s).value.value, ParseUnit(s).value.rest + more))
  {
    if s[0] != BACKSLASH { assert (s + more)[1..] == s[1..] + more; }
    else if s[1] == 117 { assert (s + more)[6..] == s[6..] + more; }
    else { assert (s + more)[2..] == s[2..] + more; }
  }

  lemma {:induction false} StringExtends(s: Text, more: Text)
    requires ParseString(s).Some?
    ensures ParseString(s + more) == Some(Read(ParseString(s).value.value, ParseString(s).value.rest + more))
    decreases |s|
  {
    hide ParseUnit;
    if s != [] && s[0] == QUOTE {
      assert (s + more)[1..] == s[1..] + more;
    } else {
      UnitExtends(s, more);
      NotQuote(s);
      StringExtends(ParseUnit(s).value.rest, more);
    }
  }

  lemma NotQuote(s: Text)
    requires ParseUnit(s).Some?
    ensures s != [] && s[0] != QUOTE
  {
  }

  lemma {:induction false} NumberLengthExtends(s: Text, more: Text)
    requires NumberLength(s) < |s|
    ensures NumberLength(s + more) == NumberLength(s)
  {
    if !IsNumberUnit(s[0]) {
    } else {
      assert (s + more)[1..] == s[1..] + more;
      NumberLengthExtends(s[1..], more);
    }
  }

  lemma NumberExtends(s: Text, more: Text)
    requires ParseNumber(s).Some? && ParseNumber(s).value.rest != []
    ensures ParseNumber(s + more) == Some(Read(ParseNumber(s).value.value, ParseNumber(s).value.rest + more))
  {
    hide IsNumber;
    var n := NumberLength(s);
    NumberLengthExtends(s, more);
    assert (s + more)[..n] == s[..n] && (s + more)[n..] == s[n..] + more;
  }

  lemma LiteralExtends(s: Text, literal: Text, x: Json, more: Text)
    requires literal != [] && ParseLiteral(s, literal, x).Some?
    ensures ParseLiteral(s + more, literal, x) == Some(Read(x, ParseLiteral(s, literal, x).value.rest + more))
  {
    assert (s + more)[|literal|..] == s[|literal|..] + more;
  }

  /** A number may go on when text is appended right behind it; everything else is read as before. */
  predicate Closed(read: Read<Json>) { read.value.Num? ==> read.rest != [] }

  lemma {:induction false} ValueExtends(s: Text, more: Text)
    requires ParseValue(s).Some? && Closed(ParseValue(s).value)
    ensures ParseValue(s + more) == Some(Read(ParseValue(s).value.value, ParseValue(s).value.rest + more))
    decreases |s|, 0
  {
    hide ParseArray, ParseObject, ParseString, ParseNumber, ParseLiteral;
    assert (s + more)[0] == s[0] && (s + more)[1..] == s[1..] + more;
    if s[0] == OPEN_BRACE { ObjectExtends(s[1..], more); }
    else if s[0] == OPEN_BRACKET { ArrayExtends(s[1..], more); }
    else if s[0] == QUOTE { StringExtends(s[1..], more); }
    else if s[0] == 110 { LiteralExtends(s, Print(Null), Null, more); }
    else if s[0] == 116 { LiteralExtends(s, Print(Bool(true)), Bool(true), more); }
    else if s[0] == 102 { LiteralExtends(s, Print(Bool(false)), Bool(false), more); }
    else { NumberExtends(s, more); }
  }

  lemma {:induction false} ArrayExtends(s: Text, more: Text)
    requires ParseArray(s).Some?
    ensures ParseArray(s + more) == Some(Read(ParseArray(s).value.value, ParseArray(s).value.rest + more))
    decreases |s|, 2
  {
    hide ParseItems, Skip;
    if Skip(s) == [] {
      NothingToParse(s);
    } else {
      SkipExtends(s, more);
      if Skip(s)[0] == CLOSE_BRACKET { assert (Skip(s) + more)[1..] == Skip(s)[1..] + more; }
      else { ItemsExtend(s, more); }
    }
  }

  lemma NothingToParse(s: Text)
    requires Skip(s) == []
    ensures ParseItems(s).None? && ParseFields(s).None?
  {
  }

  lemma {:induction false} ItemsExtend(s: Text, more: Text)
    requires ParseItems(s).Some?
    ensures ParseItems(s + more) == Some(Read(ParseItems(s).value.value, ParseItems(s).value.rest + more))
    decreases |s|, 1
  {
    hide ParseValue, ParseItemsAfter, Skip;
    if Skip(s) == [] { NothingToParse(s); }
    var head := ParseValue(Skip(s)).value;
    AfterNothing(head.value, Skip(head.rest));
    RestIsNotEmpty(head.rest);
    SkipExtends(s, more);
    ValueExtends(Skip(s), more);
    SkipExtends(head.rest, more);
    ItemsAfterExtend(head.value, Skip(head.rest), more);
  }

  lemma AfterNothing(head: Json, s: Text)
    ensures ParseItemsAfter(head, s).Some? ==> s != []
  {
  }

  lemma RestIsNotEmpty(s: Text)
    ensures Skip(s) != [] ==> s != []
  {
  }

  lemma {:induction false} ItemsAfterExtend(head: Json, s: Text, more: Text)
    requires ParseItemsAfter(head, s).Some?
    ensures ParseItemsAfter(head, s + more)
         == Some(Read(ParseItemsAfter(head, s).value.value, ParseItemsAfter(head, s).value.rest + more))
    decreases |s|, 0
  {
    hide ParseItems;
    assert (s + more)[0] == s[0] && (s + more)[1..] == s[1..] + more;
    if s[0] == COMMA { ItemsExtend(s[1..], more); }
  }

  lemma {:induction false} ObjectExtends(s: Text, more: Text)
    requires ParseObject(s).Some?
    ensures ParseObject(s + more) == Some(Read(ParseObject(s).value.value, ParseObject(s).value.rest + more))
    decreases |s|, 2
  {
    hide ParseFields, Skip;
    if Skip(s) == [] {
      NothingToParse(s);
    } else {
      SkipExtends(s, more);
      if Skip(s)[0] == CLOSE_BRACE { assert (Skip(s) + more)[1..] == Skip(s)[1..] + more; }
      else { FieldsExtend(s, more); }
    }
  }

  lemma KeyExtends(s: Text, more: Text)
    requires ParseKey(s).Some?
    ensures ParseKey(s + more) == Some(Read(ParseKey(s).value.value, ParseKey(s).value.rest + more))
  {
    hide ParseString, Skip;
    assert (s + more)[1..] == s[1..] + more;
    StringExtends(s[1..], more);
    var rest := ParseString(s[1..]).value.rest;
    SkipExtends(rest, more);
    assert (Skip(rest) + more)[1..] == Skip(rest)[1..] + more;
  }

  lemma {:induction false} FieldsExtend(s: Text, more: Text)
    requires ParseFields(s).Some?
    ensures ParseFields(s + more) == Some(Read(ParseFields(s).value.value, ParseFields(s).value.rest + more))
    decreases |s|, 1
  {
    hide ParseValue, ParseFieldsAfter, ParseKey, Skip;
    if Skip(s) == [] { NothingToParse(s); }
    var key := ParseKey(Skip(s)).value;
    SkipExtends(s, more);
    KeyExtends(Skip(s), more);
    ValueOfEmpty(Skip(key.rest));
    SkipExtends(key.rest, more);
    FieldValueExtends(key.value, Skip(key.rest), more);
  }

  lemma ValueOfEmpty(s: Text)
    ensures ParseValue(s).Some? ==> s != []
  {
  }

  function ParseFieldValue(key: Text, s: Text): Option<Read<Fields>> {
    match ParseValue(s)
    case None => None
    case Some(value) => ParseFieldsAfter(key, value.value, Skip(value.rest))
  }

  lemma {:induction false} FieldValueExtends(key: Text, s: Text, more: Text)
    requires ParseFieldValue(key, s).Some?
    ensures ParseFieldValue(key, s + more)
         == Some(Read(ParseFieldValue(key, s).value.value, ParseFieldValue(key, s).value.rest + more))
    decreases |s|, 1
  {
    hide ParseValue, ParseFieldsAfter, Skip;
    var value := ParseValue(s).value;
    AfterNoField(key, value.value, Skip(value.rest));
    RestIsNotEmpty(value.rest);
    ValueExtends(s, more);
    SkipExtends(value.rest, more);
    FieldsAfterExtend(key, value.value, Skip(value.rest), more);
  }

  lemma AfterNoField(key: Text, value: Json, s: Text)
    ensures ParseFieldsAfter(key, value, s).Some? ==> s != []
  {
  }

  lemma {:induction false} FieldsAfterExtend(key: Text, value: Json, s: Text, more: Text)
    requires ParseFieldsAfter(key, value, s).Some?
    ensures ParseFieldsAfter(key, value, s + more)
         == Some(Read(ParseFieldsAfter(key, value, s).value.value, ParseFieldsAfter(key, value, s).value.rest + more))
    decreases |s|, 0
  {
    hide ParseFields;
    assert (s + more)[0] == s[0] && (s + more)[1..] == s[1..] + more;
    if s[0] == COMMA { FieldsExtend(s[1..], more); }
  }

  /** No proper prefix of a printed object is a JSON document. */
  lemma PrefixOfObjectDoesNotParse(fields: Fields, k: nat)
    requires PrintableFields(fields) && k < |Print(Obj(fields))|
    ensures ParseDocument(Print(Obj(fields))[..k]).None?
  {
    hide ParseValue, Print, Printable, PrintableFields, Skip;
    var text := Print(Obj(fields));
    var cut, more := text[..k], text[k..];
    ObjectStart(fields);
    if k > 0 && ParseDocument(cut).Some? {
      NoSpace(cut);
      var read := ParseValue(cut).value;
      BraceMeansObject(cut);
      ValueExtends(cut, more);
      assert cut + more == text && text + [] == text;
      PrintableObject(fields);
      ValueReads(Obj(fields), []);
      assert false;
    } else if k == 0 {
      NothingParses();
    }
  }

  lemma NothingParses()
    ensures ParseDocument([]).None?
  {
  }

  lemma PrintableObject(fields: Fields)
    requires PrintableFields(fields)
    ensures Printable(Obj(fields))
  {
  }

  lemma ObjectStart(fields: Fields)
    ensures Print(Obj(fields)) != [] && Print(Obj(fields))[0] == OPEN_BRACE && !IsSpace(OPEN_BRACE)
  {
  }

  lemma BraceMeansObject(s: Text)
    requires s != [] && s[0] == OPEN_BRACE && ParseValue(s).Some?
    ensures ParseValue(s).value.value.Obj?
  {
  }
}
