/** JSON text as `JSON.stringify` prints it and `JSON.parse` reads it (RFC 8259), over UTF-16 code units. */
module Json {
  import opened Basics

  /** A UTF-16 code unit, as in a JavaScript string. */
  type Unit = u: int | 0 <= u < 0x1_0000 witness 0
  type Text = seq<Unit>

  const NEWLINE: Unit := 10
  const QUOTE: Unit := 34
  const COMMA: Unit := 44
  const COLON: Unit := 58
  const OPEN_BRACKET: Unit := 91
  const BACKSLASH: Unit := 92
  const CLOSE_BRACKET: Unit := 93
  const OPEN_BRACE: Unit := 123
  const CLOSE_BRACE: Unit := 125

  datatype Json = Null | Bool(value: bool) | Num(lexeme: Text) | Str(text: Text) | Arr(items: Items) | Obj(fields: Fields)
  datatype Items = NoItems | Item(head: Json, tail: Items)
  datatype Fields = NoFields | Field(key: Text, value: Json, rest: Fields)

  // ---------------------------------------------------------------- numbers

  predicate IsDigit(u: Unit) { 48 <= u <= 57 }

  /** The characters a JSON number is made of: digits, `+`, `-`, `.`, `E`, `e`. */
  predicate IsNumberUnit(u: Unit) { IsDigit(u) || u == 43 || u == 45 || u == 46 || u == 69 || u == 101 }

  /** How many digits a text starts with. */
  function LeadingDigits(s: Text): (n: nat)
    ensures n <= |s|
  {
    if s == [] || !IsDigit(s[0]) then 0 else 1 + LeadingDigits(s[1..])
  }

  /** The number grammar of section 6 of RFC 8259. */
  predicate IsNumber(s: Text) {
    var unsigned := if s != [] && s[0] == 45 then s[1..] else s;
    var n := LeadingDigits(unsigned);
    && n >= 1
    && (unsigned[0] == 48 ==> n == 1)
    && IsFraction(unsigned[n..])
  }

  predicate IsFraction(s: Text) {
    if s != [] && s[0] == 46 then
      var n := LeadingDigits(s[1..]);
      n >= 1 && IsExponent(s[1 + n..])
    else IsExponent(s)
  }

  predicate IsExponent(s: Text) {
    || s == []
    || ((s[0] == 69 || s[0] == 101)
        && var digits := if |s| > 1 && (s[1] == 43 || s[1] == 45) then s[2..] else s[1..];
           digits != [] && LeadingDigits(digits) == |digits|)
  }

  /** An integer as `String(n)` prints it below 1e21. */
  function PrintInt(n: int): Text { if n < 0 then [45] + PrintNat(-n) else PrintNat(n) }

  function PrintNat(n: nat): (s: Text)
    ensures s != []
  {
    if n < 10 then [48 + n] else PrintNat(n / 10) + [48 + n % 10]
  }

  // ---------------------------------------------------------------- printing

  predicate IsHigh(u: Unit) { 0xD800 <= u <= 0xDBFF }
  predicate IsLow(u: Unit) { 0xDC00 <= u <= 0xDFFF }

  function HexDigit(n: int): Unit
    requires 0 <= n < 16
  {
    if n < 10 then 48 + n else 87 + n
  }

  /** `\uXXXX` in lower case. */
  function UnicodeEscape(u: Unit): Text {
    var q := u / 16;
    var r := q / 16;
    [BACKSLASH, 117, HexDigit(r / 16), HexDigit(r % 16), HexDigit(q % 16), HexDigit(u % 16)]
  }

  /** One unit inside a string literal; a surrogate that gets here is not part of a pair. */
  function EscapeUnit(u: Unit): Text {
    if u == QUOTE || u == BACKSLASH then [BACKSLASH, u]
    else if u == 8 then [BACKSLASH, 98]
    else if u == 9 then [BACKSLASH, 116]
    else if u == 10 then [BACKSLASH, 110]
    else if u == 12 then [BACKSLASH, 102]
    else if u == 13 then [BACKSLASH, 114]
    else if u < 32 || IsHigh(u) || IsLow(u) then UnicodeEscape(u)
    else [u]
  }

  /** The inside of a string literal: pairs of surrogates stay as they are. */
  function Escape(s: Text): Text {
    if s == [] then []
    else if |s| > 1 && IsHigh(s[0]) && IsLow(s[1]) then [s[0]] + ([s[1]] + Escape(s[2..]))
    else EscapeUnit(s[0]) + Escape(s[1..])
  }

  function PrintString(s: Text): Text { [QUOTE] + (Escape(s) + [QUOTE]) }

  /** Compact output, as `JSON.stringify` without an indent. */
  function Print(x: Json): Text {
    match x
    case Null => [110, 117, 108, 108]
    case Bool(b) => if b then [116, 114, 117, 101] else [102, 97, 108, 115, 101]
    case Num(lexeme) => lexeme
    case Str(text) => PrintString(text)
    case Arr(items) => [OPEN_BRACKET] + if items.NoItems? then [CLOSE_BRACKET] else PrintItems(items)
    case Obj(fields) => [OPEN_BRACE] + if fields.NoFields? then [CLOSE_BRACE] else PrintFields(fields)
  }

  /** One or more items and the closing bracket. */
  function PrintItems(items: Items): Text
    requires items.Item?
  {
    Print(items.head) + if items.tail.NoItems? then [CLOSE_BRACKET] else [COMMA] + PrintItems(items.tail)
  }

  /** One or more fields and the closing brace. */
  function PrintFields(fields: Fields): Text
    requires fields.Field?
  {
    PrintString(fields.key)
      + ([COLON] + (Print(fields.value) + if fields.rest.NoFields? then [CLOSE_BRACE] else [COMMA] + PrintFields(fields.rest)))
  }

  /** Every number in the value is written as a JSON number. */
  predicate Printable(x: Json) {
    match x
    case Num(lexeme) => IsNumber(lexeme)
    case Arr(items) => PrintableItems(items)
    case Obj(fields) => PrintableFields(fields)
    case _ => true
  }

  predicate PrintableItems(items: Items) { items.Item? ==> Printable(items.head) && PrintableItems(items.tail) }

  predicate PrintableFields(fields: Fields) { fields.Field? ==> Printable(fields.value) && PrintableFields(fields.rest) }

  // ---------------------------------------------------------------- parsing

  /** What a parser read, and the text after it. */
  datatype Read<+T> = Read(value: T, rest: Text)

  predicate IsSpace(u: Unit) { u == 32 || u == 9 || u == 10 || u == 13 }

  function Skip(s: Text): (t: Text)
    ensures |t| <= |s|
    ensures t != [] ==> !IsSpace(t[0])
  {
    if s != [] && IsSpace(s[0]) then Skip(s[1..]) else s
  }

  function HexValue(u: Unit): (r: Option<int>)
    ensures r.Some? ==> 0 <= r.value < 16
  {
    if IsDigit(u) then Some(u - 48)
    else if 97 <= u <= 102 then Some(u - 87)
    else if 65 <= u <= 70 then Some(u - 55)
    else None
  }

  function FromHex(a: Unit, b: Unit, c: Unit, d: Unit): Option<Unit> {
    var w, x, y, z := HexValue(a), HexValue(b), HexValue(c), HexValue(d);
    if w.Some? && x.Some? && y.Some? && z.Some?
    then Some(((w.value * 16 + x.value) * 16 + y.value) * 16 + z.value)
    else None
  }

  /** The single-character escapes of section 7 of RFC 8259. */
  function SimpleEscape(u: Unit): Option<Unit> {
    if u == QUOTE || u == BACKSLASH || u == 47 then Some(u)
    else if u == 98 then Some(8)
    else if u == 116 then Some(9)
    else if u == 110 then Some(10)
    else if u == 102 then Some(12)
    else if u == 114 then Some(13)
    else None
  }

  /** One unit of a string literal, escaped or raw; fails on a bare quote and on a raw control character. */
  function ParseUnit(s: Text): (r: Option<Read<Unit>>)
    ensures r.Some? ==> |r.value.rest| < |s|
  {
    if s == [] || s[0] == QUOTE || s[0] < 32 then None
    else if s[0] != BACKSLASH then Some(Read(s[0], s[1..]))
    else if |s| < 2 then None
    else if s[1] == 117 then
      if |s| < 6 then None
      else match FromHex(s[2], s[3], s[4], s[5])
        case None => None
        case Some(u) => Some(Read(u, s[6..]))
    else match SimpleEscape(s[1])
      case None => None
      case Some(u) => Some(Read(u, s[2..]))
  }

  /** The rest of a string literal whose opening quote has been read. */
  function ParseString(s: Text): (r: Option<Read<Text>>)
    ensures r.Some? ==> |r.value.rest| < |s|
    decreases |s|
  {
    if s != [] && s[0] == QUOTE then Some(Read([], s[1..]))
    else match ParseUnit(s)
      case None => None
      case Some(unit) =>
        match ParseString(unit.rest)
        case None => None
        case Some(more) => Some(Read([unit.value] + more.value, more.rest))
  }

  /** How many number characters a text starts with. */
  function NumberLength(s: Text): (n: nat)
    ensures n <= |s|
  {
    if s == [] || !IsNumberUnit(s[0]) then 0 else 1 + NumberLength(s[1..])
  }

  function ParseNumber(s: Text): (r: Option<Read<Json>>)
    ensures r.Some? ==> |r.value.rest| < |s| && r.value.value.Num?
  {
    var n := NumberLength(s);
    if n > 0 && IsNumber(s[..n]) then Some(Read(Num(s[..n]), s[n..])) else None
  }

  function ParseLiteral(s: Text, literal: Text, x: Json): (r: Option<Read<Json>>)
    requires literal != []
    ensures r.Some? ==> |r.value.rest| < |s| && r.value.value == x
  {
    if literal <= s then Some(Read(x, s[|literal|..])) else None
  }

  /** A value at the very start of a text. */
  function ParseValue(s: Text): (r: Option<Read<Json>>)
    ensures r.Some? ==> |r.value.rest| < |s|
    decreases |s|, 0
  {
    if s == [] then None
    else if s[0] == OPEN_BRACE then ParseObject(s[1..])
    else if s[0] == OPEN_BRACKET then ParseArray(s[1..])
    else if s[0] == QUOTE then
      match ParseString(s[1..])
      case None => None
      case Some(t) => Some(Read(Str(t.value), t.rest))
    else if s[0] == 110 then ParseLiteral(s, Print(Null), Null)
    else if s[0] == 116 then ParseLiteral(s, Print(Bool(true)), Bool(true))
    else if s[0] == 102 then ParseLiteral(s, Print(Bool(false)), Bool(false))
    else ParseNumber(s)
  }

  function ParseArray(s: Text): (r: Option<Read<Json>>)
    ensures r.Some? ==> |r.value.rest| < |s| && r.value.value.Arr?
    decreases |s|, 2
  {
    var t := Skip(s);
    if t != [] && t[0] == CLOSE_BRACKET then Some(Read(Arr(NoItems), t[1..]))
    else match ParseItems(s)
      case None => None
      case Some(items) => Some(Read(Arr(items.value), items.rest))
  }

  /** Items up to the closing bracket, the first one still to come. */
  function ParseItems(s: Text): (r: Option<Read<Items>>)
    ensures r.Some? ==> |r.value.rest| < |s|
    decreases |s|, 1
  {
    match ParseValue(Skip(s))
    case None => None
    case Some(head) => ParseItemsAfter(head.value, Skip(head.rest))
  }

  function ParseItemsAfter(head: Json, s: Text): (r: Option<Read<Items>>)
    ensures r.Some? ==> |r.value.rest| < |s|
    decreases |s|, 0
  {
    if s == [] then None
    else if s[0] == CLOSE_BRACKET then Some(Read(Item(head, NoItems), s[1..]))
    else if s[0] != COMMA then None
    else match ParseItems(s[1..])
      case None => None
      case Some(tail) => Some(Read(Item(head, tail.value), tail.rest))
  }

  function ParseObject(s: Text): (r: Option<Read<Json>>)
    ensures r.Some? ==> |r.value.rest| < |s| && r.value.value.Obj?
    decreases |s|, 2
  {
    var t := Skip(s);
    if t != [] && t[0] == CLOSE_BRACE then Some(Read(Obj(NoFields), t[1..]))
    else match ParseFields(s)
      case None => None
      case Some(fields) => Some(Read(Obj(fields.value), fields.rest))
  }

  /** A key and its colon. */
  function ParseKey(s: Text): (r: Option<Read<Text>>)
    ensures r.Some? ==> |r.value.rest| < |s|
  {
    if s == [] || s[0] != QUOTE then None
    else match ParseString(s[1..])
      case None => None
      case Some(key) =>
        var t := Skip(key.rest);
        if t != [] && t[0] == COLON then Some(Read(key.value, t[1..])) else None
  }

  /** Fields up to the closing brace, the first one still to come. */
  function ParseFields(s: Text): (r: Option<Read<Fields>>)
    ensures r.Some? ==> |r.value.rest| < |s|
    decreases |s|, 1
  {
    match ParseKey(Skip(s))
    case None => None
    case Some(key) =>
      match ParseValue(Skip(key.rest))
      case None => None
      case Some(value) => ParseFieldsAfter(key.value, value.value, Skip(value.rest))
  }

  function ParseFieldsAfter(key: Text, value: Json, s: Text): (r: Option<Read<Fields>>)
    ensures r.Some? ==> |r.value.rest| < |s|
    decreases |s|, 0
  {
    if s == [] then None
    else if s[0] == CLOSE_BRACE then Some(Read(Field(key, value, NoFields), s[1..]))
    else if s[0] != COMMA then None
    else match ParseFields(s[1..])
      case None => None
      case Some(rest) => Some(Read(Field(key, value, rest.value), rest.rest))
  }

  /** `JSON.parse`: one value with nothing but white space around it; `None` is a SyntaxError. */
  function ParseDocument(s: Text): Option<Json> {
    match ParseValue(Skip(s))
    case None => None
    case Some(read) => if Skip(read.rest) == [] then Some(read.value) else None
  }
}
