/** The opaque continuation token of `session/list`: a JSON pair in base64url. */
module SessionCursor {
  import opened Basics
  import opened Json
  import opened JsonRoundTrip
  import opened Encodings
  import opened Journal

  /** The ordering key of a listed session. */
  datatype Key = Key(createdAt: int, sessionId: Text)

  /** What a cursor may carry: a non-negative safe integer and a non-empty id. */
  predicate ValidKey(k: Key) { 0 <= k.createdAt <= 0x1F_FFFF_FFFF_FFFF && k.sessionId != [] }

  function Pair(k: Key): Json { Arr(Item(Num(PrintInt(k.createdAt)), Item(Str(k.sessionId), NoItems))) }

  /** `encodeSessionListCursor`. */
  function EncodeCursor(k: Key): Text { Base64(Utf8(Print(Pair(k)))) }

  /** `toString('utf8')`: `lenient` is what the runtime makes of malformed bytes. */
  function BytesToText(b: Bytes, lenient: Bytes -> Text): Text {
    var text := DecodeUtf8(b);
    if text.Some? then text.value else lenient(b)
  }

  /** The key in a parsed cursor, if it is an array of exactly the two expected fields. */
  function KeyOf(x: Json, reading: Reading): Option<Key> {
    if !x.Arr? || !x.items.Item? || !x.items.tail.Item? || x.items.tail.tail.Item? then None
    else
      var createdAt, sessionId := x.items.head, x.items.tail.head;
      if !createdAt.Num? || !sessionId.Str? then None
      else
        var n := reading(createdAt.lexeme);
        if n.None? || !ValidKey(Key(n.value, sessionId.text)) then None else Some(Key(n.value, sessionId.text))
  }

  /** `decodeSessionListCursor` of a present cursor; `None` is the invalid-cursor error. */
  function DecodeCursor(value: Text, reading: Reading, lenient: Bytes -> Text): Option<Key> {
    if value == [] || !UrlSafe(value) then None
    else match ParseDocument(BytesToText(FromBase64(value), lenient))
      case None => None
      case Some(x) =>
        match KeyOf(x, reading)
        case None => None
        case Some(k) => if EncodeCursor(k) == value then Some(k) else None
  }

  lemma {:induction false} DigitsArePlain(n: nat)
    ensures forall i :: 0 <= i < |PrintNat(n)| ==> PrintNat(n)[i] < 0xD800
  {
    if n < 10 {
    } else {
      DigitsArePlain(n / 10);
    }
  }

  lemma PairText(k: Key)
    ensures Printable(Pair(k)) && WellFormed(Print(Pair(k))) && Print(Pair(k)) != []
  {
    hide PrintString, WellFormed, PrintNat, IsNumber;
    PrintIntIsNumber(k.createdAt);
    DigitsArePlain(if k.createdAt < 0 then -k.createdAt else k.createdAt);
    var digits, id := PrintInt(k.createdAt), PrintString(k.sessionId);
    PlainIsWellFormed([OPEN_BRACKET] + (digits + [COMMA]));
    StringIsWellFormed(k.sessionId);
    PlainIsWellFormed([CLOSE_BRACKET]);
    WellFormedPlus(id, [CLOSE_BRACKET]);
    WellFormedPlus([OPEN_BRACKET] + (digits + [COMMA]), id + [CLOSE_BRACKET]);
    PairPieces(k);
  }

  lemma PairPieces(k: Key)
    ensures Print(Pair(k))
         == ([OPEN_BRACKET] + (PrintInt(k.createdAt) + [COMMA])) + (PrintString(k.sessionId) + [CLOSE_BRACKET])
    ensures IsNumber(PrintInt(k.createdAt)) ==> Printable(Pair(k))
  {
    hide PrintString, PrintInt, IsNumber;
    var last := Item(Str(k.sessionId), NoItems);
    assert PrintableItems(last);
    if IsNumber(PrintInt(k.createdAt)) {
      assert Printable(Num(PrintInt(k.createdAt)));
      assert PrintableItems(Item(Num(PrintInt(k.createdAt)), last));
    }
    assert PrintItems(last) == PrintString(k.sessionId) + [CLOSE_BRACKET];
    assert PrintItems(Item(Num(PrintInt(k.createdAt)), last)) == PrintInt(k.createdAt) + ([COMMA] + PrintItems(last));
  }

  lemma Utf8OfText(s: Text)
    requires WellFormed(s) && s != []
    ensures Utf8(s) != []
  {
    hide Utf8, WellFormed, DecodeUtf8;
    Utf8RoundTrip(s);
    EmptyUtf8();
  }

  /** An encoded cursor decodes to its key. */
  lemma EncodedCursorDecodes(k: Key, reading: Reading, lenient: Bytes -> Text)
    requires ReadsIntegers(reading) && ValidKey(k)
    ensures DecodeCursor(EncodeCursor(k), reading, lenient) == Some(k)
  {
    hide Print, Printable, Utf8, DecodeUtf8, WellFormed, Base64, FromBase64, UrlSafe, ParseDocument, PrintInt;
    PairText(k);
    var text := Print(Pair(k));
    Utf8OfText(text);
    Base64RoundTrip(Utf8(text));
    Utf8RoundTrip(text);
    DocumentRoundTrip(Pair(k));
    assert reading(PrintInt(k.createdAt)) == Some(k.createdAt);
  }

  /** A cursor is accepted as a key exactly when it is the token that the server itself would issue for that key. */
  lemma CursorIsCanonical(value: Text, k: Key, reading: Reading, lenient: Bytes -> Text)
    requires ReadsIntegers(reading)
    ensures DecodeCursor(value, reading, lenient) == Some(k)
       <==> value == EncodeCursor(k) && 0 <= k.createdAt < 0x20_0000_0000_0000 && k.sessionId != []
  {
    hide EncodeCursor, ReadsIntegers, ParseDocument, UrlSafe, FromBase64, BytesToText;
    if ValidKey(k) && value == EncodeCursor(k) { EncodedCursorDecodes(k, reading, lenient); }
  }

  lemma {:induction false} DigitsTell(m: nat, n: nat)
    requires PrintNat(m) == PrintNat(n)
    ensures m == n
  {
    DigitCount(m);
    DigitCount(n);
    if m < 10 || n < 10 {
    } else {
      var a, b := PrintNat(m / 10), PrintNat(n / 10);
      assert (a + [48 + m % 10])[..|a|] == a && (b + [48 + n % 10])[..|b|] == b;
      assert (a + [48 + m % 10])[|a|] == 48 + m % 10 && (b + [48 + n % 10])[|b|] == 48 + n % 10;
      DigitsTell(m / 10, n / 10);
    }
  }

  lemma DigitCount(n: nat)
    ensures |PrintNat(n)| == 1 <==> n < 10
    ensures 48 <= PrintNat(n)[0]
  {
    if n < 10 {
    } else {
      DigitCount(n / 10);
    }
  }

  lemma NumbersTell(m: int, n: int)
    requires PrintInt(m) == PrintInt(n)
    ensures m == n
  {
    hide PrintNat;
    DigitCount(if m < 0 then -m else m);
    DigitCount(if n < 0 then -n else n);
    assert PrintInt(m)[0] == PrintInt(n)[0];
    if m < 0 && n < 0 {
      assert PrintInt(m)[1..] == PrintNat(-m) && PrintInt(n)[1..] == PrintNat(-n);
      DigitsTell(-m, -n);
    } else if m >= 0 && n >= 0 {
      DigitsTell(m, n);
    }
  }

  /** Different keys have different tokens, valid or not. */
  lemma TokensTell(a: Key, b: Key)
    requires EncodeCursor(a) == EncodeCursor(b)
    ensures a == b
  {
    hide Print, Printable, Utf8, DecodeUtf8, WellFormed, Base64, FromBase64, UrlSafe, ParseDocument, PrintInt;
    PairText(a);
    PairText(b);
    Base64RoundTrip(Utf8(Print(Pair(a))));
    Base64RoundTrip(Utf8(Print(Pair(b))));
    Utf8RoundTrip(Print(Pair(a)));
    Utf8RoundTrip(Print(Pair(b)));
    DocumentRoundTrip(Pair(a));
    DocumentRoundTrip(Pair(b));
    NumbersTell(a.createdAt, b.createdAt);
  }

  /** The server accepts the token it issues for a key exactly if the key has an id and a non-negative safe creation time. */
  lemma OwnTokenIsAccepted(k: Key, reading: Reading, lenient: Bytes -> Text)
    requires ReadsIntegers(reading)
    ensures DecodeCursor(EncodeCursor(k), reading, lenient) == if ValidKey(k) then Some(k) else None
  {
    hide EncodeCursor, DecodeCursor, ReadsIntegers;
    if ValidKey(k) {
      EncodedCursorDecodes(k, reading, lenient);
    } else {
      var decoded := DecodeCursor(EncodeCursor(k), reading, lenient);
      if decoded.Some? {
        CursorIsCanonical(EncodeCursor(k), decoded.value, reading, lenient);
        TokensTell(k, decoded.value);
      }
    }
  }
}
