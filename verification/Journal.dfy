/** The workflow resume journal: one JSON line per settled child, read back after any cut of the file. */
module Journal {
  import opened Basics
  import opened Json
  import opened JsonRoundTrip
  import opened JsonFraming

  /** A settled child; `result` is `None` where the caller passed `undefined`. */
  datatype JournalLine = JournalLine(seqNo: int, hash: Text, status: Text, result: Option<Json>)

  const SEQ: Text := [115, 101, 113]
  const HASH: Text := [104, 97, 115, 104]
  const STATUS: Text := [115, 116, 97, 116, 117, 115]
  const RESULT: Text := [114, 101, 115, 117, 108, 116]

  /** How the runtime reads number lexemes: the integer a lexeme denotes, `None` for a fraction. */
  type Reading = Text -> Option<int>

  /** A plain decimal integer that a double holds exactly is read as itself. */
  ghost predicate ReadsIntegers(reading: Reading) {
    forall n: int :: -0x1F_FFFF_FFFF_FFFF <= n <= 0x1F_FFFF_FFFF_FFFF ==> reading(PrintInt(n)) == Some(n)
  }

  // ---------------------------------------------------------------- writing

  /** The fields handed to `JSON.stringify`, which leaves out one whose value is undefined. */
  function LineFields(line: JournalLine): Fields {
    Field(SEQ, Num(PrintInt(line.seqNo)), Field(HASH, Str(line.hash), Field(STATUS, Str(line.status),
      if line.result.Some? then Field(RESULT, line.result.value, NoFields) else NoFields)))
  }

  /** `serializeJournalLine`. */
  function Serialize(line: JournalLine): Text { Print(Obj(LineFields(line))) }

  /** The writer's framing: a newline after every line. */
  function Frame(lines: seq<JournalLine>): Text {
    if lines == [] then [] else Serialize(lines[0]) + ([NEWLINE] + Frame(lines[1..]))
  }

  /** A line the writer can print: a safe integer, and a result made of JSON values. */
  predicate Writable(line: JournalLine) {
    && -0x1F_FFFF_FFFF_FFFF <= line.seqNo <= 0x1F_FFFF_FFFF_FFFF
    && (line.result.Some? ==> Printable(line.result.value))
  }

  /** A line that the reader accepts. */
  predicate Replayable(line: JournalLine) { line.seqNo >= 1 && line.result.Some? }

  // ---------------------------------------------------------------- reading

  /** `text.split('\n')`. */
  function Split(text: Text): (parts: seq<Text>)
    ensures parts != []
  {
    if text == [] then [[]]
    else
      var parts := Split(text[1..]);
      if text[0] == NEWLINE then [[]] + parts else [[text[0]] + parts[0]] + parts[1..]
  }

  /** A property of a parsed object; of repeated keys the last one counts. */
  function Lookup(fields: Fields, key: Text): Option<Json> {
    match fields
    case NoFields => None
    case Field(k, value, rest) =>
      var later := Lookup(rest, key);
      if later.Some? then later else if k == key then Some(value) else None
  }

  /** What the field tests make of a parsed part; reading a property of `null` throws. */
  datatype Checked = Good(line: JournalLine) | Bad | Throws

  function Check(x: Json, reading: Reading): Checked {
    if x.Null? then Throws
    else if !x.Obj? then Bad
    else
      var number, hash, status := Lookup(x.fields, SEQ), Lookup(x.fields, HASH), Lookup(x.fields, STATUS);
      var result := Lookup(x.fields, RESULT);
      if number.None? || !number.value.Num? then Bad
      else
        var n := reading(number.value.lexeme);
        if n.None? || n.value < 1 then Bad
        else if hash.None? || !hash.value.Str? || status.None? || !status.value.Str? || result.None? then Bad
        else Good(JournalLine(n.value, hash.value.text, status.value.text, result))
  }

  datatype Outcome = Parsed(lines: seq<JournalLine>, corrupt: bool) | TypeError

  /** `parseJournal` from some part on, with the lines collected so far. */
  function ParseParts(parts: seq<Text>, lines: seq<JournalLine>, reading: Reading): Outcome {
    if parts == [] then Parsed(lines, false)
    else if |parts| == 1 && parts[0] == [] then Parsed(lines, false)
    else
      var x := ParseDocument(parts[0]);
      if x.None? then (if |parts| == 1 then Parsed(lines, false) else Parsed([], true))
      else match Check(x.value, reading)
        case Throws => TypeError
        case Bad => Parsed([], true)
        case Good(line) => ParseParts(parts[1..], lines + [line], reading)
  }

  function ParseJournal(text: Text, reading: Reading): Outcome { ParseParts(Split(text), [], reading) }

  /** `parseJournal` as the source runs it: an index loop that pushes lines. */
  method ReadJournal(text: Text, reading: Reading) returns (outcome: Outcome)
    ensures outcome == ParseJournal(text, reading)
  {
    hide ParseDocument, Check, Split;
    if |text| == 0 {
      EmptyText();
      return Parsed([], false);
    }
    var parts := Split(text);
    var last := |parts| - 1;
    var lines: seq<JournalLine> := [];
    for i := 0 to |parts|
      invariant ParseParts(parts[i..], lines, reading) == ParseJournal(text, reading)
    {
      var part := parts[i];
      assert parts[i..][1..] == parts[i + 1..];
      if |part| == 0 && i == last { return Parsed(lines, false); }
      var parsed := ParseDocument(part);
      if parsed.None? {
        if i == last { return Parsed(lines, false); }
        return Parsed([], true);
      }
      match Check(parsed.value, reading)
      case Throws => return TypeError;
      case Bad => return Parsed([], true);
      case Good(line) => lines := lines + [line];
    }
    return Parsed(lines, false);
  }

  lemma EmptyText()
    ensures Split([]) == [[]]
  {
  }

  // ---------------------------------------------------------------- one line

  lemma KeysDiffer()
    ensures SEQ != HASH && SEQ != STATUS && SEQ != RESULT && HASH != STATUS && HASH != RESULT && STATUS != RESULT
  {
    assert |SEQ| == 3 && |HASH| == 4 && |STATUS| == 6 && |RESULT| == 6;
    assert STATUS[0] != RESULT[0];
  }

  lemma LineIsPrintable(line: JournalLine)
    requires Writable(line)
    ensures PrintableFields(LineFields(line)) && Printable(Obj(LineFields(line)))
  {
    hide IsNumber, PrintInt, SEQ, HASH, STATUS, RESULT;
    PrintIntIsNumber(line.seqNo);
    var tail := if line.result.Some? then Field(RESULT, line.result.value, NoFields) else NoFields;
    assert PrintableFields(tail);
    var status := Field(STATUS, Str(line.status), tail);
    assert PrintableFields(status);
    var hash := Field(HASH, Str(line.hash), status);
    assert PrintableFields(hash);
  }

  /** A later field of the same key hides an earlier one. */
  function Later(rest: Fields, wanted: Text, key: Text, value: Json): Option<Json> {
    if Lookup(rest, wanted).Some? then Lookup(rest, wanted) else if key == wanted then Some(value) else None
  }

  lemma LineLookups(line: JournalLine)
    ensures var fields := LineFields(line);
      && Lookup(fields, SEQ) == Some(Num(PrintInt(line.seqNo)))
      && Lookup(fields, HASH) == Some(Str(line.hash))
      && Lookup(fields, STATUS) == Some(Str(line.status))
      && Lookup(fields, RESULT) == line.result
  {
    hide PrintInt;
    KeysDiffer();
    var tail := if line.result.Some? then Field(RESULT, line.result.value, NoFields) else NoFields;
    LookupLast(tail, line.result);
    LookupMiddle(STATUS, Str(line.status), tail);
    LookupMiddle(HASH, Str(line.hash), Field(STATUS, Str(line.status), tail));
    LookupMiddle(SEQ, Num(PrintInt(line.seqNo)), Field(HASH, Str(line.hash), Field(STATUS, Str(line.status), tail)));
  }

  lemma LookupLast(tail: Fields, result: Option<Json>)
    requires tail == if result.Some? then Field(RESULT, result.value, NoFields) else NoFields
    ensures Lookup(tail, SEQ).None? && Lookup(tail, HASH).None? && Lookup(tail, STATUS).None?
    ensures Lookup(tail, RESULT) == result
  {
    KeysDiffer();
  }

  lemma LookupMiddle(key: Text, value: Json, rest: Fields)
    ensures forall wanted :: Lookup(Field(key, value, rest), wanted) == Later(rest, wanted, key, value)
  {
  }

  /** A printed line reads back as itself if the reader accepts it, and is rejected otherwise. */
  lemma LineReads(line: JournalLine, reading: Reading)
    requires Writable(line) && ReadsIntegers(reading)
    ensures ParseDocument(Serialize(line)) == Some(Obj(LineFields(line)))
    ensures Check(Obj(LineFields(line)), reading) == if Replayable(line) then Good(line) else Bad
  {
    hide ParseDocument, Print, Printable, PrintInt, Lookup, LineFields;
    LineIsPrintable(line);
    DocumentRoundTrip(Obj(LineFields(line)));
    LineLookups(line);
    assert reading(PrintInt(line.seqNo)) == Some(line.seqNo);
  }

  lemma LineText(line: JournalLine)
    requires Writable(line)
    ensures Serialize(line) != [] && NEWLINE !in Serialize(line)
  {
    hide Print, Printable;
    LineIsPrintable(line);
    ObjectStart(LineFields(line));
    PrintHasNoNewline(Obj(LineFields(line)));
  }

  // ---------------------------------------------------------------- splitting

  lemma {:induction false} SplitWithout(text: Text)
    requires NEWLINE !in text
    ensures Split(text) == [text]
  {
    if text == [] {
    } else {
      SplitWithout(text[1..]);
      assert [text[0]] + text[1..] == text;
    }
  }

  lemma {:induction false} SplitFirst(line: Text, rest: Text)
    requires NEWLINE !in line
    ensures Split(line + ([NEWLINE] + rest)) == [line] + Split(rest)
  {
    var text := line + ([NEWLINE] + rest);
    if line == [] {
      assert text == [NEWLINE] + rest && text[1..] == rest;
    } else {
      SplitFirst(line[1..], rest);
      assert text[1..] == line[1..] + ([NEWLINE] + rest);
      assert [line[0]] + line[1..] == line;
      assert ([line[1..]] + Split(rest))[1..] == Split(rest);
    }
  }

  // ---------------------------------------------------------------- cuts

  /** How many lines lie, without their newline, entirely before a cut. */
  function Complete(lines: seq<JournalLine>, k: nat): (n: nat)
    ensures n <= |lines|
  {
    if lines == [] || k < |Serialize(lines[0])| then 0
    else if k == |Serialize(lines[0])| then 1
    else 1 + Complete(lines[1..], k - |Serialize(lines[0])| - 1)
  }

  /** That count is exactly the lines whose text ends at or before the cut. */
  lemma {:induction false} CompleteMeans(lines: seq<JournalLine>, k: nat, j: nat)
    requires j < |lines|
    ensures j < Complete(lines, k) <==> |Frame(lines[..j])| + |Serialize(lines[j])| <= k
  {
    hide Serialize;
    if j == 0 {
      assert lines[..0] == [];
    } else {
      var used := |Serialize(lines[0])| + 1;
      assert lines[..j][1..] == lines[1..][..j - 1];
      assert |Frame(lines[..j])| == used + |Frame(lines[1..][..j - 1])|;
      if k >= used { CompleteMeans(lines[1..], k - used, j - 1); }
    }
  }

  lemma CutInsideLine(line: JournalLine, k: nat, sofar: seq<JournalLine>, reading: Reading)
    requires Writable(line) && k < |Serialize(line)|
    ensures ParseParts(Split(Serialize(line)[..k]), sofar, reading) == Parsed(sofar, false)
  {
    hide ParseDocument, Print, Check, Split;
    LineIsPrintable(line);
    LineText(line);
    SplitWithout(Serialize(line)[..k]);
    PrefixOfObjectDoesNotParse(LineFields(line), k);
  }

  lemma WholeLineIsRead(line: JournalLine, parts: seq<Text>, sofar: seq<JournalLine>, reading: Reading)
    requires Writable(line) && ReadsIntegers(reading)
    ensures ParseParts([Serialize(line)] + parts, sofar, reading)
         == if Replayable(line) then ParseParts(parts, sofar + [line], reading) else Parsed([], true)
  {
    hide ParseDocument, Serialize, Check, LineFields;
    LineText(line);
    LineReads(line, reading);
    assert ([Serialize(line)] + parts)[1..] == parts;
  }

  lemma NoParts(sofar: seq<JournalLine>, reading: Reading)
    ensures ParseParts([], sofar, reading) == Parsed(sofar, false)
    ensures ParseParts([[]], sofar, reading) == Parsed(sofar, false)
  {
  }

  lemma LastLineIsRead(line: JournalLine, sofar: seq<JournalLine>, reading: Reading)
    requires Writable(line) && ReadsIntegers(reading) && Replayable(line)
    ensures ParseParts(Split(Serialize(line)), sofar, reading) == Parsed(sofar + [line], false)
  {
    hide Serialize, Split, ParseParts;
    LineText(line);
    SplitWithout(Serialize(line));
    WholeLineIsRead(line, [], sofar, reading);
    assert [Serialize(line)] + [] == [Serialize(line)];
    NoParts(sofar + [line], reading);
  }

  lemma LineAndRest(line: JournalLine, rest: Text, sofar: seq<JournalLine>, reading: Reading)
    requires Writable(line) && ReadsIntegers(reading)
    ensures ParseParts(Split(Serialize(line) + ([NEWLINE] + rest)), sofar, reading)
         == if Replayable(line) then ParseParts(Split(rest), sofar + [line], reading) else Parsed([], true)
  {
    hide Serialize, Split, ParseParts;
    LineText(line);
    SplitFirst(Serialize(line), rest);
    WholeLineIsRead(line, Split(rest), sofar, reading);
  }

  lemma {:induction false} CutFrom(lines: seq<JournalLine>, k: nat, sofar: seq<JournalLine>, reading: Reading)
    requires ReadsIntegers(reading) && forall line :: line in lines ==> Writable(line) && Replayable(line)
    requires k <= |Frame(lines)|
    ensures ParseParts(Split(Frame(lines)[..k]), sofar, reading) == Parsed(sofar + lines[..Complete(lines, k)], false)
    decreases |lines|
  {
    hide Serialize, Split, ParseParts, ReadsIntegers, Writable, Replayable;
    if lines == [] {
      EmptyText();
      NoParts(sofar, reading);
      assert sofar + lines[..0] == sofar;
    } else {
      var line, rest := lines[0], lines[1..];
      var text := Serialize(line);
      if k < |text| {
        assert Frame(lines)[..k] == text[..k];
        CutInsideLine(line, k, sofar, reading);
        assert sofar + lines[..0] == sofar;
      } else if k == |text| {
        assert Frame(lines)[..k] == text;
        LastLineIsRead(line, sofar, reading);
        assert lines[..1] == [line];
      } else {
        var m := k - |text| - 1;
        assert Frame(lines)[..k] == text + ([NEWLINE] + Frame(rest)[..m]);
        LineAndRest(line, Frame(rest)[..m], sofar, reading);
        CutFrom(rest, m, sofar + [line], reading);
        assert sofar + [line] + rest[..Complete(rest, m)] == sofar + lines[..1 + Complete(rest, m)];
      }
    }
  }

  /**
   * Crash-tail tolerance: whatever the cut, the reader returns exactly the lines whose text lies before it, in order,
   * and never reports corruption.
   */
  lemma CutJournal(lines: seq<JournalLine>, k: nat, reading: Reading)
    requires ReadsIntegers(reading) && forall line :: line in lines ==> Writable(line) && Replayable(line)
    requires k <= |Frame(lines)|
    ensures ParseJournal(Frame(lines)[..k], reading) == Parsed(lines[..Complete(lines, k)], false)
  {
    hide Split, ParseParts, Frame, Writable, Replayable, ReadsIntegers;
    CutFrom(lines, k, [], reading);
    assert [] + lines[..Complete(lines, k)] == lines[..Complete(lines, k)];
  }

  lemma {:induction false} WholeFrom(lines: seq<JournalLine>, sofar: seq<JournalLine>, reading: Reading)
    requires ReadsIntegers(reading) && forall line :: line in lines ==> Writable(line)
    ensures ParseParts(Split(Frame(lines)), sofar, reading)
         == if forall line :: line in lines ==> Replayable(line) then Parsed(sofar + lines, false) else Parsed([], true)
    decreases |lines|
  {
    hide Serialize, Split, ParseParts, ReadsIntegers, Writable, Replayable;
    if lines == [] {
      EmptyText();
      NoParts(sofar, reading);
      assert sofar + lines == sofar;
    } else {
      LineAndRest(lines[0], Frame(lines[1..]), sofar, reading);
      assert lines == [lines[0]] + lines[1..];
      if Replayable(lines[0]) {
        WholeFrom(lines[1..], sofar + [lines[0]], reading);
        assert sofar + [lines[0]] + lines[1..] == sofar + lines;
      }
    }
  }

  /** An uncut journal reads back as it was written if and only if every line is replayable; otherwise it is corrupt. */
  lemma WholeJournal(lines: seq<JournalLine>, reading: Reading)
    requires ReadsIntegers(reading) && forall line :: line in lines ==> Writable(line)
    ensures ParseJournal(Frame(lines), reading)
         == if forall line :: line in lines ==> Replayable(line) then Parsed(lines, false) else Parsed([], true)
  {
    hide Split, ParseParts, Frame, Writable, Replayable, ReadsIntegers;
    WholeFrom(lines, [], reading);
    assert [] + lines == lines;
  }

  // ---------------------------------------------------------------- when the reader fails

  /** A part that yields a line. */
  predicate GoodPart(part: Text, reading: Reading) {
    ParseDocument(part).Some? && Check(ParseDocument(part).value, reading).Good?
  }

  /** A part that is the JSON literal `null`, behind parts that yield lines. */
  ghost predicate NullAt(parts: seq<Text>, k: int, reading: Reading) {
    && 0 <= k < |parts| && ParseDocument(parts[k]) == Some(Null)
    && forall j :: 0 <= j < k ==> GoodPart(parts[j], reading)
  }

  /** A part, behind parts that yield lines, that is no JSON text although more follows, or fails the field tests. */
  ghost predicate CorruptAt(parts: seq<Text>, k: int, reading: Reading) {
    && 0 <= k < |parts|
    && (if ParseDocument(parts[k]).None? then k < |parts| - 1 else Check(ParseDocument(parts[k]).value, reading).Bad?)
    && forall j :: 0 <= j < k ==> GoodPart(parts[j], reading)
  }

  ghost predicate HasNull(parts: seq<Text>, reading: Reading) { exists k :: NullAt(parts, k, reading) }

  ghost predicate HasCorrupt(parts: seq<Text>, reading: Reading) { exists k :: CorruptAt(parts, k, reading) }

  lemma FirstPart(parts: seq<Text>, reading: Reading)
    requires parts != []
    ensures NullAt(parts, 0, reading) <==> ParseDocument(parts[0]) == Some(Null)
    ensures forall k :: k > 0 ==>
      (NullAt(parts, k, reading) <==> GoodPart(parts[0], reading) && NullAt(parts[1..], k - 1, reading))
    ensures forall k :: k > 0 ==>
      (CorruptAt(parts, k, reading) <==> GoodPart(parts[0], reading) && CorruptAt(parts[1..], k - 1, reading))
  {
    hide ParseDocument, Check, GoodPart;
    forall k | k > 0
      ensures NullAt(parts, k, reading) <==> GoodPart(parts[0], reading) && NullAt(parts[1..], k - 1, reading)
      ensures CorruptAt(parts, k, reading) <==> GoodPart(parts[0], reading) && CorruptAt(parts[1..], k - 1, reading)
    {
      assert forall j :: 0 <= j < |parts| - 1 ==> parts[1..][j] == parts[j + 1];
      assert forall j :: 0 < j < |parts| ==> parts[j] == parts[1..][j - 1];
    }
  }

  lemma NothingParses()
    ensures ParseDocument([]).None?
  {
  }

  lemma {:induction false} FailuresFrom(parts: seq<Text>, lines: seq<JournalLine>, reading: Reading)
    ensures ParseParts(parts, lines, reading) == TypeError <==> HasNull(parts, reading)
    ensures (ParseParts(parts, lines, reading).Parsed? && ParseParts(parts, lines, reading).corrupt) <==>
      HasCorrupt(parts, reading)
    decreases |parts|
  {
    hide ParseDocument;
    NothingParses();
    if parts != [] && !(|parts| == 1 && parts[0] == []) {
      FirstPart(parts, reading);
      var x := ParseDocument(parts[0]);
      if x.Some? && Check(x.value, reading).Good? {
        var rest := parts[1..];
        FailuresFrom(rest, lines + [Check(x.value, reading).line], reading);
        if k :| NullAt(rest, k, reading) { assert NullAt(parts, k + 1, reading); }
        if k :| NullAt(parts, k, reading) { assert NullAt(rest, k - 1, reading); }
        if k :| CorruptAt(rest, k, reading) { assert CorruptAt(parts, k + 1, reading); }
        if k :| CorruptAt(parts, k, reading) { assert CorruptAt(rest, k - 1, reading); }
      } else if x == Some(Null) {
        assert NullAt(parts, 0, reading);
      } else if x.Some? || |parts| > 1 {
        assert CorruptAt(parts, 0, reading);
      }
    }
  }

  /** The reader throws exactly if some line is the JSON literal `null` and every line before it is good. */
  lemma ThrowsExactly(text: Text, reading: Reading)
    ensures ParseJournal(text, reading) == TypeError <==> HasNull(Split(text), reading)
  {
    hide Split, ParseParts, HasNull, HasCorrupt;
    FailuresFrom(Split(text), [], reading);
  }

  /**
   * It reports corruption exactly if every line before some line is good, and that line is no JSON text without being the
   * last one, or fails the field tests.
   */
  lemma CorruptExactly(text: Text, reading: Reading)
    ensures (ParseJournal(text, reading).Parsed? && ParseJournal(text, reading).corrupt) <==> HasCorrupt(Split(text), reading)
  {
    hide Split, ParseParts, HasNull, HasCorrupt;
    FailuresFrom(Split(text), [], reading);
  }

  /** So a printed `null` behind any good lines makes the reader throw instead of reporting corruption. */
  lemma NullLineThrows(lines: seq<JournalLine>, rest: Text, reading: Reading)
    requires ReadsIntegers(reading) && forall line :: line in lines ==> Writable(line) && Replayable(line)
    ensures ParseJournal(Frame(lines) + (Print(Null) + ([NEWLINE] + rest)), reading) == TypeError
  {
    hide Split, ParseParts, Frame, Print, ReadsIntegers;
    NullFrom(lines, rest, [], reading);
  }

  lemma {:induction false} NullFrom(lines: seq<JournalLine>, rest: Text, sofar: seq<JournalLine>, reading: Reading)
    requires ReadsIntegers(reading) && forall line :: line in lines ==> Writable(line) && Replayable(line)
    ensures ParseParts(Split(Frame(lines) + (Print(Null) + ([NEWLINE] + rest))), sofar, reading) == TypeError
    decreases |lines|
  {
    hide Serialize, Split, ParseParts, ReadsIntegers, Writable, Replayable, Print;
    var tail := Print(Null) + ([NEWLINE] + rest);
    if lines == [] {
      assert Frame(lines) + tail == tail;
      PrintHasNoNewline(Null);
      SplitFirst(Print(Null), rest);
      NullFirst(Split(rest), sofar, reading);
    } else {
      var line := lines[0];
      assert Frame(lines) + tail == Serialize(line) + ([NEWLINE] + (Frame(lines[1..]) + tail));
      LineAndRest(line, Frame(lines[1..]) + tail, sofar, reading);
      NullFrom(lines[1..], rest, sofar + [line], reading);
    }
  }

  lemma NullFirst(parts: seq<Text>, sofar: seq<JournalLine>, reading: Reading)
    ensures ParseParts([Print(Null)] + parts, sofar, reading) == TypeError
  {
    hide Print, ParseValue, Skip;
    DocumentRoundTrip(Null);
    PrintedStart(Null, []);
  }
}
