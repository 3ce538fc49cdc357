/** For ASCII texts the brief of any session log keeps to its byte ceiling without ever being clipped. */
module BriefAscii {
  import opened Progress
  import opened Brief

  // ---------------------------------------------------------------- bytes

  predicate Ascii(s: string) { forall i :: 0 <= i < |s| ==> s[i] as int < 0x80 }

  lemma {:induction false} BytesPlus(a: string, b: string)
    ensures ByteLength(a + b) == ByteLength(a) + ByteLength(b)
  {
    if b == "" {
      assert a + b == a;
    } else {
      BytesPlus(a, b[..|b| - 1]);
      assert (a + b)[..|a + b| - 1] == a + b[..|b| - 1];
    }
  }

  lemma {:induction false} AsciiBytes(s: string)
    requires Ascii(s)
    ensures ByteLength(s) == |s|
  {
    if s == "" {
    } else {
      AsciiBytes(s[..|s| - 1]);
    }
  }

  /** A piece of ASCII behind some text adds its characters to the bytes. */
  lemma BytesPlusAscii(a: string, b: string)
    requires Ascii(b)
    ensures ByteLength(a + b) == ByteLength(a) + |b|
  {
    BytesPlus(a, b);
    AsciiBytes(b);
  }

  /** The bytes of the separate lines, with one for the line break behind each. */
  function Weight(lines: Lines): nat { if lines == [] then 0 else ByteLength(lines[0]) + 1 + Weight(lines[1..]) }

  lemma {:induction false} WeightPlus(a: Lines, b: Lines)
    ensures Weight(a + b) == Weight(a) + Weight(b)
  {
    if a == [] { assert a + b == b; } else {
      WeightPlus(a[1..], b);
      assert (a + b)[1..] == a[1..] + b;
    }
  }

  lemma {:induction false} JoinedBytes(lines: Lines)
    requires lines != []
    ensures ByteLength(Join(lines)) == Weight(lines) - 1
  {
    hide ByteLength;
    if |lines| == 1 {
    } else {
      JoinedBytes(lines[1..]);
      BytesPlus(lines[0] + "\n", Join(lines[1..]));
      BytesPlusAscii(lines[0], "\n");
    }
  }

  /** No line is longer than the line cap, in bytes. */
  predicate Narrow(lines: Lines) { forall i :: 0 <= i < |lines| ==> ByteLength(lines[i]) <= MAX_LINE_CHARS }

  lemma {:induction false} NarrowWeight(lines: Lines)
    requires Narrow(lines)
    ensures Weight(lines) <= |lines| * (MAX_LINE_CHARS + 1)
  {
    hide ByteLength;
    if lines == [] {
    } else {
      assert forall i :: 0 <= i < |lines[1..]| ==> lines[1..][i] == lines[i + 1];
      NarrowWeight(lines[1..]);
    }
  }

  lemma TruncatedAscii(line: string)
    requires Ascii(line)
    ensures ByteLength(TruncateLine(line)) <= MAX_LINE_CHARS && ByteLength(TruncateLine(line)) <= |line|
  {
    AsciiBytes(TruncateLine(line));
  }

  lemma TruncatedShort(line: string)
    requires |line| <= MAX_LINE_CHARS
    ensures TruncateLine(line) == line
  {
  }

  // ---------------------------------------------------------------- the fixed texts

  lemma DashBytes()
    ensures ByteLength(DASH) == 3 && |DASH| == 1
  {
    assert DASH[..0] == "";
  }

  lemma HeaderOpeningBytes()
    ensures ByteLength(HEADER_OPENING) == 72 && |HEADER_OPENING| == 72
  {
    hide ByteLength;
    var a, b, c, d := "## ", "Resume after compaction ", "(auto-generated, derived from ", "session events ";
    AsciiBytes(a);
    BytesPlusAscii(a, b);
    BytesPlusAscii(a + b, c);
    BytesPlusAscii(a + b + c, d);
    assert HEADER_OPENING == a + b + c + d;
  }

  lemma HeaderBytes()
    ensures ByteLength(BRIEF_HEADER) == 100
  {
    hide ByteLength, HEADER_OPENING, DASH;
    HeaderOpeningBytes();
    DashBytes();
    BytesPlus(HEADER_OPENING, DASH);
    BytesPlusAscii(HEADER_OPENING + DASH, " trust over prose memory)");
  }

  lemma NotVerifiedOpeningBytes()
    ensures ByteLength(NOT_VERIFIED_OPENING) == 79 && |NOT_VERIFIED_OPENING| == 79
  {
    hide ByteLength;
    var a, b, c := "Not verified: ", "any completion claim not listed ", "above is NOT backed by a receipt ";
    AsciiBytes(a);
    BytesPlusAscii(a, b);
    BytesPlusAscii(a + b, c);
    assert NOT_VERIFIED_OPENING == a + b + c;
  }

  lemma NotVerifiedBytes()
    ensures ByteLength(NOT_VERIFIED_NOTE) == 109 && |NOT_VERIFIED_NOTE| == 107
  {
    hide ByteLength, NOT_VERIFIED_OPENING, DASH;
    NotVerifiedOpeningBytes();
    DashBytes();
    BytesPlus(NOT_VERIFIED_OPENING, DASH);
    BytesPlusAscii(NOT_VERIFIED_OPENING + DASH, " re-verify before claiming.");
  }

  lemma VerifiedOpeningBytes()
    ensures ByteLength(VERIFIED_OPENING) == 36
  {
    hide ByteLength;
    var a, b := "Verified commands ", "(executed, exit 0 ";
    AsciiBytes(a);
    BytesPlusAscii(a, b);
    assert VERIFIED_OPENING == a + b;
  }

  lemma VerifiedTextBytes()
    ensures ByteLength(VERIFIED_HEADER) == 91
  {
    hide ByteLength, VERIFIED_OPENING, DASH;
    VerifiedOpeningBytes();
    DashBytes();
    var a, b := " execution evidence, NOT inferred ", "completion claims)";
    BytesPlus(VERIFIED_OPENING, DASH);
    BytesPlusAscii(VERIFIED_OPENING + DASH, a);
    BytesPlusAscii(VERIFIED_OPENING + DASH + a, b);
    assert VERIFIED_HEADER == VERIFIED_OPENING + DASH + a + b;
  }

  lemma VerifiedHeaderBytes()
    ensures ByteLength("- " + VERIFIED_HEADER + ":") == 94
  {
    hide ByteLength, VERIFIED_HEADER;
    VerifiedTextBytes();
    AsciiBytes("- ");
    BytesPlus("- ", VERIFIED_HEADER);
    BytesPlusAscii("- " + VERIFIED_HEADER, ":");
  }

  lemma StubOpeningBytes()
    ensures ByteLength(STUB_MARKER_OPENING) == 73 && |STUB_MARKER_OPENING| == 73
  {
    hide ByteLength;
    var a, b, c := "Note: ", "earlier tool outputs may appear as ", "deterministic placeholder stubs ";
    AsciiBytes(a);
    BytesPlusAscii(a, b);
    BytesPlusAscii(a + b, c);
    assert STUB_MARKER_OPENING == a + b + c;
  }

  lemma StubNoteBytes()
    ensures ByteLength(STUB_MARKER_NOTE) == 156 && |STUB_MARKER_NOTE| == 156
  {
    hide ByteLength, STUB_MARKER_OPENING;
    StubOpeningBytes();
    var a, b, c := "(microcompact collapsed them out of ", "the window); their content is ", "elided, not lost.";
    BytesPlusAscii(STUB_MARKER_OPENING, a);
    BytesPlusAscii(STUB_MARKER_OPENING + a, b);
    BytesPlusAscii(STUB_MARKER_OPENING + a + b, c);
    assert STUB_MARKER_NOTE == STUB_MARKER_OPENING + a + b + c;
  }

  lemma NoteOpeningBytes()
    ensures ByteLength(NOTE_OPENING) == 9
  {
    hide ByteLength;
    assert NOTE_OPENING == "  - " + "\U{2026}" + " (";
    AsciiBytes("  - ");
    BytesPlus("  - ", "\U{2026}");
    EllipsisBytes();
    BytesPlusAscii("  - " + "\U{2026}", " (");
  }

  lemma EllipsisBytes()
    ensures ByteLength("\U{2026}") == 3
  {
    assert "\U{2026}"[..0] == "";
  }

  lemma AllElidedBytes()
    ensures ByteLength(ALL_ELIDED) == 64
  {
    hide ByteLength;
    NoteOpeningBytes();
    BytesPlusAscii(NOTE_OPENING, "todo snapshot elided to fit the ");
    BytesPlusAscii(NOTE_OPENING + "todo snapshot elided to fit the ", "line budget; tail kept)");
    assert ALL_ELIDED == NOTE_OPENING + "todo snapshot elided to fit the " + "line budget; tail kept)";
  }

  lemma ByteBudgetIs()
    ensures ByteBudget() == 25
  {
    hide ByteLength, BRIEF_HEADER, NOT_VERIFIED_NOTE;
    HeaderBytes();
    NotVerifiedBytes();
    BytesPlusAscii(BRIEF_HEADER, "\n");
    BytesPlus(BRIEF_HEADER + "\n", NOT_VERIFIED_NOTE);
  }

  function Pow10(k: nat): nat { if k == 0 then 1 else 10 * Pow10(k - 1) }

  lemma {:induction false} DigitsAreFew(n: nat, k: nat)
    requires k > 0 && n < Pow10(k)
    ensures Ascii(Digits(n)) && |Digits(n)| <= k
  {
    if n < 10 {
    } else {
      DigitsAreFew(n / 10, k - 1);
    }
  }

  lemma ElisionMarkBytes(n: nat)
    requires n < 0x1_0000_0000
    ensures ByteLength(ElisionMark(n)) <= 41
  {
    hide ByteLength, Digits;
    assert Pow10(10) == 10_000_000_000 by {
      assert Pow10(5) == 100_000;
      assert Pow10(6) == 1_000_000;
      assert Pow10(7) == 10_000_000;
      assert Pow10(8) == 100_000_000;
      assert Pow10(9) == 1_000_000_000;
    }
    DigitsAreFew(n, 10);
    NoteOpeningBytes();
    BytesPlusAscii(NOTE_OPENING, Digits(n));
    BytesPlusAscii(NOTE_OPENING + Digits(n), " earlier todos elided)");
    assert ElisionMark(n) == NOTE_OPENING + Digits(n) + " earlier todos elided)";
  }

  // ---------------------------------------------------------------- ASCII logs

  predicate AsciiBlocks(content: seq<Block>) { forall i :: 0 <= i < |content| && content[i].TextBlock? ==> Ascii(content[i].text) }

  predicate AsciiTodos(todos: seq<Todo>) { forall i :: 0 <= i < |todos| ==> Ascii(todos[i].content) }

  /** The texts of an event that the projection keeps. */
  predicate AsciiEvent(e: Event) {
    && (e.ToolCall? && e.arguments.Command? ==> Ascii(e.arguments.command))
    && (e.TodoWrite? ==> AsciiTodos(e.todos))
    && (e.UserMessage? ==> AsciiBlocks(e.content))
  }

  predicate AsciiLog(log: seq<Event>) { forall i :: 0 <= i < |log| ==> AsciiEvent(log[i]) }

  predicate AsciiState(s: State) {
    && (s.todos.Some? ==> AsciiTodos(s.todos.value))
    && (forall r :: r in s.verified ==> Ascii(r.commandHead))
    && (forall call :: call in s.calls ==> Ascii(call.commandHead))
    && (s.lastUser.Some? ==> Ascii(s.lastUser.value.text))
  }

  lemma {:induction false} FirstTextIsAscii(content: seq<Block>)
    requires AsciiBlocks(content) && FirstText(content).Some?
    ensures Ascii(FirstText(content).value)
  {
    hide Ascii;
    if content[0].TextBlock? && content[0].text != "" {
    } else {
      assert forall i :: 0 <= i < |content[1..]| ==> content[1..][i] == content[i + 1];
      FirstTextIsAscii(content[1..]);
    }
  }

  lemma TakenIsAscii(s: string, n: nat)
    requires Ascii(s)
    ensures Ascii(Take(s, n))
  {
  }

  lemma CallKeepsAscii(s: State, e: Event)
    requires AsciiState(s) && AsciiEvent(e) && e.ToolCall?
    ensures AsciiState(ApplyCall(s, e))
  {
    hide Ascii, AsciiTodos, Push, SimpleCommand;
    if RecordOf(e).Some? {
      if e.arguments.Command? { TakenIsAscii(e.arguments.command, COMMAND_HEAD_CHARS); }
      PlainIsAscii();
      PushedIsOld(s.calls, RecordOf(e).value, CALL_INDEX_CAP);
    }
  }

  lemma PlainIsAscii()
    ensures Ascii("")
  {
  }

  lemma ResultKeepsAscii(s: State, e: Event)
    requires AsciiState(s) && e.ToolResult?
    ensures AsciiState(ApplyResult(s, e))
  {
    hide Ascii, AsciiTodos, Push, GoodResult, HasReceipt;
    if FindCall(s.calls, e.callId).Some? {
      PushedIsOld(s.verified, Receipt(e.time, e.callId, FindCall(s.calls, e.callId).value.commandHead), VERIFIED_RING_CAP);
    }
  }

  lemma UserKeepsAscii(s: State, e: Event)
    requires AsciiState(s) && AsciiEvent(e) && e.UserMessage?
    ensures AsciiState(Apply(s, e))
  {
    hide Ascii, AsciiTodos;
    if FirstText(e.content).Some? {
      FirstTextIsAscii(e.content);
      TakenIsAscii(FirstText(e.content).value, COMMAND_HEAD_CHARS);
    }
  }

  lemma {:induction false} FoldIsAscii(log: seq<Event>)
    requires AsciiLog(log)
    ensures AsciiState(Fold(log))
  {
    hide Ascii, AsciiTodos, AsciiBlocks, ApplyCall, ApplyResult;
    if log == [] {
    } else {
      var before, e := Fold(log[..|log| - 1]), log[|log| - 1];
      FoldIsAscii(log[..|log| - 1]);
      if e.ToolCall? { CallKeepsAscii(before, e); }
      if e.ToolResult? { ResultKeepsAscii(before, e); }
      if e.UserMessage? { UserKeepsAscii(before, e); }
    }
  }

  // ---------------------------------------------------------------- the lines of an ASCII state

  ghost predicate AsciiStamps(stamp: int -> string) { forall ts :: Ascii(stamp(ts)) }

  lemma {:induction false} TodosAreNarrow(todos: seq<Todo>)
    requires AsciiTodos(todos)
    ensures Narrow(TodoLines(todos))
  {
    hide ByteLength, Ascii, TruncateLine;
    if todos == [] {
    } else {
      assert forall i :: 0 <= i < |todos[1..]| ==> todos[1..][i] == todos[i + 1];
      TodosAreNarrow(todos[1..]);
      TodoIsAscii(if todos[0].status == "completed" then "x" else " ", todos[0].content);
      TruncatedAscii("  - [" + ((if todos[0].status == "completed" then "x" else " ") + "] " + todos[0].content));
    }
  }

  lemma TodoIsAscii(mark: string, content: string)
    requires (mark == "x" || mark == " ") && Ascii(content)
    ensures Ascii("  - [" + (mark + "] " + content))
  {
  }

  lemma {:induction false} ReceiptsWeigh(verified: seq<Receipt>, stamp: int -> string)
    requires AsciiStamps(stamp) && forall r :: r in verified ==> Ascii(r.commandHead)
    ensures Narrow(ReceiptLines(verified, stamp)) && |ReceiptLines(verified, stamp)| == |verified|
  {
    hide ByteLength, Ascii, TruncateLine;
    if verified == [] {
    } else {
      ReceiptsWeigh(verified[1..], stamp);
      var line := "  - " + stamp(verified[0].ts) + (" `" + verified[0].commandHead + "`");
      assert Ascii(stamp(verified[0].ts)) && verified[0] in verified;
      ReceiptIsAscii(stamp(verified[0].ts), verified[0].commandHead);
      TruncatedAscii(line);
    }
  }

  lemma ReceiptIsAscii(stamp: string, head: string)
    requires Ascii(stamp) && Ascii(head)
    ensures Ascii("  - " + stamp + (" `" + head + "`"))
  {
  }

  /** A single line. */
  lemma OneLine(line: string)
    ensures Weight([line]) == ByteLength(line) + 1
  {
    assert Weight([line][1..]) == 0;
  }

  lemma NarrowPlus(a: Lines, b: Lines)
    requires Narrow(a) && Narrow(b)
    ensures Narrow(a + b)
  {
    hide ByteLength;
  }

  lemma OpeningWeighs(goal: string)
    requires Ascii(goal)
    ensures var lines := [BRIEF_HEADER, "", TruncateLine("- Goal: " + goal)]; Narrow(lines) && Weight(lines) <= 343
  {
    hide ByteLength, BRIEF_HEADER, TruncateLine, Ascii;
    var line := TruncateLine("- Goal: " + goal);
    GoalIsAscii(goal);
    TruncatedAscii("- Goal: " + goal);
    HeaderBytes();
    NoBytes();
    OneLine(BRIEF_HEADER);
    OneLine("");
    OneLine(line);
    WeightPlus([BRIEF_HEADER], [""]);
    WeightPlus([BRIEF_HEADER] + [""], [line]);
    assert [BRIEF_HEADER] + [""] + [line] == [BRIEF_HEADER, "", line];
  }

  lemma GoalIsAscii(goal: string)
    requires Ascii(goal)
    ensures Ascii("- Goal: " + goal)
  {
  }

  lemma NoBytes()
    ensures ByteLength("") == 0
  {
  }

  lemma VerifiedSectionWeighs(verified: seq<Receipt>, stamp: int -> string)
    requires AsciiStamps(stamp) && |verified| <= VERIFIED_RING_CAP && forall r :: r in verified ==> Ascii(r.commandHead)
    ensures var lines := ["- " + VERIFIED_HEADER + ":"] + ReceiptLines(verified, stamp); Narrow(lines) && Weight(lines) <= 4915
  {
    hide ByteLength, VERIFIED_HEADER, ReceiptLines, Ascii, AsciiStamps;
    var header := "- " + VERIFIED_HEADER + ":";
    VerifiedHeaderBytes();
    OneLine(header);
    ReceiptsWeigh(verified, stamp);
    NarrowWeight(ReceiptLines(verified, stamp));
    WeightPlus([header], ReceiptLines(verified, stamp));
    NarrowPlus([header], ReceiptLines(verified, stamp));
  }

  lemma TodoHeaderWeighs()
    ensures Narrow(["- Todo snapshot (verbatim):"]) && Weight(["- Todo snapshot (verbatim):"]) == 28
  {
    hide ByteLength;
    AsciiBytes("- Todo snapshot (verbatim):");
    OneLine("- Todo snapshot (verbatim):");
  }

  lemma AboveWeighs(s: State, goal: string, includeVerified: bool, stamp: int -> string)
    requires AsciiState(s) && |s.verified| <= VERIFIED_RING_CAP && Ascii(goal) && AsciiStamps(stamp)
    ensures var lines := LinesAbove(s, goal, includeVerified, stamp); Narrow(lines) && Weight(lines) <= 5286
  {
    hide ByteLength, BRIEF_HEADER, VERIFIED_HEADER, ReceiptLines, Ascii, AsciiStamps, TruncateLine, Narrow;
    var opening := [BRIEF_HEADER, "", TruncateLine("- Goal: " + goal)];
    var receipts := if includeVerified && s.verified != [] then ["- " + VERIFIED_HEADER + ":"] + ReceiptLines(s.verified, stamp) else [];
    var header := if s.todos.Some? && s.todos.value != [] then ["- Todo snapshot (verbatim):"] else [];
    OpeningWeighs(goal);
    VerifiedSectionWeighs(s.verified, stamp);
    TodoHeaderWeighs();
    NothingWeighs();
    WeightPlus(opening, receipts);
    WeightPlus(opening + receipts, header);
    NarrowPlus(opening, receipts);
    NarrowPlus(opening + receipts, header);
  }

  lemma NothingWeighs()
    ensures Narrow([]) && Weight([]) == 0
  {
  }

  lemma LastUserWeighs(stamp: string, text: string)
    requires Ascii(stamp) && Ascii(text)
    ensures var lines := [TruncateLine("- Last user instruction at " + stamp + ": " + text)]; Narrow(lines) && Weight(lines) <= 241
  {
    hide ByteLength, TruncateLine, Ascii;
    LastUserIsAscii(stamp, text);
    TruncatedAscii("- Last user instruction at " + stamp + ": " + text);
    OneLine(TruncateLine("- Last user instruction at " + stamp + ": " + text));
  }

  lemma LastUserIsAscii(stamp: string, text: string)
    requires Ascii(stamp) && Ascii(text)
    ensures Ascii("- Last user instruction at " + stamp + ": " + text)
  {
  }

  lemma ClosingWeighs()
    ensures Narrow([TruncateLine(STUB_MARKER_NOTE)]) && Weight([TruncateLine(STUB_MARKER_NOTE)]) == 157
    ensures Narrow([TruncateLine(NOT_VERIFIED_NOTE), ""]) && Weight([TruncateLine(NOT_VERIFIED_NOTE), ""]) == 111
  {
    hide ByteLength, STUB_MARKER_NOTE, NOT_VERIFIED_NOTE;
    StubNoteBytes();
    NotVerifiedBytes();
    NoBytes();
    OneLine(STUB_MARKER_NOTE);
    OneLine(NOT_VERIFIED_NOTE);
    OneLine("");
    WeightPlus([NOT_VERIFIED_NOTE], [""]);
    assert [NOT_VERIFIED_NOTE] + [""] == [NOT_VERIFIED_NOTE, ""];
  }

  lemma BelowWeighs(s: State, stamp: int -> string)
    requires AsciiState(s) && AsciiStamps(stamp)
    ensures Narrow(LinesBelow(s, stamp)) && Weight(LinesBelow(s, stamp)) <= 509
  {
    hide ByteLength, STUB_MARKER_NOTE, NOT_VERIFIED_NOTE, Ascii, TruncateLine, Narrow;
    var stub, closing := [TruncateLine(STUB_MARKER_NOTE)], [TruncateLine(NOT_VERIFIED_NOTE), ""];
    var user := if s.lastUser.Some?
      then [TruncateLine("- Last user instruction at " + stamp(s.lastUser.value.ts) + ": " + s.lastUser.value.text)] else [];
    ClosingWeighs();
    NothingWeighs();
    if s.lastUser.Some? {
      assert Ascii(stamp(s.lastUser.value.ts));
      LastUserWeighs(stamp(s.lastUser.value.ts), s.lastUser.value.text);
    }
    WeightPlus(stub, user);
    WeightPlus(stub + user, closing);
    NarrowPlus(stub, user);
    NarrowPlus(stub + user, closing);
  }

  lemma ElidedStaysNarrow(block: Lines, allowance: nat)
    requires Narrow(block) && |block| < 0x1_0000_0000
    ensures Narrow(ElideBlock(block, allowance))
  {
    hide ByteLength, ElisionMark, ALL_ELIDED;
    AllElidedBytes();
    if 0 < allowance < |block| { ElisionMarkBytes(|block| - allowance); }
  }

  // ---------------------------------------------------------------- the ceiling

  /** After the second pass narrow todo lines beside narrow fixed ones within their weights stay under the ceiling. */
  lemma TwiceFits(above: Lines, block: Lines, below: Lines, maxLines: int)
    requires Narrow(above) && Narrow(block) && Narrow(below) && below != []
    requires Weight(above) + Weight(below) <= 5795 && |block| < 0x1_0000_0000
    ensures ByteLength(Join(above + BlockTwice(block, |above| + |below|, maxLines) + below)) <= BRIEF_MAX_BYTES
  {
    hide ByteLength, Join, ElideBlock, ByteBudget, Narrow, ALL_ELIDED;
    var fixed := |above| + |below|;
    var once, twice := BlockOnce(block, fixed, maxLines), BlockTwice(block, fixed, maxLines);
    ByteBudgetIs();
    var out := above + twice + below;
    WeightPlus(above, twice);
    WeightPlus(above + twice, below);
    JoinedBytes(out);
    if block == [] {
      NothingWeighs();
    } else {
      ElidedStaysNarrow(block, Room(maxLines, fixed));
      BlockIsShown(block, Room(maxLines, fixed));
      ElisionShortens(block, Room(maxLines, fixed));
      ElidedStaysNarrow(once, Room(25, fixed));
      BlockIsShown(once, Room(25, fixed));
      if Room(25, fixed) == 0 {
        NoRoom(once);
        AllElidedBytes();
        OneLine(ALL_ELIDED);
      } else {
        NarrowPlus(above, twice);
        NarrowPlus(above + twice, below);
        NarrowWeight(out);
      }
    }
  }

  lemma NoRoom(block: Lines)
    ensures block != [] ==> ElideBlock(block, 0) == [ALL_ELIDED]
    ensures block == [] ==> ElideBlock(block, 0) == []
  {
    hide ALL_ELIDED;
  }

  /** A block cut down once, and the result cut down once more. */
  ghost predicate ShowsInTwo(shown: Lines, block: Lines) { exists once :: Shows(once, block) && Shows(shown, once) }

  /**
   * For every log of ASCII texts, under every setting, the brief is at most 6144 bytes and is never clipped: it keeps every
   * line outside the todo block. The block's length is below that of the longest JavaScript array.
   */
  lemma AsciiBriefFits(log: seq<Event>, goal: string, includeVerified: bool, stamp: int -> string, maxLines: int) returns (shown: Lines)
    requires AsciiLog(log) && Ascii(goal) && IsoStamps(stamp) && AsciiStamps(stamp)
    requires Fold(log).todos.Some? ==> |Fold(log).todos.value| < 0x1_0000_0000
    ensures var s := Fold(log);
      var out := ApplyBudget(RenderLines(s, goal, includeVerified, stamp), maxLines);
      && out == LinesAbove(s, goal, includeVerified, stamp) + shown + LinesBelow(s, stamp)
      && ShowsInTwo(shown, if s.todos.Some? then TodoLines(s.todos.value) else [])
      && ByteLength(Join(out)) <= BRIEF_MAX_BYTES
  {
    hide LinesAbove, LinesBelow, ElideBlock, IsTodoLine, Shows, OnceElided, TwiceElided, ByteLength, Join, ByteBudget, ClipUtf8,
         SplitLines, TodoLines, Fold, Ascii, AsciiTodos, BlockOnce, BlockTwice, Narrow, RenderLines;
    var s := Fold(log);
    FoldIsAscii(log);
    FoldIsBounded(log);
    var above, below := LinesAbove(s, goal, includeVerified, stamp), LinesBelow(s, stamp);
    var block := if s.todos.Some? then TodoLines(s.todos.value) else [];
    AboveHasNoTodos(s, goal, includeVerified, stamp);
    BelowHasNoTodos(s, stamp);
    AboveWeighs(s, goal, includeVerified, stamp);
    BelowWeighs(s, stamp);
    NothingWeighs();
    if s.todos.Some? { TodosAreNarrow(s.todos.value); }
    TwiceFits(above, block, below, maxLines);
    var once, twice := BriefKeepsFixedLines(s, goal, includeVerified, stamp, maxLines);
    RenderingOf(s, goal, includeVerified, stamp);
    BudgetOfBlock(above, block, below, maxLines);
    WholeIsShown(once);
    shown := if ByteLength(Join(above + once + below)) <= BRIEF_MAX_BYTES then once else twice;
  }

  lemma RenderingOf(s: State, goal: string, includeVerified: bool, stamp: int -> string)
    ensures RenderLines(s, goal, includeVerified, stamp) ==
      LinesAbove(s, goal, includeVerified, stamp) + (if s.todos.Some? then TodoLines(s.todos.value) else []) + LinesBelow(s, stamp)
  {
  }
}
