/** The post-compaction brief: a rendering of the progress state under a line budget and a byte ceiling. */
module Brief {
  import opened Basics
  import opened Progress

  const MAX_LINE_CHARS := 240
  const BRIEF_MAX_BYTES := 6144

  const DASH := "\U{2014}"
  const HEADER_OPENING := "## " + "Resume after compaction " + "(auto-generated, derived from " + "session events "
  const BRIEF_HEADER := HEADER_OPENING + DASH + " trust over prose memory)"
  const STUB_MARKER_OPENING := "Note: " + "earlier tool outputs may appear as " + "deterministic placeholder stubs "
  const STUB_MARKER_NOTE :=
    STUB_MARKER_OPENING + "(microcompact collapsed them out of " + "the window); their content is " + "elided, not lost."
  const NOT_VERIFIED_OPENING := "Not verified: " + "any completion claim not listed " + "above is NOT backed by a receipt "
  const NOT_VERIFIED_NOTE := NOT_VERIFIED_OPENING + DASH + " re-verify before claiming."
  const VERIFIED_OPENING := "Verified commands " + "(executed, exit 0 "
  const VERIFIED_HEADER := VERIFIED_OPENING + DASH + " execution evidence, NOT inferred " + "completion claims)"
  const NOTE_OPENING := "  - \U{2026} ("
  const ALL_ELIDED := NOTE_OPENING + "todo snapshot elided to fit the " + "line budget; tail kept)"

  type Lines = seq<string>

  // ---------------------------------------------------------------- bytes

  function Width(c: char): (n: nat)
    ensures 1 <= n <= 4
  {
    if c as int < 0x80 then 1 else if c as int < 0x800 then 2 else if c as int < 0x1_0000 then 3 else 4
  }

  function ByteLength(s: string): (n: nat)
    ensures n >= |s|
  {
    if s == "" then 0 else ByteLength(s[..|s| - 1]) + Width(s[|s| - 1])
  }

  function Join(lines: Lines): string {
    if lines == [] then "" else if |lines| == 1 then lines[0] else lines[0] + "\n" + Join(lines[1..])
  }

  lemma {:induction false} JoinSplit(s: string)
    ensures Join(SplitLines(s)) == s
  {
    if s == "" {
    } else {
      JoinSplit(s[1..]);
      var rest := SplitLines(s[1..]);
      if s[0] == '\n' {
        assert ([""] + rest)[1..] == rest;
        assert [s[0]] + s[1..] == s;
      } else {
        var first := [s[0]] + rest[0];
        assert ([first] + rest[1..])[1..] == rest[1..];
        assert [s[0]] + s[1..] == s;
        if |rest| > 1 { assert first + "\n" + Join(rest[1..]) == [s[0]] + (rest[0] + "\n" + Join(rest[1..])); }
      }
    }
  }

  /** The longest prefix that fits into so many bytes. */
  function Fitting(s: string, bytes: nat): (n: nat)
    ensures n <= |s| && ByteLength(s[..n]) <= bytes
    ensures n < |s| ==> ByteLength(s[..n]) + Width(s[n]) > bytes
  {
    if s == "" then 0
    else
      var n := Fitting(s[..|s| - 1], bytes);
      assert s[..|s| - 1][..n] == s[..n];
      if n == |s| - 1 && ByteLength(s) <= bytes then (assert s[..|s|] == s; |s|) else n
  }

  /** `Buffer.subarray(0, bytes).toString()`: a character cut apart reads as U+FFFD. */
  function ClipUtf8(s: string, bytes: nat): string {
    var n := Fitting(s, bytes);
    if n == |s| || ByteLength(s[..n]) == bytes then s[..n] else s[..n] + ['\U{FFFD}']
  }

  /** How many bytes of a cut-apart character lie before the cut. */
  function CutApart(s: string, bytes: nat): nat {
    var n := Fitting(s, bytes);
    if n == |s| then 0 else bytes - ByteLength(s[..n])
  }

  lemma ByteLengthPlus(s: string, c: char)
    ensures ByteLength(s + [c]) == ByteLength(s) + Width(c)
  {
    assert (s + [c])[..|s|] == s;
  }

  /** The clip stays within the bytes exactly if it does not fall one or two bytes into a character; two more at most. */
  lemma ClipLength(s: string, bytes: nat)
    ensures ByteLength(ClipUtf8(s, bytes)) <= bytes + 2
    ensures ByteLength(ClipUtf8(s, bytes)) <= bytes <==> CutApart(s, bytes) != 1 && CutApart(s, bytes) != 2
    ensures CutApart(s, bytes) < 4
  {
    var n := Fitting(s, bytes);
    ByteLengthPlus(s[..n], '\U{FFFD}');
  }

  // ---------------------------------------------------------------- eliding todos

  function Digits(n: nat): string { if n < 10 then [(48 + n) as char] else Digits(n / 10) + [(48 + n % 10) as char] }

  function ElisionMark(n: nat): string { NOTE_OPENING + Digits(n) + " earlier todos elided)" }

  /** A stretch of lines. */
  datatype Range = Range(first: nat, last: nat)

  predicate ValidRange(lines: Lines, r: Range) { r.first <= r.last < |lines| }

  /** The lines that are not in the range. */
  function FixedCount(lines: Lines, r: Range): nat
    requires ValidRange(lines, r)
  {
    |lines| - (r.last - r.first + 1)
  }

  function Allowance(lines: Lines, r: Range, budget: int): nat
    requires ValidRange(lines, r)
  {
    if budget - FixedCount(lines, r) - 1 > 0 then budget - FixedCount(lines, r) - 1 else 0
  }

  function Head(allowance: nat): nat { if allowance / 3 > 1 then allowance / 3 else 1 }

  /** What becomes of the todo block when so many of its lines may stay. */
  function ElideBlock(block: Lines, allowance: nat): Lines
  {
    if allowance >= |block| then block
    else if allowance == 0 then [ALL_ELIDED]
    else
      var tail := allowance - Head(allowance);
      block[..Head(allowance)] + [ElisionMark(|block| - allowance)] + block[|block| - tail..]
  }

  /** `elideTodos`. */
  function ElideTodos(lines: Lines, r: Range, budget: int): Lines
    requires ValidRange(lines, r)
  {
    lines[..r.first] + ElideBlock(lines[r.first..r.last + 1], Allowance(lines, r, budget)) + lines[r.last + 1..]
  }

  /** Splicing, as the source does it. */
  method RunElideTodos(lines: Lines, r: Range, budget: int) returns (out: Lines)
    requires ValidRange(lines, r)
    ensures out == ElideTodos(lines, r, budget)
  {
    hide ElideTodos, ElisionMark;
    var available := r.last - r.first + 1;
    var fixedCount := |lines| - available;
    var allowance := budget - fixedCount - 1;
    if allowance < 0 { allowance := 0; }
    if allowance >= available {
      ElideNothing(lines, r, budget);
      return lines;
    }
    if allowance <= 0 {
      ElideEverything(lines, r, budget);
      return lines[..r.first] + [ALL_ELIDED] + lines[r.first + available..];
    }
    var head := allowance / 3;
    if head < 1 { head := 1; }
    var tail := allowance - head;
    ElideMiddle(lines, r, budget);
    out := lines[..r.first + head] + [ElisionMark(available - head - tail)] + lines[r.first + available - tail..];
  }

  lemma ElideNothing(lines: Lines, r: Range, budget: int)
    requires ValidRange(lines, r) && Allowance(lines, r, budget) >= r.last - r.first + 1
    ensures ElideTodos(lines, r, budget) == lines
  {
  }

  lemma ElideEverything(lines: Lines, r: Range, budget: int)
    requires ValidRange(lines, r) && Allowance(lines, r, budget) == 0
    ensures ElideTodos(lines, r, budget) == lines[..r.first] + [ALL_ELIDED] + lines[r.last + 1..]
  {
  }

  lemma ElideMiddle(lines: Lines, r: Range, budget: int)
    requires ValidRange(lines, r) && 0 < Allowance(lines, r, budget) < r.last - r.first + 1
    ensures var allowance := Allowance(lines, r, budget);
      var head, tail := Head(allowance), allowance - Head(allowance);
      ElideTodos(lines, r, budget)
        == lines[..r.first + head] + [ElisionMark(r.last - r.first + 1 - allowance)] + lines[r.last + 1 - tail..]
  {
    hide ElisionMark;
    var allowance := Allowance(lines, r, budget);
    Spliced(lines, r, Head(allowance), allowance - Head(allowance), ElisionMark(r.last - r.first + 1 - allowance));
  }

  lemma Spliced(lines: Lines, r: Range, head: nat, tail: nat, mark: string)
    requires ValidRange(lines, r) && head + tail <= r.last - r.first + 1
    ensures var block := lines[r.first..r.last + 1];
      lines[..r.first + head] + [mark] + lines[r.last + 1 - tail..]
        == lines[..r.first] + (block[..head] + [mark] + block[|block| - tail..]) + lines[r.last + 1..]
  {
    var block := lines[r.first..r.last + 1];
    assert lines[..r.first + head] == lines[..r.first] + block[..head];
    assert lines[r.last + 1 - tail..] == block[|block| - tail..] + lines[r.last + 1..];
    Regroup(lines[..r.first], block[..head], [mark], block[|block| - tail..], lines[r.last + 1..]);
  }

  lemma Regroup(a: Lines, b: Lines, c: Lines, d: Lines, e: Lines)
    ensures (a + b) + c + (d + e) == a + (b + c + d) + e
  {
  }

  /** A prefix and a suffix of the block around a mark with the exact number left out; or all of it; or none. */
  predicate ShownAs(shown: Lines, block: Lines, head: nat, tail: nat) {
    && head + tail <= |block|
    && if head + tail == |block| then shown == block
       else if head + tail == 0 then shown == [ALL_ELIDED]
       else shown == block[..head] + [ElisionMark(|block| - head - tail)] + block[|block| - tail..]
  }

  ghost predicate Shows(shown: Lines, block: Lines) { exists head: nat, tail: nat :: ShownAs(shown, block, head, tail) }

  lemma BlockIsShown(block: Lines, allowance: nat)
    ensures Shows(ElideBlock(block, allowance), block)
    ensures |ElideBlock(block, allowance)| <= allowance + 1
  {
    hide ElisionMark;
    if allowance >= |block| { assert ShownAs(block, block, |block|, 0); }
    else if allowance == 0 { assert ShownAs([ALL_ELIDED], block, 0, 0); }
    else { assert ShownAs(ElideBlock(block, allowance), block, Head(allowance), allowance - Head(allowance)); }
  }

  /**
   * One pass keeps every line outside the block, and of the block a prefix and a suffix around the exact count; where
   * the fixed lines and one more fit the budget, so does the result.
   */
  lemma ElisionIsExact(lines: Lines, r: Range, budget: int) returns (shown: Lines)
    requires ValidRange(lines, r)
    ensures ElideTodos(lines, r, budget) == lines[..r.first] + shown + lines[r.last + 1..]
    ensures Shows(shown, lines[r.first..r.last + 1])
    ensures FixedCount(lines, r) + 1 <= budget ==> |ElideTodos(lines, r, budget)| <= budget
  {
    hide ElideBlock, Shows;
    BlockIsShown(lines[r.first..r.last + 1], Allowance(lines, r, budget));
    shown := ElideBlock(lines[r.first..r.last + 1], Allowance(lines, r, budget));
  }

  // ---------------------------------------------------------------- the whole budget

  predicate IsTodoLine(line: string) { "  - [" <= line || NOTE_OPENING <= line }

  /** How many todo lines a list starts with. */
  function LeadingTodos(lines: Lines): (n: nat)
    ensures n <= |lines|
    ensures forall i :: 0 <= i < n ==> IsTodoLine(lines[i])
    ensures n < |lines| ==> !IsTodoLine(lines[n])
  {
    if lines == [] || !IsTodoLine(lines[0]) then 0 else 1 + LeadingTodos(lines[1..])
  }

  /** `todoLineRange`: the first todo line and those right after it. */
  function TodoRange(lines: Lines): (r: Option<Range>)
    ensures r.Some? ==> ValidRange(lines, r.value)
  {
    if lines == [] then None
    else if IsTodoLine(lines[0]) then Some(Range(0, LeadingTodos(lines) - 1))
    else match TodoRange(lines[1..])
      case None => None
      case Some(r) => Some(Range(r.first + 1, r.last + 1))
  }

  /** The line budget of the second, byte-driven pass. */
  function ByteBudget(): int {
    var room := BRIEF_MAX_BYTES - ByteLength(BRIEF_HEADER + "\n" + NOT_VERIFIED_NOTE) - 2;
    var lines := (room + MAX_LINE_CHARS) / (MAX_LINE_CHARS + 1);
    if lines > 4 then lines else 4
  }

  /** The lines after the line budget has been applied once. */
  function OnceElided(lines: Lines, maxLines: int): Lines {
    var range := TodoRange(lines);
    if |lines| > maxLines && range.Some? then ElideTodos(lines, range.value, maxLines) else lines
  }

  /** And after a second pass for the bytes, where there are todo lines at all. */
  function TwiceElided(lines: Lines, maxLines: int): Lines {
    var once := OnceElided(lines, maxLines);
    var again := TodoRange(once);
    if TodoRange(lines).Some? && again.Some? then ElideTodos(once, again.value, ByteBudget()) else once
  }

  /** `applyBudget`. */
  function ApplyBudget(lines: Lines, maxLines: int): Lines {
    var once := OnceElided(lines, maxLines);
    if ByteLength(Join(once)) <= BRIEF_MAX_BYTES then once
    else
      var twice := TwiceElided(lines, maxLines);
      if ByteLength(Join(twice)) <= BRIEF_MAX_BYTES then twice else SplitLines(ClipUtf8(Join(twice), BRIEF_MAX_BYTES))
  }

  /**
   * For any lines and settings the brief exceeds its ceiling exactly if both elided texts do and the final clip then falls
   * one or two bytes into a character, which costs at most two bytes more.
   */
  lemma BriefFitsBytes(lines: Lines, maxLines: int)
    ensures var bytes, once, twice := ByteLength(Join(ApplyBudget(lines, maxLines))), Join(OnceElided(lines, maxLines)),
                                      Join(TwiceElided(lines, maxLines));
      && bytes <= BRIEF_MAX_BYTES + 2
      && (bytes > BRIEF_MAX_BYTES <==>
            ByteLength(once) > BRIEF_MAX_BYTES && ByteLength(twice) > BRIEF_MAX_BYTES
            && (CutApart(twice, BRIEF_MAX_BYTES) == 1 || CutApart(twice, BRIEF_MAX_BYTES) == 2))
  {
    hide Join, OnceElided, TwiceElided, ClipUtf8, CutApart, ByteLength, SplitLines;
    var text := Join(TwiceElided(lines, maxLines));
    ClipLength(text, BRIEF_MAX_BYTES);
    JoinSplit(ClipUtf8(text, BRIEF_MAX_BYTES));
  }

  // ---------------------------------------------------------------- printed lines

  /** The line breaks inside the lines. */
  function Breaks(lines: Lines): nat {
    if lines == [] then 0 else (|SplitLines(lines[0])| - 1) + Breaks(lines[1..])
  }

  lemma {:induction false} SplitConcat(s: string, t: string)
    ensures |SplitLines(s + "\n" + t)| == |SplitLines(s)| + |SplitLines(t)|
  {
    var joined := s + "\n" + t;
    if s == "" {
      assert joined[1..] == t;
    } else {
      assert joined[1..] == s[1..] + "\n" + t;
      SplitConcat(s[1..], t);
    }
  }

  /** The budget counts a line with breaks as one: what is printed has one line more for each break inside a line. */
  lemma {:induction false} PrintedLines(lines: Lines)
    requires lines != []
    ensures |SplitLines(Join(lines))| == |lines| + Breaks(lines)
  {
    hide SplitLines;
    if |lines| > 1 {
      PrintedLines(lines[1..]);
      SplitConcat(lines[0], Join(lines[1..]));
    } else {
      assert Breaks(lines[1..]) == 0;
    }
  }

  // ---------------------------------------------------------------- rendering

  function TruncateLine(line: string): string { if |line| > MAX_LINE_CHARS then line[..MAX_LINE_CHARS] else line }

  /** The todo lines of a brief. */
  function TodoLines(todos: seq<Todo>): (lines: Lines)
    ensures |lines| == |todos|
    ensures forall i :: 0 <= i < |lines| ==> IsTodoLine(lines[i])
  {
    if todos == [] then []
    else
      var mark := if todos[0].status == "completed" then "x" else " ";
      [TruncateLine("  - [" + (mark + "] " + todos[0].content))] + TodoLines(todos[1..])
  }

  function ReceiptLines(verified: seq<Receipt>, stamp: int -> string): Lines {
    if verified == [] then []
    else [TruncateLine("  - " + stamp(verified[0].ts) + (" `" + verified[0].commandHead + "`"))] + ReceiptLines(verified[1..], stamp)
  }

  /** The lines before the todo block. */
  function LinesAbove(s: State, goal: string, includeVerified: bool, stamp: int -> string): Lines {
    [BRIEF_HEADER, "", TruncateLine("- Goal: " + goal)]
      + (if includeVerified && s.verified != [] then ["- " + VERIFIED_HEADER + ":"] + ReceiptLines(s.verified, stamp) else [])
      + (if s.todos.Some? && s.todos.value != [] then ["- Todo snapshot (verbatim):"] else [])
  }

  /** The lines after it. */
  function LinesBelow(s: State, stamp: int -> string): Lines {
    [TruncateLine(STUB_MARKER_NOTE)]
      + (if s.lastUser.Some?
         then [TruncateLine("- Last user instruction at " + stamp(s.lastUser.value.ts) + ": " + s.lastUser.value.text)]
         else [])
      + [TruncateLine(NOT_VERIFIED_NOTE), ""]
  }

  /** `renderBrief` before the budget; `goal` is what the goal line says. */
  function RenderLines(s: State, goal: string, includeVerified: bool, stamp: int -> string): Lines {
    LinesAbove(s, goal, includeVerified, stamp) + (if s.todos.Some? then TodoLines(s.todos.value) else []) + LinesBelow(s, stamp)
  }

  /** An ISO time stamp starts with a digit or a sign. */
  predicate IsoStamp(text: string) { text != "" && text[0] != '[' && text[0] != '\U{2026}' }

  ghost predicate IsoStamps(stamp: int -> string) { forall ts :: IsoStamp(stamp(ts)) }

  predicate NoTodoLine(lines: Lines) { forall i :: 0 <= i < |lines| ==> !IsTodoLine(lines[i]) }

  lemma {:induction false} ReceiptsAreNoTodos(verified: seq<Receipt>, stamp: int -> string)
    requires IsoStamps(stamp)
    ensures NoTodoLine(ReceiptLines(verified, stamp))
  {
    hide TruncateLine, IsTodoLine;
    if verified == [] {
    } else {
      ReceiptsAreNoTodos(verified[1..], stamp);
      assert IsoStamp(stamp(verified[0].ts));
      ReceiptIsNoTodo(stamp(verified[0].ts), " `" + verified[0].commandHead + "`");
    }
  }

  lemma ReceiptIsNoTodo(stamp: string, tail: string)
    requires IsoStamp(stamp)
    ensures !IsTodoLine(TruncateLine("  - " + stamp + tail))
  {
    var line := "  - " + stamp + tail;
    assert line[4] == stamp[0];
    assert TruncateLine(line)[4] == stamp[0];
  }

  lemma {:induction false} RangeIsBlock(above: Lines, block: Lines, below: Lines)
    requires NoTodoLine(above) && block != [] && (forall i :: 0 <= i < |block| ==> IsTodoLine(block[i]))
    requires below != [] && NoTodoLine(below)
    ensures TodoRange(above + block + below) == Some(Range(|above|, |above| + |block| - 1))
    decreases |above|
  {
    hide IsTodoLine;
    var lines := above + block + below;
    if above == [] {
      assert lines[0] == block[0];
      LeadingIsBlock(block, below);
      assert lines == block + below;
    } else {
      assert lines[0] == above[0];
      assert lines[1..] == above[1..] + block + below;
      RangeIsBlock(above[1..], block, below);
    }
  }

  lemma LeadingIsBlock(block: Lines, below: Lines)
    requires (forall i :: 0 <= i < |block| ==> IsTodoLine(block[i])) && below != [] && !IsTodoLine(below[0])
    ensures LeadingTodos(block + below) == |block|
  {
    hide IsTodoLine;
    var lines := block + below;
    var n := LeadingTodos(lines);
    assert forall i :: 0 <= i < |block| ==> lines[i] == block[i];
    assert lines[|block|] == below[0];
  }

  /** A line that opens with another character than a todo line is none. */
  lemma OpensOtherwise(line: string)
    requires line != "" ==> line[0] != ' '
    ensures !IsTodoLine(line) && !IsTodoLine(TruncateLine(line))
  {
  }

  lemma AboveHasNoTodos(s: State, goal: string, includeVerified: bool, stamp: int -> string)
    requires IsoStamps(stamp)
    ensures NoTodoLine(LinesAbove(s, goal, includeVerified, stamp))
  {
    hide IsTodoLine, TruncateLine, ReceiptLines, BRIEF_HEADER, VERIFIED_HEADER;
    ReceiptsAreNoTodos(s.verified, stamp);
    HeadersOpen();
    OpensOtherwise(BRIEF_HEADER);
    OpensOtherwise("");
    OpensOtherwise("- Goal: " + goal);
    OpensOtherwise("- " + VERIFIED_HEADER + ":");
    OpensOtherwise("- Todo snapshot (verbatim):");
  }

  lemma HeadersOpen()
    ensures BRIEF_HEADER != "" && BRIEF_HEADER[0] == '#'
    ensures STUB_MARKER_NOTE != "" && STUB_MARKER_NOTE[0] == 'N' && NOT_VERIFIED_NOTE != "" && NOT_VERIFIED_NOTE[0] == 'N'
  {
    assert "## "[0] == '#' && "Note: "[0] == 'N' && "Not verified: "[0] == 'N';
  }

  lemma BelowHasNoTodos(s: State, stamp: int -> string)
    ensures LinesBelow(s, stamp) != [] && NoTodoLine(LinesBelow(s, stamp))
  {
    hide IsTodoLine, TruncateLine, STUB_MARKER_NOTE, NOT_VERIFIED_NOTE;
    HeadersOpen();
    OpensOtherwise(STUB_MARKER_NOTE);
    OpensOtherwise(NOT_VERIFIED_NOTE);
    OpensOtherwise("");
    if s.lastUser.Some? {
      OpensOtherwise("- Last user instruction at " + stamp(s.lastUser.value.ts) + ": " + s.lastUser.value.text);
    }
  }

  lemma {:induction false} NoTodosAtAll(lines: Lines)
    requires NoTodoLine(lines)
    ensures TodoRange(lines).None?
  {
    hide IsTodoLine;
    if lines == [] {
    } else {
      assert !IsTodoLine(lines[0]);
      forall i | 0 <= i < |lines[1..]| ensures !IsTodoLine(lines[1..][i]) { assert lines[1..][i] == lines[i + 1]; }
      NoTodosAtAll(lines[1..]);
    }
  }

  /** The lines that a budget leaves for a block beside so many fixed lines and a note. */
  function Room(budget: int, fixed: nat): nat { if budget - fixed - 1 > 0 then budget - fixed - 1 else 0 }

  /** The todo block after the line budget, and after the second pass for the bytes. */
  function BlockOnce(block: Lines, fixed: nat, maxLines: int): Lines {
    if fixed + |block| > maxLines && block != [] then ElideBlock(block, Room(maxLines, fixed)) else block
  }

  function BlockTwice(block: Lines, fixed: nat, maxLines: int): Lines {
    if block == [] then [] else ElideBlock(BlockOnce(block, fixed, maxLines), Room(ByteBudget(), fixed))
  }

  predicate AllTodos(lines: Lines) { forall i :: 0 <= i < |lines| ==> IsTodoLine(lines[i]) }

  /** The notes that stand for left-out todos count as todo lines themselves. */
  lemma NotesAreTodos(n: nat)
    ensures IsTodoLine(ElisionMark(n)) && IsTodoLine(ALL_ELIDED)
  {
  }

  lemma ElidedStaysTodos(block: Lines, allowance: nat)
    requires AllTodos(block) && block != []
    ensures ElideBlock(block, allowance) != [] && AllTodos(ElideBlock(block, allowance))
  {
    hide IsTodoLine, ElisionMark, ALL_ELIDED;
    NotesAreTodos(if |block| >= allowance then |block| - allowance else 0);
  }

  /** Eliding the todo lines of a rendering elides its block, and nothing else. */
  lemma ElisionOfBlock(above: Lines, block: Lines, below: Lines, budget: int)
    requires NoTodoLine(above) && below != [] && NoTodoLine(below) && AllTodos(block) && block != []
    ensures var lines := above + block + below;
      && TodoRange(lines).Some?
      && ElideTodos(lines, TodoRange(lines).value, budget)
           == above + ElideBlock(block, Room(budget, |above| + |below|)) + below
  {
    hide IsTodoLine, ElideBlock, TodoRange;
    RangeIsBlock(above, block, below);
    BlockPieces(above, block, below);
  }

  lemma BudgetOfBlock(above: Lines, block: Lines, below: Lines, maxLines: int)
    requires NoTodoLine(above) && below != [] && NoTodoLine(below) && AllTodos(block)
    ensures var lines, fixed := above + block + below, |above| + |below|;
      && OnceElided(lines, maxLines) == above + BlockOnce(block, fixed, maxLines) + below
      && TwiceElided(lines, maxLines) == above + BlockTwice(block, fixed, maxLines) + below
  {
    hide IsTodoLine, ElideBlock, ElideTodos, TodoRange, Room, ByteBudget;
    var lines, fixed := above + block + below, |above| + |below|;
    if block == [] {
      assert lines == above + below;
      NoTodosAtAll(lines);
    } else {
      ElisionOfBlock(above, block, below, maxLines);
      var once := BlockOnce(block, fixed, maxLines);
      ElidedStaysTodos(block, Room(maxLines, fixed));
      ElisionOfBlock(above, once, below, ByteBudget());
    }
  }

  /**
   * The budget of a brief takes lines out of its todo block only: header, goal, receipts, notes and the last user
   * instruction all stay, in both passes and in what comes of them unless both exceed the byte ceiling; and where they and
   * one more line fit the line budget, the brief fits it.
   */
  lemma BriefKeepsFixedLines(s: State, goal: string, includeVerified: bool, stamp: int -> string, maxLines: int)
    returns (shown: Lines, again: Lines)
    requires IsoStamps(stamp)
    ensures var above, below := LinesAbove(s, goal, includeVerified, stamp), LinesBelow(s, stamp);
      var lines := RenderLines(s, goal, includeVerified, stamp);
      && OnceElided(lines, maxLines) == above + shown + below
      && TwiceElided(lines, maxLines) == above + again + below
      && ApplyBudget(lines, maxLines)
           == (if ByteLength(Join(above + shown + below)) <= BRIEF_MAX_BYTES then above + shown + below
               else if ByteLength(Join(above + again + below)) <= BRIEF_MAX_BYTES then above + again + below
               else SplitLines(ClipUtf8(Join(above + again + below), BRIEF_MAX_BYTES)))
      && (|above| + |below| + 1 <= maxLines ==> |above + shown + below| <= maxLines)
      && |above + again + below| <= |above + shown + below|
    ensures Shows(shown, if s.todos.Some? then TodoLines(s.todos.value) else []) && Shows(again, shown)
  {
    hide LinesAbove, LinesBelow, ElideBlock, IsTodoLine, Shows, OnceElided, TwiceElided, ByteLength, Join, ByteBudget, ClipUtf8,
         SplitLines, TodoLines;
    var above, below := LinesAbove(s, goal, includeVerified, stamp), LinesBelow(s, stamp);
    var block := if s.todos.Some? then TodoLines(s.todos.value) else [];
    var fixed := |above| + |below|;
    AboveHasNoTodos(s, goal, includeVerified, stamp);
    BelowHasNoTodos(s, stamp);
    assert RenderLines(s, goal, includeVerified, stamp) == above + block + below;
    BudgetOfBlock(above, block, below, maxLines);
    shown, again := BlockOnce(block, fixed, maxLines), BlockTwice(block, fixed, maxLines);
    WholeIsShown(block);
    WholeIsShown(shown);
    BlockIsShown(block, Room(maxLines, fixed));
    BlockIsShown(shown, Room(ByteBudget(), fixed));
    ElisionShortens(block, Room(maxLines, fixed));
    ElisionShortens(shown, Room(ByteBudget(), fixed));
  }

  lemma ElisionShortens(block: Lines, allowance: nat)
    ensures block != [] ==> |ElideBlock(block, allowance)| <= |block|
    ensures block == [] ==> ElideBlock(block, allowance) == []
  {
    hide ElisionMark;
  }

  /**
   * The second pass takes the first one's note for a todo line. Cutting further it drops that note and prints one more than
   * the lines it cuts itself, so its count is exact if and only if the first note stood for a single todo.
   */
  lemma SecondNote(block: Lines, first: nat, second: nat)
    requires 0 < second <= first < |block|
    ensures var head, tail := Head(second), second - Head(second);
      && ElideBlock(ElideBlock(block, first), second)
           == block[..head] + [ElisionMark(first + 1 - second)] + block[|block| - tail..]
      && (first + 1 - second == |block| - (head + tail) <==> |block| == first + 1)
  {
    hide ElisionMark;
    var once := ElideBlock(block, first);
    assert |once| == first + 1;
    assert once[..Head(second)] == block[..Head(second)];
    assert once[|once| - (second - Head(second))..] == block[|block| - (second - Head(second))..];
  }

  lemma WholeIsShown(block: Lines)
    ensures Shows(block, block)
  {
    assert ShownAs(block, block, |block|, 0);
  }

  lemma BlockPieces(above: Lines, block: Lines, below: Lines)
    requires block != []
    ensures var lines, r := above + block + below, Range(|above|, |above| + |block| - 1);
      && lines[..r.first] == above && lines[r.first..r.last + 1] == block && lines[r.last + 1..] == below
      && ValidRange(lines, r) && FixedCount(lines, r) == |above| + |below|
  {
  }
}
