/** A session log whose brief exceeds its byte ceiling: the final clip falls into a character of a recorded command. */
module BriefOverflow {
  import opened Basics
  import opened Progress
  import opened Brief
  import opened BriefAscii

  /** So many euro signs, of three bytes each. */
  function Euros(n: nat): string { seq(n, _ => '\U{20AC}') }

  lemma {:induction false} EuroBytes(n: nat)
    ensures ByteLength(Euros(n)) == 3 * n
  {
    if n == 0 {
      assert Euros(0) == "";
    } else {
      EuroBytes(n - 1);
      assert Euros(n)[..n - 1] == Euros(n - 1);
    }
  }

  // ---------------------------------------------------------------- where a clip falls

  lemma PrefixBytes(s: string, i: nat, j: nat)
    requires i <= j <= |s|
    ensures ByteLength(s[..i]) <= ByteLength(s[..j])
  {
    hide ByteLength;
    BytesPlus(s[..i], s[i..j]);
    assert s[..i] + s[i..j] == s[..j];
  }

  lemma OneMoreByte(s: string, i: nat)
    requires i < |s|
    ensures ByteLength(s[..i + 1]) == ByteLength(s[..i]) + Width(s[i])
  {
    ByteLengthPlus(s[..i], s[i]);
    assert s[..i + 1] == s[..i] + [s[i]];
  }

  /** The longest fitting prefix is the one that the next character takes beyond the bytes. */
  lemma FittingIs(s: string, bytes: nat, n: nat)
    requires n < |s| && ByteLength(s[..n]) <= bytes < ByteLength(s[..n]) + Width(s[n])
    ensures Fitting(s, bytes) == n
  {
    hide ByteLength, Width, Fitting;
    var m := Fitting(s, bytes);
    OneMoreByte(s, n);
    if m < n {
      OneMoreByte(s, m);
      PrefixBytes(s, m + 1, n);
    } else if m > n {
      PrefixBytes(s, n + 1, m);
    }
  }

  /** A clip inside a run of euro signs, so many whole signs behind its start. */
  lemma CutInEuros(before: string, m: nat, rest: string, bytes: nat, whole: nat)
    requires whole < m && ByteLength(before) + 3 * whole <= bytes < ByteLength(before) + 3 * whole + 3
    ensures CutApart(before + Euros(m) + rest, bytes) == bytes - ByteLength(before) - 3 * whole
  {
    hide ByteLength, Fitting;
    var s := before + Euros(m) + rest;
    var n := |before| + whole;
    assert s[..n] == before + Euros(whole);
    assert s[n] == '\U{20AC}';
    BytesPlus(before, Euros(whole));
    EuroBytes(whole);
    FittingIs(s, bytes, n);
  }

  // ---------------------------------------------------------------- the log

  /** A command whose recorded head is a letter and 199 euro signs. */
  const HEAD := "x" + Euros(199)

  function CallName(i: nat): string { seq(i, _ => 'x') }

  /** So many good foreground runs of that command. */
  function GoodRuns(n: nat): seq<Event> {
    if n == 0 then []
    else GoodRuns(n - 1) + [ToolCall(CallName(n - 1), "bash", Command(HEAD, false), true), ToolResult(CallName(n - 1), false, [], 0)]
  }

  /** A kept receipt of one of those runs. */
  predicate IsReceipt(r: Receipt) { r.ts == 0 && r.commandHead == HEAD }

  lemma HeadIsSimple()
    ensures SimpleCommand(HEAD) && Take(HEAD, COMMAND_HEAD_CHARS) == HEAD
  {
  }

  /** An empty result has no failure marker. */
  lemma EmptyIsGood(callId: string)
    ensures GoodResult(ToolResult(callId, false, [], 0))
  {
    assert AllLines([]) == [];
  }

  lemma CallIsRecorded(s: State, callId: string)
    requires |s.calls| < CALL_INDEX_CAP && !Knows(s.calls, callId)
    ensures ApplyCall(s, ToolCall(callId, "bash", Command(HEAD, false), true))
         == s.(calls := s.calls + [Recorded(callId, "bash", HEAD, true)])
  {
    hide HEAD, SimpleCommand;
    HeadIsSimple();
  }

  lemma {:induction false} FindNew(calls: seq<Recorded>, call: Recorded)
    requires !Knows(calls, call.callId)
    ensures FindCall(calls + [call], call.callId) == Some(call)
  {
    if calls == [] {
    } else {
      assert calls[0].callId != call.callId;
      assert (calls + [call])[1..] == calls[1..] + [call];
      forall i | 0 <= i < |calls[1..]| ensures calls[1..][i].callId != call.callId { assert calls[1..][i] == calls[i + 1]; }
      FindNew(calls[1..], call);
    }
  }

  lemma ResultIsReceipt(s: State, call: Recorded)
    requires FindCall(s.calls, call.callId) == Some(call) && call.name == "bash" && call.eligible
    requires |s.verified| < VERIFIED_RING_CAP && !HasReceipt(s.verified, call.callId)
    ensures ApplyResult(s, ToolResult(call.callId, false, [], 0))
         == s.(verified := s.verified + [Receipt(0, call.callId, call.commandHead)])
  {
    hide FindCall, GoodResult, HasReceipt;
    EmptyIsGood(call.callId);
  }

  lemma {:induction false} RunsLeaveReceipts(n: nat)
    requires n <= VERIFIED_RING_CAP
    ensures var s := Fold(GoodRuns(n));
      && s.todos.None? && s.lastUser.None? && |s.verified| == n && |s.calls| == n
      && (forall r :: r in s.verified ==> IsReceipt(r) && |r.callId| < n)
      && (forall call :: call in s.calls ==> |call.callId| < n)
  {
    hide HEAD, ApplyCall, ApplyResult;
    if n == 0 {
    } else {
      var id, s := CallName(n - 1), Fold(GoodRuns(n - 1));
      RunsLeaveReceipts(n - 1);
      var call, result := ToolCall(id, "bash", Command(HEAD, false), true), ToolResult(id, false, [], 0);
      assert GoodRuns(n) == GoodRuns(n - 1) + [call] + [result];
      assert (GoodRuns(n - 1) + [call] + [result])[..|GoodRuns(n)| - 1] == GoodRuns(n - 1) + [call];
      assert (GoodRuns(n - 1) + [call])[..|GoodRuns(n - 1)|] == GoodRuns(n - 1);
      assert Fold(GoodRuns(n)) == Apply(Apply(s, call), result);
      CallIsRecorded(s, id);
      FindNew(s.calls, Recorded(id, "bash", HEAD, true));
      ResultIsReceipt(s.(calls := s.calls + [Recorded(id, "bash", HEAD, true)]), Recorded(id, "bash", HEAD, true));
    }
  }

  // ---------------------------------------------------------------- its brief

  /** What a receipt line is before its euro signs. */
  function Opening(stamp: string): string { "  - " + stamp + " `x" }

  function ReceiptLine(stamp: string): string { Opening(stamp) + Euros(199) + "`" }

  function Copies(line: string, n: nat): Lines { seq(n, _ => line) }

  lemma LineOfReceipt(stamp: string)
    requires |stamp| == 24
    ensures TruncateLine("  - " + stamp + (" `" + HEAD + "`")) == ReceiptLine(stamp)
  {
    var line := "  - " + stamp + (" `" + HEAD + "`");
    assert line == ReceiptLine(stamp);
    assert |line| == 231;
  }

  lemma {:induction false} ReceiptsAreCopies(verified: seq<Receipt>, stamp: int -> string)
    requires |stamp(0)| == 24 && forall r :: r in verified ==> IsReceipt(r)
    ensures ReceiptLines(verified, stamp) == Copies(ReceiptLine(stamp(0)), |verified|)
  {
    hide TruncateLine, HEAD, ReceiptLine;
    if verified == [] {
    } else {
      assert verified[0] in verified;
      LineOfReceipt(stamp(0));
      ReceiptsAreCopies(verified[1..], stamp);
      assert [ReceiptLine(stamp(0))] + Copies(ReceiptLine(stamp(0)), |verified| - 1) == Copies(ReceiptLine(stamp(0)), |verified|);
    }
  }

  lemma OpeningBytes(stamp: string)
    requires Ascii(stamp) && |stamp| == 24
    ensures ByteLength(Opening(stamp)) == 31
  {
    AsciiBytes(Opening(stamp));
  }

  lemma ReceiptLineBytes(stamp: string)
    requires Ascii(stamp) && |stamp| == 24
    ensures ByteLength(ReceiptLine(stamp)) == 629
  {
    hide ByteLength, Opening;
    OpeningBytes(stamp);
    BytesPlus(Opening(stamp), Euros(199));
    EuroBytes(199);
    BytesPlusAscii(Opening(stamp) + Euros(199), "`");
  }

  lemma {:induction false} CopiesWeigh(line: string, n: nat)
    ensures Weight(Copies(line, n)) == n * (ByteLength(line) + 1)
  {
    hide ByteLength;
    if n == 0 {
    } else {
      CopiesWeigh(line, n - 1);
      assert Copies(line, n)[1..] == Copies(line, n - 1);
    }
  }

  lemma {:induction false} JoinPlus(a: Lines, b: Lines)
    requires a != [] && b != []
    ensures Join(a + b) == Join(a) + "\n" + Join(b)
  {
    if |a| == 1 {
      assert (a + b)[1..] == b;
    } else {
      assert (a + b)[1..] == a[1..] + b;
      JoinPlus(a[1..], b);
    }
  }

  const GOAL := "none recorded"

  /** The lines of the brief before its last receipt. */
  function Front(stamp: string): Lines {
    [BRIEF_HEADER, "", "- Goal: " + GOAL, "- " + VERIFIED_HEADER + ":"] + Copies(ReceiptLine(stamp), 9)
  }

  lemma FrontWeighs(stamp: string)
    requires Ascii(stamp) && |stamp| == 24
    ensures Weight(Front(stamp)) == 5889
  {
    hide ByteLength, BRIEF_HEADER, VERIFIED_HEADER, ReceiptLine;
    var goal, header := "- Goal: " + GOAL, "- " + VERIFIED_HEADER + ":";
    AsciiBytes(goal);
    HeaderBytes();
    VerifiedHeaderBytes();
    NoBytes();
    ReceiptLineBytes(stamp);
    CopiesWeigh(ReceiptLine(stamp), 9);
    OneLine(BRIEF_HEADER);
    OneLine("");
    OneLine(goal);
    OneLine(header);
    WeightPlus([BRIEF_HEADER], [""]);
    WeightPlus([BRIEF_HEADER] + [""], [goal]);
    WeightPlus([BRIEF_HEADER] + [""] + [goal], [header]);
    assert [BRIEF_HEADER] + [""] + [goal] + [header] == [BRIEF_HEADER, "", goal, header];
    WeightPlus([BRIEF_HEADER, "", goal, header], Copies(ReceiptLine(stamp), 9));
  }

  /** The whole text: everything before the euro signs of the last receipt, those signs, and what follows. */
  lemma TextAroundCut(stamp: string, below: Lines)
    requires below != []
    ensures Join(Front(stamp) + ([ReceiptLine(stamp)] + below))
         == (Join(Front(stamp)) + "\n" + Opening(stamp)) + Euros(199) + ("`\n" + Join(below))
  {
    hide BRIEF_HEADER, VERIFIED_HEADER, Copies, Join;
    JoinPlus(Front(stamp), [ReceiptLine(stamp)] + below);
    JoinPlus([ReceiptLine(stamp)], below);
    assert Join([ReceiptLine(stamp)]) == ReceiptLine(stamp) by { JoinOne(ReceiptLine(stamp)); }
    assert "`\n" == "`" + "\n";
  }

  lemma JoinOne(line: string)
    ensures Join([line]) == line
  {
  }

  lemma RenderedRuns(s: State, stamp: int -> string)
    requires |stamp(0)| == 24 && s.todos.None? && |s.verified| == 10 && forall r :: r in s.verified ==> IsReceipt(r)
    ensures LinesAbove(s, GOAL, true, stamp) == Front(stamp(0)) + [ReceiptLine(stamp(0))]
    ensures RenderLines(s, GOAL, true, stamp) == Front(stamp(0)) + ([ReceiptLine(stamp(0))] + LinesBelow(s, stamp))
  {
    hide BRIEF_HEADER, VERIFIED_HEADER, ReceiptLines, ReceiptLine, LinesBelow, IsReceipt;
    var line := ReceiptLine(stamp(0));
    ReceiptsAreCopies(s.verified, stamp);
    TruncatedShort("- Goal: " + GOAL);
    assert Copies(line, 10) == Copies(line, 9) + [line];
    assert LinesAbove(s, GOAL, true, stamp)
        == [BRIEF_HEADER, "", "- Goal: " + GOAL] + (["- " + VERIFIED_HEADER + ":"] + Copies(line, 10));
    assert LinesAbove(s, GOAL, true, stamp) == Front(stamp(0)) + [line];
    RenderingOf(s, GOAL, true, stamp);
    assert Front(stamp(0)) + [line] + [] + LinesBelow(s, stamp) == Front(stamp(0)) + ([line] + LinesBelow(s, stamp));
  }

  /**
   * A log of ten good runs of a command with 199 euro signs has a brief of more than 6144 bytes, under every line budget:
   * the clip leaves the first two bytes of a sign, which then reads as a replacement character of three.
   */
  lemma BriefCanOverflow(stamp: int -> string, maxLines: int)
    requires IsoStamps(stamp) && Ascii(stamp(0)) && |stamp(0)| == 24
    ensures ByteLength(Join(ApplyBudget(RenderLines(Fold(GoodRuns(10)), GOAL, true, stamp), maxLines))) > BRIEF_MAX_BYTES
  {
    hide ByteLength, Join, Fold, Front, ReceiptLine, Opening, LinesAbove, LinesBelow, RenderLines, ApplyBudget, CutApart, GoodRuns,
         OnceElided, TwiceElided, IsTodoLine, BRIEF_HEADER, VERIFIED_HEADER, Euros, IsReceipt;
    var s := Fold(GoodRuns(10));
    RunsLeaveReceipts(10);
    RenderedRuns(s, stamp);
    var above, below := LinesAbove(s, GOAL, true, stamp), LinesBelow(s, stamp);
    var lines := RenderLines(s, GOAL, true, stamp);
    AboveHasNoTodos(s, GOAL, true, stamp);
    BelowHasNoTodos(s, stamp);
    assert lines == above + [] + below;
    BudgetOfBlock(above, [], below, maxLines);
    TextAroundCut(stamp(0), below);
    FrontBytes(stamp(0));
    CutFalls(stamp(0), "`\n" + Join(below));
    BriefFitsBytes(lines, maxLines);
  }

  lemma FrontBytes(stamp: string)
    requires Ascii(stamp) && |stamp| == 24
    ensures ByteLength(Join(Front(stamp)) + "\n" + Opening(stamp)) == 5920
  {
    hide ByteLength, Join, Opening, Weight;
    FrontWeighs(stamp);
    FrontIsSome(stamp);
    JoinedBytes(Front(stamp));
    BytesPlusAscii(Join(Front(stamp)), "\n");
    OpeningBytes(stamp);
    BytesPlus(Join(Front(stamp)) + "\n", Opening(stamp));
  }

  lemma FrontIsSome(stamp: string)
    ensures Front(stamp) != []
  {
  }

  lemma CutFalls(stamp: string, rest: string)
    requires Ascii(stamp) && |stamp| == 24
    ensures var text := (Join(Front(stamp)) + "\n" + Opening(stamp)) + Euros(199) + rest;
      ByteLength(text) > BRIEF_MAX_BYTES && CutApart(text, BRIEF_MAX_BYTES) == 2
  {
    hide ByteLength, Join, Opening, Front, Euros, CutApart;
    var before := Join(Front(stamp)) + "\n" + Opening(stamp);
    FrontBytes(stamp);
    CutInEuros(before, 199, rest, BRIEF_MAX_BYTES, 74);
    BytesPlus(before, Euros(199));
    EuroBytes(199);
    BytesPlus(before + Euros(199), rest);
  }
}
