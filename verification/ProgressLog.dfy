/** The progress projection said of the log itself: which results attest success, and what the fold keeps of a log. */
module ProgressLog {
  import opened Basics
  import opened Progress

  // ---------------------------------------------------------------- texts

  predicate OccursAt(text: string, part: string, i: nat) { i + |part| <= |text| && text[i..i + |part|] == part }

  lemma {:induction false} ContainsMeans(text: string, part: string)
    ensures Contains(text, part) <==> exists i: nat :: OccursAt(text, part, i)
  {
    if part <= text {
      assert OccursAt(text, part, 0);
    } else if text == "" {
    } else {
      ContainsMeans(text[1..], part);
      if Contains(text[1..], part) {
        var i: nat :| OccursAt(text[1..], part, i);
        assert text[i + 1..i + 1 + |part|] == text[1..][i..i + |part|];
        assert OccursAt(text, part, i + 1);
      }
      if exists i: nat :: OccursAt(text, part, i) {
        var i: nat :| OccursAt(text, part, i);
        assert i > 0;
        assert text[1..][i - 1..i - 1 + |part|] == text[i..i + |part|];
        assert OccursAt(text[1..], part, i - 1);
      }
    }
  }

  /** The alternatives that make a command compound or substituting. */
  const SEPARATORS := [";", "||", "&&", "|", "\n", "$(", "`", "&"]

  /** The command runs alone: none of them occurs in it. */
  ghost predicate RunsAlone(command: string) {
    forall k, i: nat :: 0 <= k < |SEPARATORS| ==> !OccursAt(command, SEPARATORS[k], i)
  }

  lemma SimpleMeansAlone(command: string)
    ensures SimpleCommand(command) <==> RunsAlone(command)
  {
    if SimpleCommand(command) {
      forall k, i: nat | 0 <= k < |SEPARATORS| ensures !OccursAt(command, SEPARATORS[k], i) {
        if OccursAt(command, SEPARATORS[k], i) { FirstUnits(command, k, i); }
      }
    } else {
      var i :| 0 <= i < |command| && (command[i] in {';', '|', '\n', '`', '&'}
                                     || (command[i] == '$' && i + 1 < |command| && command[i + 1] == '('));
      assert command[i..i + 1] == [command[i]];
      var k := if command[i] == ';' then 0 else if command[i] == '|' then 3 else if command[i] == '\n' then 4
               else if command[i] == '$' then 5 else if command[i] == '`' then 6 else 7;
      if k == 5 { assert command[i..i + 2] == "$("; }
      assert OccursAt(command, SEPARATORS[k], i);
    }
  }

  lemma FirstUnits(command: string, k: nat, i: nat)
    requires k < |SEPARATORS| && OccursAt(command, SEPARATORS[k], i)
    ensures i < |command| && command[i] == SEPARATORS[k][0]
    ensures k == 5 ==> i + 1 < |command| && command[i + 1] == '('
  {
    assert command[i..i + |SEPARATORS[k]|][0] == command[i];
    if k == 5 { assert command[i..i + 2][1] == command[i + 1]; }
  }

  function JoinLines(lines: seq<string>): string
    requires lines != []
  {
    if |lines| == 1 then lines[0] else lines[0] + "\n" + JoinLines(lines[1..])
  }

  /** These are the lines of a text: no line has a line break, and joined by line breaks they are the text. */
  predicate AreLines(text: string, lines: seq<string>) {
    lines != [] && (forall k :: 0 <= k < |lines| ==> '\n' !in lines[k]) && JoinLines(lines) == text
  }

  lemma {:induction false} SplitGivesLines(text: string)
    ensures AreLines(text, SplitLines(text))
  {
    if text == "" {
    } else {
      SplitGivesLines(text[1..]);
      var rest := SplitLines(text[1..]);
      if text[0] == '\n' {
        assert ([""] + rest)[1..] == rest;
        assert JoinLines([""] + rest) == text;
      } else {
        var first := [text[0]] + rest[0];
        assert ([first] + rest[1..])[1..] == rest[1..];
        if |rest| > 1 { assert first + "\n" + JoinLines(rest[1..]) == [text[0]] + (rest[0] + "\n" + JoinLines(rest[1..])); }
      }
    }
  }

  lemma {:induction false} LinesAreUnique(a: seq<string>, b: seq<string>)
    requires a != [] && b != [] && JoinLines(a) == JoinLines(b)
    requires forall k :: 0 <= k < |a| ==> '\n' !in a[k]
    requires forall k :: 0 <= k < |b| ==> '\n' !in b[k]
    ensures a == b
  {
    FirstBreak(a);
    FirstBreak(b);
    var text := JoinLines(a);
    if |a| == 1 || |b| == 1 {
      assert a == [a[0]] || b == [b[0]];
    } else {
      assert a[0] == text[..|a[0]|] && b[0] == text[..|b[0]|];
      assert JoinLines(a[1..]) == text[|a[0]| + 1..] && JoinLines(b[1..]) == text[|b[0]| + 1..];
      LinesAreUnique(a[1..], b[1..]);
      assert a == [a[0]] + a[1..] && b == [b[0]] + b[1..];
    }
  }

  /** The first line ends at the first line break of the text. */
  lemma FirstBreak(lines: seq<string>)
    requires lines != [] && '\n' !in lines[0]
    ensures |lines[0]| <= |JoinLines(lines)| && '\n' !in JoinLines(lines)[..|lines[0]|]
    ensures if |lines| == 1 then |JoinLines(lines)| == |lines[0]| && '\n' !in JoinLines(lines)
            else |JoinLines(lines)| > |lines[0]| && JoinLines(lines)[|lines[0]|] == '\n'
  {
    if |lines| > 1 {
      assert JoinLines(lines) == lines[0] + ("\n" + JoinLines(lines[1..]));
      assert JoinLines(lines)[..|lines[0]|] == lines[0];
    }
  }

  /** A text's lines are those that `SplitLines` gives, and no others. */
  lemma SplitIsExact(text: string, lines: seq<string>)
    ensures SplitLines(text) == lines <==> AreLines(text, lines)
  {
    SplitGivesLines(text);
    if AreLines(text, lines) { LinesAreUnique(SplitLines(text), lines); }
  }

  /** The lines of a result: those of its text blocks, block by block. */
  predicate AreResultLines(content: seq<Block>, parts: seq<seq<string>>) {
    |parts| == |content| && forall k :: 0 <= k < |content| ==>
      if content[k].TextBlock? then AreLines(content[k].text, parts[k]) else parts[k] == []
  }

  function Flat(parts: seq<seq<string>>): seq<string> { if parts == [] then [] else parts[0] + Flat(parts[1..]) }

  lemma {:induction false} AllLinesAre(content: seq<Block>, parts: seq<seq<string>>)
    requires AreResultLines(content, parts)
    ensures AllLines(content) == Flat(parts)
  {
    hide AreLines;
    if content == [] {
    } else {
      if content[0].TextBlock? { SplitIsExact(content[0].text, parts[0]); }
      assert forall k :: 0 <= k < |content| - 1 ==> content[1..][k] == content[k + 1] && parts[1..][k] == parts[k + 1];
      AllLinesAre(content[1..], parts[1..]);
    }
  }

  // ---------------------------------------------------------------- results that attest success

  /** A line with one of the markers of a failed, stopped or running command in it. */
  ghost predicate TellsFailure(line: string) {
    exists m, i: nat :: 0 <= m < |FAILURE_MARKERS| && OccursAt(line, FAILURE_MARKERS[m], i)
  }

  /** Such a line is among the last ten lines: fewer than ten follow it. */
  ghost predicate FailsNearEnd(lines: seq<string>) {
    exists k :: 0 <= k < |lines| && |lines| - k <= 10 && TellsFailure(lines[k])
  }

  /** A result that is no error and whose last ten lines tell no failure. */
  ghost predicate Attests(e: Event) { e.ToolResult? && !e.isError && !FailsNearEnd(AllLines(e.content)) }

  lemma MarkedMeansFailure(line: string)
    ensures MarkedLine(line) <==> TellsFailure(line)
  {
    hide Contains, OccursAt, FAILURE_MARKERS;
    forall m | 0 <= m < |FAILURE_MARKERS|
      ensures Contains(line, FAILURE_MARKERS[m]) <==> exists i: nat :: OccursAt(line, FAILURE_MARKERS[m], i)
    {
      ContainsMeans(line, FAILURE_MARKERS[m]);
    }
  }

  lemma GoodMeansAttests(e: Event)
    ensures GoodResult(e) <==> Attests(e)
  {
    hide MarkedLine, TellsFailure, AllLines;
    if e.ToolResult? {
      var lines, tail := AllLines(e.content), TailLines(e.content);
      var off := |lines| - |tail|;
      assert off >= 0 && forall i :: 0 <= i < |tail| ==> tail[i] == lines[off + i];
      assert |tail| == if |lines| <= 10 then |lines| else 10;
      forall k | 0 <= k < |lines| ensures MarkedLine(lines[k]) <==> TellsFailure(lines[k]) { MarkedMeansFailure(lines[k]); }
      if FailsNearEnd(lines) {
        var k :| 0 <= k < |lines| && |lines| - k <= 10 && TellsFailure(lines[k]);
        assert tail[k - off] == lines[k];
      }
    }
  }

  /** If the lines of a result tell a failure before at most nine further ones, no receipt comes of it, whatever came before. */
  lemma FailureLeavesNoReceipt(log: seq<Event>, e: Event, x: seq<string>, line: string, y: seq<string>)
    requires e.ToolResult? && AllLines(e.content) == x + [line] + y && |y| < 10 && TellsFailure(line)
    ensures Fold(log + [e]).verified == Fold(log).verified
  {
    hide GoodResult, AllLines, TellsFailure, FindCall, HasReceipt;
    GoodMeansAttests(e);
    assert AllLines(e.content)[|x|] == line;
    assert (log + [e])[..|log|] == log;
  }

  // ---------------------------------------------------------------- receipts

  /** The recorded head of a command: its first 200 characters. */
  predicate IsHead(head: string, command: string) {
    head <= command && |head| == if |command| <= 200 then |command| else 200
  }

  /** Event `i` runs a command in the foreground, alone, and event `j` is a result of it that attests success. */
  ghost predicate Backs(log: seq<Event>, i: nat, j: nat, r: Receipt) {
    && i < j < |log|
    && RunsInForeground(log[i]) && log[i].callId == r.callId && IsHead(r.commandHead, log[i].arguments.command)
    && log[j].ToolResult? && log[j].callId == r.callId && log[j].time == r.ts && Attests(log[j])
  }

  lemma TakeIsHead(command: string)
    ensures IsHead(Take(command, COMMAND_HEAD_CHARS), command)
  {
  }

  /** After any log, every receipt is backed in this sense by the log. */
  lemma EveryReceiptIsBacked(log: seq<Event>, r: Receipt) returns (i: nat, j: nat)
    requires r in Fold(log).verified
    ensures Backs(log, i, j, r)
  {
    hide Fold, SimpleCommand, RunsAlone, TailHasMarker, FailsNearEnd, Take;
    FoldIsJustified(log);
    i, j :| ReceiptAt(log, i, j, r);
    TakeIsHead(log[i].arguments.command);
    SimpleMeansAlone(log[i].arguments.command);
    GoodMeansAttests(log[j]);
  }

  /** How many calls there are among some events. */
  function Calls(log: seq<Event>): nat { if log == [] then 0 else Calls(log[..|log| - 1]) + if log[|log| - 1].ToolCall? then 1 else 0 }

  /** The event is a call that is recorded: every one is, but for those whose arguments are the JSON literal null. */
  predicate IsCall(e: Event) { e.ToolCall? && !(e.wellFormed && e.arguments.JsonNull?) }

  /** Event `i` is the first recorded call of its id. */
  predicate FirstCall(log: seq<Event>, i: nat) {
    && i < |log| && IsCall(log[i])
    && forall k :: 0 <= k < i && IsCall(log[k]) ==> log[k].callId != log[i].callId
  }

  /** The call runs a command in the foreground, alone. */
  ghost predicate RunsInForeground(e: Event) {
    && e.ToolCall? && e.name == "bash" && e.wellFormed && e.arguments.Command? && !e.arguments.background
    && RunsAlone(e.arguments.command)
  }

  lemma CallsAreRecorded(e: Event)
    requires e.ToolCall?
    ensures IsCall(e) <==> RecordOf(e).Some?
    ensures RunsInForeground(e) <==> IsCall(e) && RecordOf(e).value.name == "bash" && RecordOf(e).value.eligible
    ensures RunsInForeground(e) ==> IsHead(RecordOf(e).value.commandHead, e.arguments.command)
  {
    hide SimpleCommand, RunsAlone, Take, IsHead;
    if e.arguments.Command? {
      SimpleMeansAlone(e.arguments.command);
      TakeIsHead(e.arguments.command);
    }
  }

  /** The record is kept among the calls, with at most so many behind it. */
  predicate KeptWithin(calls: seq<Recorded>, call: Recorded, behind: nat) {
    exists k :: 0 <= k < |calls| && calls[k] == call && |calls| - 1 - k <= behind
  }

  lemma {:induction false} KnownOnlyIfCalled(log: seq<Event>, callId: string)
    requires forall k :: 0 <= k < |log| && IsCall(log[k]) ==> log[k].callId != callId
    ensures !Knows(Fold(log).calls, callId)
  {
    hide RecordOf, CallsJustified, ReceiptsJustified;
    FoldIsJustified(log);
    var calls := Fold(log).calls;
    if Knows(calls, callId) {
      var k :| 0 <= k < |calls| && calls[k].callId == callId;
      var i := Justified(log, calls, calls[k]);
      RecordKeepsId(log[i]);
      CallsAreRecorded(log[i]);
    }
  }

  lemma Justified(log: seq<Event>, calls: seq<Recorded>, call: Recorded) returns (i: nat)
    requires CallsJustified(log, calls) && call in calls
    ensures CallAt(log, i, call)
  {
    i :| CallAt(log, i, call);
  }

  lemma {:induction false} CallIsKept(log: seq<Event>, i: nat)
    requires FirstCall(log, i) && Calls(log[i + 1..]) < CALL_INDEX_CAP
    ensures RecordOf(log[i]).Some? && KeptWithin(Fold(log).calls, RecordOf(log[i]).value, Calls(log[i + 1..]))
    decreases |log|
  {
    CallsAreRecorded(log[i]);
    hide RecordOf, FindCall, GoodResult, HasReceipt, FirstText, Take, CALL_INDEX_CAP;
    var prefix, e := log[..|log| - 1], log[|log| - 1];
    var before := Fold(prefix).calls;
    if i == |log| - 1 {
      KnownOnlyIfCalled(prefix, e.callId);
      RecordKeepsId(e);
      assert e.callId == RecordOf(e).value.callId;
      NotFound(before, e.callId);
      PushedLast(before, RecordOf(e).value);
      assert log[i + 1..] == [];
    } else {
      assert log[i + 1..][..|log[i + 1..]| - 1] == prefix[i + 1..];
      assert log[i + 1..][|log[i + 1..]| - 1] == e;
      CallIsKept(prefix, i);
      FoldIsBounded(prefix);
      if e.ToolCall? {
        if RecordOf(e).Some? { PushedBehind(before, RecordOf(log[i]).value, Calls(prefix[i + 1..]), RecordOf(e).value); }
        LooserStill(before, RecordOf(log[i]).value, Calls(prefix[i + 1..]));
      }
    }
  }

  lemma NotFound(calls: seq<Recorded>, callId: string)
    requires !Knows(calls, callId)
    ensures FindCall(calls, callId).None?
  {
  }

  lemma PushedLast(calls: seq<Recorded>, call: Recorded)
    ensures KeptWithin(Push(calls, call, CALL_INDEX_CAP), call, 0)
  {
    var after := Push(calls, call, CALL_INDEX_CAP);
    assert after[|after| - 1] == call;
  }

  lemma PushedBehind(calls: seq<Recorded>, call: Recorded, behind: nat, later: Recorded)
    requires KeptWithin(calls, call, behind) && |calls| <= CALL_INDEX_CAP && behind + 1 < CALL_INDEX_CAP
    ensures KeptWithin(Push(calls, later, CALL_INDEX_CAP), call, behind + 1)
  {
    var k :| 0 <= k < |calls| && calls[k] == call && |calls| - 1 - k <= behind;
    var after := Push(calls, later, CALL_INDEX_CAP);
    var off := if |calls| >= CALL_INDEX_CAP && calls != [] then 1 else 0;
    assert after[k - off] == call;
  }

  lemma LooserStill(calls: seq<Recorded>, call: Recorded, behind: nat)
    requires KeptWithin(calls, call, behind)
    ensures KeptWithin(calls, call, behind + 1)
  {
  }

  lemma {:induction false} FoundIfDistinct(calls: seq<Recorded>, call: Recorded)
    requires DistinctCalls(calls) && call in calls
    ensures FindCall(calls, call.callId) == Some(call)
  {
    if calls[0] == call {
    } else {
      var k :| 0 <= k < |calls| && calls[k] == call;
      assert calls[0].callId != calls[k].callId;
      FoundIfDistinct(calls[1..], call);
    }
  }

  /** What a result meets: the record of the first call of its id, if that has fewer than 512 calls behind it. */
  lemma FirstCallIsFound(log: seq<Event>, i: nat)
    requires FirstCall(log, i) && Calls(log[i + 1..]) < CALL_INDEX_CAP
    ensures RecordOf(log[i]).Some? && FindCall(Fold(log).calls, log[i].callId) == RecordOf(log[i])
  {
    hide Fold, FindCall, Calls, RecordOf;
    CallIsKept(log, i);
    FoldIsBounded(log);
    RecordKeepsId(log[i]);
    FoundIfDistinct(Fold(log).calls, RecordOf(log[i]).value);
  }

  /**
   * A success is recorded: the result of a command that runs in the foreground, alone, whose call was the first of its id and
   * has fewer than 512 calls behind it, becomes the newest receipt if it attests success and the id has no receipt yet.
   */
  lemma SuccessIsRecorded(log: seq<Event>, i: nat, e: Event)
    requires FirstCall(log, i) && Calls(log[i + 1..]) < CALL_INDEX_CAP && RunsInForeground(log[i])
    requires Attests(e) && e.callId == log[i].callId && forall r :: r in Fold(log).verified ==> r.callId != e.callId
    ensures var v, kept := Fold(log + [e]).verified, Fold(log).verified;
      && |v| == (if |kept| < 20 then |kept| + 1 else 20)
      && v[..|v| - 1] == kept[|kept| - (|v| - 1)..]
      && v[|v| - 1].ts == e.time && v[|v| - 1].callId == e.callId && IsHead(v[|v| - 1].commandHead, log[i].arguments.command)
  {
    hide Fold, RunsInForeground, GoodResult, Attests, FindCall, Calls, RecordOf, IsHead;
    FirstCallIsFound(log, i);
    FoldIsBounded(log);
    CallsAreRecorded(log[i]);
    GoodMeansAttests(e);
    GoodResultIsKept(log, e);
    FoldIsBounded(log + [e]);
  }

  /** And no other result is: not one of another call, not one that does not attest success, and not a second one. */
  lemma NothingElseIsRecorded(log: seq<Event>, i: nat, e: Event)
    requires e.ToolResult?
    requires || (FirstCall(log, i) && Calls(log[i + 1..]) < CALL_INDEX_CAP && e.callId == log[i].callId && !RunsInForeground(log[i]))
             || (forall k :: 0 <= k < |log| && IsCall(log[k]) ==> log[k].callId != e.callId)
             || !Attests(e) || (exists r :: r in Fold(log).verified && r.callId == e.callId)
    ensures Fold(log + [e]).verified == Fold(log).verified
  {
    hide RunsInForeground, GoodResult, Attests, FindCall, Calls, RecordOf, Fold;
    GoodMeansAttests(e);
    LastApplied(log, e);
    if forall k :: 0 <= k < |log| && IsCall(log[k]) ==> log[k].callId != e.callId {
      KnownOnlyIfCalled(log, e.callId);
      NotFound(Fold(log).calls, e.callId);
    } else if FirstCall(log, i) && Calls(log[i + 1..]) < CALL_INDEX_CAP && e.callId == log[i].callId && !RunsInForeground(log[i]) {
      FirstCallIsFound(log, i);
      CallsAreRecorded(log[i]);
    }
  }

  lemma LastApplied(log: seq<Event>, e: Event)
    ensures Fold(log + [e]) == Apply(Fold(log), e)
  {
    assert (log + [e])[..|log|] == log;
  }

  // ---------------------------------------------------------------- todos and the last message

  /** The kept todo list is that of the last write. */
  lemma {:induction false} TodosAreTheLast(log: seq<Event>)
    ensures match Fold(log).todos
      case None => forall i :: 0 <= i < |log| ==> !log[i].TodoWrite?
      case Some(todos) => exists i :: 0 <= i < |log| && log[i] == TodoWrite(todos) && forall j :: i < j < |log| ==> !log[j].TodoWrite?
  {
    hide ApplyCall, ApplyResult, FirstText, Take;
    if log == [] {
    } else {
      var prefix, e := log[..|log| - 1], log[|log| - 1];
      TodosAreTheLast(prefix);
      ArmsKeepTodos(Fold(prefix), e);
      if e.TodoWrite? {
        assert log[|log| - 1] == TodoWrite(e.todos);
      } else if Fold(prefix).todos.Some? {
        var todos := Fold(prefix).todos.value;
        var i :| 0 <= i < |prefix| && prefix[i] == TodoWrite(todos) && forall j :: i < j < |prefix| ==> !prefix[j].TodoWrite?;
        assert log[i] == TodoWrite(todos);
      }
    }
  }

  lemma ArmsKeepTodos(s: State, e: Event)
    ensures !e.TodoWrite? ==> Apply(s, e).todos == s.todos
    ensures !e.UserMessage? ==> Apply(s, e).lastUser == s.lastUser
  {
  }

  /** Block `b` is the first text of a genuine user message. */
  predicate Opens(e: Event, b: nat) {
    && e.UserMessage? && e.genuine && b < |e.content| && e.content[b].TextBlock? && e.content[b].text != ""
    && forall c :: 0 <= c < b && e.content[c].TextBlock? ==> e.content[c].text == ""
  }

  predicate SaysNothing(e: Event) {
    !(e.UserMessage? && e.genuine && exists c :: 0 <= c < |e.content| && e.content[c].TextBlock? && e.content[c].text != "")
  }

  /** The message, with its first text cut to 200 characters. */
  predicate IsMessage(u: LastUser, e: Event, b: nat) {
    Opens(e, b) && u.ts == e.time && u.logSeq == e.logSeq && IsHead(u.text, e.content[b].text)
  }

  lemma {:induction false} FirstTextIs(content: seq<Block>) returns (b: nat)
    ensures FirstText(content).None? <==> forall c :: 0 <= c < |content| && content[c].TextBlock? ==> content[c].text == ""
    ensures FirstText(content).Some? ==>
      && b < |content| && content[b] == TextBlock(FirstText(content).value) && content[b].text != ""
      && forall c :: 0 <= c < b && content[c].TextBlock? ==> content[c].text == ""
  {
    b := 0;
    if content == [] || (content[0].TextBlock? && content[0].text != "") {
    } else {
      b := FirstTextIs(content[1..]);
      b := b + 1;
      assert forall c :: 0 < c < |content| ==> content[c] == content[1..][c - 1];
    }
  }

  /** Event `i` is the last one that says something, and `u` is its message. */
  predicate LastMessage(log: seq<Event>, u: LastUser, i: nat, b: nat) {
    i < |log| && IsMessage(u, log[i], b) && forall j :: i < j < |log| ==> SaysNothing(log[j])
  }

  /** The kept message is the last genuine one with a text, cut to 200 characters. */
  lemma {:induction false} LastUserIsTheLast(log: seq<Event>)
    ensures Fold(log).lastUser.None? ==> forall i :: 0 <= i < |log| ==> SaysNothing(log[i])
    ensures Fold(log).lastUser.Some? ==> exists i: nat, b: nat :: LastMessage(log, Fold(log).lastUser.value, i, b)
  {
    hide ApplyCall, ApplyResult, FirstText, SaysNothing, IsMessage;
    if log == [] {
    } else {
      var prefix, e := log[..|log| - 1], log[|log| - 1];
      LastUserIsTheLast(prefix);
      ArmsKeepTodos(Fold(prefix), e);
      var b := MessageStep(Fold(prefix), e);
      if SaysNothing(e) {
        if Fold(prefix).lastUser.Some? {
          var u := Fold(prefix).lastUser.value;
          var i: nat, c: nat :| LastMessage(prefix, u, i, c);
          assert LastMessage(log, u, i, c);
        }
      } else {
        var i: nat := |log| - 1;
        assert LastMessage(log, Fold(log).lastUser.value, i, b);
      }
    }
  }

  lemma MessageStep(s: State, e: Event) returns (b: nat)
    ensures SaysNothing(e) ==> Apply(s, e).lastUser == s.lastUser
    ensures !SaysNothing(e) ==> Apply(s, e).lastUser.Some? && IsMessage(Apply(s, e).lastUser.value, e, b)
  {
    hide ApplyCall, ApplyResult, FirstText;
    b := 0;
    ArmsKeepTodos(s, e);
    if e.UserMessage? { b := FirstTextIs(e.content); }
  }
}
