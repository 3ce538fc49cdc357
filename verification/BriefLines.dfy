/** Every line of a rendered brief, at its place: what it says of the goal, the receipts, the todos and the last message. */
module BriefLines {
  import opened Progress
  import opened Brief

  /** The text, cut to its first 240 characters. */
  predicate IsCut(line: string, text: string) { line <= text && |line| == if |text| <= 240 then |text| else 240 }

  lemma TruncateCuts(text: string)
    ensures IsCut(TruncateLine(text), text)
  {
  }

  /** A todo is checked off exactly if its status is `completed`. */
  predicate TellsTodo(line: string, todo: Todo) {
    IsCut(line, if todo.status == "completed" then "  - [x] " + todo.content else "  - [ ] " + todo.content)
  }

  predicate TellsReceipt(line: string, receipt: Receipt, stamp: int -> string) {
    IsCut(line, "  - " + stamp(receipt.ts) + " `" + receipt.commandHead + "`")
  }

  lemma {:induction false} TodosAreTold(todos: seq<Todo>)
    ensures forall i :: 0 <= i < |todos| ==> TellsTodo(TodoLines(todos)[i], todos[i])
  {
    hide TruncateLine, IsCut;
    if todos == [] {
    } else {
      TodosAreTold(todos[1..]);
      var mark := if todos[0].status == "completed" then "x" else " ";
      TruncateCuts("  - [" + (mark + "] " + todos[0].content));
      assert "  - [" + ("x" + "] " + todos[0].content) == "  - [x] " + todos[0].content;
      assert "  - [" + (" " + "] " + todos[0].content) == "  - [ ] " + todos[0].content;
      forall i | 0 < i < |todos| ensures TellsTodo(TodoLines(todos)[i], todos[i]) { assert todos[i] == todos[1..][i - 1]; }
    }
  }

  lemma {:induction false} ReceiptsAreTold(verified: seq<Receipt>, stamp: int -> string)
    ensures |ReceiptLines(verified, stamp)| == |verified|
    ensures forall i :: 0 <= i < |verified| ==> TellsReceipt(ReceiptLines(verified, stamp)[i], verified[i], stamp)
  {
    hide TruncateLine, IsCut;
    if verified == [] {
    } else {
      ReceiptsAreTold(verified[1..], stamp);
      var r := verified[0];
      TruncateCuts("  - " + stamp(r.ts) + (" `" + r.commandHead + "`"));
      assert "  - " + stamp(r.ts) + (" `" + r.commandHead + "`") == "  - " + stamp(r.ts) + " `" + r.commandHead + "`";
      forall i | 0 < i < |verified| ensures TellsReceipt(ReceiptLines(verified, stamp)[i], verified[i], stamp) {
        assert verified[i] == verified[1..][i - 1];
      }
    }
  }

  /** What is listed: the receipts if they are wanted, and the todos. */
  function Shown(s: State, includeVerified: bool): seq<Receipt> { if includeVerified then s.verified else [] }

  function Listed(s: State): seq<Todo> { if s.todos.Some? then s.todos.value else [] }

  /** How many lines a section has: none if it is empty, else one more than its items. */
  function Section(items: nat): nat { if items == 0 then 0 else 1 + items }

  /** The header, the goal and the receipts, one line each. */
  predicate OpensBrief(lines: Lines, s: State, goal: string, includeVerified: bool, stamp: int -> string) {
    var shown := Shown(s, includeVerified);
    && |lines| >= 3 + Section(|shown|)
    && lines[0] == BRIEF_HEADER && lines[1] == "" && IsCut(lines[2], "- Goal: " + goal)
    && (shown != [] ==> lines[3] == "- " + VERIFIED_HEADER + ":")
    && forall i :: 0 <= i < |shown| ==> TellsReceipt(lines[4 + i], shown[i], stamp)
  }

  /** Then the todos, one line each. */
  predicate ListsTodos(lines: Lines, s: State, at: nat) {
    var listed := Listed(s);
    && |lines| >= at + Section(|listed|)
    && (listed != [] ==> lines[at] == "- Todo snapshot (verbatim):")
    && forall i :: 0 <= i < |listed| ==> TellsTodo(lines[at + 1 + i], listed[i])
  }

  /** Then the notes, with the last message between them, and an empty line. */
  predicate ClosesBrief(lines: Lines, s: State, stamp: int -> string, at: nat) {
    var more := if s.lastUser.Some? then 1 else 0;
    && |lines| == at + 3 + more
    && IsCut(lines[at], STUB_MARKER_NOTE)
    && (s.lastUser.Some? ==>
          IsCut(lines[at + 1], "- Last user instruction at " + stamp(s.lastUser.value.ts) + ": " + s.lastUser.value.text))
    && IsCut(lines[at + 1 + more], NOT_VERIFIED_NOTE)
    && lines[at + 2 + more] == ""
  }

  lemma AboveOpens(s: State, goal: string, includeVerified: bool, stamp: int -> string)
    ensures var above, shown := LinesAbove(s, goal, includeVerified, stamp), Shown(s, includeVerified);
      && |above| == 3 + Section(|shown|) + (if Listed(s) != [] then 1 else 0)
      && OpensBrief(above, s, goal, includeVerified, stamp)
      && (Listed(s) != [] ==> above[|above| - 1] == "- Todo snapshot (verbatim):")
  {
    hide TruncateLine, IsCut, BRIEF_HEADER, VERIFIED_HEADER, ReceiptLines, TellsReceipt;
    var shown := Shown(s, includeVerified);
    TruncateCuts("- Goal: " + goal);
    ReceiptsAreTold(shown, stamp);
    var above := LinesAbove(s, goal, includeVerified, stamp);
    if shown != [] {
      forall i | 0 <= i < |shown| ensures TellsReceipt(above[4 + i], shown[i], stamp) {
        assert above[4 + i] == ReceiptLines(shown, stamp)[i];
      }
    }
  }

  lemma BelowCloses(s: State, stamp: int -> string)
    ensures ClosesBrief(LinesBelow(s, stamp), s, stamp, 0)
  {
    hide TruncateLine, IsCut, STUB_MARKER_NOTE, NOT_VERIFIED_NOTE;
    TruncateCuts(STUB_MARKER_NOTE);
    TruncateCuts(NOT_VERIFIED_NOTE);
    if s.lastUser.Some? { TruncateCuts("- Last user instruction at " + stamp(s.lastUser.value.ts) + ": " + s.lastUser.value.text); }
  }

  lemma OpensLonger(above: Lines, rest: Lines, s: State, goal: string, includeVerified: bool, stamp: int -> string)
    requires OpensBrief(above, s, goal, includeVerified, stamp)
    ensures OpensBrief(above + rest, s, goal, includeVerified, stamp)
  {
    hide IsCut, BRIEF_HEADER, VERIFIED_HEADER, TellsReceipt;
    assert forall i :: 0 <= i < |above| ==> (above + rest)[i] == above[i];
  }

  lemma ClosesLater(front: Lines, below: Lines, s: State, stamp: int -> string)
    requires ClosesBrief(below, s, stamp, 0)
    ensures ClosesBrief(front + below, s, stamp, |front|)
  {
    hide IsCut, STUB_MARKER_NOTE, NOT_VERIFIED_NOTE;
    assert forall i :: 0 <= i < |below| ==> (front + below)[|front| + i] == below[i];
  }

  lemma ListsWithin(above: Lines, below: Lines, s: State)
    requires Listed(s) != [] ==> above != [] && above[|above| - 1] == "- Todo snapshot (verbatim):"
    ensures ListsTodos(above + TodoLines(Listed(s)) + below, s, |above| - if Listed(s) != [] then 1 else 0)
  {
    hide TodoLines, TellsTodo;
    var block := TodoLines(Listed(s));
    TodosAreTold(Listed(s));
    assert forall i :: 0 <= i < |above| ==> (above + block + below)[i] == above[i];
    assert forall i :: 0 <= i < |block| ==> (above + block + below)[|above| + i] == block[i];
  }

  /** Every line of a rendering is one of these, in this order; nothing else is printed before the budget. */
  lemma RenderingSays(s: State, goal: string, includeVerified: bool, stamp: int -> string)
    ensures var lines := RenderLines(s, goal, includeVerified, stamp);
      var todosAt := 3 + Section(|Shown(s, includeVerified)|);
      && OpensBrief(lines, s, goal, includeVerified, stamp)
      && ListsTodos(lines, s, todosAt)
      && ClosesBrief(lines, s, stamp, todosAt + Section(|Listed(s)|))
  {
    hide LinesAbove, LinesBelow, TodoLines, OpensBrief, ListsTodos, ClosesBrief;
    var above, block, below := LinesAbove(s, goal, includeVerified, stamp), TodoLines(Listed(s)), LinesBelow(s, stamp);
    AboveOpens(s, goal, includeVerified, stamp);
    BelowCloses(s, stamp);
    NoTodosToTell();
    OpensLonger(above, block + below, s, goal, includeVerified, stamp);
    assert above + (block + below) == above + block + below;
    ListsWithin(above, below, s);
    ClosesLater(above + block, below, s, stamp);
  }

  lemma NoTodosToTell()
    ensures TodoLines([]) == []
  {
  }

  // ---------------------------------------------------------------- what a pass leaves of the todos

  predicate AreDigits(text: string) { text != "" && forall i :: 0 <= i < |text| ==> '0' <= text[i] <= '9' }

  /** A text of digits read as a decimal number. */
  function Reading(text: string): nat
    requires forall i :: 0 <= i < |text| ==> '0' <= text[i] <= '9'
  {
    if text == "" then 0 else 10 * Reading(text[..|text| - 1]) + (text[|text| - 1] as int - 48)
  }

  /** Counts are printed in decimal, without leading zeros. */
  lemma {:induction false} DigitsRead(n: nat)
    ensures AreDigits(Digits(n)) && Reading(Digits(n)) == n
    ensures |Digits(n)| > 1 ==> Digits(n)[0] != '0'
  {
    if n < 10 {
    } else {
      DigitsRead(n / 10);
      var front := Digits(n / 10);
      assert Digits(n)[..|front|] == front;
      if |front| == 1 { FrontIsNotZero(n / 10); }
    }
  }

  lemma FrontIsNotZero(n: nat)
    requires n > 0 && |Digits(n)| == 1
    ensures Digits(n)[0] != '0'
  {
    if n >= 10 { SomeDigits(n / 10); }
  }

  lemma SomeDigits(n: nat)
    ensures Digits(n) != ""
  {
  }

  /** So many todos in front and at the end, around a note with the number of the others; a third of them in front, at least one. */
  predicate AroundNote(shown: Lines, block: Lines, room: nat, head: nat, count: string) {
    && room < |block| && 1 <= head <= room && 3 * head <= (if room < 3 then 3 else room) < 3 * head + 3
    && AreDigits(count) && Reading(count) == |block| - room
    && shown == block[..head] + [NOTE_OPENING + count + " earlier todos elided)"] + block[|block| - (room - head)..]
  }

  /** What is left of the todos when there is room for so many: all, if they fit; a note alone, if there is no room; else these. */
  ghost predicate Leaves(shown: Lines, block: Lines, room: int) {
    if room >= |block| then shown == block
    else if room <= 0 then shown == [ALL_ELIDED]
    else exists head: nat, count: string :: AroundNote(shown, block, room, head, count)
  }

  lemma BlockLeaves(block: Lines, room: int)
    requires block != []
    ensures Leaves(ElideBlock(block, if room > 0 then room else 0), block, room)
  {
    hide NOTE_OPENING, ALL_ELIDED, Digits, Reading;
    if 0 < room < |block| {
      DigitsRead(|block| - room);
      var head := Head(room);
      assert ElisionMark(|block| - room) == NOTE_OPENING + Digits(|block| - room) + " earlier todos elided)";
      assert AroundNote(ElideBlock(block, room), block, room, head, Digits(|block| - room));
    }
  }

  /** One pass leaves the lines around the todos, and of these what the budget has room for beside the others and a note. */
  lemma PassLeaves(lines: Lines, r: Range, budget: int) returns (shown: Lines)
    requires ValidRange(lines, r)
    ensures ElideTodos(lines, r, budget) == lines[..r.first] + shown + lines[r.last + 1..]
    ensures Leaves(shown, lines[r.first..r.last + 1], budget - (|lines| - (r.last - r.first + 1)) - 1)
  {
    hide Leaves, ElideBlock;
    var block, room := lines[r.first..r.last + 1], budget - (|lines| - (r.last - r.first + 1)) - 1;
    shown := ElideBlock(block, Allowance(lines, r, budget));
    BlockLeaves(block, room);
  }
}
