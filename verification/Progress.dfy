/** The progress projection: a fold over session events that keeps recent tool calls and verified command receipts. */
module Progress {
  import opened Basics

  const VERIFIED_RING_CAP := 20
  const CALL_INDEX_CAP := 512
  const TAIL_LINES := 10
  const COMMAND_HEAD_CHARS := 200

  /** What the arguments of a call parse to; reading a property of JSON `null` throws. */
  datatype Arguments = Unreadable | JsonNull | NoCommand | Command(command: string, background: bool)

  datatype Block = TextBlock(text: string) | OtherBlock

  datatype Todo = Todo(content: string, status: string)

  /** The committed events that some arm reads. A call without a name or argument string is malformed. */
  datatype Event =
    | ToolCall(callId: string, name: string, arguments: Arguments, wellFormed: bool)
    | ToolResult(callId: string, isError: bool, content: seq<Block>, time: int)
    | TodoWrite(todos: seq<Todo>)
    | UserMessage(genuine: bool, content: seq<Block>, time: int, logSeq: nat)
    | Unrelated

  datatype Receipt = Receipt(ts: int, callId: string, commandHead: string)
  datatype Recorded = Recorded(callId: string, name: string, commandHead: string, eligible: bool)
  datatype LastUser = LastUser(ts: int, logSeq: nat, text: string)

  datatype State = State(todos: Option<seq<Todo>>, verified: seq<Receipt>, calls: seq<Recorded>, lastUser: Option<LastUser>)

  const EMPTY := State(None, [], [], None)

  // ---------------------------------------------------------------- texts

  function Take(s: string, n: nat): string { if |s| <= n then s else s[..n] }

  /** No separator, substitution or background operator. */
  predicate SimpleCommand(command: string) {
    forall i :: 0 <= i < |command| ==>
      && command[i] !in {';', '|', '\n', '`', '&'}
      && !(command[i] == '$' && i + 1 < |command| && command[i + 1] == '(')
  }

  function SplitLines(s: string): (lines: seq<string>)
    ensures lines != []
  {
    if s == "" then [""]
    else
      var rest := SplitLines(s[1..]);
      if s[0] == '\n' then [""] + rest else [[s[0]] + rest[0]] + rest[1..]
  }

  function AllLines(content: seq<Block>): seq<string> {
    if content == [] then []
    else (if content[0].TextBlock? then SplitLines(content[0].text) else []) + AllLines(content[1..])
  }

  /** The last ten lines over all text blocks. */
  function TailLines(content: seq<Block>): seq<string> {
    var lines := AllLines(content);
    if |lines| <= TAIL_LINES then lines else lines[|lines| - TAIL_LINES..]
  }

  const FAILURE_MARKERS := [
    "[exit code: ", "[killed by signal: ", "[timed out after ", "[stopped: ", "[still running after ",
    "[sandbox: file access denied under ", "[sandbox: the sandbox runner itself failed under "]

  predicate MarkedLine(line: string) { exists m :: 0 <= m < |FAILURE_MARKERS| && Contains(line, FAILURE_MARKERS[m]) }

  predicate TailHasMarker(content: seq<Block>) {
    exists i :: 0 <= i < |TailLines(content)| && MarkedLine(TailLines(content)[i])
  }

  // ---------------------------------------------------------------- the fold

  predicate Knows(calls: seq<Recorded>, callId: string) { exists i :: 0 <= i < |calls| && calls[i].callId == callId }

  function FindCall(calls: seq<Recorded>, callId: string): (r: Option<Recorded>)
    ensures r.Some? ==> r.value in calls && r.value.callId == callId
    ensures r.None? ==> !Knows(calls, callId)
  {
    if calls == [] then None else if calls[0].callId == callId then Some(calls[0]) else FindCall(calls[1..], callId)
  }

  predicate HasReceipt(verified: seq<Receipt>, callId: string) {
    exists i :: 0 <= i < |verified| && verified[i].callId == callId
  }

  /** The command that a call runs in the foreground, alone. */
  predicate EligibleCall(e: Event) {
    e.ToolCall? && e.wellFormed && e.arguments.Command? && !e.arguments.background && SimpleCommand(e.arguments.command)
  }

  /** `asCallRecord`; `None` where it throws. */
  function RecordOf(e: Event): Option<Recorded>
    requires e.ToolCall?
  {
    if !e.wellFormed then Some(Recorded(e.callId, "", "", false))
    else match e.arguments
      case JsonNull => None
      case Command(command, _) => Some(Recorded(e.callId, e.name, Take(command, COMMAND_HEAD_CHARS), EligibleCall(e)))
      case _ => Some(Recorded(e.callId, e.name, "", false))
  }

  function Push<T>(ring: seq<T>, x: T, cap: nat): seq<T> {
    if |ring| >= cap && ring != [] then ring[1..] + [x] else ring + [x]
  }

  function ApplyCall(s: State, e: Event): State
    requires e.ToolCall?
  {
    if FindCall(s.calls, e.callId).Some? || RecordOf(e).None? then s
    else s.(calls := Push(s.calls, RecordOf(e).value, CALL_INDEX_CAP))
  }

  /** A result that attests success. */
  predicate GoodResult(e: Event) { e.ToolResult? && !e.isError && !TailHasMarker(e.content) }

  function ApplyResult(s: State, e: Event): State
    requires e.ToolResult?
  {
    var call := FindCall(s.calls, e.callId);
    if call.None? || call.value.name != "bash" || !call.value.eligible || !GoodResult(e) || HasReceipt(s.verified, e.callId)
    then s
    else s.(verified := Push(s.verified, Receipt(e.time, e.callId, call.value.commandHead), VERIFIED_RING_CAP))
  }

  /** The first non-empty text. */
  function FirstText(content: seq<Block>): Option<string> {
    if content == [] then None
    else if content[0].TextBlock? && content[0].text != "" then Some(content[0].text)
    else FirstText(content[1..])
  }

  /** `applyProgressRebuild`, without the goal arm. */
  function Apply(s: State, e: Event): State {
    match e
    case ToolCall(_, _, _, _) => ApplyCall(s, e)
    case ToolResult(_, _, _, _) => ApplyResult(s, e)
    case TodoWrite(todos) => s.(todos := Some(todos))
    case UserMessage(genuine, content, time, logSeq) =>
      var text := FirstText(content);
      if !genuine || text.None? then s else s.(lastUser := Some(LastUser(time, logSeq, Take(text.value, COMMAND_HEAD_CHARS))))
    case Unrelated => s
  }

  function Fold(log: seq<Event>): State { if log == [] then EMPTY else Apply(Fold(log[..|log| - 1]), log[|log| - 1]) }

  // ---------------------------------------------------------------- bounds

  predicate DistinctCalls(calls: seq<Recorded>) { forall i, j :: 0 <= i < j < |calls| ==> calls[i].callId != calls[j].callId }
  predicate DistinctReceipts(v: seq<Receipt>) { forall i, j :: 0 <= i < j < |v| ==> v[i].callId != v[j].callId }

  lemma PushCall(calls: seq<Recorded>, call: Recorded)
    requires DistinctCalls(calls) && |calls| <= CALL_INDEX_CAP && !Knows(calls, call.callId)
    ensures DistinctCalls(Push(calls, call, CALL_INDEX_CAP)) && |Push(calls, call, CALL_INDEX_CAP)| <= CALL_INDEX_CAP
  {
  }

  lemma PushReceipt(v: seq<Receipt>, r: Receipt)
    requires DistinctReceipts(v) && |v| <= VERIFIED_RING_CAP && !HasReceipt(v, r.callId)
    ensures DistinctReceipts(Push(v, r, VERIFIED_RING_CAP)) && |Push(v, r, VERIFIED_RING_CAP)| <= VERIFIED_RING_CAP
  {
  }

  /** After any log at most 20 receipts and 512 calls are kept, each with distinct call ids. */
  lemma {:induction false} FoldIsBounded(log: seq<Event>)
    ensures |Fold(log).verified| <= VERIFIED_RING_CAP && DistinctReceipts(Fold(log).verified)
    ensures |Fold(log).calls| <= CALL_INDEX_CAP && DistinctCalls(Fold(log).calls)
  {
    hide Push, GoodResult, RecordOf, FirstText, DistinctCalls, DistinctReceipts, Knows, HasReceipt;
    if log == [] {
      NothingKept();
    } else {
      var before, e := Fold(log[..|log| - 1]), log[|log| - 1];
      FoldIsBounded(log[..|log| - 1]);
      if e.ToolCall? && FindCall(before.calls, e.callId).None? && RecordOf(e).Some? {
        RecordKeepsId(e);
        PushCall(before.calls, RecordOf(e).value);
      }
      if e.ToolResult? && FindCall(before.calls, e.callId).Some? && !HasReceipt(before.verified, e.callId) {
        PushReceipt(before.verified, Receipt(e.time, e.callId, FindCall(before.calls, e.callId).value.commandHead));
      }
    }
  }

  lemma NothingKept()
    ensures DistinctCalls([]) && DistinctReceipts([])
  {
  }

  lemma RecordKeepsId(e: Event)
    requires e.ToolCall? && RecordOf(e).Some?
    ensures RecordOf(e).value.callId == e.callId
  {
  }

  // ---------------------------------------------------------------- justification

  /** A logged call that made a record. */
  predicate CallAt(log: seq<Event>, i: nat, call: Recorded) { i < |log| && log[i].ToolCall? && RecordOf(log[i]) == Some(call) }

  /** A receipt is backed by an earlier eligible bash call and a later good result of it. */
  predicate ReceiptAt(log: seq<Event>, i: nat, j: nat, r: Receipt) {
    && i < j < |log|
    && EligibleCall(log[i]) && log[i].callId == r.callId && log[i].name == "bash"
    && r.commandHead == Take(log[i].arguments.command, COMMAND_HEAD_CHARS)
    && GoodResult(log[j]) && log[j].callId == r.callId && log[j].time == r.ts
  }

  ghost predicate CallsJustified(log: seq<Event>, calls: seq<Recorded>) {
    forall call :: call in calls ==> exists i: nat :: CallAt(log, i, call)
  }

  ghost predicate ReceiptsJustified(log: seq<Event>, v: seq<Receipt>) {
    forall r :: r in v ==> exists i: nat, j: nat :: ReceiptAt(log, i, j, r)
  }

  lemma CallsStay(log: seq<Event>, e: Event, calls: seq<Recorded>)
    requires CallsJustified(log, calls)
    ensures CallsJustified(log + [e], calls)
  {
    hide RecordOf;
    forall call | call in calls ensures exists i: nat :: CallAt(log + [e], i, call) {
      var i: nat :| CallAt(log, i, call);
      assert CallAt(log + [e], i, call);
    }
  }

  lemma ReceiptsStay(log: seq<Event>, e: Event, v: seq<Receipt>)
    requires ReceiptsJustified(log, v)
    ensures ReceiptsJustified(log + [e], v)
  {
    hide EligibleCall, GoodResult, Take;
    forall r | r in v ensures exists i: nat, j: nat :: ReceiptAt(log + [e], i, j, r) {
      var i: nat, j: nat :| ReceiptAt(log, i, j, r);
      assert (log + [e])[i] == log[i] && (log + [e])[j] == log[j];
      assert ReceiptAt(log + [e], i, j, r);
    }
  }

  lemma PushedIsOld<T>(ring: seq<T>, x: T, cap: nat)
    ensures forall y :: y in Push(ring, x, cap) ==> y == x || y in ring
  {
  }

  lemma NewReceipt(log: seq<Event>, s: State, e: Event)
    requires CallsJustified(log, s.calls) && GoodResult(e)
    requires var call := FindCall(s.calls, e.callId); call.Some? && call.value.name == "bash" && call.value.eligible
    ensures exists i: nat, j: nat ::
      ReceiptAt(log + [e], i, j, Receipt(e.time, e.callId, FindCall(s.calls, e.callId).value.commandHead))
  {
    hide SimpleCommand, TailHasMarker, Take;
    var call := FindCall(s.calls, e.callId).value;
    var i: nat :| CallAt(log, i, call);
    assert (log + [e])[i] == log[i] && (log + [e])[|log|] == e;
    assert ReceiptAt(log + [e], i, |log|, Receipt(e.time, e.callId, call.commandHead));
  }

  /**
   * For every log, each kept receipt is backed by an earlier simple foreground bash call and a later result of it that is
   * no error and has no failure marker in its last ten lines, and carries that command's head and that result's time.
   */
  lemma {:induction false} FoldIsJustified(log: seq<Event>)
    ensures CallsJustified(log, Fold(log).calls) && ReceiptsJustified(log, Fold(log).verified)
  {
    hide Push, GoodResult, RecordOf, FirstText, EligibleCall, HasReceipt, CallsJustified, ReceiptsJustified;
    if log == [] {
      NothingToJustify(log);
    } else {
      var prefix, e := log[..|log| - 1], log[|log| - 1];
      var before := Fold(prefix);
      FoldIsJustified(prefix);
      assert prefix + [e] == log;
      CallsStay(prefix, e, before.calls);
      ReceiptsStay(prefix, e, before.verified);
      if e.ToolCall? { CallStep(prefix, before, e); }
      if e.ToolResult? { ResultStep(prefix, before, e); }
    }
  }

  lemma NothingToJustify(log: seq<Event>)
    ensures CallsJustified(log, []) && ReceiptsJustified(log, [])
  {
  }

  lemma CallStep(log: seq<Event>, s: State, e: Event)
    requires e.ToolCall? && CallsJustified(log + [e], s.calls)
    ensures CallsJustified(log + [e], ApplyCall(s, e).calls)
  {
    hide Push, RecordOf;
    if RecordOf(e).Some? {
      assert CallAt(log + [e], |log|, RecordOf(e).value);
      PushedIsOld(s.calls, RecordOf(e).value, CALL_INDEX_CAP);
    }
  }

  lemma ResultStep(log: seq<Event>, s: State, e: Event)
    requires e.ToolResult? && CallsJustified(log, s.calls) && ReceiptsJustified(log + [e], s.verified)
    ensures ReceiptsJustified(log + [e], ApplyResult(s, e).verified)
  {
    hide Push, GoodResult, CallsJustified, HasReceipt, ReceiptAt;
    var t := ApplyResult(s, e);
    if t != s {
      NewReceipt(log, s, e);
      PushedIsOld(s.verified, Receipt(e.time, e.callId, FindCall(s.calls, e.callId).value.commandHead), VERIFIED_RING_CAP);
    }
  }

  /** A good result of a known eligible bash call without a receipt becomes the newest receipt at once. */
  lemma GoodResultIsKept(log: seq<Event>, e: Event)
    requires GoodResult(e) && !HasReceipt(Fold(log).verified, e.callId)
    requires var call := FindCall(Fold(log).calls, e.callId); call.Some? && call.value.name == "bash" && call.value.eligible
    ensures var v := Fold(log + [e]).verified;
      v != [] && v[|v| - 1] == Receipt(e.time, e.callId, FindCall(Fold(log).calls, e.callId).value.commandHead)
    ensures var v, kept := Fold(log + [e]).verified, Fold(log).verified;
      v[..|v| - 1] == if |kept| >= VERIFIED_RING_CAP then kept[1..] else kept
  {
    hide TailHasMarker, FindCall, HasReceipt;
    assert (log + [e])[..|log|] == log;
  }
}
