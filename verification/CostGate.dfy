/** The cost gate: todo completions arm it, an idle agent evaluates it, a fuse and a cooldown keep it in check. */
module CostGate {
  import opened Basics

  const COLD_SHRINK_PRIOR := 0.5
  const DEBT_AMORTIZE_REQUESTS := 5
  const FAILURE_FUSE := 3

  // ---------------------------------------------------------------- the gate arithmetic

  /** A past compaction's price, and the counted requests since. */
  datatype Debt = Debt(tokens: real, requestsSince: nat)

  datatype Price = Price(cacheRead: real, cacheWrite: real)

  datatype GateInput = GateInput(
    contextTokens: real, requests: nat, completedSteps: nat, pendingSteps: nat, lastShrink: Option<real>,
    debt: seq<Debt>, margin: real, price: Option<Price>, windowPressure: Option<real>)

  /** The debt of compactions with fewer than five counted requests since. */
  function DebtTokens(debt: seq<Debt>): real {
    if debt == [] then 0.0
    else
      var last := debt[|debt| - 1];
      DebtTokens(debt[..|debt| - 1]) + if last.requestsSince < DEBT_AMORTIZE_REQUESTS then last.tokens else 0.0
  }

  function RewriteCost(input: GateInput): real { input.contextTokens + DebtTokens(input.debt) }

  function RequestsPerStep(input: GateInput): real {
    var ratio := input.requests as real / (if input.completedSteps > 1 then input.completedSteps else 1) as real;
    if ratio > 1.0 then ratio else 1.0
  }

  function ProjectedSaving(input: GateInput): real {
    if input.pendingSteps == 0 then 0.0
    else
      var shrink := if input.lastShrink.Some? then input.lastShrink.value else COLD_SHRINK_PRIOR;
      input.contextTokens * shrink * RequestsPerStep(input) * input.pendingSteps as real
  }

  /** `evaluateGate`'s decision. */
  predicate Passes(input: GateInput) {
    if input.pendingSteps == 0 then false
    else if input.windowPressure.Some? && input.contextTokens >= input.windowPressure.value then true
    else match input.price
      case Some(price) => ProjectedSaving(input) * price.cacheRead > input.margin * (RewriteCost(input) * price.cacheWrite)
      case None => ProjectedSaving(input) > input.margin * RewriteCost(input)
  }

  method SumDebt(debt: seq<Debt>) returns (tokens: real)
    ensures tokens == DebtTokens(debt)
  {
    tokens := 0.0;
    for i := 0 to |debt|
      invariant tokens == DebtTokens(debt[..i])
    {
      assert debt[..i + 1][..i] == debt[..i];
      if debt[i].requestsSince < DEBT_AMORTIZE_REQUESTS { tokens := tokens + debt[i].tokens; }
    }
    assert debt[..|debt|] == debt;
  }

  lemma ProductGrows(a: real, x: real, y: real)
    requires a >= 0.0 && x <= y
    ensures a * x <= a * y
  {
  }

  /** More debt never makes the gate pass that did not, and nothing passes at the end of the plan. */
  lemma DebtOnlyHoldsBack(input: GateInput, more: seq<Debt>)
    requires input.margin >= 0.0 && (input.price.Some? ==> input.price.value.cacheWrite >= 0.0)
    requires DebtTokens(input.debt) <= DebtTokens(more) && Passes(input.(debt := more))
    ensures Passes(input) && input.pendingSteps > 0
  {
    hide ProjectedSaving, DebtTokens;
    var cost, dearer := RewriteCost(input), RewriteCost(input.(debt := more));
    assert ProjectedSaving(input) == ProjectedSaving(input.(debt := more)) by { SavingIgnoresDebt(input, more); }
    ProductGrows(input.margin, cost, dearer);
    if input.price.Some? {
      ProductGrows(input.price.value.cacheWrite, cost, dearer);
      ProductGrows(input.margin, cost * input.price.value.cacheWrite, dearer * input.price.value.cacheWrite);
    }
  }

  lemma SavingIgnoresDebt(input: GateInput, more: seq<Debt>)
    ensures ProjectedSaving(input) == ProjectedSaving(input.(debt := more))
  {
    assert RequestsPerStep(input) == RequestsPerStep(input.(debt := more));
  }

  /** What the saving is worth per context token. */
  function SavingRate(input: GateInput): real {
    (if input.lastShrink.Some? then input.lastShrink.value else COLD_SHRINK_PRIOR) * RequestsPerStep(input) * input.pendingSteps as real
  }

  lemma SavingByRate(input: GateInput)
    requires input.pendingSteps > 0
    ensures ProjectedSaving(input) == input.contextTokens * SavingRate(input)
  {
    var shrink := if input.lastShrink.Some? then input.lastShrink.value else COLD_SHRINK_PRIOR;
    var perStep, pending := RequestsPerStep(input), input.pendingSteps as real;
    assert input.contextTokens * shrink * perStep * pending == input.contextTokens * (shrink * perStep * pending);
  }

  /** The prices the comparison is made at; without a price row it stays in tokens. */
  function ReadPrice(input: GateInput): real { if input.price.Some? then input.price.value.cacheRead else 1.0 }

  function WritePrice(input: GateInput): real { if input.price.Some? then input.price.value.cacheWrite else 1.0 }

  /** Once the context reaches the pressure mark only the end of the plan holds the gate shut; below it the mark is moot. */
  lemma PressureOverrides(input: GateInput, mark: real)
    ensures input.contextTokens >= mark ==> (Passes(input.(windowPressure := Some(mark))) <==> input.pendingSteps > 0)
    ensures input.contextTokens < mark ==>
      (Passes(input.(windowPressure := Some(mark))) <==> Passes(input.(windowPressure := None)))
  {
    hide DebtTokens;
    SavingIgnoresPressure(input, Some(mark));
    SavingIgnoresPressure(input, None);
  }

  lemma SavingIgnoresPressure(input: GateInput, mark: Option<real>)
    ensures ProjectedSaving(input.(windowPressure := mark)) == ProjectedSaving(input)
    ensures RewriteCost(input.(windowPressure := mark)) == RewriteCost(input)
  {
    hide DebtTokens;
    assert RequestsPerStep(input.(windowPressure := mark)) == RequestsPerStep(input);
  }

  /**
   * The break-even line: short of the pressure mark the gate passes exactly when the context, at its net saving per
   * token, earns more than what the open debt is charged with.
   */
  lemma BreakEven(input: GateInput)
    requires input.windowPressure.Some? ==> input.contextTokens < input.windowPressure.value
    ensures Passes(input) <==>
      input.pendingSteps > 0
      && input.contextTokens * (SavingRate(input) * ReadPrice(input) - input.margin * WritePrice(input))
         > input.margin * WritePrice(input) * DebtTokens(input.debt)
  {
    hide SavingRate, ProjectedSaving, DebtTokens;
    if input.pendingSteps > 0 {
      SavingByRate(input);
      Balance(input.contextTokens, SavingRate(input), ReadPrice(input), input.margin, WritePrice(input), DebtTokens(input.debt));
    }
  }

  /** Both sides of the comparison with the context's terms collected on the left. */
  lemma Balance(c: real, rate: real, read: real, m: real, write: real, debt: real)
    ensures c * rate * read > m * ((c + debt) * write) <==> c * (rate * read - m * write) > m * write * debt
  {
    assert c * (rate * read - m * write) == c * rate * read - c * (m * write) by {
      assert c * (rate * read) == c * rate * read;
      Distribute(c, rate * read, m * write);
    }
    assert m * ((c + debt) * write) == c * (m * write) + m * write * debt by {
      assert (c + debt) * write == c * write + debt * write;
      assert m * (c * write) == c * (m * write);
      assert m * (debt * write) == m * write * debt;
    }
  }

  lemma Distribute(c: real, x: real, y: real)
    ensures c * (x - y) == c * x - c * y
  {
  }

  /** Dearer cache reads and cheaper cache writes only help, for it is reads that are saved and writes that are paid. */
  lemma PricesHelp(input: GateInput, better: Price)
    requires input.price.Some? && Passes(input) && input.margin >= 0.0
    requires ProjectedSaving(input) >= 0.0 && RewriteCost(input) >= 0.0
    requires better.cacheRead >= input.price.value.cacheRead && better.cacheWrite <= input.price.value.cacheWrite
    ensures Passes(input.(price := Some(better)))
  {
    hide SavingRate, ProjectedSaving, DebtTokens;
    var price := input.price.value;
    assert ProjectedSaving(input.(price := Some(better))) == ProjectedSaving(input) by { SavingIgnoresPrice(input, better); }
    ProductGrows(ProjectedSaving(input), price.cacheRead, better.cacheRead);
    ProductGrows(RewriteCost(input), better.cacheWrite, price.cacheWrite);
    ProductGrows(input.margin, RewriteCost(input) * better.cacheWrite, RewriteCost(input) * price.cacheWrite);
  }

  lemma SavingIgnoresPrice(input: GateInput, better: Price)
    ensures ProjectedSaving(input.(price := Some(better))) == ProjectedSaving(input)
  {
    assert RequestsPerStep(input.(price := Some(better))) == RequestsPerStep(input);
  }

  // ---------------------------------------------------------------- todo lists

  datatype Status = Pending | InProgress | Completed
  datatype Todo = Todo(content: string, status: Status)

  type Snapshot = map<string, Status>

  /** The stored content → status map; of repeated contents the last one counts. */
  function SnapshotOf(todos: seq<Todo>): (snapshot: Snapshot)
    ensures forall c :: c in snapshot <==> exists i :: 0 <= i < |todos| && todos[i].content == c
  {
    if todos == [] then map[] else SnapshotOf(todos[..|todos| - 1])[todos[|todos| - 1].content := todos[|todos| - 1].status]
  }

  predicate NewlyCompleted(before: Snapshot, todo: Todo) {
    todo.status == Completed && !(todo.content in before && before[todo.content] == Completed)
  }

  /** `diffTodos(...).armed`. */
  predicate Arms(before: Snapshot, todos: seq<Todo>) { exists i :: 0 <= i < |todos| && NewlyCompleted(before, todos[i]) }

  /** The newly completed contents, in list order. */
  function NewlyIn(before: Snapshot, todos: seq<Todo>): seq<string> {
    if todos == [] then []
    else
      var last := todos[|todos| - 1];
      NewlyIn(before, todos[..|todos| - 1]) + if NewlyCompleted(before, last) then [last.content] else []
  }

  /** The boundary arms exactly when something was newly completed. */
  lemma {:induction false} ArmsMeansNewly(before: Snapshot, todos: seq<Todo>)
    ensures Arms(before, todos) <==> NewlyIn(before, todos) != []
  {
    hide NewlyCompleted;
    if todos == [] {
    } else {
      ArmsMeansNewly(before, todos[..|todos| - 1]);
      if Arms(before, todos[..|todos| - 1]) {
        var i :| 0 <= i < |todos| - 1 && NewlyCompleted(before, todos[..|todos| - 1][i]);
        assert NewlyCompleted(before, todos[i]);
      }
    }
  }

  function CompletedIn(snapshot: Snapshot): nat { |set c | c in snapshot && snapshot[c] == Completed| }
  function PendingIn(snapshot: Snapshot): nat { |set c | c in snapshot && snapshot[c] != Completed| }

  /** The two counts add up to the distinct contents. */
  lemma CountsAddUp(snapshot: Snapshot)
    ensures CompletedIn(snapshot) + PendingIn(snapshot) == |snapshot|
  {
    var done := set c | c in snapshot && snapshot[c] == Completed;
    var open := set c | c in snapshot && snapshot[c] != Completed;
    assert done + open == snapshot.Keys && done !! open;
  }

  /** A later todo of the same content has another status than completed. */
  predicate Reopened(todos: seq<Todo>, i: nat)
    requires i < |todos|
  {
    SnapshotOf(todos)[todos[i].content] != Completed
  }

  lemma {:induction false} SnapshotIsLast(todos: seq<Todo>, i: nat)
    requires i < |todos| && forall j :: i < j < |todos| ==> todos[j].content != todos[i].content
    ensures SnapshotOf(todos)[todos[i].content] == todos[i].status
  {
    if i == |todos| - 1 {
    } else {
      SnapshotIsLast(todos[..|todos| - 1], i);
    }
  }

  /** Sending a list again arms exactly if a completed todo is repeated further down in another status. */
  lemma ResendingArms(todos: seq<Todo>)
    ensures Arms(SnapshotOf(todos), todos)
       <==> exists i :: 0 <= i < |todos| && todos[i].status == Completed && Reopened(todos, i)
  {
    hide SnapshotOf;
    if Arms(SnapshotOf(todos), todos) {
      var i :| 0 <= i < |todos| && NewlyCompleted(SnapshotOf(todos), todos[i]);
      assert todos[i].status == Completed && Reopened(todos, i);
    }
    if exists i :: 0 <= i < |todos| && todos[i].status == Completed && Reopened(todos, i) {
      var i :| 0 <= i < |todos| && todos[i].status == Completed && Reopened(todos, i);
      assert NewlyCompleted(SnapshotOf(todos), todos[i]);
    }
  }

  /** With distinct contents a list sent again never arms. */
  lemma DistinctNeverRearms(todos: seq<Todo>)
    requires forall i, j :: 0 <= i < j < |todos| ==> todos[i].content != todos[j].content
    ensures !Arms(SnapshotOf(todos), todos)
  {
    hide SnapshotOf;
    ResendingArms(todos);
    forall i | 0 <= i < |todos| && todos[i].status == Completed ensures !Reopened(todos, i) { SnapshotIsLast(todos, i); }
  }

  /** `diffTodos` as the source runs it: three loops over a map, a list and two counters. */
  method DiffTodos(before: Snapshot, todos: seq<Todo>)
    returns (armed: bool, newly: seq<string>, completed: nat, pending: nat, snapshot: Snapshot)
    ensures snapshot == SnapshotOf(todos) && armed == Arms(before, todos)
    ensures completed == CompletedIn(snapshot) && pending == PendingIn(snapshot)
    ensures newly == NewlyIn(before, todos)
  {
    hide CompletedIn, PendingIn, NewlyCompleted, Arms;
    snapshot := map[];
    for i := 0 to |todos|
      invariant snapshot == SnapshotOf(todos[..i])
    {
      assert todos[..i + 1][..i] == todos[..i];
      snapshot := snapshot[todos[i].content := todos[i].status];
    }
    assert todos[..|todos|] == todos;
    newly := [];
    for i := 0 to |todos|
      invariant newly == NewlyIn(before, todos[..i])
    {
      assert todos[..i + 1][..i] == todos[..i];
      if NewlyCompleted(before, todos[i]) { newly := newly + [todos[i].content]; }
    }
    ArmsMeansNewly(before, todos);
    armed := newly != [];
    completed, pending := CountStatuses(snapshot);
  }

  method CountStatuses(snapshot: Snapshot) returns (completed: nat, pending: nat)
    ensures completed == CompletedIn(snapshot) && pending == PendingIn(snapshot)
  {
    hide Seen;
    completed, pending := 0, 0;
    var rest := snapshot.Keys;
    NoneSeen(snapshot);
    ghost var done: set<string>, open: set<string> := {}, {};
    while rest != {}
      invariant rest <= snapshot.Keys
      invariant done == Seen(snapshot, rest, true) && completed == |done|
      invariant open == Seen(snapshot, rest, false) && pending == |open|
      decreases rest
    {
      var c :| c in rest;
      OneMore(snapshot, rest, c);
      if snapshot[c] == Completed {
        completed, done := completed + 1, done + {c};
      } else {
        pending, open := pending + 1, open + {c};
      }
      rest := rest - {c};
    }
    AllSeen(snapshot);
  }

  /** The contents counted so far, of one of the two kinds. */
  ghost function Seen(snapshot: Snapshot, rest: set<string>, completed: bool): set<string> {
    set c | c in snapshot && c !in rest && (snapshot[c] == Completed) == completed
  }

  lemma NoneSeen(snapshot: Snapshot)
    ensures Seen(snapshot, snapshot.Keys, true) == {} && Seen(snapshot, snapshot.Keys, false) == {}
  {
  }

  lemma OneMore(snapshot: Snapshot, rest: set<string>, c: string)
    requires c in rest && rest <= snapshot.Keys
    ensures c !in Seen(snapshot, rest, true) && c !in Seen(snapshot, rest, false)
    ensures Seen(snapshot, rest - {c}, true) == Seen(snapshot, rest, true) + if snapshot[c] == Completed then {c} else {}
    ensures Seen(snapshot, rest - {c}, false) == Seen(snapshot, rest, false) + if snapshot[c] == Completed then {} else {c}
  {
  }

  lemma AllSeen(snapshot: Snapshot)
    ensures |Seen(snapshot, {}, true)| == CompletedIn(snapshot) && |Seen(snapshot, {}, false)| == PendingIn(snapshot)
  {
    assert Seen(snapshot, {}, true) == set c | c in snapshot && snapshot[c] == Completed;
    assert Seen(snapshot, {}, false) == set c | c in snapshot && snapshot[c] != Completed;
  }
}
