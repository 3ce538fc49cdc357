/** The context crusher's two compressors, line by line: what they keep, what they drop, and what they move. */
module CrusherRouter {
  import opened Basics

  type Lines = seq<string>

  // ---------------------------------------------------------------- logs

  const KEEP_HEAD := 3

  /** An output line of log compression: an input line, or a printed count of left-out ones. */
  datatype LogOut = Kept(line: string) | Elided(count: nat)

  /** A line that may be left out: it carries no signal and is not empty. */
  predicate Plain(line: string, signal: string -> bool) { !signal(line) && line != "" }

  predicate AllPlain(lines: Lines, signal: string -> bool) { forall i :: 0 <= i < |lines| ==> Plain(lines[i], signal) }

  function KeepAll(lines: Lines): (out: seq<LogOut>)
    ensures |out| == |lines| && forall i :: 0 <= i < |out| ==> out[i] == Kept(lines[i])
  {
    seq(|lines|, i requires 0 <= i < |lines| => Kept(lines[i]))
  }

  /** What `flush` pushes for a run of plain lines. */
  function FlushRun(run: Lines): seq<LogOut> {
    if |run| <= KEEP_HEAD then KeepAll(run) else KeepAll(run[..KEEP_HEAD]) + [Elided(|run| - KEEP_HEAD)]
  }

  /** The output pushed so far and the open run, after some lines. */
  datatype LogState = LogState(out: seq<LogOut>, run: Lines)

  function LogAfter(lines: Lines, signal: string -> bool): LogState {
    if lines == [] then LogState([], [])
    else
      var before, line := LogAfter(lines[..|lines| - 1], signal), lines[|lines| - 1];
      if Plain(line, signal) then before.(run := before.run + [line])
      else LogState(before.out + FlushRun(before.run) + [Kept(line)], [])
  }

  /** `compressLog` on the split text. */
  function CompressLog(lines: Lines, signal: string -> bool): seq<LogOut> {
    LogAfter(lines, signal).out + FlushRun(LogAfter(lines, signal).run)
  }

  method RunCompressLog(lines: Lines, signal: string -> bool) returns (out: seq<LogOut>)
    ensures out == CompressLog(lines, signal)
  {
    hide FlushRun;
    out := [];
    var run: Lines := [];
    for i := 0 to |lines|
      invariant LogState(out, run) == LogAfter(lines[..i], signal)
    {
      assert lines[..i + 1][..i] == lines[..i];
      if signal(lines[i]) || lines[i] == "" {
        out := out + FlushRun(run) + [Kept(lines[i])];
        run := [];
      } else {
        run := run + [lines[i]];
      }
    }
    assert lines[..|lines|] == lines;
    out := out + FlushRun(run);
  }

  /** The output tells where every input line went: kept in place, or counted among a stretch of plain lines. */
  predicate Weaves(out: seq<LogOut>, lines: Lines, signal: string -> bool) {
    if out == [] then lines == []
    else match out[0]
      case Kept(line) => lines != [] && lines[0] == line && Weaves(out[1..], lines[1..], signal)
      case Elided(n) => 0 < n <= |lines| && AllPlain(lines[..n], signal) && Weaves(out[1..], lines[n..], signal)
  }

  lemma {:induction false} WeavesPlus(a: seq<LogOut>, x: Lines, b: seq<LogOut>, y: Lines, signal: string -> bool)
    requires Weaves(a, x, signal) && Weaves(b, y, signal)
    ensures Weaves(a + b, x + y, signal)
  {
    if a == [] {
      assert a + b == b && x + y == y;
    } else {
      var n := if a[0].Kept? then 1 else a[0].count;
      WeavesPlus(a[1..], x[n..], b, y, signal);
      assert (a + b)[1..] == a[1..] + b;
      assert (x + y)[n..] == x[n..] + y && (x + y)[..n] == x[..n];
    }
  }

  lemma {:induction false} KeepAllWeaves(lines: Lines, signal: string -> bool)
    ensures Weaves(KeepAll(lines), lines, signal)
  {
    if lines == [] {
    } else {
      KeepAllWeaves(lines[1..], signal);
      assert KeepAll(lines)[1..] == KeepAll(lines[1..]);
    }
  }

  lemma ElidedWeaves(lines: Lines, signal: string -> bool)
    requires lines != [] && AllPlain(lines, signal)
    ensures Weaves([Elided(|lines|)], lines, signal)
  {
    assert lines[..|lines|] == lines && lines[|lines|..] == [];
    assert [Elided(|lines|)][1..] == [];
  }

  lemma FlushWeaves(run: Lines, signal: string -> bool)
    requires AllPlain(run, signal)
    ensures Weaves(FlushRun(run), run, signal)
  {
    hide Weaves, Plain;
    if |run| <= KEEP_HEAD {
      KeepAllWeaves(run, signal);
    } else {
      KeepAllWeaves(run[..KEEP_HEAD], signal);
      ElidedWeaves(run[KEEP_HEAD..], signal);
      WeavesPlus(KeepAll(run[..KEEP_HEAD]), run[..KEEP_HEAD], [Elided(|run| - KEEP_HEAD)], run[KEEP_HEAD..], signal);
      assert run[..KEEP_HEAD] + run[KEEP_HEAD..] == run;
    }
  }

  /** What has been pushed accounts for everything before the open run, which is plain. */
  lemma {:induction false} StateWeaves(lines: Lines, signal: string -> bool)
    ensures var s := LogAfter(lines, signal);
      && |s.run| <= |lines| && lines[|lines| - |s.run|..] == s.run && AllPlain(s.run, signal)
      && Weaves(s.out, lines[..|lines| - |s.run|], signal)
  {
    hide Weaves, Plain, FlushRun;
    if lines == [] {
      NothingWeaves(signal);
    } else {
      var prefix, line := lines[..|lines| - 1], lines[|lines| - 1];
      StateWeaves(prefix, signal);
      var s := LogAfter(prefix, signal);
      var cut := |prefix| - |s.run|;
      if Plain(line, signal) {
        assert lines[..cut] == prefix[..cut];
        assert lines[cut..] == s.run + [line];
      } else {
        assert prefix[..cut] + s.run == prefix;
        FlushedLineWeaves(s.out, prefix[..cut], s.run, line, signal);
        assert prefix + [line] == lines && lines[..|lines|] == lines;
      }
    }
  }

  /** Flushing the open run and keeping the line after it. */
  lemma FlushedLineWeaves(out: seq<LogOut>, done: Lines, run: Lines, line: string, signal: string -> bool)
    requires Weaves(out, done, signal) && AllPlain(run, signal)
    ensures Weaves(out + FlushRun(run) + [Kept(line)], done + run + [line], signal)
  {
    hide Weaves, Plain, FlushRun;
    FlushWeaves(run, signal);
    WeavesPlus(out, done, FlushRun(run), run, signal);
    KeepAllWeaves([line], signal);
    assert KeepAll([line]) == [Kept(line)];
    WeavesPlus(out + FlushRun(run), done + run, [Kept(line)], [line], signal);
  }

  lemma NothingWeaves(signal: string -> bool)
    ensures Weaves([], [], signal)
  {
  }

  /** Log compression accounts for every input line, and leaves out plain ones only. */
  lemma LogWeaves(lines: Lines, signal: string -> bool)
    ensures Weaves(CompressLog(lines, signal), lines, signal)
  {
    hide Weaves, Plain, FlushRun, LogAfter;
    StateWeaves(lines, signal);
    var s := LogAfter(lines, signal);
    var cut := |lines| - |s.run|;
    FlushWeaves(s.run, signal);
    WeavesPlus(s.out, lines[..cut], FlushRun(s.run), s.run, signal);
    assert lines[..cut] + s.run == lines;
  }

  /** Kept lines plus printed counts. */
  function Total(out: seq<LogOut>): nat {
    if out == [] then 0 else (if out[0].Kept? then 1 else out[0].count) + Total(out[1..])
  }

  function KeptLines(out: seq<LogOut>): Lines {
    if out == [] then [] else (if out[0].Kept? then [out[0].line] else []) + KeptLines(out[1..])
  }

  /** The lines that are not plain, in order. */
  function Signals(lines: Lines, signal: string -> bool): Lines {
    if lines == [] then [] else (if Plain(lines[0], signal) then [] else [lines[0]]) + Signals(lines[1..], signal)
  }

  lemma {:induction false} PlainHasNoSignals(lines: Lines, n: nat, signal: string -> bool)
    requires n <= |lines| && AllPlain(lines[..n], signal)
    ensures Signals(lines, signal) == Signals(lines[n..], signal)
  {
    hide Plain;
    if n == 0 {
      assert lines[0..] == lines;
    } else {
      assert lines[..n][0] == lines[0];
      var rest := lines[1..][..n - 1];
      forall i | 0 <= i < |rest| ensures Plain(rest[i], signal) { assert rest[i] == lines[..n][i + 1]; }
      PlainHasNoSignals(lines[1..], n - 1, signal);
      assert lines[1..][n - 1..] == lines[n..];
    }
  }

  /** Whatever weaves conserves the line count, and keeps every signal and empty line, in order. */
  lemma {:induction false} WeavesConserves(out: seq<LogOut>, lines: Lines, signal: string -> bool)
    requires Weaves(out, lines, signal)
    ensures Total(out) == |lines|
    ensures Signals(KeptLines(out), signal) == Signals(lines, signal)
  {
    hide Plain;
    if out == [] {
    } else {
      var n := if out[0].Kept? then 1 else out[0].count;
      WeavesConserves(out[1..], lines[n..], signal);
      if out[0].Kept? {
        assert KeptLines(out)[1..] == KeptLines(out[1..]);
      } else {
        PlainHasNoSignals(lines, n, signal);
        assert [] + KeptLines(out[1..]) == KeptLines(out[1..]);
      }
    }
  }

  /** The lines that survive: signals and empty lines, and plain ones with fewer than three plain lines right before. */
  function Survivors(lines: Lines, before: nat, signal: string -> bool): Lines {
    if lines == [] then []
    else if !Plain(lines[0], signal) then [lines[0]] + Survivors(lines[1..], 0, signal)
    else (if before < KEEP_HEAD then [lines[0]] else []) + Survivors(lines[1..], before + 1, signal)
  }

  lemma {:induction false} KeptPlus(a: seq<LogOut>, b: seq<LogOut>)
    ensures KeptLines(a + b) == KeptLines(a) + KeptLines(b)
  {
    if a == [] {
      assert a + b == b && [] + KeptLines(b) == KeptLines(b);
    } else {
      KeptPlus(a[1..], b);
      assert (a + b)[1..] == a[1..] + b;
      var first := if a[0].Kept? then [a[0].line] else [];
      Joined(first, KeptLines(a[1..]), KeptLines(b));
    }
  }

  lemma Joined(a: Lines, b: Lines, c: Lines)
    ensures a + (b + c) == (a + b) + c
  {
  }

  lemma {:induction false} KeptOfAll(lines: Lines)
    ensures KeptLines(KeepAll(lines)) == lines
  {
    if lines == [] {
    } else {
      KeptOfAll(lines[1..]);
      assert KeepAll(lines)[1..] == KeepAll(lines[1..]);
    }
  }

  lemma KeptOfRun(run: Lines)
    ensures KeptLines(FlushRun(run)) == if |run| <= KEEP_HEAD then run else run[..KEEP_HEAD]
  {
    hide KeptLines;
    if |run| <= KEEP_HEAD {
      KeptOfAll(run);
    } else {
      KeptOfAll(run[..KEEP_HEAD]);
      KeptPlus(KeepAll(run[..KEEP_HEAD]), [Elided(|run| - KEEP_HEAD)]);
      NoLineElided(|run| - KEEP_HEAD);
    }
  }

  lemma NoLineElided(n: nat)
    ensures KeptLines([Elided(n)]) == []
  {
  }

  /** The number of plain lines at the very end. */
  function PlainTail(lines: Lines, before: nat, signal: string -> bool): nat {
    if lines == [] then before else PlainTail(lines[1..], if Plain(lines[0], signal) then before + 1 else 0, signal)
  }

  lemma {:induction false} SurvivorsGrow(lines: Lines, line: string, before: nat, signal: string -> bool)
    ensures PlainTail(lines + [line], before, signal) == if Plain(line, signal) then PlainTail(lines, before, signal) + 1 else 0
    ensures Survivors(lines + [line], before, signal)
         == Survivors(lines, before, signal)
            + if Plain(line, signal) && PlainTail(lines, before, signal) >= KEEP_HEAD then [] else [line]
  {
    hide Plain;
    if lines == [] {
      assert lines + [line] == [line] && [line][1..] == [];
    } else {
      SurvivorsGrow(lines[1..], line, if Plain(lines[0], signal) then before + 1 else 0, signal);
      assert (lines + [line])[1..] == lines[1..] + [line];
    }
  }

  lemma {:induction false} StateSurvivors(lines: Lines, signal: string -> bool)
    ensures var s := LogAfter(lines, signal);
      && KeptLines(s.out) + (if |s.run| <= KEEP_HEAD then s.run else s.run[..KEEP_HEAD]) == Survivors(lines, 0, signal)
      && |s.run| == PlainTail(lines, 0, signal)
  {
    hide Plain, FlushRun, Survivors, PlainTail, KeptLines;
    if lines == [] {
      NoSurvivors(signal);
    } else {
      var prefix, line := lines[..|lines| - 1], lines[|lines| - 1];
      StateSurvivors(prefix, signal);
      SurvivorsGrow(prefix, line, 0, signal);
      assert prefix + [line] == lines;
      var s := LogAfter(prefix, signal);
      if !Plain(line, signal) {
        KeptOfRun(s.run);
        KeptPlus(s.out, FlushRun(s.run));
        KeptPlus(s.out + FlushRun(s.run), [Kept(line)]);
        KeptOfAll([line]);
        assert KeepAll([line]) == [Kept(line)];
      }
    }
  }

  lemma NoSurvivors(signal: string -> bool)
    ensures Survivors([], 0, signal) == [] && PlainTail([], 0, signal) == 0 && KeptLines([]) == []
  {
  }

  /** Exactly the lines with three plain lines right before them are left out of their run; all others are kept. */
  lemma LogKeepsSurvivors(lines: Lines, signal: string -> bool)
    ensures KeptLines(CompressLog(lines, signal)) == Survivors(lines, 0, signal)
  {
    hide Plain, FlushRun, Survivors, PlainTail, KeptLines, LogAfter;
    StateSurvivors(lines, signal);
    var s := LogAfter(lines, signal);
    KeptOfRun(s.run);
    KeptPlus(s.out, FlushRun(s.run));
  }

  // ---------------------------------------------------------------- search results

  /** A `file:line:content` row, taken apart. */
  datatype Row = Row(file: string, rest: string)

  /** The row pattern as a partial split, whose parts joined again give the line back. */
  type Splitter = string -> Option<Row>

  ghost predicate Rejoins(split: Splitter) {
    forall line :: split(line).Some? ==> split(line).value.file + ":" + split(line).value.rest == line
  }

  datatype Cluster = Cluster(file: string, rows: seq<string>)

  /** Lines that are no rows, then the rows per file, files in order of first appearance. */
  datatype Search = Search(loose: Lines, clusters: seq<Cluster>)

  /** Add a row to its file's cluster, or open one at the end. */
  function AddRow(clusters: seq<Cluster>, row: Row): seq<Cluster> {
    if clusters == [] then [Cluster(row.file, [row.rest])]
    else if clusters[0].file == row.file then [clusters[0].(rows := clusters[0].rows + [row.rest])] + clusters[1..]
    else [clusters[0]] + AddRow(clusters[1..], row)
  }

  /** `compressSearch` on the split text. */
  function CompressSearch(lines: Lines, split: Splitter): Search {
    if lines == [] then Search([], [])
    else
      var before, line := CompressSearch(lines[..|lines| - 1], split), lines[|lines| - 1];
      match split(line)
      case None => before.(loose := before.loose + [line])
      case Some(row) => before.(clusters := AddRow(before.clusters, row))
  }

  /** The printed lines: one header per cluster, then its rows. */
  function PrintClusters(clusters: seq<Cluster>): Lines {
    if clusters == [] then [] else ["== " + clusters[0].file + " =="] + clusters[0].rows + PrintClusters(clusters[1..])
  }

  method RunCompressSearch(lines: Lines, split: Splitter) returns (out: Lines)
    ensures out == CompressSearch(lines, split).loose + PrintClusters(CompressSearch(lines, split).clusters)
  {
    hide AddRow, PrintClusters;
    var loose: Lines, clusters: seq<Cluster> := [], [];
    for i := 0 to |lines|
      invariant Search(loose, clusters) == CompressSearch(lines[..i], split)
    {
      assert lines[..i + 1][..i] == lines[..i];
      match split(lines[i])
      case None => loose := loose + [lines[i]];
      case Some(row) => clusters := AddRow(clusters, row);
    }
    assert lines[..|lines|] == lines;
    out := loose;
    var printed: Lines := [];
    NothingPrinted();
    for i := 0 to |clusters|
      invariant out == loose + printed && printed == PrintClusters(clusters[..i])
    {
      PrintedGrows(clusters[..i], clusters[i]);
      assert clusters[..i] + [clusters[i]] == clusters[..i + 1];
      var block := ["== " + clusters[i].file + " =="] + clusters[i].rows;
      printed := printed + block;
      out := out + block;
    }
    assert clusters[..|clusters|] == clusters;
  }

  lemma NothingPrinted()
    ensures PrintClusters([]) == []
  {
  }

  lemma {:induction false} PrintedGrows(clusters: seq<Cluster>, last: Cluster)
    ensures PrintClusters(clusters + [last]) == PrintClusters(clusters) + (["== " + last.file + " =="] + last.rows)
  {
    if clusters == [] {
      assert clusters + [last] == [last] && [last][1..] == [];
    } else {
      PrintedGrows(clusters[1..], last);
      assert (clusters + [last])[1..] == clusters[1..] + [last];
    }
  }

  /** The rows of one file, in input order. */
  function RowsOf(lines: Lines, split: Splitter, file: string): seq<string> {
    if lines == [] then []
    else
      var before, row := RowsOf(lines[..|lines| - 1], split, file), split(lines[|lines| - 1]);
      if row.Some? && row.value.file == file then before + [row.value.rest] else before
  }

  function LooseLines(lines: Lines, split: Splitter): Lines {
    if lines == [] then []
    else
      var before, line := LooseLines(lines[..|lines| - 1], split), lines[|lines| - 1];
      if split(line).None? then before + [line] else before
  }

  predicate DistinctFiles(clusters: seq<Cluster>) { forall i, j :: 0 <= i < j < |clusters| ==> clusters[i].file != clusters[j].file }

  predicate HasFile(clusters: seq<Cluster>, file: string) { exists i :: 0 <= i < |clusters| && clusters[i].file == file }

  /** What a cluster list holds for a file; nothing if it has no cluster. */
  function Held(clusters: seq<Cluster>, file: string): seq<string> {
    if clusters == [] then [] else if clusters[0].file == file then clusters[0].rows else Held(clusters[1..], file)
  }

  lemma {:induction false} AddRowFiles(clusters: seq<Cluster>, row: Row)
    ensures forall file :: HasFile(AddRow(clusters, row), file) <==> HasFile(clusters, file) || file == row.file
    ensures DistinctFiles(clusters) ==> DistinctFiles(AddRow(clusters, row))
    ensures forall file :: Held(AddRow(clusters, row), file) == if file == row.file then Held(clusters, file) + [row.rest] else Held(clusters, file)
  {
    var t := AddRow(clusters, row);
    if clusters == [] {
      assert t[0].file == row.file;
      forall file ensures Held(t, file) == if file == row.file then [] + [row.rest] else [] { assert t[1..] == []; }
    } else if clusters[0].file == row.file {
      FilesByHead(clusters);
      FilesByHead(t);
      assert t[1..] == clusters[1..];
    } else {
      AddRowFiles(clusters[1..], row);
      FilesByHead(clusters);
      FilesByHead(t);
      assert t[1..] == AddRow(clusters[1..], row);
    }
  }

  lemma FilesByHead(clusters: seq<Cluster>)
    requires clusters != []
    ensures forall file :: HasFile(clusters, file) <==> clusters[0].file == file || HasFile(clusters[1..], file)
    ensures DistinctFiles(clusters) <==> DistinctFiles(clusters[1..]) && !HasFile(clusters[1..], clusters[0].file)
  {
    forall file ensures HasFile(clusters, file) <==> clusters[0].file == file || HasFile(clusters[1..], file) {
      if HasFile(clusters, file) && clusters[0].file != file {
        var i :| 0 <= i < |clusters| && clusters[i].file == file;
        assert clusters[1..][i - 1].file == file;
      }
      if HasFile(clusters[1..], file) {
        var i :| 0 <= i < |clusters[1..]| && clusters[1..][i].file == file;
        assert clusters[i + 1].file == file;
      }
    }
    if DistinctFiles(clusters[1..]) && !HasFile(clusters[1..], clusters[0].file) {
      forall i, j | 0 <= i < j < |clusters| ensures clusters[i].file != clusters[j].file {
        assert clusters[1..][j - 1] == clusters[j];
        if i > 0 { assert clusters[1..][i - 1] == clusters[i]; }
      }
    }
  }

  /**
   * Search compression keeps the loose lines in order, has exactly one cluster for each file that has a row, and each
   * file's rows in input order.
   */
  lemma {:induction false} SearchIsStable(lines: Lines, split: Splitter)
    ensures var s := CompressSearch(lines, split);
      && s.loose == LooseLines(lines, split)
      && DistinctFiles(s.clusters)
      && (forall file :: Held(s.clusters, file) == RowsOf(lines, split, file))
      && (forall file :: HasFile(s.clusters, file) <==> RowsOf(lines, split, file) != [])
  {
    hide AddRow, HasFile, DistinctFiles, Held;
    if lines == [] {
      NoClusters();
    } else {
      SearchIsStable(lines[..|lines| - 1], split);
      var row := split(lines[|lines| - 1]);
      if row.Some? { AddRowFiles(CompressSearch(lines[..|lines| - 1], split).clusters, row.value); }
    }
  }

  lemma NoClusters()
    ensures DistinctFiles([]) && forall file :: Held([], file) == [] && !HasFile([], file)
  {
  }

  /** The rows of a cluster list joined with their files again. */
  function Rejoined(clusters: seq<Cluster>): Lines {
    if clusters == [] then [] else RejoinRows(clusters[0].file, clusters[0].rows) + Rejoined(clusters[1..])
  }

  function RejoinRows(file: string, rows: seq<string>): (lines: Lines)
    ensures |lines| == |rows| && forall i :: 0 <= i < |lines| ==> lines[i] == file + ":" + rows[i]
  {
    seq(|rows|, i requires 0 <= i < |rows| => file + ":" + rows[i])
  }

  lemma {:induction false} AddRowPermutes(clusters: seq<Cluster>, row: Row)
    ensures multiset(Rejoined(AddRow(clusters, row))) == multiset(Rejoined(clusters)) + multiset{row.file + ":" + row.rest}
  {
    hide RejoinRows;
    var t := AddRow(clusters, row);
    if clusters == [] {
      assert t[1..] == [];
      OneRow(row);
    } else if clusters[0].file == row.file {
      assert t[1..] == clusters[1..];
      OneMoreRow(row.file, clusters[0].rows, row.rest);
    } else {
      AddRowPermutes(clusters[1..], row);
      assert t[1..] == AddRow(clusters[1..], row);
    }
  }

  lemma OneRow(row: Row)
    ensures RejoinRows(row.file, [row.rest]) == [row.file + ":" + row.rest]
  {
  }

  lemma OneMoreRow(file: string, rows: seq<string>, rest: string)
    ensures RejoinRows(file, rows + [rest]) == RejoinRows(file, rows) + [file + ":" + rest]
  {
  }

  /** With each row joined to its file again, the output is a permutation of the input. */
  lemma {:induction false} SearchPermutes(lines: Lines, split: Splitter)
    requires Rejoins(split)
    ensures var s := CompressSearch(lines, split);
      multiset(s.loose + Rejoined(s.clusters)) == multiset(lines)
  {
    hide AddRow, Rejoined;
    if lines == [] {
      NothingRejoined();
    } else {
      var prefix, line := lines[..|lines| - 1], lines[|lines| - 1];
      SearchPermutes(prefix, split);
      assert lines == prefix + [line];
      var row := split(line);
      if row.Some? { AddRowPermutes(CompressSearch(prefix, split).clusters, row.value); }
    }
  }

  lemma NothingRejoined()
    ensures Rejoined([]) == []
  {
  }

  // ---------------------------------------------------------------- routing

  datatype Kind = SearchKind | LogKind

  function Count(lines: Lines, test: string -> bool): nat {
    if lines == [] then 0 else (if test(lines[0]) then 1 else 0) + Count(lines[1..], test)
  }

  /** How lines are told apart: blank ones, rows, lines with a log pattern, and signals, which also mark a log. */
  datatype Patterns = Patterns(blank: string -> bool, split: Splitter, logPattern: string -> bool, signal: string -> bool)

  /** Which compressor claims the split text, by the share of its non-blank lines that look the part. */
  function Claim(lines: Lines, p: Patterns): Option<Kind> {
    var total := Count(lines, line => !p.blank(line));
    var rows := Count(lines, line => !p.blank(line) && p.split(line).Some?);
    var marked := Count(lines, line => !p.blank(line) && (p.logPattern(line) || p.signal(line)));
    if total < 3 then None
    else if rows >= 3 && 10 * rows >= 6 * total then Some(SearchKind)
    else if marked >= 3 && 10 * marked >= 3 * total then Some(LogKind)
    else None
  }

  /** What becomes of a text: nothing, or the output of one of the compressors. */
  datatype Routed = Untouched | AsSearch(search: Search) | AsLog(out: seq<LogOut>)

  /** `route` on the split text. */
  function Route(lines: Lines, p: Patterns): Routed {
    match Claim(lines, p)
    case None => Untouched
    case Some(SearchKind) => AsSearch(CompressSearch(lines, p.split))
    case Some(LogKind) => AsLog(CompressLog(lines, p.signal))
  }
}
