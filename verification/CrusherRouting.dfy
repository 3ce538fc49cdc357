/** What the context crusher makes of a text, by the shares of its lines: which compressor gets it, and what then survives. */
module CrusherRouting {
  import opened Basics
  import opened CrusherRouter

  // ---------------------------------------------------------------- shares

  /** The places of the lines that pass a test. */
  ghost function Places(lines: Lines, test: string -> bool): set<int> { set i | 0 <= i < |lines| && test(lines[i]) }

  lemma {:induction false} CountIsCardinality(lines: Lines, test: string -> bool)
    ensures Count(lines, test) == |Places(lines, test)|
  {
    if lines == [] {
      assert Places(lines, test) == {};
    } else {
      var n := |lines| - 1;
      CountIsCardinality(lines[..n], test);
      CountLast(lines[..n], lines[n], test);
      assert lines[..n] + [lines[n]] == lines;
      assert Places(lines, test) == Places(lines[..n], test) + if test(lines[n]) then {n} else {};
    }
  }

  lemma {:induction false} CountLast(lines: Lines, line: string, test: string -> bool)
    ensures Count(lines + [line], test) == Count(lines, test) + if test(line) then 1 else 0
  {
    if lines == [] {
      assert [line][1..] == [];
    } else {
      CountLast(lines[1..], line, test);
      assert (lines + [line])[1..] == lines[1..] + [line];
    }
  }

  /** The non-blank lines of a text, those of them that are rows, and those that mark a log. */
  ghost function Solid(lines: Lines, p: Patterns): set<int> { set i | 0 <= i < |lines| && !p.blank(lines[i]) }

  ghost function RowLines(lines: Lines, p: Patterns): set<int> { set i | 0 <= i < |lines| && !p.blank(lines[i]) && p.split(lines[i]).Some? }

  ghost function MarkedLines(lines: Lines, p: Patterns): set<int> {
    set i | 0 <= i < |lines| && !p.blank(lines[i]) && (p.logPattern(lines[i]) || p.signal(lines[i]))
  }

  /** At least three of the lines, and at least so many in a hundred of the non-blank ones. */
  ghost predicate Claims(part: set<int>, all: set<int>, percent: nat) { |part| >= 3 && 100 * |part| >= percent * |all| }

  lemma ClaimIsByShares(lines: Lines, p: Patterns)
    ensures Claim(lines, p) ==
      if Claims(RowLines(lines, p), Solid(lines, p), 60) then Some(SearchKind)
      else if Claims(MarkedLines(lines, p), Solid(lines, p), 30) then Some(LogKind)
      else None
  {
    hide Count;
    CountIsCardinality(lines, line => !p.blank(line));
    CountIsCardinality(lines, line => !p.blank(line) && p.split(line).Some?);
    CountIsCardinality(lines, line => !p.blank(line) && (p.logPattern(line) || p.signal(line)));
    assert Places(lines, line => !p.blank(line)) == Solid(lines, p);
    assert Places(lines, line => !p.blank(line) && p.split(line).Some?) == RowLines(lines, p);
    assert Places(lines, line => !p.blank(line) && (p.logPattern(line) || p.signal(line))) == MarkedLines(lines, p);
    Within(RowLines(lines, p), Solid(lines, p));
    Within(MarkedLines(lines, p), Solid(lines, p));
  }

  lemma Within<T>(a: set<T>, b: set<T>)
    requires a <= b
    ensures |a| <= |b|
  {
    assert b == a + (b - a);
  }

  // ---------------------------------------------------------------- the order of the files

  /** Line `k` is the first row of a file. */
  predicate FirstRow(lines: Lines, split: Splitter, file: string, k: nat) {
    && k < |lines| && split(lines[k]).Some? && split(lines[k]).value.file == file
    && forall j :: 0 <= j < k && split(lines[j]).Some? ==> split(lines[j]).value.file != file
  }

  /** Of two files, the one whose first row comes first has the earlier cluster. */
  ghost predicate InFirstOrder(lines: Lines, split: Splitter, clusters: seq<Cluster>) {
    forall i, j, a: nat, b: nat ::
      0 <= i < j < |clusters| && FirstRow(lines, split, clusters[i].file, a) && FirstRow(lines, split, clusters[j].file, b) ==> a < b
  }

  lemma {:induction false} AddRowFileList(clusters: seq<Cluster>, row: Row)
    ensures var t := AddRow(clusters, row);
      && |clusters| <= |t| <= |clusters| + 1
      && (forall i :: 0 <= i < |clusters| ==> t[i].file == clusters[i].file)
      && (|t| == |clusters| <==> HasFile(clusters, row.file))
      && (|t| > |clusters| ==> t[|clusters|].file == row.file)
  {
    hide HasFile;
    if clusters == [] {
      NoFile(row.file);
    } else {
      FilesByHead(clusters);
      if clusters[0].file != row.file {
        AddRowFileList(clusters[1..], row);
        assert AddRow(clusters, row)[1..] == AddRow(clusters[1..], row);
      }
    }
  }

  lemma NoFile(file: string)
    ensures !HasFile([], file)
  {
  }

  lemma FirstRowGrows(lines: Lines, line: string, split: Splitter, file: string, k: nat)
    ensures k < |lines| ==> (FirstRow(lines + [line], split, file, k) <==> FirstRow(lines, split, file, k))
  {
    assert forall j :: 0 <= j < |lines| ==> (lines + [line])[j] == lines[j];
  }

  /** A file with a cluster has a first row, within the lines so far. */
  lemma {:induction false} ClusterHasRow(lines: Lines, split: Splitter, file: string) returns (k: nat)
    requires HasFile(CompressSearch(lines, split).clusters, file)
    ensures FirstRow(lines, split, file, k)
  {
    hide AddRow, HasFile, FirstRow;
    if lines == [] {
      NoFile(file);
      assert false;
    } else {
      var prefix, line := lines[..|lines| - 1], lines[|lines| - 1];
      assert prefix + [line] == lines;
      var row := split(line);
      if row.Some? { AddRowFiles(CompressSearch(prefix, split).clusters, row.value); }
      if HasFile(CompressSearch(prefix, split).clusters, file) {
        k := ClusterHasRow(prefix, split, file);
        FirstWithin(prefix, split, file, k);
        FirstRowGrows(prefix, line, split, file, k);
      } else {
        k := |prefix|;
        NoEarlierRow(prefix, split, file);
        LastIsFirst(prefix, line, split, file);
      }
    }
  }

  lemma FirstWithin(lines: Lines, split: Splitter, file: string, k: nat)
    requires FirstRow(lines, split, file, k)
    ensures k < |lines|
  {
  }

  lemma {:induction false} NoEarlierRow(lines: Lines, split: Splitter, file: string)
    requires !HasFile(CompressSearch(lines, split).clusters, file)
    ensures forall j :: 0 <= j < |lines| && split(lines[j]).Some? ==> split(lines[j]).value.file != file
  {
    hide AddRow, HasFile;
    if lines == [] {
    } else {
      var prefix, line := lines[..|lines| - 1], lines[|lines| - 1];
      var row := split(line);
      if row.Some? { AddRowFiles(CompressSearch(prefix, split).clusters, row.value); }
      NoEarlierRow(prefix, split, file);
      assert forall j :: 0 <= j < |prefix| ==> lines[j] == prefix[j];
    }
  }

  lemma LastIsFirst(lines: Lines, line: string, split: Splitter, file: string)
    requires split(line).Some? && split(line).value.file == file
    requires forall j :: 0 <= j < |lines| && split(lines[j]).Some? ==> split(lines[j]).value.file != file
    ensures FirstRow(lines + [line], split, file, |lines|)
  {
    assert forall j :: 0 <= j < |lines| ==> (lines + [line])[j] == lines[j];
  }

  lemma FirstIsUnique(lines: Lines, split: Splitter, file: string, a: nat, b: nat)
    requires FirstRow(lines, split, file, a) && FirstRow(lines, split, file, b)
    ensures a == b
  {
  }

  /** Files are printed in the order of their first rows. */
  lemma {:induction false} FilesInFirstOrder(lines: Lines, split: Splitter)
    ensures InFirstOrder(lines, split, CompressSearch(lines, split).clusters)
  {
    hide AddRow, FirstRow, HasFile;
    if lines == [] {
    } else {
      var prefix, line := lines[..|lines| - 1], lines[|lines| - 1];
      assert prefix + [line] == lines;
      FilesInFirstOrder(prefix, split);
      var before, after := CompressSearch(prefix, split).clusters, CompressSearch(lines, split).clusters;
      if split(line).Some? { AddRowFileList(before, split(line).value); }
      forall i, j, a: nat, b: nat | 0 <= i < j < |after| && FirstRow(lines, split, after[i].file, a) && FirstRow(lines, split, after[j].file, b)
        ensures a < b
      {
        assert i < |before| && after[i].file == before[i].file;
        var x := OldFile(prefix, line, split, before, i, a);
        if j < |before| {
          var y := OldFile(prefix, line, split, before, j, b);
        } else {
          NewFile(prefix, line, split, before, after[j].file, b);
          FirstWithin(prefix, split, before[i].file, a);
        }
      }
    }
  }

  lemma OldFile(prefix: Lines, line: string, split: Splitter, clusters: seq<Cluster>, i: nat, a: nat) returns (k: nat)
    requires clusters == CompressSearch(prefix, split).clusters && i < |clusters|
    requires FirstRow(prefix + [line], split, clusters[i].file, a)
    ensures k == a && FirstRow(prefix, split, clusters[i].file, a)
  {
    hide FirstRow, CompressSearch;
    assert HasFile(clusters, clusters[i].file);
    k := ClusterHasRow(prefix, split, clusters[i].file);
    FirstWithin(prefix, split, clusters[i].file, k);
    FirstRowGrows(prefix, line, split, clusters[i].file, k);
    FirstIsUnique(prefix + [line], split, clusters[i].file, k, a);
  }

  lemma NewFile(prefix: Lines, line: string, split: Splitter, clusters: seq<Cluster>, file: string, b: nat)
    requires clusters == CompressSearch(prefix, split).clusters && !HasFile(clusters, file)
    requires FirstRow(prefix + [line], split, file, b)
    ensures b == |prefix|
  {
    NoEarlierRow(prefix, split, file);
    assert forall j :: 0 <= j < |prefix| ==> (prefix + [line])[j] == prefix[j];
  }

  // ---------------------------------------------------------------- print

  /** Where a cluster's header is printed. */
  function HeaderAt(clusters: seq<Cluster>, k: nat): nat
    requires k <= |clusters|
  {
    if k == 0 then 0 else HeaderAt(clusters, k - 1) + 1 + |clusters[k - 1].rows|
  }

  /** Every cluster is printed as its header and then its rows, one behind the other, and nothing else is. */
  lemma {:induction false} ClustersArePrinted(clusters: seq<Cluster>, k: nat)
    requires k < |clusters|
    ensures |PrintClusters(clusters)| == HeaderAt(clusters, |clusters|)
    ensures var at, rows := HeaderAt(clusters, k), clusters[k].rows;
      && at + 1 + |rows| <= |PrintClusters(clusters)|
      && PrintClusters(clusters)[at] == "== " + clusters[k].file + " =="
      && PrintClusters(clusters)[at + 1..at + 1 + |rows|] == rows
  {
    hide PrintClusters;
    var last := clusters[|clusters| - 1];
    var prefix := clusters[..|clusters| - 1];
    assert prefix + [last] == clusters;
    PrintedGrows(prefix, last);
    HeadersStay(prefix, last, |prefix|);
    if prefix == [] {
      NothingPrinted();
    } else {
      ClustersArePrinted(prefix, if k < |prefix| then k else 0);
    }
    if k < |prefix| {
      HeadersStay(prefix, last, k);
      var at, rows := HeaderAt(prefix, k), prefix[k].rows;
      assert PrintClusters(clusters)[at + 1..at + 1 + |rows|] == PrintClusters(prefix)[at + 1..at + 1 + |rows|];
    }
  }

  lemma {:induction false} HeadersStay(clusters: seq<Cluster>, last: Cluster, k: nat)
    requires k <= |clusters|
    ensures HeaderAt(clusters + [last], k) == HeaderAt(clusters, k)
  {
    if k == 0 {
    } else {
      HeadersStay(clusters, last, k - 1);
    }
  }

  // ---------------------------------------------------------------- what a log keeps

  /** The line and the three before it carry no signal and are not empty. */
  predicate LeftOut(lines: Lines, i: nat, signal: string -> bool) {
    3 <= i < |lines| && forall j :: i - 3 <= j <= i ==> !signal(lines[j]) && lines[j] != ""
  }

  /** The lines of which that is not true, among the first `n`. */
  function Others(lines: Lines, n: nat, signal: string -> bool): Lines
    requires n <= |lines|
  {
    if n == 0 then [] else Others(lines, n - 1, signal) + if LeftOut(lines, n - 1, signal) then [] else [lines[n - 1]]
  }

  lemma {:induction false} TailIsPlain(lines: Lines, n: nat, signal: string -> bool)
    requires n <= |lines|
    ensures PlainTail(lines, 0, signal) >= n <==> forall j :: |lines| - n <= j < |lines| ==> !signal(lines[j]) && lines[j] != ""
  {
    if n == 0 {
    } else {
      var prefix, line := lines[..|lines| - 1], lines[|lines| - 1];
      assert prefix + [line] == lines;
      TailIsPlain(prefix, n - 1, signal);
      SurvivorsGrow(prefix, line, 0, signal);
      assert forall j :: 0 <= j < |prefix| ==> lines[j] == prefix[j];
    }
  }

  lemma {:induction false} SurvivorsAreOthers(lines: Lines, n: nat, signal: string -> bool)
    requires n <= |lines|
    ensures Survivors(lines[..n], 0, signal) == Others(lines, n, signal)
  {
    hide Survivors, PlainTail;
    if n == 0 {
      NoSurvivors(signal);
      assert lines[..0] == [];
    } else {
      var prefix := lines[..n - 1];
      SurvivorsAreOthers(lines, n - 1, signal);
      SurvivorsGrow(prefix, lines[n - 1], 0, signal);
      assert prefix + [lines[n - 1]] == lines[..n];
      TailBound(prefix, signal);
      if n > 3 { TailIsPlain(prefix, 3, signal); }
      assert forall j :: 0 <= j < n - 1 ==> prefix[j] == lines[j];
    }
  }

  lemma {:induction false} TailBound(lines: Lines, signal: string -> bool)
    ensures PlainTail(lines, 0, signal) <= |lines|
  {
    if lines == [] {
    } else {
      var prefix, line := lines[..|lines| - 1], lines[|lines| - 1];
      assert prefix + [line] == lines;
      TailBound(prefix, signal);
      SurvivorsGrow(prefix, line, 0, signal);
    }
  }

  /** A shortened log keeps exactly the lines that are not left out, in order. */
  lemma LogKeepsOthers(lines: Lines, signal: string -> bool)
    ensures KeptLines(CompressLog(lines, signal)) == Others(lines, |lines|, signal)
  {
    LogKeepsSurvivors(lines, signal);
    SurvivorsAreOthers(lines, |lines|, signal);
    assert lines[..|lines|] == lines;
  }

  // ---------------------------------------------------------------- the routed text

  /** Search output: all input lines, rows joined to their files again; one cluster a file, in first order; rows and loose lines in order. */
  ghost predicate SearchOf(search: Search, lines: Lines, split: Splitter) {
    && multiset(search.loose + Rejoined(search.clusters)) == multiset(lines)
    && search.loose == LooseLines(lines, split)
    && DistinctFiles(search.clusters)
    && InFirstOrder(lines, split, search.clusters)
    && (forall file :: Held(search.clusters, file) == RowsOf(lines, split, file))
    && (forall file :: HasFile(search.clusters, file) <==> RowsOf(lines, split, file) != [])
  }

  /** Log output: it accounts for every line, keeps signals and empty lines, and leaves out exactly what has three plain lines before it. */
  ghost predicate LogOf(out: seq<LogOut>, lines: Lines, signal: string -> bool) {
    && Weaves(out, lines, signal)
    && KeptLines(out) == Others(lines, |lines|, signal)
    && Signals(KeptLines(out), signal) == Signals(lines, signal)
  }

  /**
   * A text of which at least three and 60 percent of the non-blank lines are rows keeps every line, grouped by file; another
   * one of which at least three and 30 percent mark a log is shortened as a log; every other text is left alone.
   */
  lemma RoutedByShares(lines: Lines, p: Patterns)
    requires Rejoins(p.split)
    ensures var routed := Route(lines, p);
      if Claims(RowLines(lines, p), Solid(lines, p), 60) then routed.AsSearch? && SearchOf(routed.search, lines, p.split)
      else if Claims(MarkedLines(lines, p), Solid(lines, p), 30) then routed.AsLog? && LogOf(routed.out, lines, p.signal)
      else routed == Untouched
  {
    hide Claim, Claims, RowLines, MarkedLines, Solid, CompressSearch, CompressLog, Rejoined, LooseLines, DistinctFiles, InFirstOrder, Held,
         HasFile, RowsOf, Weaves, KeptLines, Others, Signals, Rejoins;
    ClaimIsByShares(lines, p);
    SearchPermutes(lines, p.split);
    SearchIsStable(lines, p.split);
    FilesInFirstOrder(lines, p.split);
    LogWeaves(lines, p.signal);
    LogKeepsOthers(lines, p.signal);
    WeavesConserves(CompressLog(lines, p.signal), lines, p.signal);
  }

  /** Whatever becomes of a text, every line with a signal survives, once per occurrence. */
  lemma SignalsSurvive(lines: Lines, p: Patterns)
    requires Rejoins(p.split)
    ensures match Route(lines, p)
      case Untouched => true
      case AsSearch(search) => multiset(search.loose + Rejoined(search.clusters)) == multiset(lines)
      case AsLog(out) => Signals(KeptLines(out), p.signal) == Signals(lines, p.signal)
  {
    hide Claims, RowLines, MarkedLines, Solid, Route, Rejoined, LooseLines, DistinctFiles, InFirstOrder, Held, HasFile, RowsOf, Weaves,
         KeptLines, Others, Signals, Rejoins;
    RoutedByShares(lines, p);
  }
}
