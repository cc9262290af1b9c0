/**
  The snapshot functions of `src/utils.ts`: `createSnapshot`, which parses the
  matched application files into `applicationStats` and, when asked, counts the
  test cases of the matched test files into `coverageStats`, and
  `extractRepositoryData`, which takes one snapshot per month from a start month
  to the current one.

  The host's file search is an input: `Workspace` holds the files `findFiles`
  returns for the application pattern and for the test pattern, each with the
  symbol trees or the text the editor reports for it.
 */
module Utils {
  import opened Wrappers
  import opened Symbols
  import opened Merge
  import opened TestCases
  import opened Dates
  import opened Sums

  /** The `maxResults` argument of both `findFiles` calls. */
  const MaxResults: nat := 50

  /** The files the two searches return. */
  datatype Workspace = Workspace(appFiles: seq<SourceFile>, testFiles: seq<TestFile>)

  predicate WithinLimits(ws: Workspace)
  {
    |ws.appFiles| <= MaxResults && |ws.testFiles| <= MaxResults
  }

  /** The flags of `createSnapshot`: whether a test-file pattern was given, and
      the `parseCoverageStats` and `listParsedAppFiles` options. */
  datatype SnapshotOptions = SnapshotOptions(hasTestFilePattern: bool, parseCoverageStats: bool, listParsedAppFiles: bool)

  datatype ApplicationStats = ApplicationStats(documentsParsedPaths: seq<string>, documentsParsedAmount: nat, stats: map<SymbolKind, int>)

  datatype CoverageStats = CoverageStats(documentsParsedPaths: seq<string>, documentsParsedAmount: nat, testCaseOccurrences: nat)

  /** A snapshot; `coverageStats` is `None` when the object has no such field. */
  datatype Snapshot = Snapshot(snapshotDate: string, applicationStats: ApplicationStats, coverageStats: Option<CoverageStats>)

  /** The snapshot before any file is parsed; the spread of
      `opts.listParsedAppFiles && {coverageStats: ...}` adds the empty coverage
      record only when `listParsedAppFiles` is set. */
  function InitialSnapshot(snapshotDate: string, opts: SnapshotOptions): (s: Snapshot)
    ensures s.snapshotDate == snapshotDate
    ensures s.applicationStats.documentsParsedPaths == [] && s.applicationStats.documentsParsedAmount == 0
    ensures s.applicationStats.stats == map[]
    ensures s.coverageStats.Some? <==> opts.listParsedAppFiles
    ensures s.coverageStats.Some? ==> s.coverageStats.value == CoverageStats([], 0, 0)
  {
    Snapshot(snapshotDate, ApplicationStats([], 0, map[]),
      if opts.listParsedAppFiles then Some(CoverageStats([], 0, 0)) else None)
  }

  /** Whether the coverage tasks change the snapshot: coverage is asked for, a
      test pattern is given, it matches some file, and the snapshot has the
      `coverageStats` record the tasks write to (without it, each task stops at
      a `TypeError` before changing anything). */
  predicate CoverageParsed(opts: SnapshotOptions, ws: Workspace)
  {
    opts.parseCoverageStats && opts.hasTestFilePattern && ws.testFiles != [] && opts.listParsedAppFiles
  }

  /** The snapshot `createSnapshot` produces once every task it started has run. */
  function SnapshotOf(snapshotDate: string, opts: SnapshotOptions, ws: Workspace): Snapshot
  {
    var initial := InitialSnapshot(snapshotDate, opts);
    if ws.appFiles == [] then initial
    else
      Snapshot(snapshotDate,
        ApplicationStats(if opts.listParsedAppFiles then PathsOf(ws.appFiles) else [], |ws.appFiles|, AppStats(ws.appFiles)),
        if CoverageParsed(opts, ws)
        then Some(CoverageStats(TestPaths(ws.testFiles), |ws.testFiles|, TotalTestCases(ws.testFiles)))
        else initial.coverageStats)
  }

  /** `createSnapshot(opts)`. No matched application file returns the initial
      snapshot. Otherwise the application tasks parse every file; then, with
      coverage asked for and a test pattern given, no matched test file returns
      early, and otherwise the coverage tasks parse every test file. */
  method CreateSnapshot(snapshotDate: string, opts: SnapshotOptions, ws: Workspace) returns (snapShot: Snapshot)
    requires WithinLimits(ws)
    ensures snapShot == SnapshotOf(snapshotDate, opts, ws)
  {
    snapShot := InitialSnapshot(snapshotDate, opts);
    if |ws.appFiles| == 0 {
      return;
    }
    var paths, amount, stats := ParseApplicationFiles(ws.appFiles, opts.listParsedAppFiles);
    snapShot := snapShot.(applicationStats := ApplicationStats(paths, amount, stats));
    if opts.parseCoverageStats && opts.hasTestFilePattern {
      if |ws.testFiles| == 0 {
        return;
      }
      if snapShot.coverageStats.Some? {
        var testPaths, testAmount, testCaseOccurrences := ParseTestFiles(ws.testFiles);
        snapShot := snapShot.(coverageStats := Some(CoverageStats(testPaths, testAmount, testCaseOccurrences)));
      }
    }
  }

  /** No matched application file: the snapshot carries the given date, no
      paths, amount 0 and empty `stats`, and coverage is untouched. */
  lemma EmptyMatch(snapshotDate: string, opts: SnapshotOptions, ws: Workspace)
    requires ws.appFiles == []
    ensures var s := SnapshotOf(snapshotDate, opts, ws);
      && s.snapshotDate == snapshotDate
      && s.applicationStats == ApplicationStats([], 0, map[])
      && (s.coverageStats.Some? <==> opts.listParsedAppFiles)
      && (s.coverageStats.Some? ==> s.coverageStats.value == CoverageStats([], 0, 0))
  {
  }

  /** The application statistics: one parsed file per match (at most
      `MaxResults`), a path per file only with `listParsedAppFiles`, and in
      `stats` every kind's total over the files, never `constructor`. */
  lemma ApplicationStatsOf(snapshotDate: string, opts: SnapshotOptions, ws: Workspace)
    requires WithinLimits(ws)
    ensures var app := SnapshotOf(snapshotDate, opts, ws).applicationStats;
      && app.documentsParsedAmount == |ws.appFiles| <= MaxResults
      && (opts.listParsedAppFiles ==> app.documentsParsedPaths == PathsOf(ws.appFiles))
      && (!opts.listParsedAppFiles ==> app.documentsParsedPaths == [])
      && ConstructorKind !in app.stats
      && (forall k: SymbolKind :: Merged(k) && ws.appFiles != [] ==> k in app.stats && app.stats[k] == TotalCount(ws.appFiles, k))
  {
    AppStatsAreSums(ws.appFiles);
  }

  /** The coverage statistics: present exactly when `listParsedAppFiles` is set;
      filled with one path and one parsed file per test file and the test cases
      summed over them when the coverage tasks run, and empty otherwise. */
  lemma CoverageStatsOf(snapshotDate: string, opts: SnapshotOptions, ws: Workspace)
    ensures var s := SnapshotOf(snapshotDate, opts, ws);
      && (s.coverageStats.Some? <==> opts.listParsedAppFiles)
      && (ws.appFiles != [] && CoverageParsed(opts, ws) ==>
            s.coverageStats == Some(CoverageStats(TestPaths(ws.testFiles), |ws.testFiles|, TotalTestCases(ws.testFiles))))
      && (!(ws.appFiles != [] && CoverageParsed(opts, ws)) && opts.listParsedAppFiles ==>
            s.coverageStats == Some(CoverageStats([], 0, 0)))
  {
  }

  /** Neither the order of the application files nor that of the test files
      changes the totals of a snapshot. */
  lemma SnapshotTotalsOrderIndependent(snapshotDate: string, opts: SnapshotOptions, ws: Workspace, ws': Workspace)
    requires multiset(ws.appFiles) == multiset(ws'.appFiles) && multiset(ws.testFiles) == multiset(ws'.testFiles)
    ensures var s, s' := SnapshotOf(snapshotDate, opts, ws), SnapshotOf(snapshotDate, opts, ws');
      && s.applicationStats.documentsParsedAmount == s'.applicationStats.documentsParsedAmount
      && s.applicationStats.stats == s'.applicationStats.stats
      && s.coverageStats.Some? == s'.coverageStats.Some?
      && (s.coverageStats.Some? ==> s.coverageStats.value.testCaseOccurrences == s'.coverageStats.value.testCaseOccurrences)
  {
    assert |ws.appFiles| == |multiset(ws.appFiles)| == |ws'.appFiles|;
    assert |ws.testFiles| == |multiset(ws.testFiles)| == |ws'.testFiles|;
    AppStatsOrderIndependent(ws.appFiles, ws'.appFiles);
    TotalTestCasesOrderIndependent(ws.testFiles, ws'.testFiles);
  }

  /** `w` is the result of a repository walk: one snapshot per month from
      `start` to `current`, the `i`-th dated the first of the `i`-th month. */
  predicate IsWalk(w: seq<Snapshot>, start: YearMonth, current: YearMonth, opts: SnapshotOptions, ws: Workspace)
    requires ValidMonth(start) && ValidMonth(current)
  {
    |w| == MonthCount(start, current) &&
    forall i :: 0 <= i < |w| ==> w[i] == SnapshotAt(start, i, opts, ws)
  }

  /** The snapshot of the `i`-th month of a walk from `start`. */
  function SnapshotAt(start: YearMonth, i: nat, opts: SnapshotOptions, ws: Workspace): Snapshot
    requires ValidMonth(start)
  {
    SnapshotOf(DateOf(AddMonths(start, i)), opts, ws)
  }

  /** The month-by-month snapshots of a walk from `start`. */
  function Walk(start: YearMonth, opts: SnapshotOptions, ws: Workspace): nat -> Snapshot
    requires ValidMonth(start)
  {
    (i: nat) => SnapshotAt(start, i, opts, ws)
  }

  /** `extractRepositoryData(opts)`: starting on the first of the start month,
      while that date is not after the first of the current month, push the
      snapshot dated that day and step to the first of the next month. The
      current month is a parameter here instead of the clock. */
  method ExtractRepositoryData(start: YearMonth, current: YearMonth, opts: SnapshotOptions, ws: Workspace)
    returns (retVal: seq<Snapshot>)
    requires ValidMonth(start) && ValidMonth(current) && WithinLimits(ws)
    ensures IsWalk(retVal, start, current, opts, ws)
  {
    retVal := [];
    var loop := start;
    ghost var walk := Walk(start, opts, ws);
    while NotAfter(loop, current)
      invariant ValidMonth(loop) && loop == AddMonths(start, |retVal|)
      invariant |retVal| <= MonthCount(start, current)
      invariant retVal == Tabulate(walk, |retVal|)
      decreases MonthIndex(current) - MonthIndex(loop)
    {
      NotAfterByIndex(loop, current);
      var snapshotData := CreateSnapshot(DateOf(loop), opts, ws);
      TabulateStep(walk, |retVal|);
      retVal := retVal + [snapshotData];
      loop := Next(loop);
    }
    NotAfterByIndex(loop, current);
  }

  /** The walk's snapshots are in chronological order: the first is dated the
      first of `start`, the last the first of `current`, the `i`-th date reads
      back as the first of the month `i` months after `start`, and no two
      snapshots share a date. */
  lemma WalkChronological(w: seq<Snapshot>, start: YearMonth, current: YearMonth, opts: SnapshotOptions, ws: Workspace)
    requires ValidMonth(start) && ValidMonth(current) && IsWalk(w, start, current, opts, ws)
    ensures |w| > 0 <==> NotAfter(start, current)
    ensures |w| > 0 ==> w[0].snapshotDate == DateOf(start) && w[|w| - 1].snapshotDate == DateOf(current)
    ensures forall i :: 0 <= i < |w| ==> ParseDate(w[i].snapshotDate) == Some((AddMonths(start, i).year, AddMonths(start, i).month, 1))
    ensures forall i, j :: 0 <= i < j < |w| ==> w[i].snapshotDate != w[j].snapshotDate
  {
    MonthRange(start, current);
    WalkDatesParse(w, start, current, opts, ws);
    WalkDatesDistinct(w, start, current, opts, ws);
  }

  /** Each snapshot date of a walk reads back as its month's first day. */
  lemma WalkDatesParse(w: seq<Snapshot>, start: YearMonth, current: YearMonth, opts: SnapshotOptions, ws: Workspace)
    requires ValidMonth(start) && ValidMonth(current) && IsWalk(w, start, current, opts, ws)
    ensures forall i :: 0 <= i < |w| ==> ParseDate(w[i].snapshotDate) == Some((AddMonths(start, i).year, AddMonths(start, i).month, 1))
  {
    forall i | 0 <= i < |w|
      ensures ParseDate(w[i].snapshotDate) == Some((AddMonths(start, i).year, AddMonths(start, i).month, 1))
    {
      DateOfParses(AddMonths(start, i));
    }
  }

  /** No two snapshots of a walk share a date. */
  lemma WalkDatesDistinct(w: seq<Snapshot>, start: YearMonth, current: YearMonth, opts: SnapshotOptions, ws: Workspace)
    requires ValidMonth(start) && ValidMonth(current) && IsWalk(w, start, current, opts, ws)
    ensures forall i, j :: 0 <= i < j < |w| ==> w[i].snapshotDate != w[j].snapshotDate
  {
    forall i, j | 0 <= i < j < |w|
      ensures w[i].snapshotDate != w[j].snapshotDate
    {
      DatesDiffer(AddMonths(start, i), AddMonths(start, j));
    }
  }
}
