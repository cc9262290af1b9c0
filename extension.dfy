/**
  The snapshot code of `src/extension.ts`, the revision before the snapshot
  functions moved to `src/utils.ts`: `createSnapshot(snapshotDate)` with a flat
  snapshot record, paths always listed and at most 10 matched files, and the
  month walk nested in the repository command, which pushes each snapshot onto
  the index object the command later shows.
 */
module Extension {
  import opened Wrappers
  import opened Symbols
  import opened Merge
  import opened Dates
  import opened Sums

  /** `OPTION_LIST_PARSED_FILES_PATHS`. */
  const ListParsedFilesPaths: bool := true

  /** The `maxResults` argument of `findFiles`. */
  const MaxResults: nat := 10

  /** A snapshot; `documentsParsedPaths` is `None` when the record has no such
      field. */
  datatype Snapshot = Snapshot(snapshotDate: string, documentsParsedPaths: Option<seq<string>>, documentsParsedAmount: nat, stats: map<SymbolKind, int>)

  /** The snapshot `createSnapshot(snapshotDate)` produces for the matched files. */
  function SnapshotOf(snapshotDate: string, files: seq<SourceFile>): Snapshot
  {
    Snapshot(snapshotDate, if ListParsedFilesPaths then Some(PathsOf(files)) else None, |files|, AppStats(files))
  }

  /** `createSnapshot(snapshotDate)`: the record with an empty path list (the
      option is on), amount 0 and empty `stats`; returned as it is when no file
      matches, otherwise filled by the per-file tasks. */
  method CreateSnapshot(snapshotDate: string, files: seq<SourceFile>) returns (snapShot: Snapshot)
    requires |files| <= MaxResults
    ensures snapShot == SnapshotOf(snapshotDate, files)
  {
    snapShot := Snapshot(snapshotDate, if ListParsedFilesPaths then Some([]) else None, 0, map[]);
    if |files| == 0 {
      assert PathsOf(files) == [];
      return;
    }
    var paths, amount, stats := ParseApplicationFiles(files, ListParsedFilesPaths);
    snapShot := snapShot.(documentsParsedPaths := Some(paths), documentsParsedAmount := amount, stats := stats);
  }

  /** The snapshot lists every matched file's path, counts at most 10 files,
      holds each kind's total over the files and never `constructor`; with no
      match it has the given date, an empty path list, amount 0 and empty
      `stats`. */
  lemma SnapshotContents(snapshotDate: string, files: seq<SourceFile>)
    requires |files| <= MaxResults
    ensures var s := SnapshotOf(snapshotDate, files);
      && s.snapshotDate == snapshotDate
      && s.documentsParsedPaths == Some(PathsOf(files))
      && s.documentsParsedAmount == |files| <= MaxResults
      && ConstructorKind !in s.stats
      && (files == [] ==> s.documentsParsedPaths == Some([]) && s.documentsParsedAmount == 0 && s.stats == map[])
      && (forall k: SymbolKind :: Merged(k) && files != [] ==> k in s.stats && s.stats[k] == TotalCount(files, k))
  {
    AppStatsAreSums(files);
  }

  /** The repository index the command builds: the project name and the
      snapshots gathered so far. */
  class DocumentNodeIndex {
    var projectName: string
    var snapShots: seq<Snapshot>

    /** `{ snapShots: [] }` with the project name the user entered. */
    constructor (projectName: string)
      ensures this.projectName == projectName && snapShots == []
    {
      this.projectName := projectName;
      snapShots := [];
    }
  }

  /** The snapshot of the `i`-th month of a walk from `start`. */
  function SnapshotAt(start: YearMonth, i: nat, files: seq<SourceFile>): Snapshot
    requires ValidMonth(start)
  {
    SnapshotOf(DateOf(AddMonths(start, i)), files)
  }

  /** The month-by-month snapshots of a walk from `start`. */
  function Walk(start: YearMonth, files: seq<SourceFile>): nat -> Snapshot
    requires ValidMonth(start)
  {
    (i: nat) => SnapshotAt(start, i, files)
  }

  /** The nested `extractRepositoryData(...)`: from the first of the start month
      to the first of the current month, push the snapshot of each month onto
      `mydata.snapShots`. Every month reads the same matched files, since the
      checkout that would change them is commented out. */
  method ExtractRepositoryData(mydata: DocumentNodeIndex, start: YearMonth, current: YearMonth, files: seq<SourceFile>)
    requires ValidMonth(start) && ValidMonth(current) && |files| <= MaxResults
    modifies mydata
    ensures mydata.projectName == old(mydata.projectName)
    ensures mydata.snapShots == old(mydata.snapShots) + Tabulate(Walk(start, files), MonthCount(start, current))
  {
    ghost var walk := Walk(start, files);
    ghost var before := mydata.snapShots;
    ghost var n: nat := 0;
    var loop := start;
    while NotAfter(loop, current)
      invariant ValidMonth(loop) && loop == AddMonths(start, n) && n <= MonthCount(start, current)
      invariant mydata.projectName == old(mydata.projectName)
      invariant mydata.snapShots == before + Tabulate(walk, n)
      decreases MonthIndex(current) - MonthIndex(loop)
    {
      NotAfterByIndex(loop, current);
      var snapshotData := CreateSnapshot(DateOf(loop), files);
      TabulateStep(walk, n);
      mydata.snapShots := mydata.snapShots + [snapshotData];
      n := n + 1;
      loop := Next(loop);
    }
    NotAfterByIndex(loop, current);
  }

  /** The snapshots one walk appends: one per month from `start` to `current`,
      the `i`-th being the snapshot of the first of the `i`-th month. */
  lemma WalkAppends(start: YearMonth, current: YearMonth, files: seq<SourceFile>)
    requires ValidMonth(start) && ValidMonth(current)
    ensures var w := Tabulate(Walk(start, files), MonthCount(start, current));
      && (|w| > 0 <==> NotAfter(start, current))
      && (forall i :: 0 <= i < |w| ==> w[i] == SnapshotOf(DateOf(AddMonths(start, i)), files))
      && (|w| > 0 ==> w[0].snapshotDate == DateOf(start) && w[|w| - 1].snapshotDate == DateOf(current))
  {
    MonthRange(start, current);
  }
}
