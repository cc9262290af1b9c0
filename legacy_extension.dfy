/**
  The snapshot code of `test-profitability/src/extension.ts`, the oldest
  revision: `createSnapshot()` takes no date, does not list paths (the option is
  off) and reads at most 50 matched files.
 */
module LegacyExtension {
  import opened Wrappers
  import opened Symbols
  import opened Merge

  /** `OPTION_LIST_PARSED_FILES_PATHS`. */
  const ListParsedFilesPaths: bool := false

  /** The `maxResults` argument of `findFiles`. */
  const MaxResults: nat := 50

  /** A snapshot; `documentsParsedPaths` is `None` when the record has no such
      field. */
  datatype Snapshot = Snapshot(documentsParsedPaths: Option<seq<string>>, documentsParsedAmount: nat, stats: map<SymbolKind, int>)

  /** The snapshot `createSnapshot()` produces for the matched files. */
  function SnapshotOf(files: seq<SourceFile>): Snapshot
  {
    Snapshot(if ListParsedFilesPaths then Some(PathsOf(files)) else None, |files|, AppStats(files))
  }

  /** `createSnapshot()`: the record without a path list (the option is off),
      amount 0 and empty `stats`; returned as it is when no file matches,
      otherwise filled by the per-file tasks. */
  method CreateSnapshot(files: seq<SourceFile>) returns (snapShot: Snapshot)
    requires |files| <= MaxResults
    ensures snapShot == SnapshotOf(files)
  {
    snapShot := Snapshot(if ListParsedFilesPaths then Some([]) else None, 0, map[]);
    if |files| == 0 {
      return;
    }
    var paths, amount, stats := ParseApplicationFiles(files, ListParsedFilesPaths);
    snapShot := snapShot.(documentsParsedAmount := amount, stats := stats);
  }

  /** The snapshot has no path list, counts at most 50 files, holds each kind's
      total over the files and never `constructor`; with no match it has amount
      0 and empty `stats`. */
  lemma SnapshotContents(files: seq<SourceFile>)
    requires |files| <= MaxResults
    ensures var s := SnapshotOf(files);
      && s.documentsParsedPaths == None
      && s.documentsParsedAmount == |files| <= MaxResults
      && ConstructorKind !in s.stats
      && (files == [] ==> s.documentsParsedAmount == 0 && s.stats == map[])
      && (forall k: SymbolKind :: Merged(k) && files != [] ==> k in s.stats && s.stats[k] == TotalCount(files, k))
  {
    AppStatsAreSums(files);
  }

  /** The merged counts do not depend on the order of the files. */
  lemma SnapshotOrderIndependent(a: seq<SourceFile>, b: seq<SourceFile>)
    requires multiset(a) == multiset(b)
    ensures SnapshotOf(a) == SnapshotOf(b)
  {
    assert |a| == |multiset(a)| == |b|;
    AppStatsOrderIndependent(a, b);
  }
}
