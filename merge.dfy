/**
  Merging per-file counts into a snapshot's `stats` map, the part shared by the
  three revisions of `createSnapshot`: each matched file is aggregated from a
  fresh entry, counted in `documentsParsedAmount`, optionally listed by path, and
  its per-kind counts are added into `stats`, skipping the `constructor` key.
 */
module Merge {
  import opened Symbols
  import opened Aggregator
  import opened Sums

  /** A matched application file with the symbol tree the editor reports for it. */
  datatype SourceFile = SourceFile(path: string, symbols: seq<Sym>)

  /** The value of `key` in `stats`, a missing key read as 0. */
  function Get0(stats: map<SymbolKind, int>, key: SymbolKind): int
  {
    if key in stats then stats[key] else 0
  }

  /** One key of the merge: `if (stats[k]) stats[k] = stats[k] + occurrences; else
      stats[k] = occurrences;`. Whether the old value is truthy or not (missing or
      0), the new value is the old one plus the occurrences. */
  function MergeKey(stats: map<SymbolKind, int>, key: SymbolKind, occurrences: int): (r: map<SymbolKind, int>)
    ensures r.Keys == stats.Keys + {key}
    ensures r[key] == Get0(stats, key) + occurrences
    ensures forall k :: k in stats && k != key ==> r[k] == stats[k]
  {
    if key in stats && stats[key] != 0 then stats[key := stats[key] + occurrences]
    else stats[key := occurrences]
  }

  /** The kinds whose counts the merge writes: all but `constructor`. */
  predicate Merged(k: SymbolKind)
  {
    k != ConstructorKind
  }

  /** `Object.entries(documentNodes).forEach(...)`: the entries, in the order the
      kinds were inserted, are added into `stats`, except the one named
      `constructor`, which is skipped. */
  method MergeDocumentNodes(stats: map<SymbolKind, int>, documentNodes: map<SymbolKind, int>)
    returns (merged: map<SymbolKind, int>)
    requires HasAllKinds(documentNodes)
    ensures forall k :: k in merged <==> k in stats || Merged(k)
    ensures forall k :: k in merged ==> merged[k] == if Merged(k) then Get0(stats, k) + documentNodes[k] else stats[k]
    ensures ConstructorKind in merged <==> ConstructorKind in stats
  {
    merged := stats;
    for i: nat := 0 to |SymbolKinds|
      invariant merged == MergeBelow(stats, documentNodes, i)
    {
      var symbolKind: SymbolKind := i;
      var occurrences := documentNodes[symbolKind];
      ConstructorByName(symbolKind);
      if SymbolKinds[symbolKind] == ConstructorKey {
        continue;
      }
      merged := MergeKey(merged, symbolKind, occurrences);
    }
    MergeBelowResult(stats, documentNodes, |SymbolKinds|);
  }

  /** The merge of the entries of the kinds below `n`, one after the other. */
  function MergeBelow(stats: map<SymbolKind, int>, documentNodes: map<SymbolKind, int>, n: nat): map<SymbolKind, int>
    requires n <= |SymbolKinds| && HasAllKinds(documentNodes)
  {
    if n == 0 then stats
    else
      var before := MergeBelow(stats, documentNodes, n - 1);
      if Merged(n - 1) then MergeKey(before, n - 1, documentNodes[n - 1]) else before
  }

  /** Merging the kinds below `n` adds each one's occurrences once to its old value
      (a missing one read as 0) and leaves `constructor` and the other keys alone. */
  lemma {:induction false} MergeBelowResult(stats: map<SymbolKind, int>, documentNodes: map<SymbolKind, int>, n: nat)
    requires n <= |SymbolKinds| && HasAllKinds(documentNodes)
    ensures var r := MergeBelow(stats, documentNodes, n);
      && (forall k :: k in r <==> k in stats || (Merged(k) && k as int < n))
      && (forall k :: k in r ==> r[k] == if Merged(k) && k as int < n then Get0(stats, k) + documentNodes[k] else stats[k])
  {
    if n > 0 {
      MergeBelowResult(stats, documentNodes, n - 1);
      var before := MergeBelow(stats, documentNodes, n - 1);
      var key: SymbolKind := n - 1;
      if Merged(key) {
        MergeBelowKey(stats, documentNodes, before, key);
      }
    }
  }

  /** The step of `MergeBelowResult` for a kind that is merged. */
  lemma MergeBelowKey(stats: map<SymbolKind, int>, documentNodes: map<SymbolKind, int>, before: map<SymbolKind, int>, key: SymbolKind)
    requires HasAllKinds(documentNodes) && Merged(key)
    requires forall k: SymbolKind :: k in before <==> k in stats || (Merged(k) && k as int < key as int)
    requires forall k: SymbolKind :: k in before ==> before[k] == if Merged(k) && k as int < key as int then Get0(stats, k) + documentNodes[k] else stats[k]
    ensures var r := MergeKey(before, key, documentNodes[key]);
      && (forall k: SymbolKind :: k in r <==> k in stats || (Merged(k) && k as int <= key as int))
      && (forall k: SymbolKind :: k in r ==> r[k] == if Merged(k) && k as int <= key as int then Get0(stats, k) + documentNodes[k] else stats[k])
  {
    assert Get0(before, key) == Get0(stats, key);
  }

  /** Occurrences of kind `kind` summed over the symbol trees of all `files`. */
  function TotalCount(files: seq<SourceFile>, kind: SymbolKind): nat
  {
    SumBy(files, (f: SourceFile) => Count(f.symbols, kind))
  }

  /** The expected `stats` after merging `files`: nothing for no file, otherwise
      every kind but `constructor`, holding its total over the files. */
  function AppStats(files: seq<SourceFile>): map<SymbolKind, int>
  {
    if files == [] then map[] else map k: SymbolKind | k < |SymbolKinds| && Merged(k) :: TotalCount(files, k)
  }

  /** The paths of `files`, in order. */
  function PathsOf(files: seq<SourceFile>): seq<string>
  {
    Map(files, (f: SourceFile) => f.path)
  }

  /** The per-file tasks of `createSnapshot`, run one after the other: each file is
      aggregated from a fresh entry, its path pushed when `listPaths` is set, the
      parsed amount incremented, and its counts merged into `stats`. */
  method ParseApplicationFiles(files: seq<SourceFile>, listPaths: bool)
    returns (paths: seq<string>, amount: nat, stats: map<SymbolKind, int>)
    ensures amount == |files|
    ensures paths == if listPaths then PathsOf(files) else []
    ensures stats == AppStats(files)
  {
    paths, amount, stats := [], 0, map[];
    for i := 0 to |files|
      invariant amount == i
      invariant paths == if listPaths then PathsOf(files[..i]) else []
      invariant stats == AppStats(files[..i])
    {
      var file := files[i];
      var parsedData := ProcessDocumentEntry(file.path, file.symbols, 0, null);
      if listPaths {
        paths := paths + [file.path];
        assert files[..i + 1][..i] == files[..i];
      }
      amount := amount + 1;
      FreshEntryCounts(file.symbols);
      var before := stats;
      stats := MergeDocumentNodes(stats, parsedData.documentNodes);
      MergeStep(files, i, before, stats);
    }
    assert files[..|files|] == files;
  }

  /** Merging the fresh-entry counts of file `i` into the stats of the files before
      it gives the stats of the files up to and including it. */
  lemma MergeStep(files: seq<SourceFile>, i: nat, before: map<SymbolKind, int>, after: map<SymbolKind, int>)
    requires i < |files| && before == AppStats(files[..i])
    requires forall k :: k in after <==> k in before || Merged(k)
    requires forall k :: k in after ==>
      after[k] == if Merged(k) then Get0(before, k) + Count(files[i].symbols, k) else before[k]
    ensures after == AppStats(files[..i + 1])
  {
    var upto := files[..i + 1];
    assert upto[..|upto| - 1] == files[..i];
    forall k | k in after
      ensures after[k] == AppStats(upto)[k]
    {
      assert TotalCount(upto, k) == TotalCount(files[..i], k) + Count(files[i].symbols, k);
    }
  }

  /** The totals do not depend on the order in which the files are merged. */
  lemma AppStatsOrderIndependent(a: seq<SourceFile>, b: seq<SourceFile>)
    requires multiset(a) == multiset(b)
    ensures AppStats(a) == AppStats(b)
  {
    if a == [] {
      assert |b| == |multiset(b)| == 0;
    } else {
      assert a[0] in multiset(b);
      forall k: SymbolKind | Merged(k)
        ensures TotalCount(a, k) == TotalCount(b, k)
      {
        SumByPermutation(a, b, (f: SourceFile) => Count(f.symbols, k));
      }
    }
  }

  /** With at least one file, `stats` holds every kind but `constructor`, each at
      the sum over the files of that kind's occurrences; with none it is empty. */
  lemma AppStatsAreSums(files: seq<SourceFile>)
    ensures ConstructorKind !in AppStats(files)
    ensures files != [] ==> forall k: SymbolKind :: Merged(k) ==> k in AppStats(files) && AppStats(files)[k] == TotalCount(files, k)
    ensures files == [] ==> AppStats(files) == map[]
  {
  }
}
