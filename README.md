# Test-profitability symbol counting, modelled in Dafny

The VS Code extension `vscode-extension-testprofitability` profiles a
TypeScript workspace in three steps:

- For every matched source file, it counts the document symbols the editor
  reports, per symbol kind (`processDocumentEntry`).
- It merges those counts into a snapshot (`createSnapshot`). The snapshot
  records how many files were parsed, optionally their paths, and, in the
  latest revision, how many test cases (`it(` calls) the test files hold.
- It walks month by month from a start month to the current month and
  takes one snapshot per month, dated `yyyy-m-d` (`extractRepositoryData`,
  `getDateFormatted`).

The code exists in three revisions, and each one is modelled:

- `src/utils.ts`: modules `Utils` and `TestCases`.
- `src/extension.ts`: module `Extension`.
- `test-profitability/src/extension.ts`: module `LegacyExtension`.

Modules shared by the three revisions:

- `Aggregator`: the aggregator. It is a class whose counter map is updated
  in place by a recursive method with a loop. The three copies of it are
  identical.
- `Merge`: the per-file merge into `stats`.
- `Dates`: date formatting and the month arithmetic of the walk.
- `Symbols`: the symbol trees and the `SymbolKinds` name table.
- `Sums`: order-independent sums, and the per-item lists (such as parsed paths) a snapshot records.

Each imperative operation is a method with loop invariants, proved against
a specification function:

- `Aggregate`: a counter map plus the per-kind count of a forest.
- `AppStats`: the per-kind totals over the files.
- `TotalTestCases`: the test cases summed over the test files.
- `SnapshotOf`: a whole snapshot.
- `Tabulate(Walk(..))`: the walk's result.

Lemmas then state what those functions promise.

Counter maps are keyed by the numeric symbol kind, where the source keys
them by the kind's name `SymbolKinds[kind]`. `Symbols.SymbolKindsDistinct`
proves that the table gives every kind its own name, so the two keyings
correspond one to one. It also proves that the name `constructor` is the
kind `ConstructorKind` (8).

A `createSnapshot` starts one task per file and waits with `Promise.all`.
The model runs these tasks one after the other. A snapshot is the state
after every task it started has run.

## Model

| member | source | states |
|---|---|---|
| Aggregator.ProcessDocumentEntry | src/utils.ts:26-53 | Without an entry, it returns a fresh object for `path` whose counters are `Aggregate(ZeroFilled(), symbols)`. With an entry, it updates and returns that same object and keeps its path; the new counters are the old ones plus each kind's occurrences anywhere in the forest. An empty list leaves the counters as they were. The copies at src/extension.ts:23-50 and test-profitability/src/extension.ts:16-43 are the same. |
| Aggregator.DocumentNodeEntry.constructor | src/utils.ts:34-37 | The literal `{ path, documentNodes: {} }`: the entry holds the given path and an empty counter map. |
| Aggregator.NewEntry | src/utils.ts:33-38 | A fresh entry holds the given path and the counter map filled with 0 for every kind. |
| Aggregator.ZeroFilledFacts | src/utils.ts:38 | The fresh counter map has exactly the kinds of the table as keys, each at 0. |
| Aggregator.AggregateNothing | src/utils.ts:42-44 | Walking an empty symbol list changes no counter. |
| Aggregator.AggregateNeverDecreases | src/utils.ts:45-51 | Walking a forest adds no key, removes none and lowers no counter. |
| Aggregator.AggregateOneSymbol | src/utils.ts:45-51 | One symbol adds exactly 1 to its own kind's counter, plus whatever its subtree adds, and adds nothing else. |
| Aggregator.AggregateStep | src/utils.ts:46-50 | One loop turn (increment the symbol's kind, then walk its children) equals aggregating one more symbol of the list. |
| Aggregator.AggregateSum | src/utils.ts:45-51 | Summed over all kinds, the counters grow by exactly the number of symbols in the forest, at any depth. |
| Aggregator.FreshEntryCounts | test-profitability/src/extension.ts:23-41 | Starting from the fresh entry, each kind's counter is the number of symbols of that kind in the whole tree. |
| Symbols.SymbolKindsDistinct | src/utils.ts:46 | No two kinds share a name, and `SymbolKinds[ConstructorKind]` is `constructor`. |
| Symbols.ConstructorByName | src/utils.ts:107 | A kind's name equals `constructor` exactly when the kind is `ConstructorKind`. |
| Symbols.CountAppend | src/utils.ts:45-51 | Counting a concatenation of forests adds the counts of the parts. |
| Symbols.CountSingle | src/utils.ts:46-50 | A single symbol counts itself, if it has that kind, plus its subtree. |
| Symbols.CountAllIsSize | src/utils.ts:45-51 | The per-kind counts of a forest sum to its number of symbols: each symbol is counted under exactly one kind. |
| Merge.MergeKey | src/utils.ts:110-114 | Both branches of the truthiness test give the old value plus the occurrences, a missing key read as 0. Only that key changes, and it is added if missing. |
| Merge.MergeDocumentNodes | src/utils.ts:105-115 | After merging one entry, every kind but `constructor` holds its old value (missing = 0) plus the entry's count. `constructor` is a key only if it already was, and keeps its value. |
| Merge.MergeBelowResult | src/utils.ts:105-115 | Merging the entries of the kinds below `n`, one by one, adds each merged kind's count once and leaves every other key alone. |
| Merge.ParseApplicationFiles | src/utils.ts:94-116 | After the per-file tasks: the amount equals the number of files; the paths are every file's path in order when listing is on, and empty otherwise; `stats` is `AppStats(files)`. |
| Merge.MergeStep | src/utils.ts:99-115 | Merging file `i`'s fresh-entry counts into the stats of the files before it gives the stats of the files up to and including it. |
| Merge.AppStatsAreSums | src/extension.ts:77-87 | With at least one file, `stats` holds every kind but `constructor`, each at its total over the files. `constructor` is never a key. With no file, `stats` is empty. |
| Merge.AppStatsOrderIndependent | src/utils.ts:94-116 | The merged `stats` do not depend on the order in which the files are processed. |
| Sums.SumByPermutation | src/utils.ts:94-116 | A sum over a list equals the sum over any permutation of it. |
| Dates.NatToString | src/utils.ts:15 | A rendered number is non-empty, all digits, reads back as the number, has no leading zero, and has one digit exactly when the number is below 10. |
| Dates.GetDateFormatted | src/utils.ts:11-16 | The date as year, 1-based month and day joined by `-`, with neither month nor day zero-padded: the text is exactly the year, one month digit for January to September and two otherwise, one day digit below the 10th and two otherwise, and two separators. The copy at src/extension.ts:15-21 is the same. |
| Dates.GetDateFormattedParses | src/utils.ts:11-16 | `getDateFormatted` reads back as year, `getMonth() + 1` and day: nothing is lost, and the `-` separators are unambiguous. |
| Dates.MonthUnpadded | src/extension.ts:15-21 | The rendered month is in 1..12, never zero-padded, and one digit exactly for January to September. |
| Dates.Next | src/utils.ts:257-258 | `setMonth(getMonth() + 1)` on the first of a month gives the first of the next month. December rolls over to January of the next year. |
| Dates.NotAfterByIndex | src/utils.ts:241 | `loop <= endDate` on first days of months is comparison of month indexes. |
| Dates.AddMonths | src/utils.ts:240-259 | `i` steps from a month land on the month `i` later. |
| Dates.MonthCount | src/utils.ts:237-241 | The number of months from start to end inclusive is positive exactly when the start is not after the end. |
| Dates.MonthRange | src/utils.ts:239-260 | The walk visits the start first and the end month last; each month follows the previous; none is after the end; the month after the last is past the end. |
| Dates.DateOfParses | src/utils.ts:248 | A month's snapshot date reads back as that year, that month and day 1. |
| Dates.DatesDiffer | src/utils.ts:248 | Different months get different snapshot dates. |
| TestCases.NoOverlap | src/utils.ts:132-135 | Two matches of `\sit\(` cannot overlap. |
| TestCases.GlobalMatches | src/utils.ts:132-135 | The global, case-insensitive scan for `\sit\(` from a position: its matches, four characters each and never overlapping, fit in the rest of the text. |
| TestCases.GlobalMatchesArePositions | src/utils.ts:132-135 | The global scan, which resumes after each match, counts every position where the pattern matches. |
| TestCases.NoMatchNearEnd | src/utils.ts:135 | Fewer than four characters hold no match. |
| TestCases.TestCasesIn | src/utils.ts:135-137 | A file's test cases: the length of the match array, 0 when `match` returns `null`; equal to the number of positions where the pattern matches, and at most a quarter of the text's length. |
| Sums.Map | src/utils.ts:126-129 | The list of one item per input, in input order, as the tasks push each file's path: the same length as the input and the `i`-th item taken from the `i`-th input. The application paths (src/utils.ts:100-102) are built the same way. |
| TestCases.ParseTestFiles | src/utils.ts:126-140 | After the coverage tasks: every test path is listed, the amount equals the number of test files, and the test cases are the per-file match counts summed. |
| TestCases.TotalTestCasesGrow | src/utils.ts:136-138 | Each test file adds its number of match positions, so `testCaseOccurrences` never decreases. |
| TestCases.TotalTestCasesOrderIndependent | src/utils.ts:126-140 | The test-case total does not depend on the order of the test files. |
| Utils.CreateSnapshot | src/utils.ts:65-152 | The result is `SnapshotOf(date, opts, ws)`. This covers the initial record, the early return on no application match, the early return on no test match, and the coverage tasks, which take effect only when `coverageStats` exists. |
| Utils.InitialSnapshot | src/utils.ts:73-85 | The initial record: the given date, no application paths, amount 0, empty `stats`, and a `coverageStats` record (empty, amount 0, no test cases) exactly when `listParsedAppFiles` is set. |
| Utils.EmptyMatch | src/utils.ts:87-91 | With no matched application file, the snapshot has the given date, no paths, amount 0 and empty `stats`. It has `coverageStats`, empty, exactly when `listParsedAppFiles` is set. |
| Utils.ApplicationStatsOf | src/utils.ts:99-115 | One parsed file per match, at most 50. Paths are listed only with `listParsedAppFiles`. Every kind but `constructor` holds its total over the files. |
| Utils.CoverageStatsOf | src/utils.ts:80-84 | `coverageStats` exists exactly when `listParsedAppFiles` is set. It is filled with the test paths, the test-file count and the summed test cases when the coverage tasks run, and is empty otherwise. |
| Utils.SnapshotTotalsOrderIndependent | src/utils.ts:94-140 | Reordering the application files or the test files changes neither the amount, nor `stats`, nor the test-case total. |
| Utils.ExtractRepositoryData | src/utils.ts:221-264 | The result holds one snapshot per month from the start month to the current month inclusive. The `i`-th is the snapshot dated the first of the month `i` months after the start. |
| Utils.WalkChronological | src/utils.ts:239-260 | The walk is non-empty exactly when the start is not after the current month. The first snapshot is dated the start month and the last the current month. Each date reads back as its month's first day. No two dates are equal. |
| Utils.WalkDatesParse | src/utils.ts:247-248 | Each snapshot of a walk is dated `getDateFormatted(loop)` for its month's first day, and that text reads back as that year, that month and day 1. |
| Utils.WalkDatesDistinct | src/utils.ts:247-258 | No two snapshots of a walk carry the same date, since the loop steps to a new month each turn. |
| Extension.CreateSnapshot | src/extension.ts:52-92 | The result is `SnapshotOf(date, files)`: the given date, every path (the option is on), the file count, and the per-kind totals without `constructor`. |
| Extension.SnapshotContents | src/extension.ts:53-87 | The snapshot has the given date, every matched path, at most 10 files, never `constructor`, and per-kind totals. With no match it has an empty path list, amount 0 and empty `stats`. |
| Extension.DocumentNodeIndex.constructor | src/extension.ts:134-155 | The index starts as `{ snapShots: [] }` (lines 134-136) and receives the name the user entered (line 155) before the walk begins: the project name and no snapshots. |
| Extension.ExtractRepositoryData | src/extension.ts:212-242 | The walk appends to `mydata.snapShots` one snapshot per month from start to current, in order, and keeps the project name. |
| Extension.WalkAppends | src/extension.ts:224-238 | The appended list is non-empty exactly when the start is not after the current month. Its `i`-th element is dated the `i`-th month. It runs from the start month to the current month. |
| LegacyExtension.CreateSnapshot | test-profitability/src/extension.ts:45-84 | The result is `SnapshotOf(files)`: no path list, the file count, and the per-kind totals without `constructor`. |
| LegacyExtension.SnapshotContents | test-profitability/src/extension.ts:46-79 | The snapshot has no `documentsParsedPaths`, at most 50 files, never `constructor`, and per-kind totals. With no match it has amount 0 and empty `stats`. |
| LegacyExtension.SnapshotOrderIndependent | test-profitability/src/extension.ts:58-81 | The snapshot does not depend on the order of the matched files. |

## Left out

- Host calls: `findFiles`, `executeDocumentSymbolProvider`, `workspace.fs.readFile`, warnings, progress and input boxes. The workspace is an input instead: the matched files with their symbol trees and the decoded test-file texts.
- The `maxResults` limit of `findFiles`: it is a precondition on the number of matched files (50, 10 or 50).
- `Promise.all` concurrency: tasks run one after the other, and a snapshot is the state after every started task has run.
  - In `src/utils.ts` some tasks are never awaited:
    - the coverage tasks, because `allTasks.concat(...)` at line 145 discards its result;
    - the application tasks, when the function returns early at line 124.
  - The returned object may therefore still be filling when the caller reads it. The model does not capture that race, or the order of paths under interleaving.
- `coverageStats`: it is created only when `listParsedAppFiles` is set (src/utils.ts:80-84). Without it, each coverage task stops at a `TypeError` before changing anything. The model gives that case no coverage effect and does not model the unhandled rejection.
- Absent or non-array symbol lists, and absent `children`: both are the empty sequence.
- Kinds outside the name table: excluded by the type `SymbolKind`. In the source such a kind would create an `"undefined"` key holding NaN.
- `src/SymbolKinds.ts` is not part of this model. The table is taken as the 26 names of the editor's `SymbolKind` enum, in enum order, with `constructor` at index 8.
- Counter maps are keyed by kind index, not by name, and the insertion order of object keys is not modelled. `Symbols.SymbolKindsDistinct` shows the two keyings correspond.
- JavaScript `Date`:
  - parsing of the user's start year and month strings, including invalid ones;
  - time zones;
  - the clock, which supplies the current month.
  Months are valid `(year, month)` pairs and the current month is a parameter. `getDateFormatted` is modelled on its three fields, with no calendar validation beyond month 0..11 and day 1..31.
- Git checkout and cleanup (`spawnSync`): the calls in the loops are commented out, so every month reads the same files.
- `commandParseWorkspace`, `currentState`, `JSON.stringify`, the text documents shown, the webview panel, and the Halstead, Gaffney and line-count fields: UI, output formatting, or interface fields with no computation.
- UTF-8 decoding of test files: the text is an input string.
