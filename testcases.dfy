/**
  Counting test cases in a test file: `content.match(/\sit\(/gi)`, the matches of
  a whitespace character followed by `it(` in any letter case, found by a global
  left-to-right scan, and the coverage tasks of `createSnapshot` that add those
  counts up over the matched test files.
 */
module TestCases {
  import opened Sums

  /** A matched test file and its decoded text. */
  datatype TestFile = TestFile(path: string, content: string)

  /** The characters `\s` matches in a JavaScript regular expression: the
      ASCII whitespace and line terminators, no-break space, the Unicode space
      separators and the byte-order mark. */
  predicate IsWhitespace(c: char)
  {
    var n := c as int;
    n == 0x09 || n == 0x0A || n == 0x0B || n == 0x0C || n == 0x0D || n == 0x20 ||
    n == 0xA0 || n == 0x1680 || (0x2000 <= n <= 0x200A) || n == 0x2028 || n == 0x2029 ||
    n == 0x202F || n == 0x205F || n == 0x3000 || n == 0xFEFF
  }

  /** The pattern matches at position `p`: whitespace, then `i` and `t` in either
      case (the `i` flag), then `(`. */
  predicate MatchAt(s: string, p: nat)
  {
    p + 4 <= |s| && IsWhitespace(s[p]) && (s[p + 1] == 'i' || s[p + 1] == 'I') &&
    (s[p + 2] == 't' || s[p + 2] == 'T') && s[p + 3] == '('
  }

  /** The matches a global `match` returns from position `from` on: the scan
      tries each position in turn and, after a match, resumes at its end, so
      the matches, four characters each, fit in what is left of the text. */
  function GlobalMatches(s: string, from: nat): (n: nat)
    ensures from <= |s| ==> 4 * n <= |s| - from
    decreases |s| - from
  {
    if from + 4 > |s| then 0
    else if MatchAt(s, from) then 1 + GlobalMatches(s, from + 4)
    else GlobalMatches(s, from + 1)
  }

  /** The number of positions from `from` on where the pattern matches. */
  function MatchPositions(s: string, from: nat): nat
    decreases |s| - from
  {
    if from >= |s| then 0 else (if MatchAt(s, from) then 1 else 0) + MatchPositions(s, from + 1)
  }

  /** Two matches never overlap: the three characters after a match's
      whitespace are `i`, `t` and `(`, none of which is whitespace. */
  lemma NoOverlap(s: string, p: nat)
    requires MatchAt(s, p)
    ensures !MatchAt(s, p + 1) && !MatchAt(s, p + 2) && !MatchAt(s, p + 3)
  {
  }

  /** So the scan, which skips past each match, still finds every position where
      the pattern matches. */
  lemma {:induction false} GlobalMatchesArePositions(s: string, from: nat)
    ensures GlobalMatches(s, from) == MatchPositions(s, from)
    decreases |s| - from
  {
    if from + 4 > |s| {
      NoMatchNearEnd(s, from);
    } else if MatchAt(s, from) {
      NoOverlap(s, from);
      GlobalMatchesArePositions(s, from + 4);
      assert MatchPositions(s, from + 3) == MatchPositions(s, from + 4);
      assert MatchPositions(s, from + 2) == MatchPositions(s, from + 3);
      assert MatchPositions(s, from + 1) == MatchPositions(s, from + 2);
    } else {
      GlobalMatchesArePositions(s, from + 1);
    }
  }

  /** Fewer than four characters hold no match. */
  lemma {:induction false} NoMatchNearEnd(s: string, from: nat)
    requires from + 4 > |s|
    ensures MatchPositions(s, from) == 0
    decreases |s| - from
  {
    if from < |s| {
      NoMatchNearEnd(s, from + 1);
    }
  }

  /** The test cases of one file: the length of the match array, 0 when `match`
      finds nothing and returns `null`. That is the number of positions where
      the pattern matches, and each match takes four characters. */
  function TestCasesIn(f: TestFile): (n: nat)
    ensures n == MatchPositions(f.content, 0)
    ensures 4 * n <= |f.content|
  {
    GlobalMatchesArePositions(f.content, 0);
    GlobalMatches(f.content, 0)
  }

  /** The test cases summed over `files`. */
  function TotalTestCases(files: seq<TestFile>): nat
  {
    SumBy(files, TestCasesIn)
  }

  /** The paths of `files`, in order. */
  function TestPaths(files: seq<TestFile>): seq<string>
  {
    Map(files, (f: TestFile) => f.path)
  }

  /** The coverage tasks of `createSnapshot`, one after the other, on a snapshot
      that has `coverageStats`: each test file's path is pushed, the parsed amount
      incremented, and a non-empty match count added to the test cases. */
  method ParseTestFiles(files: seq<TestFile>) returns (paths: seq<string>, amount: nat, testCaseOccurrences: nat)
    ensures paths == TestPaths(files)
    ensures amount == |files|
    ensures testCaseOccurrences == TotalTestCases(files)
  {
    paths, amount, testCaseOccurrences := [], 0, 0;
    for i := 0 to |files|
      invariant paths == TestPaths(files[..i])
      invariant amount == i
      invariant testCaseOccurrences == TotalTestCases(files[..i])
    {
      var file := files[i];
      assert files[..i + 1][..i] == files[..i];
      paths := paths + [file.path];
      amount := amount + 1;
      var occurrences := GlobalMatches(file.content, 0);
      if occurrences > 0 {
        testCaseOccurrences := testCaseOccurrences + occurrences;
      }
    }
    assert files[..|files|] == files;
  }

  /** The test-case total does not depend on the order of the files, and adding
      a file never lowers it. */
  lemma TotalTestCasesOrderIndependent(a: seq<TestFile>, b: seq<TestFile>)
    requires multiset(a) == multiset(b)
    ensures TotalTestCases(a) == TotalTestCases(b)
  {
    SumByPermutation(a, b, TestCasesIn);
  }

  lemma TotalTestCasesGrow(files: seq<TestFile>, f: TestFile)
    ensures TotalTestCases(files + [f]) == TotalTestCases(files) + MatchPositions(f.content, 0)
    ensures TotalTestCases(files + [f]) >= TotalTestCases(files)
  {
    assert (files + [f])[..|files|] == files;
    GlobalMatchesArePositions(f.content, 0);
  }
}
