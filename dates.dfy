/**
  Dates as the snapshot code uses them: `getDateFormatted`, which renders a date
  as `yyyy-m-d` with no zero padding, and the calendar months the repository walk
  steps through, each taken on its first day.
 */
module Dates {
  import opened Wrappers

  /** The three fields of a JavaScript `Date` the formatter reads:
      `getFullYear()`, the 0-based `getMonth()` and the 1-based `getDate()`. */
  datatype JsDate = JsDate(year: int, month0: int, date: int)

  predicate ValidDate(d: JsDate)
  {
    0 <= d.month0 < 12 && 1 <= d.date <= 31
  }

  predicate IsDigit(c: char)
  {
    '0' <= c <= '9'
  }

  predicate AllDigits(s: string)
  {
    forall i :: 0 <= i < |s| ==> IsDigit(s[i])
  }

  /** The number a string of decimal digits denotes, read from the last digit. */
  function DigitsValue(s: string): nat
    requires AllDigits(s)
  {
    if s == [] then 0 else DigitsValue(s[..|s| - 1]) * 10 + (s[|s| - 1] as int - '0' as int)
  }

  /** The decimal rendering of a non-negative number, as a template literal
      renders it: digits only, no leading zero unless the number is 0. */
  function NatToString(n: nat): (s: string)
    ensures s != [] && AllDigits(s) && DigitsValue(s) == n
    ensures s[0] == '0' ==> n == 0
    ensures |s| == 1 <==> n < 10
  {
    if n < 10 then [('0' as int + n) as char]
    else
      var s := NatToString(n / 10) + [('0' as int + n % 10) as char];
      assert s[..|s| - 1] == NatToString(n / 10);
      s
  }

  /** The rendering of a year, a minus sign in front of a negative one. */
  function IntToString(i: int): (s: string)
    ensures s != [] && (s[0] == '-' <==> i < 0)
  {
    if i < 0 then "-" + NatToString(-i) else NatToString(i)
  }

  /** `getDateFormatted(convertDate)`: the year, the 1-based month and the day of
      the month, joined by `-`. Neither the month nor the day is zero-padded, so
      the text is the year, one or two month digits, one or two day digits and
      the two separators. */
  function GetDateFormatted(d: JsDate): (s: string)
    requires ValidDate(d)
    ensures |s| == |IntToString(d.year)| + (if d.month0 < 9 then 1 else 2) + (if d.date < 10 then 1 else 2) + 2
  {
    IntToString(d.year) + "-" + NatToString(d.month0 + 1) + "-" + NatToString(d.date)
  }

  /** Length of the run of digits at the end of `s`. */
  function TrailingDigits(s: string): (n: nat)
    ensures n <= |s| && AllDigits(s[|s| - n..]) && (n < |s| ==> !IsDigit(s[|s| - n - 1]))
  {
    if s == [] || !IsDigit(s[|s| - 1]) then 0
    else
      var n := 1 + TrailingDigits(s[..|s| - 1]);
      assert s[|s| - n..] == s[..|s| - 1][|s| - n..] + [s[|s| - 1]];
      n
  }

  /** Splits `text-digits` at its last `-`: the text before it and the number
      after it. */
  function SplitLast(s: string): Option<(string, nat)>
  {
    var n := TrailingDigits(s);
    if n == 0 || n == |s| || s[|s| - n - 1] != '-' then None
    else Some((s[..|s| - n - 1], DigitsValue(s[|s| - n..])))
  }

  /** Reads an integer written as digits, perhaps after a minus sign. */
  function ParseInt(s: string): Option<int>
  {
    if s != [] && s[0] == '-' then
      (if |s| > 1 && AllDigits(s[1..]) then Some(-(DigitsValue(s[1..]) as int)) else None)
    else if s != [] && AllDigits(s) then Some(DigitsValue(s) as int)
    else None
  }

  /** Reads `yyyy-m-d` back into year, 1-based month and day, splitting at the
      last `-` and then at the one before it; `None` for text of another shape. */
  function ParseDate(s: string): Option<(int, nat, nat)>
  {
    match SplitLast(s)
    case None => None
    case Some((rest, date)) =>
      match SplitLast(rest)
      case None => None
      case Some((year, month)) =>
        match ParseInt(year)
        case None => None
        case Some(y) => Some((y, month, date))
  }

  /** A run of digits after a non-digit is read back to that non-digit. */
  lemma {:induction false} TrailingDigitsSuffix(a: string, b: string)
    requires AllDigits(b) && (a == [] || !IsDigit(a[|a| - 1]))
    ensures TrailingDigits(a + b) == |b|
    decreases |b|
  {
    if b == [] {
      assert a + b == a;
    } else {
      assert (a + b)[..|a + b| - 1] == a + b[..|b| - 1];
      TrailingDigitsSuffix(a, b[..|b| - 1]);
    }
  }

  /** `a-digits` splits back into `a` and the number the digits denote. */
  lemma SplitLastOf(a: string, b: string)
    requires b != [] && AllDigits(b)
    ensures SplitLast(a + "-" + b) == Some((a, DigitsValue(b)))
  {
    var s := a + "-" + b;
    TrailingDigitsSuffix(a + "-", b);
    assert s[..|a|] == a;
    assert s[|s| - |b|..] == b;
  }

  /** A rendered integer reads back as itself. */
  lemma ParseIntToString(i: int)
    ensures ParseInt(IntToString(i)) == Some(i)
  {
    if i < 0 {
      assert IntToString(i)[1..] == NatToString(-i);
    }
  }

  /** The formatted date reads back as the year, the 1-based month and the day:
      the rendering loses nothing and separates the fields unambiguously. */
  lemma GetDateFormattedParses(d: JsDate)
    requires ValidDate(d)
    ensures ParseDate(GetDateFormatted(d)) == Some((d.year, d.month0 + 1, d.date))
  {
    var year, month := IntToString(d.year), NatToString(d.month0 + 1);
    SplitLastOf(year + "-" + month, NatToString(d.date));
    SplitLastOf(year, month);
    ParseIntToString(d.year);
  }

  /** The rendered month is `getMonth() + 1`, in 1..12, with one or two digits
      and no leading zero. */
  lemma MonthUnpadded(d: JsDate)
    requires ValidDate(d)
    ensures var m := NatToString(d.month0 + 1);
      1 <= DigitsValue(m) <= 12 && m[0] != '0' && (|m| == 1 <==> d.month0 < 9)
  {
  }

  /** A calendar month: `month` is 1-based. */
  datatype YearMonth = YearMonth(year: int, month: int)

  predicate ValidMonth(ym: YearMonth)
  {
    1 <= ym.month <= 12
  }

  /** Months counted from January of year 0: consecutive months have
      consecutive indexes. */
  function MonthIndex(ym: YearMonth): int
  {
    ym.year * 12 + ym.month - 1
  }

  /** `loop.setMonth(loop.getMonth() + 1)` on the first of a month: December
      rolls over into January of the next year. */
  function Next(ym: YearMonth): (r: YearMonth)
    requires ValidMonth(ym)
    ensures ValidMonth(r) && MonthIndex(r) == MonthIndex(ym) + 1
  {
    if ym.month == 12 then YearMonth(ym.year + 1, 1) else YearMonth(ym.year, ym.month + 1)
  }

  /** `loop <= endDate` on the first days of two months. */
  predicate NotAfter(a: YearMonth, b: YearMonth)
  {
    a.year < b.year || (a.year == b.year && a.month <= b.month)
  }

  /** Comparing the dates is comparing the month indexes. */
  lemma NotAfterByIndex(a: YearMonth, b: YearMonth)
    requires ValidMonth(a) && ValidMonth(b)
    ensures NotAfter(a, b) <==> MonthIndex(a) <= MonthIndex(b)
  {
  }

  /** The month `i` steps of `Next` after `start`. */
  function AddMonths(start: YearMonth, i: nat): (r: YearMonth)
    requires ValidMonth(start)
    ensures ValidMonth(r) && MonthIndex(r) == MonthIndex(start) + i
  {
    if i == 0 then start else Next(AddMonths(start, i - 1))
  }

  /** A valid month is determined by its index. */
  lemma MonthIndexInjective(a: YearMonth, b: YearMonth)
    requires ValidMonth(a) && ValidMonth(b) && MonthIndex(a) == MonthIndex(b)
    ensures a == b
  {
  }

  /** Number of months from `start` to `end`, both included; 0 when `start` is
      after `end`. */
  function MonthCount(start: YearMonth, end: YearMonth): (n: nat)
    requires ValidMonth(start) && ValidMonth(end)
    ensures n > 0 <==> NotAfter(start, end)
  {
    if MonthIndex(end) < MonthIndex(start) then 0 else MonthIndex(end) - MonthIndex(start) + 1
  }

  /** The months the walk visits are `start`, then one month later each time, up
      to and including `end`: the first is `start`, the last is `end`, each is
      the one after the previous, and none is after `end`. */
  lemma MonthRange(start: YearMonth, end: YearMonth)
    requires ValidMonth(start) && ValidMonth(end)
    ensures var n := MonthCount(start, end);
      && (n > 0 ==> AddMonths(start, 0) == start && AddMonths(start, n - 1) == end)
      && (forall i: nat :: i + 1 < n ==> Next(AddMonths(start, i)) == AddMonths(start, i + 1))
      && (forall i: nat :: i < n ==> NotAfter(AddMonths(start, i), end))
      && !NotAfter(AddMonths(start, n), end)
  {
    var n := MonthCount(start, end);
    if n > 0 {
      MonthIndexInjective(AddMonths(start, n - 1), end);
    }
  }

  /** The first day of the month, as the walk's `loop` date. */
  function FirstDay(ym: YearMonth): JsDate
    requires ValidMonth(ym)
  {
    JsDate(ym.year, ym.month - 1, 1)
  }

  /** The snapshot date of a month: its first day, formatted. */
  function DateOf(ym: YearMonth): string
    requires ValidMonth(ym)
  {
    GetDateFormatted(FirstDay(ym))
  }

  /** A month's snapshot date reads back as that year, that month and day 1, so
      different months get different dates. */
  lemma DateOfParses(ym: YearMonth)
    requires ValidMonth(ym)
    ensures ParseDate(DateOf(ym)) == Some((ym.year, ym.month, 1))
  {
    GetDateFormattedParses(FirstDay(ym));
  }

  lemma DatesDiffer(a: YearMonth, b: YearMonth)
    requires ValidMonth(a) && ValidMonth(b) && a != b
    ensures DateOf(a) != DateOf(b)
  {
    DateOfParses(a);
    DateOfParses(b);
  }
}
