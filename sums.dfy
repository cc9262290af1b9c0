/**
  Sums of a per-item quantity over a list, the form every snapshot total takes,
  and the fact that such a total does not depend on the order of the list; the
  per-item lists (such as the parsed paths) a snapshot records.
 */
module Sums {

  /** The sum of `f` over `s`, accumulated from the last item back. */
  function SumBy<T>(s: seq<T>, f: T -> nat): nat
  {
    if s == [] then 0 else SumBy(s[..|s| - 1], f) + f(s[|s| - 1])
  }

  lemma {:induction false} SumByAppend<T>(a: seq<T>, b: seq<T>, f: T -> nat)
    ensures SumBy(a + b, f) == SumBy(a, f) + SumBy(b, f)
    decreases |b|
  {
    if b == [] {
      assert a + b == a;
    } else {
      assert (a + b)[..|a + b| - 1] == a + b[..|b| - 1];
      SumByAppend(a, b[..|b| - 1], f);
    }
  }

  /** Lists holding the same items the same number of times have the same sum. */
  lemma {:induction false} SumByPermutation<T>(a: seq<T>, b: seq<T>, f: T -> nat)
    requires multiset(a) == multiset(b)
    ensures SumBy(a, f) == SumBy(b, f)
    decreases |a|
  {
    if a == [] {
      assert |b| == |multiset(b)| == 0;
    } else {
      var x := a[|a| - 1];
      assert a == a[..|a| - 1] + [x];
      assert x in multiset(b);
      var j :| 0 <= j < |b| && b[j] == x;
      assert b == b[..j] + [x] + b[j + 1..];
      var rest := b[..j] + b[j + 1..];
      calc {
        multiset(a[..|a| - 1]);
        multiset(a) - multiset{x};
        multiset(b) - multiset{x};
        multiset(rest);
      }
      SumByPermutation(a[..|a| - 1], rest, f);
      SumByAppend(b[..j] + [x], b[j + 1..], f);
      SumByAppend(b[..j], [x], f);
      SumByAppend(b[..j], b[j + 1..], f);
      assert SumBy([x], f) == f(x) by {
        assert [x][..0] == [];
      }
    }
  }

  /** The list of `f` applied to each item of `s`, in order. */
  function Map<T, U>(s: seq<T>, f: T -> U): (r: seq<U>)
    ensures |r| == |s| && forall i :: 0 <= i < |s| ==> r[i] == f(s[i])
  {
    if s == [] then [] else Map(s[..|s| - 1], f) + [f(s[|s| - 1])]
  }

  /** The list `f(0), f(1), ..., f(n - 1)`. */
  function Tabulate<T>(f: nat -> T, n: nat): (s: seq<T>)
    ensures |s| == n && forall i :: 0 <= i < n ==> s[i] == f(i)
  {
    seq(n, (i: int) requires 0 <= i => f(i))
  }

  /** Appending `f(n)` to the first `n` values gives the first `n + 1`. */
  lemma TabulateStep<T>(f: nat -> T, n: nat)
    ensures Tabulate(f, n) + [f(n)] == Tabulate(f, n + 1)
  {
  }
}
