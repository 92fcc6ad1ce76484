/** Sequence helpers the log is computed with: boolean-mask selection, sums,
    means, maxima and Python's `int()` on a real. */
module Seqs {

  /** The elements of `xs` satisfying `p`, in their original order. */
  function Filter<T(!new)>(xs: seq<T>, p: T -> bool): (r: seq<T>)
    ensures |r| <= |xs|
    ensures forall x :: x in r <==> x in xs && p(x)
  {
    if |xs| == 0 then []
    else (if p(xs[0]) then [xs[0]] else []) + Filter(xs[1..], p)
  }

  lemma {:induction false} FilterAppend<T(!new)>(a: seq<T>, b: seq<T>, p: T -> bool)
    ensures Filter(a + b, p) == Filter(a, p) + Filter(b, p)
  {
    if |a| == 0 {
      assert a + b == b;
    } else {
      assert (a + b)[1..] == a[1..] + b;
      FilterAppend(a[1..], b, p);
    }
  }

  /** Selecting every element changes nothing; selecting none leaves nothing. */
  lemma {:induction false} FilterAll<T(!new)>(xs: seq<T>, p: T -> bool)
    requires forall x :: x in xs ==> p(x)
    ensures Filter(xs, p) == xs
  {
    if |xs| > 0 {
      FilterAll(xs[1..], p);
      assert xs == [xs[0]] + xs[1..];
    }
  }

  lemma {:induction false} FilterNone<T(!new)>(xs: seq<T>, p: T -> bool)
    requires forall x :: x in xs ==> !p(x)
    ensures Filter(xs, p) == []
  {
    if |xs| > 0 {
      FilterNone(xs[1..], p);
    }
  }

  /** Selection keeps any pairwise order the input already had. */
  lemma {:induction false} FilterKeepsOrder<T(!new)>(xs: seq<T>, p: T -> bool, before: (T, T) -> bool)
    requires forall i, j :: 0 <= i < j < |xs| ==> before(xs[i], xs[j])
    ensures forall i, j :: 0 <= i < j < |Filter(xs, p)| ==> before(Filter(xs, p)[i], Filter(xs, p)[j])
  {
    if |xs| > 0 {
      var tail := xs[1..];
      assert forall i, j :: 0 <= i < j < |tail| ==> before(tail[i], tail[j]) by {
        forall i, j | 0 <= i < j < |tail| ensures before(tail[i], tail[j]) {
          assert tail[i] == xs[i + 1] && tail[j] == xs[j + 1];
        }
      }
      FilterKeepsOrder(tail, p, before);
      var rest := Filter(tail, p);
      var r := Filter(xs, p);
      if p(xs[0]) {
        assert r == [xs[0]] + rest;
        forall i, j | 0 <= i < j < |r| ensures before(r[i], r[j]) {
          if i == 0 {
            assert r[j] == rest[j - 1];
            assert r[j] in tail;
            var m :| 0 <= m < |tail| && tail[m] == r[j];
            assert tail[m] == xs[m + 1];
          } else {
            assert r[i] == rest[i - 1] && r[j] == rest[j - 1];
          }
        }
      } else {
        assert r == rest;
      }
    }
  }

  function SumInt(xs: seq<int>): int
  {
    if |xs| == 0 then 0 else xs[0] + SumInt(xs[1..])
  }

  function SumReal(xs: seq<real>): real
  {
    if |xs| == 0 then 0.0 else xs[0] + SumReal(xs[1..])
  }

  /** Arithmetic mean of a non-empty column of integers. */
  function MeanInt(xs: seq<int>): real
    requires |xs| > 0
  {
    SumInt(xs) as real / |xs| as real
  }

  /** Arithmetic mean of a non-empty column of reals. */
  function MeanReal(xs: seq<real>): real
    requires |xs| > 0
  {
    SumReal(xs) / |xs| as real
  }

  /** Largest element of a non-empty column. */
  function MaxInt(xs: seq<int>): (m: int)
    requires |xs| > 0
    ensures m in xs
    ensures forall x :: x in xs ==> x <= m
  {
    if |xs| == 1 then xs[0]
    else
      var rest := MaxInt(xs[1..]);
      assert forall x :: x in xs ==> x == xs[0] || x in xs[1..];
      if xs[0] < rest then rest else xs[0]
  }

  /** Python's `int()` on a real: truncation toward zero. */
  function Trunc(x: real): (n: int)
    ensures 0.0 <= x ==> 0 <= n && n as real <= x < n as real + 1.0
    ensures x < 0.0 ==> n <= 0 && n as real - 1.0 < x <= n as real
  {
    if 0.0 <= x then x.Floor else -((-x).Floor)
  }

  lemma {:induction false} SumIntNonNegative(xs: seq<int>)
    requires forall x :: x in xs ==> 0 <= x
    ensures 0 <= SumInt(xs)
  {
    if |xs| > 0 {
      assert xs[0] in xs;
      assert forall x :: x in xs[1..] ==> x in xs;
      SumIntNonNegative(xs[1..]);
    }
  }

  lemma {:induction false} SumIntZero(xs: seq<int>)
    requires forall x :: x in xs ==> x == 0
    ensures SumInt(xs) == 0
  {
    if |xs| > 0 {
      assert xs[0] in xs;
      assert forall x :: x in xs[1..] ==> x in xs;
      SumIntZero(xs[1..]);
    }
  }

  lemma MeanIntNonNegative(xs: seq<int>)
    requires |xs| > 0
    requires forall x :: x in xs ==> 0 <= x
    ensures 0.0 <= MeanInt(xs)
  {
    SumIntNonNegative(xs);
  }

  /** A column holding one value everywhere has that value as its mean. */
  lemma {:induction false} SumRealConstant(xs: seq<real>, c: real)
    requires forall x :: x in xs ==> x == c
    ensures SumReal(xs) == |xs| as real * c
  {
    if |xs| > 0 {
      assert xs[0] in xs;
      assert forall x :: x in xs[1..] ==> x in xs;
      SumRealConstant(xs[1..], c);
    }
  }

  lemma MeanRealConstant(xs: seq<real>, c: real)
    requires |xs| > 0
    requires forall x :: x in xs ==> x == c
    ensures MeanReal(xs) == c
  {
    SumRealConstant(xs, c);
  }
}
