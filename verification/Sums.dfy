/** Sums of a per-thread quantity over the sequence of threads. */
module Sums {

  function Sum<T>(f: T -> int, xs: seq<T>): int
    decreases |xs|
  {
    if xs == [] then 0 else Sum(f, xs[..|xs| - 1]) + f(xs[|xs| - 1])
  }

  lemma {:induction false} SumUpdate<T>(f: T -> int, xs: seq<T>, i: nat, x: T)
    requires i < |xs|
    ensures Sum(f, xs[i := x]) == Sum(f, xs) - f(xs[i]) + f(x)
    decreases |xs|
  {
    var n := |xs| - 1;
    if i == n {
      assert xs[i := x][..n] == xs[..n];
    } else {
      assert xs[i := x][..n] == xs[..n][i := x];
      SumUpdate(f, xs[..n], i, x);
    }
  }

  lemma {:induction false} SumBounds<T>(f: T -> int, xs: seq<T>, lo: int, hi: int)
    requires forall i :: 0 <= i < |xs| ==> lo <= f(xs[i]) <= hi
    ensures lo * |xs| <= Sum(f, xs) <= hi * |xs|
    decreases |xs|
  {
    if xs != [] {
      var n := |xs| - 1;
      SumBounds(f, xs[..n], lo, hi);
      assert lo * |xs| == lo * n + lo && hi * |xs| == hi * n + hi;
    }
  }

  lemma {:induction false} SumIsNotNegative<T>(f: T -> int, xs: seq<T>)
    requires forall i :: 0 <= i < |xs| ==> f(xs[i]) >= 0
    ensures Sum(f, xs) >= 0
    decreases |xs|
  {
    if xs != [] {
      SumIsNotNegative(f, xs[..|xs| - 1]);
    }
  }

  /** A sum of quantities that are not negative is at least any two of them. */
  lemma {:induction false} SumAtLeastTwo<T>(f: T -> int, xs: seq<T>, i: nat, j: nat)
    requires i < j < |xs|
    requires forall k :: 0 <= k < |xs| ==> f(xs[k]) >= 0
    ensures Sum(f, xs) >= f(xs[i]) + f(xs[j])
    decreases |xs|
  {
    var n := |xs| - 1;
    if j == n {
      SumAtLeastOne(f, xs[..n], i);
    } else {
      SumAtLeastTwo(f, xs[..n], i, j);
    }
  }

  lemma {:induction false} SumAtLeastOne<T>(f: T -> int, xs: seq<T>, i: nat)
    requires i < |xs|
    requires forall k :: 0 <= k < |xs| ==> f(xs[k]) >= 0
    ensures Sum(f, xs) >= f(xs[i])
    decreases |xs|
  {
    var n := |xs| - 1;
    SumIsNotNegative(f, xs[..n]);
    if i < n {
      SumAtLeastOne(f, xs[..n], i);
    }
  }
}
