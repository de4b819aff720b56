/** Sums over sequences of integers: what an append, an update and a bound do to them. */
module Sums {
  function Sum(xs: seq<int>): int {
    if xs == [] then 0 else Sum(xs[..|xs| - 1]) + xs[|xs| - 1]
  }

  lemma SumAppend(xs: seq<int>, x: int)
    ensures Sum(xs + [x]) == Sum(xs) + x
  {
    assert (xs + [x])[..|xs|] == xs;
  }

  lemma {:induction false} SumUpdate(xs: seq<int>, i: nat, x: int)
    requires i < |xs|
    ensures Sum(xs[i := x]) == Sum(xs) - xs[i] + x
  {
    var n := |xs| - 1;
    if i < n {
      SumUpdate(xs[..n], i, x);
      assert xs[i := x][..n] == xs[..n][i := x];
    } else {
      assert xs[i := x][..n] == xs[..n];
    }
  }

  lemma {:induction false} SumDominates(xs: seq<int>, i: nat)
    requires i < |xs|
    requires forall j | 0 <= j < |xs| :: xs[j] >= 0
    ensures 0 <= xs[i] <= Sum(xs)
  {
    SumNonNegative(xs[..|xs| - 1]);
    if i < |xs| - 1 {
      SumDominates(xs[..|xs| - 1], i);
    }
  }

  lemma {:induction false} SumNonNegative(xs: seq<int>)
    requires forall j | 0 <= j < |xs| :: xs[j] >= 0
    ensures Sum(xs) >= 0
  {
    if xs != [] {
      SumNonNegative(xs[..|xs| - 1]);
    }
  }

  lemma {:induction false} SumZeros(xs: seq<int>)
    requires forall j | 0 <= j < |xs| :: xs[j] == 0
    ensures Sum(xs) == 0
  {
    if xs != [] {
      SumZeros(xs[..|xs| - 1]);
    }
  }
}
