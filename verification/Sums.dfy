/** Sums of a measure over a sequence. */
module Sums {

  function Sum<A>(xs: seq<A>, f: A -> int): int {
    if xs == [] then 0 else f(xs[0]) + Sum(xs[1..], f)
  }

  lemma {:induction false} SumUpdate<A>(xs: seq<A>, i: nat, x: A, f: A -> int)
    requires i < |xs|
    ensures Sum(xs[i := x], f) == Sum(xs, f) - f(xs[i]) + f(x)
  {
    var ys := xs[i := x];
    if i == 0 {
      assert ys[1..] == xs[1..];
    } else {
      assert ys[1..] == xs[1..][i - 1 := x];
      SumUpdate(xs[1..], i - 1, x, f);
    }
  }

  lemma {:induction false} SumSlack<A>(xs: seq<A>, ys: seq<A>, f: A -> int, slack: int)
    requires |xs| == |ys| && forall i :: 0 <= i < |xs| ==> f(ys[i]) <= f(xs[i]) + slack
    ensures Sum(ys, f) <= Sum(xs, f) + slack * |xs|
  {
    if xs != [] {
      SumSlack(xs[1..], ys[1..], f, slack);
    }
  }

  lemma {:induction false} SumSame<A>(xs: seq<A>, ys: seq<A>, f: A -> int)
    requires |xs| == |ys| && forall i :: 0 <= i < |xs| ==> f(ys[i]) == f(xs[i])
    ensures Sum(ys, f) == Sum(xs, f)
  {
    if xs != [] {
      SumSame(xs[1..], ys[1..], f);
    }
  }

  lemma {:induction false} SumNonPositive<A>(xs: seq<A>, i: nat, f: A -> int)
    requires i < |xs| && forall j :: 0 <= j < |xs| ==> f(xs[j]) <= 0
    ensures Sum(xs, f) <= f(xs[i])
  {
    if |xs| > 1 {
      if i > 0 {
        SumNonPositive(xs[1..], i - 1, f);
      } else {
        SumNonPositive(xs[1..], 0, f);
      }
    }
  }

  lemma {:induction false} SumNonNegative<A>(xs: seq<A>, i: nat, f: A -> int)
    requires i < |xs| && forall j :: 0 <= j < |xs| ==> f(xs[j]) >= 0
    ensures Sum(xs, f) >= f(xs[i])
  {
    if |xs| > 1 {
      if i > 0 {
        SumNonNegative(xs[1..], i - 1, f);
      } else {
        SumNonNegative(xs[1..], 0, f);
      }
    }
  }

  lemma {:induction false} SumZero<A>(xs: seq<A>, f: A -> int)
    requires forall j :: 0 <= j < |xs| ==> f(xs[j]) == 0
    ensures Sum(xs, f) == 0
  {
    if xs != [] {
      SumZero(xs[1..], f);
    }
  }

  lemma {:induction false} SumAtLeastZero<A>(xs: seq<A>, f: A -> int)
    requires forall i :: 0 <= i < |xs| ==> f(xs[i]) >= 0
    ensures Sum(xs, f) >= 0
  {
    if xs != [] {
      SumAtLeastZero(xs[1..], f);
    }
  }

  lemma {:induction false} SumBetween<A>(xs: seq<A>, f: A -> int, most: int)
    requires forall i :: 0 <= i < |xs| ==> 0 <= f(xs[i]) <= most
    ensures 0 <= Sum(xs, f) <= most * |xs|
  {
    if xs != [] {
      SumBetween(xs[1..], f, most);
    }
  }
}
