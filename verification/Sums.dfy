/** Sums over the elements of a sequence. */
module Sums {
  function Sum<T>(xs: seq<T>, f: T -> nat): nat {
    if xs == [] then 0 else Sum(xs[..|xs| - 1], f) + f(xs[|xs| - 1])
  }

  lemma {:induction false} SumUpdate<T>(xs: seq<T>, i: nat, x: T, f: T -> nat)
    requires i < |xs|
    ensures Sum(xs[i := x], f) == Sum(xs, f) - f(xs[i]) + f(x)
    decreases |xs|
  {
    var last := |xs| - 1;
    if i == last {
      assert xs[i := x][..last] == xs[..last];
    } else {
      assert xs[i := x][..last] == xs[..last][i := x];
      SumUpdate(xs[..last], i, x, f);
    }
  }

  lemma SumAppend<T>(xs: seq<T>, x: T, f: T -> nat)
    ensures Sum(xs + [x], f) == Sum(xs, f) + f(x)
  {
    assert (xs + [x])[..|xs|] == xs;
  }

  lemma {:induction false} SumConcat<T>(a: seq<T>, b: seq<T>, f: T -> nat)
    ensures Sum(a + b, f) == Sum(a, f) + Sum(b, f)
    decreases |b|
  {
    if b == [] {
      assert a + b == a;
    } else {
      assert (a + b)[..|a + b| - 1] == a + b[..|b| - 1];
      SumConcat(a, b[..|b| - 1], f);
    }
  }

  lemma {:induction false} SumSame<T>(a: seq<T>, b: seq<T>, f: T -> nat)
    requires |a| == |b| && forall i :: 0 <= i < |a| ==> f(a[i]) == f(b[i])
    ensures Sum(a, f) == Sum(b, f)
    decreases |a|
  {
    if a != [] {
      SumSame(a[..|a| - 1], b[..|b| - 1], f);
    }
  }

  // A sum is positive exactly when one of its terms is.
  lemma {:induction false} SumPositive<T>(xs: seq<T>, f: T -> nat)
    ensures 0 < Sum(xs, f) <==> exists i :: 0 <= i < |xs| && 0 < f(xs[i])
    decreases |xs|
  {
    if xs != [] {
      var init := xs[..|xs| - 1];
      SumPositive(init, f);
      if i :| 0 <= i < |init| && 0 < f(init[i]) {
        assert 0 < f(xs[i]);
      }
      if i :| 0 <= i < |xs| && 0 < f(xs[i]) {
        assert i < |init| ==> 0 < f(init[i]);
      }
    }
  }
}
