/** Looking a row up in a table. */
module Tables {
  import opened Wrappers

  // The index of some element with the property; the callers' tables have at most one.
  function Find<T>(xs: seq<T>, p: T -> bool): (r: Option<nat>)
    ensures r.Some? ==> r.value < |xs| && p(xs[r.value])
    ensures r.None? ==> forall i :: 0 <= i < |xs| ==> !p(xs[i])
  {
    if xs == [] then None
    else if p(xs[|xs| - 1]) then Some(|xs| - 1)
    else Find(xs[..|xs| - 1], p)
  }

  lemma {:induction false} FindSame<T>(a: seq<T>, b: seq<T>, p: T -> bool)
    requires |a| == |b| && forall i :: 0 <= i < |a| ==> p(a[i]) == p(b[i])
    ensures Find(a, p) == Find(b, p)
    decreases |a|
  {
    if a != [] {
      FindSame(a[..|a| - 1], b[..|b| - 1], p);
    }
  }
}
