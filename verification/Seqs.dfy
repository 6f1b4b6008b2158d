/** Sequences without repetitions, and the elements of a sequence. */
module Seqs {

  predicate Distinct<T(==)>(xs: seq<T>) {
    forall i, j :: 0 <= i < j < |xs| ==> xs[i] != xs[j]
  }

  function Elements<T>(xs: seq<T>): set<T> {
    set x | x in xs
  }

  lemma TakeNext<T>(xs: seq<T>, k: nat)
    requires k < |xs|
    ensures xs[..k + 1] == xs[..k] + [xs[k]]
  {
  }

  lemma NextElement<T>(xs: seq<T>, i: nat)
    requires i < |xs|
    ensures Elements(xs[..i + 1]) == Elements(xs[..i]) + {xs[i]}
    ensures Distinct(xs) ==> xs[i] !in Elements(xs[..i])
  {
    assert xs[..i + 1] == xs[..i] + [xs[i]];
  }

  lemma {:induction false} DistinctSize<T>(xs: seq<T>)
    requires Distinct(xs)
    ensures |Elements(xs)| == |xs|
  {
    if xs != [] {
      var last := |xs| - 1;
      DistinctSize(xs[..last]);
      NextElement(xs, last);
      assert xs[..last + 1] == xs;
    } else {
      assert Elements(xs) == {};
    }
  }
}
