/** Removing an entry from a list, the lists being sequences. */
module Sequences {
  // The list without the (first) entry x: RemoveEntryList.
  function Without<S(==)>(xs: seq<S>, x: S): (ys: seq<S>)
    ensures multiset(ys) == multiset(xs) - multiset{x}
    ensures |ys| == if x in xs then |xs| - 1 else |xs|
  {
    if xs == [] then []
    else
      assert xs == [xs[0]] + xs[1..];
      if xs[0] == x then xs[1..] else [xs[0]] + Without(xs[1..], x)
  }

  lemma {:induction false} WithoutOther<S>(xs: seq<S>, x: S, y: S)
    requires y != x
    ensures y in Without(xs, x) <==> y in xs
  {
    if xs != [] {
      WithoutOther(xs[1..], x, y);
      assert y in xs <==> y == xs[0] || y in xs[1..];
    }
  }

  // It is the sequence without one position.
  lemma {:induction false} WithoutAt<S>(xs: seq<S>, x: S) returns (k: nat)
    requires x in xs
    ensures k < |xs| && xs[k] == x && Without(xs, x) == xs[..k] + xs[k + 1..]
  {
    if xs[0] == x {
      k := 0;
    } else {
      assert x in xs[1..];
      var i := WithoutAt(xs[1..], x);
      k := i + 1;
      assert xs[..k] == [xs[0]] + xs[1..][..i] && xs[k + 1..] == xs[1..][i + 1..];
    }
  }

  lemma WithoutShrinks<S>(xs: seq<S>, x: S)
    ensures forall y :: y in Without(xs, x) ==> y in xs
  {
    forall y | y in Without(xs, x) ensures y in xs {
      if y != x { WithoutOther(xs, x, y); }
      assert y in multiset(Without(xs, x)) && multiset(Without(xs, x)) <= multiset(xs);
    }
  }
}
