/** Adding up sequences: in any order, value by value, and field by field. */
module Folds {
  import opened Words

  function Fold<S, X>(f: (S, X) -> S, s: S, xs: seq<X>): S {
    if xs == [] then s else f(Fold(f, s, xs[..|xs| - 1]), xs[|xs| - 1])
  }

  ghost predicate StepsCommute<S(!new), X(!new)>(f: (S, X) -> S) {
    forall s, a, b :: f(f(s, a), b) == f(f(s, b), a)
  }

  function Without<X>(xs: seq<X>, i: nat): seq<X>
    requires i < |xs|
  {
    xs[..i] + xs[i + 1..]
  }

  lemma FoldOnce<S, X>(f: (S, X) -> S, s: S, xs: seq<X>, x: X)
    ensures Fold(f, s, xs + [x]) == f(Fold(f, s, xs), x)
  {
    assert (xs + [x])[..|xs|] == xs;
  }

  /** An element can be moved to the end. */
  lemma {:induction false} FoldLast<S(!new), X(!new)>(f: (S, X) -> S, s: S, xs: seq<X>, i: nat)
    requires i < |xs| && StepsCommute(f)
    ensures Fold(f, s, xs) == f(Fold(f, s, Without(xs, i)), xs[i])
    decreases |xs|
  {
    var n := |xs| - 1;
    if i == n {
      assert Without(xs, i) == xs[..n];
    } else {
      FoldLast(f, s, xs[..n], i);
      assert Without(xs, i) == Without(xs[..n], i) + [xs[n]];
      FoldOnce(f, s, Without(xs[..n], i), xs[n]);
    }
  }

  lemma {:induction false} FoldAnyOrder<S(!new), X(!new)>(f: (S, X) -> S, s: S, xs: seq<X>, ys: seq<X>)
    requires multiset(xs) == multiset(ys) && StepsCommute(f)
    ensures Fold(f, s, xs) == Fold(f, s, ys)
    decreases |xs|
  {
    if xs == [] {
      assert |multiset(ys)| == 0;
    } else {
      var n := |xs| - 1;
      var x := xs[n];
      assert xs == xs[..n] + [x];
      assert x in multiset(ys);
      var i :| 0 <= i < |ys| && ys[i] == x;
      assert ys == ys[..i] + [x] + ys[i + 1..];
      assert multiset(Without(ys, i)) == multiset(ys) - multiset{x};
      assert multiset(xs[..n]) == multiset(xs) - multiset{x};
      FoldAnyOrder(f, s, xs[..n], Without(ys, i));
      FoldLast(f, s, ys, i);
    }
  }

  /** The values merged one after the other, the first into nothing. */
  function MergeEach<M>(merge: (Option<M>, M) -> M, values: seq<M>): Option<M> {
    if values == [] then None
    else Some(merge(MergeEach(merge, values[..|values| - 1]), values[|values| - 1]))
  }

  lemma MergeOneMore<M>(merge: (Option<M>, M) -> M, values: seq<M>, v: M)
    ensures MergeEach(merge, values + [v]) == Some(merge(MergeEach(merge, values), v))
  {
    assert (values + [v])[..|values|] == values;
  }

  /** One field of every element. */
  ghost function Column<X, T>(xs: seq<X>, f: X -> T): (r: seq<T>)
    ensures |r| == |xs| && forall i :: 0 <= i < |xs| ==> r[i] == f(xs[i])
  {
    seq(|xs|, i requires 0 <= i < |xs| => f(xs[i]))
  }

  lemma ColumnLast<X, T>(xs: seq<X>, f: X -> T)
    requires xs != []
    ensures Column(xs, f) == Column(xs[..|xs| - 1], f) + [f(xs[|xs| - 1])]
  {
  }
}
