/** Folding a sequence of updates, and when the order of the updates is unobservable. */
module Folds {
  function Fold<S, X>(step: (S, X) -> S, start: S, xs: seq<X>): S
  {
    if xs == [] then start else Fold(step, step(start, xs[0]), xs[1..])
  }

  ghost predicate Commute<S(!new), X>(step: (S, X) -> S, x: X, y: X)
  {
    forall s :: step(step(s, x), y) == step(step(s, y), x)
  }

  ghost predicate AllCommute<S(!new), X>(step: (S, X) -> S, xs: seq<X>)
  {
    forall x, y :: x in xs && y in xs ==> Commute(step, x, y)
  }

  lemma {:induction false} FoldAppend<S, X>(step: (S, X) -> S, start: S, xs: seq<X>, ys: seq<X>)
    ensures Fold(step, start, xs + ys) == Fold(step, Fold(step, start, xs), ys)
  {
    if xs == [] {
      assert xs + ys == ys;
    } else {
      assert (xs + ys)[1..] == xs[1..] + ys;
      FoldAppend(step, step(start, xs[0]), xs[1..], ys);
    }
  }

  /** An update that commutes with every one before it may be made first. */
  lemma {:induction false} FoldFloat<S(!new), X>(step: (S, X) -> S, start: S, before: seq<X>, x: X)
    requires forall y :: y in before ==> Commute(step, y, x)
    ensures Fold(step, start, before + [x]) == Fold(step, start, [x] + before)
  {
    if before == [] {
      assert before + [x] == [x] + before;
    } else {
      var y, rest := before[0], before[1..];
      assert (before + [x])[1..] == rest + [x];
      FoldFloat(step, step(start, y), rest, x);
      assert ([x] + rest)[1..] == rest && ([x] + before)[1..] == before;
      assert Commute(step, y, x);
    }
  }

  /** Taking one commuting update out of the middle and making it first. */
  lemma FoldExtract<S(!new), X>(step: (S, X) -> S, start: S, before: seq<X>, x: X, after: seq<X>)
    requires forall y :: y in before ==> Commute(step, y, x)
    ensures Fold(step, start, before + [x] + after) == Fold(step, step(start, x), before + after)
  {
    FoldFloat(step, start, before, x);
    FoldAppend(step, start, before + [x], after);
    FoldAppend(step, start, [x] + before, after);
    assert [x] + before + after == [x] + (before + after);
    assert ([x] + (before + after))[1..] == before + after;
  }

  lemma RemoveFirstOf<X>(xs: seq<X>, ys: seq<X>) returns (i: nat)
    requires xs != [] && multiset(xs) == multiset(ys)
    ensures i < |ys| && ys[i] == xs[0]
    ensures ys == ys[..i] + [xs[0]] + ys[i + 1..]
    ensures multiset(xs[1..]) == multiset(ys[..i] + ys[i + 1..])
  {
    assert xs[0] in multiset(xs);
    i :| 0 <= i < |ys| && ys[i] == xs[0];
    assert xs == [xs[0]] + xs[1..];
    assert ys == ys[..i] + [xs[0]] + ys[i + 1..];
    assert multiset(xs[1..]) == multiset(xs) - multiset{xs[0]};
    assert multiset(ys[..i] + ys[i + 1..]) == multiset(ys) - multiset{xs[0]};
  }

  /** Every permutation of pairwise commuting updates folds to the same state. */
  lemma {:induction false} FoldPermutation<S(!new), X>(step: (S, X) -> S, start: S, xs: seq<X>, ys: seq<X>)
    requires multiset(xs) == multiset(ys)
    requires AllCommute(step, xs)
    ensures Fold(step, start, xs) == Fold(step, start, ys)
  {
    if xs == [] {
      assert |multiset(ys)| == |ys| == 0;
    } else {
      var x := xs[0];
      var i := RemoveFirstOf(xs, ys);
      var before, after := ys[..i], ys[i + 1..];
      forall y | y in before ensures Commute(step, y, x) {
        assert y in multiset(ys) && y in multiset(xs);
      }
      FoldExtract(step, start, before, x, after);
      FoldPermutation(step, step(start, x), xs[1..], before + after);
    }
  }
}
