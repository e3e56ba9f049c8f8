/** Running a step over a list, and over lists made from lists. */
module Folds {

  function Fold<S, T>(s: S, xs: seq<T>, step: (S, T) -> S): S {
    if xs == [] then s else step(Fold(s, xs[..|xs| - 1], step), xs[|xs| - 1])
  }

  lemma {:induction false} FoldNext<S, T>(s: S, xs: seq<T>, x: T, step: (S, T) -> S)
    ensures Fold(s, xs + [x], step) == step(Fold(s, xs, step), x)
  {
    assert (xs + [x])[..|xs|] == xs;
  }

  lemma {:induction false} FoldOn<S, T>(s: S, xs: seq<T>, ys: seq<T>, step: (S, T) -> S)
    ensures Fold(s, xs + ys, step) == Fold(Fold(s, xs, step), ys, step)
  {
    if ys == [] {
      assert xs + ys == xs;
    } else {
      FoldOn(s, xs, ys[..|ys| - 1], step);
      FoldNext(s, xs + ys[..|ys| - 1], ys[|ys| - 1], step);
      assert xs + ys == xs + ys[..|ys| - 1] + [ys[|ys| - 1]];
    }
  }

  /** What follows the steps one by one ends where they do. */
  lemma {:induction false} FoldFollows<S, T>(s: S, xs: seq<T>, step: (S, T) -> S, at: nat -> S, n: nat)
    requires n <= |xs| && at(0) == s && forall i: nat :: i < |xs| ==> at(i + 1) == step(at(i), xs[i])
    ensures at(n) == Fold(s, xs[..n], step)
  {
    if n > 0 {
      FoldFollows(s, xs, step, at, n - 1);
      assert xs[..n][..n - 1] == xs[..n - 1];
      assert at(n - 1 + 1) == step(at(n - 1), xs[n - 1]);
    }
  }

  lemma {:induction false} FoldSame<S(!new), T>(s: S, xs: seq<T>, step: (S, T) -> S, other: (S, T) -> S)
    requires forall t: S, i :: 0 <= i < |xs| ==> step(t, xs[i]) == other(t, xs[i])
    ensures Fold(s, xs, step) == Fold(s, xs, other)
  {
    if xs != [] {
      FoldSame(s, xs[..|xs| - 1], step, other);
    }
  }

  /** The elements that satisfy a predicate, in order. */
  function Kept<T>(xs: seq<T>, keep: T -> bool): (ys: seq<T>)
    ensures forall i :: 0 <= i < |ys| ==> keep(ys[i])
  {
    if xs == [] then [] else
    Kept(xs[..|xs| - 1], keep) + if keep(xs[|xs| - 1]) then [xs[|xs| - 1]] else []
  }

  lemma {:induction false} FoldKept<S(!new), T>(s: S, xs: seq<T>, step: (S, T) -> S, keep: T -> bool)
    requires forall t: S, i :: 0 <= i < |xs| && !keep(xs[i]) ==> step(t, xs[i]) == t
    ensures Fold(s, xs, step) == Fold(s, Kept(xs, keep), step)
  {
    if xs != [] {
      var before, x := xs[..|xs| - 1], xs[|xs| - 1];
      FoldKept(s, before, step, keep);
      if keep(x) {
        FoldNext(s, Kept(before, keep), x, step);
      } else {
        assert step(Fold(s, before, step), xs[|xs| - 1]) == Fold(s, before, step);
        assert Kept(xs, keep) == Kept(before, keep);
      }
    }
  }

  /** The parts of all elements, in order. */
  function Flat<T, U>(xs: seq<T>, parts: T -> seq<U>): seq<U> {
    if xs == [] then [] else Flat(xs[..|xs| - 1], parts) + parts(xs[|xs| - 1])
  }

  lemma {:induction false} FoldFlat<S(!new), T, U>(s: S, xs: seq<T>, parts: T -> seq<U>, whole: (S, T) -> S, step: (S, U) -> S)
    requires forall t: S, i :: 0 <= i < |xs| ==> whole(t, xs[i]) == Fold(t, parts(xs[i]), step)
    ensures Fold(s, xs, whole) == Fold(s, Flat(xs, parts), step)
  {
    if xs != [] {
      var before, x := xs[..|xs| - 1], xs[|xs| - 1];
      FoldFlat(s, before, parts, whole, step);
      FoldOn(s, Flat(before, parts), parts(x), step);
    }
  }
}
