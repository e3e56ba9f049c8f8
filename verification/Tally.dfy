/** Sums of a natural-valued measure over the processes or slots of a system state. */
module Tally {

  function SumOf<T>(s: seq<T>, f: T -> nat): nat {
    if s == [] then 0 else SumOf(s[..|s| - 1], f) + f(s[|s| - 1])
  }

  lemma {:induction false} SumAppend<T>(s: seq<T>, f: T -> nat, x: T)
    ensures SumOf(s + [x], f) == SumOf(s, f) + f(x)
  {
    assert (s + [x])[..|s|] == s;
  }

  /** Replacing one element moves the sum by the difference of the two measures. */
  lemma {:induction false} SumUpdate<T>(s: seq<T>, f: T -> nat, i: nat, x: T)
    requires i < |s|
    ensures SumOf(s[i := x], f) + f(s[i]) == SumOf(s, f) + f(x)
  {
    var last := |s| - 1;
    if i == last {
      assert s[i := x][..last] == s[..last];
    } else {
      assert s[i := x][..last] == s[..last][i := x];
      SumUpdate(s[..last], f, i, x);
    }
  }

  lemma {:induction false} SumZero<T>(s: seq<T>, f: T -> nat)
    requires forall i :: 0 <= i < |s| ==> f(s[i]) == 0
    ensures SumOf(s, f) == 0
  {
    if s != [] {
      SumZero(s[..|s| - 1], f);
    }
  }

  lemma {:induction false} SumAtLeast<T>(s: seq<T>, f: T -> nat, i: nat)
    requires i < |s|
    ensures f(s[i]) <= SumOf(s, f)
  {
    if i < |s| - 1 {
      SumAtLeast(s[..|s| - 1], f, i);
    }
  }

  lemma {:induction false} SumPlus<T>(s: seq<T>, f: T -> nat, g: T -> nat, h: T -> nat)
    requires forall i :: 0 <= i < |s| ==> f(s[i]) == g(s[i]) + h(s[i])
    ensures SumOf(s, f) == SumOf(s, g) + SumOf(s, h)
  {
    if s != [] {
      SumPlus(s[..|s| - 1], f, g, h);
    }
  }

  /** n copies of a lower bound fit below the sum. */
  lemma {:induction false} SumLowerBound<T>(s: seq<T>, f: T -> nat, least: nat)
    requires forall i :: 0 <= i < |s| ==> least <= f(s[i])
    ensures |s| * least <= SumOf(s, f)
  {
    if s != [] {
      SumLowerBound(s[..|s| - 1], f, least);
      assert |s| * least == (|s| - 1) * least + least;
    }
  }

  // ----- over those elements a predicate picks

  /** The sum of a measure over the elements that satisfy p. */
  function Among<T>(s: seq<T>, p: T -> bool, f: T -> nat): nat {
    if s == [] then 0 else
    Among(s[..|s| - 1], p, f) + if p(s[|s| - 1]) then f(s[|s| - 1]) else 0
  }

  function CountOf<T>(s: seq<T>, p: T -> bool): nat {
    if s == [] then 0 else CountOf(s[..|s| - 1], p) + if p(s[|s| - 1]) then 1 else 0
  }

  /** The measure of the last element that satisfies p, or 0. */
  function LatestOf<T>(s: seq<T>, p: T -> bool, f: T -> nat): nat {
    if s == [] then 0 else
    if p(s[|s| - 1]) then f(s[|s| - 1]) else LatestOf(s[..|s| - 1], p, f)
  }

  lemma {:induction false} CountSame<T>(s: seq<T>, p: T -> bool, q: T -> bool)
    requires forall i :: 0 <= i < |s| ==> p(s[i]) == q(s[i])
    ensures CountOf(s, p) == CountOf(s, q)
  {
    if s != [] {
      CountSame(s[..|s| - 1], p, q);
    }
  }
}
