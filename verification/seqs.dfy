/** Sequence helpers shared by the generator and the sweep. */
module Seqs {

  /** No element occurs twice. */
  predicate Distinct<T(==)>(s: seq<T>)
  {
    forall i, j :: 0 <= i < j < |s| ==> s[i] != s[j]
  }

  /** `f(x)` for every `x` of `xs`, concatenated in order: the list a nested
      `for x in xs: for y in f(x): out.append(y)` builds. */
  function FlatMap<A, B>(xs: seq<A>, f: A -> seq<B>): seq<B>
  {
    if |xs| == 0 then [] else f(xs[0]) + FlatMap(xs[1..], f)
  }

  /** The outer loop over `xs + ys` emits everything of `xs` first. */
  lemma {:induction false} FlatMapSplit<A, B>(xs: seq<A>, ys: seq<A>, f: A -> seq<B>)
    ensures FlatMap(xs + ys, f) == FlatMap(xs, f) + FlatMap(ys, f)
  {
    if |xs| == 0 {
      assert xs + ys == ys;
    } else {
      assert (xs + ys)[1..] == xs[1..] + ys;
      FlatMapSplit(xs[1..], ys, f);
    }
  }

  /** An item is emitted exactly when some outer element yields it. */
  lemma {:induction false} FlatMapMember<A, B>(xs: seq<A>, f: A -> seq<B>, y: B)
    ensures y in FlatMap(xs, f) <==> exists x :: x in xs && y in f(x)
  {
    if |xs| > 0 {
      FlatMapMember(xs[1..], f, y);
      assert xs == [xs[0]] + xs[1..];
    }
  }
}
