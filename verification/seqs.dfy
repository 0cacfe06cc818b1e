/** Sequence helpers shared by the level generator model: subsequences and flattening. */
module Seqs {

  /** `a` is `b` with some elements dropped and the rest kept in order. */
  predicate Sub<T(==)>(a: seq<T>, b: seq<T>)
    decreases |b|
  {
    |a| == 0 || (|b| > 0 && ((a[0] == b[0] && Sub(a[1..], b[1..])) || Sub(a, b[1..])))
  }

  lemma SubSkip<T>(a: seq<T>, x: T, b: seq<T>)
    requires Sub(a, b)
    ensures Sub(a, [x] + b)
  {
    assert ([x] + b)[1..] == b;
  }

  lemma SubKeep<T>(x: T, a: seq<T>, b: seq<T>)
    requires Sub(a, b)
    ensures Sub([x] + a, [x] + b)
  {
    assert ([x] + a)[1..] == a;
    assert ([x] + b)[1..] == b;
  }

  /** Dropping elements never adds any: a subsequence is no longer than, and drawn from, its source. */
  lemma {:induction false} SubBounds<T>(a: seq<T>, b: seq<T>)
    requires Sub(a, b)
    ensures |a| <= |b|
    ensures forall x :: x in a ==> x in b
    decreases |b|
  {
    if |a| == 0 {
    } else if a[0] == b[0] && Sub(a[1..], b[1..]) {
      SubBounds(a[1..], b[1..]);
      forall x | x in a ensures x in b {
        if x != a[0] {
          assert x in a[1..];
        }
      }
    } else {
      SubBounds(a, b[1..]);
    }
  }

  /** Concatenation of `f(x)` over `xs`, in order. */
  function FlatMap<A, B>(xs: seq<A>, f: A -> seq<B>): seq<B>
  {
    if |xs| == 0 then [] else f(xs[0]) + FlatMap(xs[1..], f)
  }

  lemma {:induction false} FlatMapAppend<A, B>(xs: seq<A>, ys: seq<A>, f: A -> seq<B>)
    ensures FlatMap(xs + ys, f) == FlatMap(xs, f) + FlatMap(ys, f)
    decreases |xs|
  {
    if |xs| == 0 {
      assert xs + ys == ys;
    } else {
      assert (xs + ys)[1..] == xs[1..] + ys;
      FlatMapAppend(xs[1..], ys, f);
    }
  }

  /** Each element contributing at most `k` items gives at most `k * |xs|` items. */
  lemma {:induction false} FlatMapLength<A, B>(xs: seq<A>, f: A -> seq<B>, k: nat)
    requires forall i :: 0 <= i < |xs| ==> |f(xs[i])| <= k
    ensures |FlatMap(xs, f)| <= k * |xs|
    decreases |xs|
  {
    if |xs| > 0 {
      assert |f(xs[0])| <= k;
      FlatMapLength(xs[1..], f, k);
    }
  }

  /** Elements that contribute nothing can be dropped from the front and the back. */
  lemma FlatMapEmptyEnds<A, B>(first: A, middle: seq<A>, last: A, f: A -> seq<B>)
    requires f(first) == []
    ensures FlatMap([first] + middle + [last], f) == FlatMap(middle, f) + f(last)
  {
    FlatMapAppend([first] + middle, [last], f);
    FlatMapAppend([first], middle, f);
    assert FlatMap([first], f) == f(first) + FlatMap([first][1..], f);
    assert FlatMap([last], f) == f(last) + FlatMap([last][1..], f);
  }

  /** Every item of a flattening comes from the image of some element. */
  lemma {:induction false} FlatMapMember<A, B>(xs: seq<A>, f: A -> seq<B>, y: B)
    requires y in FlatMap(xs, f)
    ensures exists i :: 0 <= i < |xs| && y in f(xs[i])
    decreases |xs|
  {
    if y !in f(xs[0]) {
      FlatMapMember(xs[1..], f, y);
      var i :| 0 <= i < |xs[1..]| && y in f(xs[1..][i]);
      assert xs[1..][i] == xs[i + 1];
    }
  }

  /** Every item of every element's image is in the flattening. */
  lemma {:induction false} FlatMapContains<A, B>(xs: seq<A>, f: A -> seq<B>, i: int, y: B)
    requires 0 <= i < |xs| && y in f(xs[i])
    ensures y in FlatMap(xs, f)
    decreases i
  {
    if i > 0 {
      assert xs[1..][i - 1] == xs[i];
      FlatMapContains(xs[1..], f, i - 1, y);
    }
  }
}
