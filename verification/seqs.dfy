/** Sequence folds shared by the batch scan and the multi-target loop. */
module Seqs {

  /** `f` applied to every element, the results concatenated in order. */
  function FlatMap<T, U>(xs: seq<T>, f: T -> seq<U>): seq<U>
  {
    if xs == [] then [] else f(xs[0]) + FlatMap(xs[1..], f)
  }

  lemma FlatMapSingle<T, U>(x: T, f: T -> seq<U>)
    ensures FlatMap([x], f) == f(x)
  {
    assert [x][1..] == [];
  }

  lemma {:induction false} FlatMapAppend<T, U>(a: seq<T>, b: seq<T>, f: T -> seq<U>)
    ensures FlatMap(a + b, f) == FlatMap(a, f) + FlatMap(b, f)
  {
    if a == [] {
      assert a + b == b;
    } else {
      assert (a + b)[1..] == a[1..] + b;
      FlatMapAppend(a[1..], b, f);
    }
  }

  /** Folding one more element appends its image. */
  lemma FlatMapSnoc<T, U>(xs: seq<T>, j: nat, f: T -> seq<U>)
    requires j < |xs|
    ensures FlatMap(xs[..j + 1], f) == FlatMap(xs[..j], f) + f(xs[j])
  {
    assert xs[..j + 1] == xs[..j] + [xs[j]];
    FlatMapAppend(xs[..j], [xs[j]], f);
    FlatMapSingle(xs[j], f);
  }

  /** Elements whose image is empty can be dropped. */
  lemma FlatMapSkip<T, U>(xs: seq<T>, j: nat, f: T -> seq<U>)
    requires j < |xs| && f(xs[j]) == []
    ensures FlatMap(xs, f) == FlatMap(xs[..j], f) + FlatMap(xs[j + 1..], f)
  {
    assert xs == xs[..j] + ([xs[j]] + xs[j + 1..]);
    FlatMapAppend(xs[..j], [xs[j]] + xs[j + 1..], f);
    FlatMapAppend([xs[j]], xs[j + 1..], f);
    FlatMapSingle(xs[j], f);
  }

  /** Everything in the fold comes from the image of some element. */
  lemma {:induction false} FlatMapMembers<T, U>(xs: seq<T>, f: T -> seq<U>)
    ensures forall y :: y in FlatMap(xs, f) ==> exists i :: 0 <= i < |xs| && y in f(xs[i])
  {
    if xs != [] {
      FlatMapMembers(xs[1..], f);
      forall y | y in FlatMap(xs, f)
        ensures exists i :: 0 <= i < |xs| && y in f(xs[i])
      {
        assert FlatMap(xs, f) == f(xs[0]) + FlatMap(xs[1..], f);
        if y !in f(xs[0]) {
          assert y in FlatMap(xs[1..], f);
          var i :| 0 <= i < |xs[1..]| && y in f(xs[1..][i]);
          assert xs[1..][i] == xs[i + 1];
        }
      }
    }
  }

  /** The image of every element is in the fold. */
  lemma {:induction false} FlatMapCovers<T, U>(xs: seq<T>, f: T -> seq<U>)
    ensures forall i, y :: 0 <= i < |xs| && y in f(xs[i]) ==> y in FlatMap(xs, f)
  {
    if xs != [] {
      FlatMapCovers(xs[1..], f);
      forall i, y | 0 <= i < |xs| && y in f(xs[i])
        ensures y in FlatMap(xs, f)
      {
        assert FlatMap(xs, f) == f(xs[0]) + FlatMap(xs[1..], f);
        if i > 0 {
          assert xs[i] == xs[1..][i - 1];
        }
      }
    }
  }

  /** Two folds agree when they map corresponding elements alike. */
  lemma {:induction false} FlatMapPointwise<T, S, U>(xs: seq<T>, f: T -> seq<U>, ys: seq<S>, g: S -> seq<U>)
    requires |xs| == |ys|
    requires forall k :: 0 <= k < |xs| ==> f(xs[k]) == g(ys[k])
    ensures FlatMap(xs, f) == FlatMap(ys, g)
  {
    if xs != [] {
      assert f(xs[0]) == g(ys[0]);
      assert forall k :: 0 <= k < |xs[1..]| ==> xs[1..][k] == xs[k + 1] && ys[1..][k] == ys[k + 1];
      FlatMapPointwise(xs[1..], f, ys[1..], g);
    }
  }
}
