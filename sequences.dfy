/**
 * Element-wise maps over sequences, used for the loop of `main`: every input line
 * is judged on its own, and the blocks of the records are written one after the other.
 */
module Sequences {

  /** `f` applied to every element, in order. */
  function Map<A, B>(f: A -> B, xs: seq<A>): (ys: seq<B>)
    ensures |ys| == |xs|
    decreases |xs|
  {
    if xs == [] then [] else Map(f, xs[..|xs| - 1]) + [f(xs[|xs| - 1])]
  }

  /** The sequences `f` gives for the elements, one after the other. */
  function FlatMap<A, B>(f: A -> seq<B>, xs: seq<A>): seq<B>
    decreases |xs|
  {
    if xs == [] then [] else FlatMap(f, xs[..|xs| - 1]) + f(xs[|xs| - 1])
  }

  /** Each element of the map is `f` of the element at the same place. */
  lemma {:induction false} MapAt<A, B>(f: A -> B, xs: seq<A>, i: nat)
    requires i < |xs|
    ensures Map(f, xs)[i] == f(xs[i])
    decreases |xs|
  {
    var n := |xs| - 1;
    if i < n {
      MapAt(f, xs[..n], i);
      assert xs[..n][i] == xs[i];
    }
  }

  lemma {:induction false} MapAppend<A, B>(f: A -> B, xs: seq<A>, ys: seq<A>)
    ensures Map(f, xs + ys) == Map(f, xs) + Map(f, ys)
    decreases |ys|
  {
    if ys == [] {
      assert xs + ys == xs;
    } else {
      var ys', last := ys[..|ys| - 1], ys[|ys| - 1];
      assert (xs + ys)[..|xs + ys| - 1] == xs + ys';
      assert (xs + ys)[|xs + ys| - 1] == last;
      calc {
        Map(f, xs + ys);
        Map(f, xs + ys') + [f(last)];
        { MapAppend(f, xs, ys'); }
        (Map(f, xs) + Map(f, ys')) + [f(last)];
        Map(f, xs) + (Map(f, ys') + [f(last)]);
      }
    }
  }

  lemma {:induction false} FlatMapStep<A, B>(f: A -> seq<B>, xs: seq<A>, x: A)
    ensures FlatMap(f, xs + [x]) == FlatMap(f, xs) + f(x)
  {
    assert (xs + [x])[..|xs|] == xs;
  }

  lemma {:induction false} FlatMapAppend<A, B>(f: A -> seq<B>, xs: seq<A>, ys: seq<A>)
    ensures FlatMap(f, xs + ys) == FlatMap(f, xs) + FlatMap(f, ys)
    decreases |ys|
  {
    if ys == [] {
      assert xs + ys == xs;
    } else {
      var ys', last := ys[..|ys| - 1], ys[|ys| - 1];
      assert xs + ys == (xs + ys') + [last];
      assert ys == ys' + [last];
      calc {
        FlatMap(f, xs + ys);
        { FlatMapStep(f, xs + ys', last); }
        FlatMap(f, xs + ys') + f(last);
        { FlatMapAppend(f, xs, ys'); }
        (FlatMap(f, xs) + FlatMap(f, ys')) + f(last);
        FlatMap(f, xs) + (FlatMap(f, ys') + f(last));
        { FlatMapStep(f, ys', last); }
        FlatMap(f, xs) + FlatMap(f, ys);
      }
    }
  }
}
