/**
 * Concatenating the results of a function over a sequence: the
 * `for x in xs: result.extend(f(x))` shape the parser's loops share.
 */
module Seqs {

  function FlatMap<A, B>(f: A -> seq<B>, xs: seq<A>): seq<B> {
    if xs == [] then [] else FlatMap(f, xs[..|xs| - 1]) + f(xs[|xs| - 1])
  }

  /** `[f(x) for x in xs]`. */
  function Map<A, B>(f: A -> B, xs: seq<A>): (ys: seq<B>)
    ensures |ys| == |xs|
  {
    if xs == [] then [] else Map(f, xs[..|xs| - 1]) + [f(xs[|xs| - 1])]
  }

  lemma {:induction false} MapAt<A, B>(f: A -> B, xs: seq<A>, i: nat)
    requires i < |xs|
    ensures Map(f, xs)[i] == f(xs[i])
    decreases |xs|
  {
    var init := xs[..|xs| - 1];
    if i < |init| {
      MapAt(f, init, i);
      assert init[i] == xs[i];
    }
  }

  lemma AppendAssoc<T>(a: seq<T>, b: seq<T>, c: seq<T>)
    ensures (a + b) + c == a + (b + c)
  {
  }

  /** One more element appends its results. */
  lemma FlatMapSnoc<A, B>(f: A -> seq<B>, xs: seq<A>, x: A)
    ensures FlatMap(f, xs + [x]) == FlatMap(f, xs) + f(x)
  {
    assert (xs + [x])[..|xs|] == xs;
  }

  /** The results over a prefix one element longer. */
  lemma FlatMapPrefix<A, B>(f: A -> seq<B>, xs: seq<A>, k: nat)
    requires k < |xs|
    ensures FlatMap(f, xs[..k + 1]) == FlatMap(f, xs[..k]) + f(xs[k])
  {
    assert xs[..k + 1][..k] == xs[..k];
  }

  lemma {:induction false} FlatMapConcat<A, B>(f: A -> seq<B>, xs: seq<A>, ys: seq<A>)
    ensures FlatMap(f, xs + ys) == FlatMap(f, xs) + FlatMap(f, ys)
    decreases |ys|
  {
    if ys == [] {
      assert xs + ys == xs;
    } else {
      var init := ys[..|ys| - 1];
      assert (xs + ys)[..|xs + ys| - 1] == xs + init;
      FlatMapConcat(f, xs, init);
    }
  }

  /** An element of the result comes from the results of some element of the input. */
  lemma {:induction false} FlatMapMembership<A, B>(f: A -> seq<B>, xs: seq<A>, y: B)
    ensures y in FlatMap(f, xs) <==> exists k :: 0 <= k < |xs| && y in f(xs[k])
  {
    if xs != [] {
      var init := xs[..|xs| - 1];
      FlatMapMembership(f, init, y);
      assert forall k :: 0 <= k < |init| ==> init[k] == xs[k];
    }
  }

  /** The length of the result is the sum of the lengths of the parts. */
  function SumLengths<A, B>(f: A -> seq<B>, xs: seq<A>): nat {
    if xs == [] then 0 else SumLengths(f, xs[..|xs| - 1]) + |f(xs[|xs| - 1])|
  }

  lemma {:induction false} FlatMapLength<A, B>(f: A -> seq<B>, xs: seq<A>)
    ensures |FlatMap(f, xs)| == SumLengths(f, xs)
  {
    if xs != [] {
      FlatMapLength(f, xs[..|xs| - 1]);
    }
  }
}
