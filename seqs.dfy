/** Sequence combinators over element functions: mapping each element to one value or to a
    block of values, built up from the front so that a loop can follow them. */
module Seqs {
  function Map<T, U>(xs: seq<T>, f: T -> U): (r: seq<U>)
    ensures |r| == |xs|
    ensures forall i :: 0 <= i < |xs| ==> r[i] == f(xs[i])
  {
    if |xs| == 0 then [] else Map(xs[..|xs| - 1], f) + [f(xs[|xs| - 1])]
  }

  lemma MapSnoc<T, U>(xs: seq<T>, i: nat, f: T -> U)
    requires i < |xs|
    ensures Map(xs[..i + 1], f) == Map(xs[..i], f) + [f(xs[i])]
  {
    assert xs[..i + 1][..i] == xs[..i];
  }

  /** The same step behind a fixed prefix, as a loop that appends to earlier results takes it. */
  lemma AppendMapSnoc<T, U>(prefix: seq<U>, xs: seq<T>, i: nat, f: T -> U)
    requires i < |xs|
    ensures prefix + Map(xs[..i + 1], f) == (prefix + Map(xs[..i], f)) + [f(xs[i])]
  {
    MapSnoc(xs, i, f);
  }

  /** The blocks of every element, concatenated in order. */
  function ConcatMap<T, U>(xs: seq<T>, f: T -> seq<U>): seq<U> {
    if |xs| == 0 then [] else ConcatMap(xs[..|xs| - 1], f) + f(xs[|xs| - 1])
  }

  lemma ConcatMapSnoc<T, U>(xs: seq<T>, i: nat, f: T -> seq<U>)
    requires i < |xs|
    ensures ConcatMap(xs[..i + 1], f) == ConcatMap(xs[..i], f) + f(xs[i])
  {
    assert xs[..i + 1][..i] == xs[..i];
  }

  /** Concatenating blocks respects order: the blocks of `a + b` are those of `a` followed by
      those of `b`. */
  lemma {:induction false} ConcatMapAppend<T, U>(a: seq<T>, b: seq<T>, f: T -> seq<U>)
    ensures ConcatMap(a + b, f) == ConcatMap(a, f) + ConcatMap(b, f)
    decreases |b|
  {
    if |b| == 0 {
      assert a + b == a;
    } else {
      var b' := b[..|b| - 1];
      ConcatMapAppend(a, b', f);
      assert (a + b)[..|a + b| - 1] == a + b';
      assert (a + b)[|a + b| - 1] == b[|b| - 1];
    }
  }

  /** One element contributes exactly its own block. */
  lemma ConcatMapSingle<T, U>(x: T, f: T -> seq<U>)
    ensures ConcatMap([x], f) == f(x)
  {
    assert [x][..0] == [];
  }

  /** The images of the elements that satisfy `p`, in order. */
  function FilterMap<T, U>(xs: seq<T>, p: T -> bool, f: T -> U): seq<U> {
    if |xs| == 0 then []
    else FilterMap(xs[..|xs| - 1], p, f) + (if p(xs[|xs| - 1]) then [f(xs[|xs| - 1])] else [])
  }

  /** The number of elements that satisfy `p`. */
  function Count<T>(xs: seq<T>, p: T -> bool): nat {
    if |xs| == 0 then 0 else Count(xs[..|xs| - 1], p) + (if p(xs[|xs| - 1]) then 1 else 0)
  }

  lemma FilterMapSnoc<T, U>(xs: seq<T>, i: nat, p: T -> bool, f: T -> U)
    requires i < |xs|
    ensures FilterMap(xs[..i + 1], p, f) == FilterMap(xs[..i], p, f) + (if p(xs[i]) then [f(xs[i])] else [])
    ensures Count(xs[..i + 1], p) == Count(xs[..i], p) + (if p(xs[i]) then 1 else 0)
  {
    assert xs[..i + 1][..i] == xs[..i];
  }

  /** Filtering respects order: the images for `a + b` are those of `a` followed by those of
      `b`. */
  lemma {:induction false} FilterMapAppend<T, U>(a: seq<T>, b: seq<T>, p: T -> bool, f: T -> U)
    ensures FilterMap(a + b, p, f) == FilterMap(a, p, f) + FilterMap(b, p, f)
    decreases |b|
  {
    if |b| == 0 {
      assert a + b == a;
    } else {
      var b' := b[..|b| - 1];
      FilterMapAppend(a, b', p, f);
      assert (a + b)[..|a + b| - 1] == a + b';
      assert (a + b)[|a + b| - 1] == b[|b| - 1];
    }
  }

  /** One image per element that satisfies `p`. */
  lemma {:induction false} FilterMapCount<T, U>(xs: seq<T>, p: T -> bool, f: T -> U)
    ensures |FilterMap(xs, p, f)| == Count(xs, p)
  {
    if |xs| > 0 {
      FilterMapCount(xs[..|xs| - 1], p, f);
    }
  }

  /** The image of element `i` sits at the position given by the number of satisfying
      elements before it. */
  lemma FilterMapAt<T, U>(xs: seq<T>, i: nat, p: T -> bool, f: T -> U)
    requires i < |xs| && p(xs[i])
    ensures |FilterMap(xs, p, f)| == Count(xs, p)
    ensures Count(xs[..i], p) < Count(xs, p)
    ensures FilterMap(xs, p, f)[Count(xs[..i], p)] == f(xs[i])
  {
    var pre := xs[..i + 1];
    FilterMapSnoc(xs, i, p, f);
    FilterMapCount(xs, p, f);
    FilterMapCount(xs[..i], p, f);
    assert xs == pre + xs[i + 1..];
    FilterMapAppend(pre, xs[i + 1..], p, f);
  }
}
