/** Generic sequence combinators: mapping, and mapping then concatenating. */
module Seqs {

  /** Appending two pieces to `a + s` is appending them to `s`, one after the other. */
  lemma AppendTwo<T>(a: seq<T>, s: seq<T>, x: seq<T>, y: seq<T>)
    ensures a + s + x + y == a + (s + x + y)
  {
  }

  lemma AppendFive<T>(a: seq<T>, b: seq<T>, c: seq<T>, d: seq<T>, e: seq<T>)
    ensures a + b + c + d + e == a + (b + (c + d + e))
  {
  }

  /** `s` cut after `d` elements and again `w` elements later. */
  lemma SplitThree<T>(s: seq<T>, d: nat, w: nat)
    requires d + w <= |s|
    ensures s == s[..d] + (s[d..][..w] + s[d + w..])
  {
    assert s == s[..d] + s[d..];
    assert s[d..] == s[d..][..w] + s[d + w..];
  }

  /** `f` applied to each element of `xs`, in order. */
  function Map<A, B>(xs: seq<A>, f: A -> B): (r: seq<B>)
    ensures |r| == |xs| && forall i :: 0 <= i < |xs| ==> r[i] == f(xs[i])
  {
    seq(|xs|, i requires 0 <= i < |xs| => f(xs[i]))
  }

  lemma MapSnoc<A, B>(xs: seq<A>, x: A, f: A -> B)
    ensures Map(xs + [x], f) == Map(xs, f) + [f(x)]
  {
  }

  /** `f` applied to each element of `xs`, the results concatenated in order. */
  function ConcatMap<A, B>(xs: seq<A>, f: A -> seq<B>): seq<B> {
    if xs == [] then [] else ConcatMap(xs[..|xs| - 1], f) + f(xs[|xs| - 1])
  }

  lemma ConcatMapSnoc<A, B>(xs: seq<A>, x: A, f: A -> seq<B>)
    ensures ConcatMap(xs + [x], f) == ConcatMap(xs, f) + f(x)
  {
    assert (xs + [x])[..|xs + [x]| - 1] == xs;
  }

  lemma {:induction false} ConcatMapAppend<A, B>(a: seq<A>, b: seq<A>, f: A -> seq<B>)
    ensures ConcatMap(a + b, f) == ConcatMap(a, f) + ConcatMap(b, f)
    decreases |b|
  {
    if b == [] {
      assert a + b == a;
    } else {
      var n := |b| - 1;
      assert (a + b)[..|a + b| - 1] == a + b[..n];
      assert (a + b)[|a + b| - 1] == b[n];
      ConcatMapAppend(a, b[..n], f);
    }
  }

  /** Pieces on which `f` gives nothing add nothing around the others. */
  lemma ConcatMapAround<A, B>(h: seq<A>, a: seq<A>, m: seq<A>, b: seq<A>, f: A -> seq<B>)
    requires ConcatMap(h, f) == [] && ConcatMap(m, f) == []
    ensures ConcatMap(h + a + m + b, f) == ConcatMap(a, f) + ConcatMap(b, f)
  {
    ConcatMapAppend(h + a + m, b, f);
    ConcatMapAppend(h + a, m, f);
    ConcatMapAppend(h, a, f);
    assert [] + ConcatMap(a, f) + [] == ConcatMap(a, f);
  }

  /** When `f` gives nothing for every element, the concatenation is empty. */
  lemma {:induction false} ConcatMapEmpty<A, B>(xs: seq<A>, f: A -> seq<B>)
    requires forall i :: 0 <= i < |xs| ==> f(xs[i]) == []
    ensures ConcatMap(xs, f) == []
    decreases |xs|
  {
    if xs != [] {
      ConcatMapEmpty(xs[..|xs| - 1], f);
    }
  }

  /** When `g` reads each image under `f` back as its one source element, mapping then reading is the identity. */
  lemma {:induction false} ConcatMapOfMap<A, B>(xs: seq<A>, f: A -> B, g: B -> seq<A>)
    requires forall i :: 0 <= i < |xs| ==> g(f(xs[i])) == [xs[i]]
    ensures ConcatMap(Map(xs, f), g) == xs
    decreases |xs|
  {
    if xs != [] {
      var n := |xs| - 1;
      assert Map(xs, f)[..n] == Map(xs[..n], f);
      ConcatMapOfMap(xs[..n], f, g);
      assert xs == xs[..n] + [xs[n]];
    }
  }
}
