/** `[f(x) for x in s]` over sequences, with the facts about it that do
    not depend on `f`. */
module Seqs {

  /** `[f(x) for x in s]`. */
  function MapSeq<A, B>(f: A -> B, s: seq<A>): (r: seq<B>)
    ensures |r| == |s|
  {
    if s == [] then [] else MapSeq(f, s[..|s| - 1]) + [f(s[|s| - 1])]
  }

  lemma {:induction false} MapSeqAt<A, B>(f: A -> B, s: seq<A>, i: nat)
    requires i < |s|
    ensures MapSeq(f, s)[i] == f(s[i])
    decreases |s|
  {
    var n := |s| - 1;
    if i < n {
      MapSeqAt(f, s[..n], i);
      assert s[..n][i] == s[i];
    }
  }

  lemma MapSeqStep<A, B>(f: A -> B, s: seq<A>, i: nat)
    requires i < |s|
    ensures MapSeq(f, s[..i + 1]) == MapSeq(f, s[..i]) + [f(s[i])]
  {
    assert s[..i + 1][..i] == s[..i];
  }

  lemma MapSeqSnoc<A, B>(f: A -> B, s: seq<A>, x: A)
    ensures MapSeq(f, s + [x]) == MapSeq(f, s) + [f(x)]
  {
    assert (s + [x])[..|s|] == s;
  }

  function Elements<T>(s: seq<T>): set<T>
  {
    set x | x in s
  }

  /** The union of the elements of `f(x)` over the `x` of `xs`. */
  function UnionOf<A, B>(f: A -> seq<B>, xs: seq<A>): set<B>
  {
    if xs == [] then {} else UnionOf(f, xs[..|xs| - 1]) + Elements(f(xs[|xs| - 1]))
  }

  lemma {:induction false} UnionOfSound<A, B>(f: A -> seq<B>, xs: seq<A>, y: B)
    requires y in UnionOf(f, xs)
    ensures exists i :: 0 <= i < |xs| && y in f(xs[i])
    decreases |xs|
  {
    var n := |xs| - 1;
    if y in UnionOf(f, xs[..n]) {
      UnionOfSound(f, xs[..n], y);
      var i :| 0 <= i < n && y in f(xs[..n][i]);
      assert xs[..n][i] == xs[i];
    } else {
      assert y in f(xs[n]);
    }
  }

  lemma {:induction false} UnionOfComplete<A, B>(f: A -> seq<B>, xs: seq<A>, y: B, i: nat)
    requires i < |xs| && y in f(xs[i])
    ensures y in UnionOf(f, xs)
    decreases |xs|
  {
    var n := |xs| - 1;
    if i < n {
      assert xs[..n][i] == xs[i];
      UnionOfComplete(f, xs[..n], y, i);
    } else {
      assert y in Elements(f(xs[n]));
    }
  }
}
