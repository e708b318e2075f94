/** Sequence helpers shared by the event records and the output batches. */
module Sequences {

  /** Python's `sum` over a list of numbers, added left to right; the empty sum is 0. */
  function Sum(xs: seq<real>): real
  {
    if xs == [] then 0.0 else Sum(xs[..|xs| - 1]) + xs[|xs| - 1]
  }

  /** Concatenation of a sequence of sequences, in order. */
  function Flatten<T>(ss: seq<seq<T>>): seq<T>
  {
    if ss == [] then [] else ss[0] + Flatten(ss[1..])
  }

  /** Appending one more part at the end appends its elements at the end. */
  lemma {:induction false} FlattenSnoc<T>(ss: seq<seq<T>>, s: seq<T>)
    ensures Flatten(ss + [s]) == Flatten(ss) + s
  {
    if ss != [] {
      assert (ss + [s])[1..] == ss[1..] + [s];
      FlattenSnoc(ss[1..], s);
    }
  }

  /** Parts that all have length `n` flatten to `|ss| * n` elements. */
  lemma {:induction false} FlattenLength<T>(ss: seq<seq<T>>, n: nat)
    requires forall j :: 0 <= j < |ss| ==> |ss[j]| == n
    ensures |Flatten(ss)| == |ss| * n
  {
    if ss != [] {
      FlattenLength(ss[1..], n);
    }
  }

  /** Flattening distributes over concatenation of the parts. */
  lemma {:induction false} FlattenAppend<T>(ss: seq<seq<T>>, tt: seq<seq<T>>)
    ensures Flatten(ss + tt) == Flatten(ss) + Flatten(tt)
  {
    if ss != [] {
      assert (ss + tt)[1..] == ss[1..] + tt;
      FlattenAppend(ss[1..], tt);
    } else {
      assert ss + tt == tt;
    }
  }

  /** Cutting the concatenation inside part `f`, after its first `r` elements. */
  lemma FlattenSplit<T>(ss: seq<seq<T>>, f: nat, r: nat)
    requires f < |ss| && r <= |ss[f]|
    ensures Flatten(ss) == (Flatten(ss[..f]) + ss[f][..r]) + (ss[f][r..] + Flatten(ss[f + 1..]))
  {
    assert ss == ss[..f] + [ss[f]] + ss[f + 1..];
    FlattenAppend(ss[..f] + [ss[f]], ss[f + 1..]);
    FlattenSnoc(ss[..f], ss[f]);
    assert ss[f] == ss[f][..r] + ss[f][r..];
  }

  /** Growing a prefix of `xs` by one element, after a fixed `front`. */
  lemma PrefixStep<T>(front: seq<T>, xs: seq<T>, r: nat)
    requires r < |xs|
    ensures front + xs[..r + 1] == (front + xs[..r]) + [xs[r]]
    ensures (front + xs[..r + 1]) + xs[r + 1..] == front + xs
  {
    assert xs == xs[..r + 1] + xs[r + 1..];
  }
}
