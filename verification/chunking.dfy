/** Splitting the converted events into output batches, and the batch file names. */
module Chunking {
  import opened Sequences

  /** The batches the run writes for events `xs` when a batch is flushed as soon
      as it holds `size` events and whatever is left is written at the end:
      full batches of `size`, then one last batch of fewer than `size`
      (possibly none at all). */
  function Chunks<T>(xs: seq<T>, size: nat): (cs: seq<seq<T>>)
    requires size > 0
    ensures |cs| > 0
    decreases |xs|
  {
    if |xs| < size then [xs] else [xs[..size]] + Chunks(xs[size..], size)
  }

  /** Multiplying by a non-negative factor keeps the order. */
  lemma MulMonotone(a: int, b: int, size: nat)
    requires a <= b
    ensures a * size <= b * size
  {
    assert b * size - a * size == (b - a) * size;
  }

  /** One more factor adds `size` once. */
  lemma MulSucc(a: nat, size: nat)
    ensures (a + 1) * size == a * size + size
  {
  }

  /** Euclidean division of `q * size + r` when `r < size`. */
  lemma DivModOfMulAdd(q: nat, size: nat, r: nat)
    requires r < size
    ensures (q * size + r) / size == q && (q * size + r) % size == r
  {
    var n := q * size + r;
    var d, e := n / size, n % size;
    assert n == d * size + e && 0 <= e < size;
    if d < q {
      MulMonotone(d + 1, q, size);
      assert false;
    } else if d > q {
      MulMonotone(q + 1, d, size);
      assert false;
    }
  }

  /** Taking one `size` off `n` takes one off the quotient and keeps the remainder. */
  lemma DivModStep(n: nat, size: nat)
    requires 0 < size <= n
    ensures (n - size) / size + 1 == n / size && (n - size) % size == n % size
  {
    var q, r := (n - size) / size, (n - size) % size;
    assert n == (q + 1) * size + r by {
      assert n - size == q * size + r;
    }
    DivModOfMulAdd(q + 1, size, r);
  }

  /** There are `|xs| / size + 1` batches. */
  lemma {:induction false} ChunksCount<T>(xs: seq<T>, size: nat)
    requires size > 0
    ensures |Chunks(xs, size)| == |xs| / size + 1
    decreases |xs|
  {
    if |xs| >= size {
      ChunksCount(xs[size..], size);
      DivModStep(|xs|, size);
    } else {
      DivModOfMulAdd(0, size, |xs|);
    }
  }

  /** Every batch but the last holds exactly `size` events; the last holds
      `|xs| % size`, which is zero when `|xs|` is a multiple of `size`. */
  lemma {:induction false} ChunkSizes<T>(xs: seq<T>, size: nat)
    requires size > 0
    ensures var cs := Chunks(xs, size);
      && (forall j :: 0 <= j < |cs| - 1 ==> |cs[j]| == size)
      && |cs[|cs| - 1]| == |xs| % size
    decreases |xs|
  {
    if |xs| >= size {
      ChunkSizes(xs[size..], size);
      var cs, rest := Chunks(xs, size), Chunks(xs[size..], size);
      assert cs[|cs| - 1] == rest[|rest| - 1];
      DivModStep(|xs|, size);
    } else {
      DivModOfMulAdd(0, size, |xs|);
    }
  }

  /** Concatenating the batches in order gives back the events: none is
      dropped, duplicated or moved. */
  lemma {:induction false} ChunksFlatten<T>(xs: seq<T>, size: nat)
    requires size > 0
    ensures Flatten(Chunks(xs, size)) == xs
    decreases |xs|
  {
    if |xs| >= size {
      ChunksFlatten(xs[size..], size);
      var cs := Chunks(xs, size);
      assert cs[1..] == Chunks(xs[size..], size);
      assert xs == xs[..size] + xs[size..];
    }
  }

  /** Full batches followed by a short remainder are exactly the chunks of
      their concatenation. */
  lemma {:induction false} ChunksOfBatches<T>(bs: seq<seq<T>>, rest: seq<T>, size: nat)
    requires size > 0 && |rest| < size
    requires forall j :: 0 <= j < |bs| ==> |bs[j]| == size
    ensures Chunks(Flatten(bs) + rest, size) == bs + [rest]
    decreases |bs|
  {
    if bs == [] {
      assert Flatten(bs) + rest == rest;
    } else {
      var xs := Flatten(bs) + rest;
      assert xs == bs[0] + (Flatten(bs[1..]) + rest);
      assert xs[..size] == bs[0];
      assert xs[size..] == Flatten(bs[1..]) + rest;
      ChunksOfBatches(bs[1..], rest, size);
      assert |xs| >= size;
      assert Chunks(xs, size) == [xs[..size]] + Chunks(xs[size..], size);
      assert bs + [rest] == [bs[0]] + (bs[1..] + [rest]);
    }
  }

  /** Element `p` of batch `j` is event `j * size + p`, and `p` is below `size`. */
  lemma {:induction false} ChunkElement<T>(xs: seq<T>, size: nat, j: nat, p: nat)
    requires size > 0
    requires j < |Chunks(xs, size)| && p < |Chunks(xs, size)[j]|
    ensures p < size && j * size + p < |xs|
    ensures Chunks(xs, size)[j][p] == xs[j * size + p]
    decreases j
  {
    if |xs| >= size && j > 0 {
      var cs := Chunks(xs, size);
      assert cs[j] == Chunks(xs[size..], size)[j - 1];
      ChunkElement(xs[size..], size, j - 1, p);
      var k := (j - 1) * size + p;
      MulSucc(j - 1, size);
      assert xs[size..][k] == xs[size + k];
    }
  }

  /** Three events in batches of two give a full batch and a batch of one;
      four events give two full batches and an empty last batch. */
  lemma ChunksExamples()
    ensures Chunks([1, 2, 3], 2) == [[1, 2], [3]]
    ensures Chunks([1, 2, 3, 4], 2) == [[1, 2], [3, 4], []]
  {
    var three, four := [1, 2, 3], [1, 2, 3, 4];
    assert three[..2] == [1, 2] && three[2..] == [3];
    assert Chunks(three, 2) == [[1, 2]] + Chunks([3], 2);
    assert four[..2] == [1, 2] && four[2..] == [3, 4];
    assert [3, 4][..2] == [3, 4] && [3, 4][2..] == [];
    assert Chunks([3, 4], 2) == [[3, 4]] + Chunks([], 2);
    assert Chunks(four, 2) == [[1, 2]] + Chunks([3, 4], 2);
  }

  // ---------------------------------------------------------------------------
  // File names

  /** The decimal digit for `d`. */
  function Digit(d: nat): char
    requires d < 10
  {
    "0123456789"[d]
  }

  /** The value of a decimal digit character. */
  function DigitValue(c: char): nat
  {
    if '0' <= c <= '9' then (c as int - '0' as int) else 0
  }

  /** Python's `str` of a non-negative integer: decimal, no leading zeros. */
  function DecimalString(n: nat): (s: string)
    ensures |s| > 0
    ensures forall i :: 0 <= i < |s| ==> '0' <= s[i] <= '9'
    ensures n >= 10 ==> s[0] != '0'
  {
    if n < 10 then [Digit(n)] else DecimalString(n / 10) + [Digit(n % 10)]
  }

  /** Reading a string of decimal digits back as a number. */
  function ParseDecimal(s: string): nat
  {
    if s == [] then 0 else ParseDecimal(s[..|s| - 1]) * 10 + DigitValue(s[|s| - 1])
  }

  /** Decimal rendering is undone by parsing. */
  lemma {:induction false} ParseDecimalString(n: nat)
    ensures ParseDecimal(DecimalString(n)) == n
  {
    var s := DecimalString(n);
    DigitRoundTrip(n % 10);
    if n >= 10 {
      ParseDecimalString(n / 10);
      assert s[..|s| - 1] == DecimalString(n / 10);
      assert s[|s| - 1] == Digit(n % 10);
    } else {
      assert s[..0] == [];
    }
  }

  /** Reading a digit back gives its value. */
  lemma DigitRoundTrip(d: nat)
    requires d < 10
    ensures DigitValue(Digit(d)) == d
  {
  }

  /** The name of output file number `n`: `{prefix}_{n}.awkd`. */
  function FileName(prefix: string, n: nat): string
  {
    prefix + "_" + DecimalString(n) + ".awkd"
  }

  /** Different file numbers give different names, so no batch of a run
      overwrites another. */
  lemma FileNameInjective(prefix: string, a: nat, b: nat)
    requires FileName(prefix, a) == FileName(prefix, b)
    ensures a == b
  {
    var na, nb := FileName(prefix, a), FileName(prefix, b);
    var k := |prefix| + 1;
    assert |DecimalString(a)| == |na| - k - 5 == |DecimalString(b)|;
    assert na[k..|na| - 5] == DecimalString(a);
    assert nb[k..|nb| - 5] == DecimalString(b);
    ParseDecimalString(a);
    ParseDecimalString(b);
  }
}
