/** The floating-point library the conversion calls, and the azimuthal wrap. */
module Kinematics {

  /** A positive real: the period of the azimuthal wrap. */
  type Positive = r: real | r > 0.0 witness 1.0

  /** `math.log`, `math.sqrt`, `math.atanh` and `math.atan` as uninterpreted
      total functions over the reals, and the constant 2π. Their values are
      not modelled; only where they fail is (see the event module). */
  datatype MathLib = MathLib(
    log: real -> real,
    sqrt: real -> real,
    atanh: real -> real,
    atan: real -> real,
    twoPi: Positive)

  /** `np.sign`: -1, 0 or 1. */
  function Sign(x: real): real
  {
    if x > 0.0 then 1.0 else if x < 0.0 then -1.0 else 0.0
  }

  /** `math.atanh` is defined on the open interval (-1, 1) only. */
  predicate InAtanhDomain(x: real)
  {
    -1.0 < x < 1.0
  }

  /** The wrap of an angle difference `d` with period `t` (2π in the source):
      `d - t * floor(d / t + 0.5)`. */
  function Wrap(d: real, t: real): real
    requires t > 0.0
  {
    d - t * ((d / t + 0.5).Floor as real)
  }

  /** `x` is a whole number of periods `t`. */
  predicate WholeTurns(x: real, t: real)
    requires t > 0.0
  {
    (x / t).Floor as real == x / t
  }

  /** The wrapped value lies in [-t/2, t/2). */
  lemma WrapInRange(d: real, t: real)
    requires t > 0.0
    ensures -t / 2.0 <= Wrap(d, t) < t / 2.0
  {
    var q := d / t;
    var f := (q + 0.5).Floor as real;
    assert f <= q + 0.5 < f + 1.0;
    assert d == t * q;
    var x := q - f;
    assert -0.5 <= x < 0.5;
    assert Wrap(d, t) == t * x;
    assert t * (-0.5) <= t * x;
    assert t * x < t * 0.5;
  }

  /** The wrapped value differs from `d` by a whole number of periods. */
  lemma WrapIsShift(d: real, t: real)
    requires t > 0.0
    ensures WholeTurns(d - Wrap(d, t), t)
  {
    var k := (d / t + 0.5).Floor as real;
    assert d - Wrap(d, t) == t * k;
    assert (d - Wrap(d, t)) / t == k;
  }

  /** A shift of `d` by `k` periods that lands in [-t/2, t/2) is the wrap of `d`:
      the representative is unique. */
  lemma WrapUnique(d: real, t: real, k: int)
    requires t > 0.0
    requires -t / 2.0 <= d - (k as real) * t < t / 2.0
    ensures Wrap(d, t) == d - (k as real) * t
  {
    var q := d / t;
    assert d == t * q;
    var y := q - (k as real);
    assert d - (k as real) * t == t * y;
    assert -0.5 <= y < 0.5;
    assert (q + 0.5).Floor == k;
  }

  /** An angle difference already in [-t/2, t/2) is left unchanged. */
  lemma WrapFixesRange(d: real, t: real)
    requires t > 0.0
    requires -t / 2.0 <= d < t / 2.0
    ensures Wrap(d, t) == d
  {
    WrapUnique(d, t, 0);
  }

  /** Wrapping twice is wrapping once. */
  lemma WrapIdempotent(d: real, t: real)
    requires t > 0.0
    ensures Wrap(Wrap(d, t), t) == Wrap(d, t)
  {
    WrapInRange(d, t);
    WrapFixesRange(Wrap(d, t), t);
  }

  /** Adding whole periods to the difference does not change its wrap. */
  lemma WrapPeriodic(d: real, t: real, k: int)
    requires t > 0.0
    ensures Wrap(d + (k as real) * t, t) == Wrap(d, t)
  {
    var j := (d / t + 0.5).Floor;
    WrapInRange(d, t);
    assert Wrap(d, t) == (d + (k as real) * t) - ((j + k) as real) * t;
    WrapUnique(d + (k as real) * t, t, j + k);
  }
}
