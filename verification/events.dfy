/** One event row of the input table and the record the conversion builds
    from it: the slot scan and the record assembly of `main()`. */
module Events {
  import opened Wrappers
  import opened Sequences
  import opened Kinematics

  /** Number of particle slots (`E_i`, `PX_i`, `PY_i`, `PZ_i` columns) per row. */
  const SlotCount := 200

  /** One quantity over all the slots of a row: the columns `X_0` to `X_199`. */
  type Column = s: seq<real> | |s| == SlotCount witness seq(SlotCount, i => 0.0)

  /** One row of the input table: its index label `rowLabel`, the four slot
      columns and the six truth / label scalars. */
  datatype Row = Row(
    rowLabel: int,
    e: Column, px: Column, py: Column, pz: Column,
    truthE: real, truthPX: real, truthPY: real, truthPZ: real,
    ttv: real, isSignalNew: real)

  /** The exceptions the conversion can raise on a row: `ValueError` from
      `math.log` or `math.atanh`, and `ZeroDivisionError`. */
  datatype Failure = LogOfNonPositive | AtanhOutOfDomain | DivisionByZero

  /** The per-particle lists the slot scan builds, and the particle count. */
  datatype Scan = Scan(
    nPart: nat,
    e: seq<real>, px: seq<real>, py: seq<real>, pz: seq<real>,
    eLog: seq<real>, p: seq<real>, pLog: seq<real>)

  /** The converted event. */
  datatype Record = Record(
    e: seq<real>, px: seq<real>, py: seq<real>, pz: seq<real>,
    eLog: seq<real>, p: seq<real>, pLog: seq<real>,
    etaRel: seq<real>, phiRel: seq<real>,
    truthE: real, truthPX: real, truthPY: real, truthPZ: real,
    ttv: real, isSignalNew: real,
    eTot: real, pxTot: real, pyTot: real, pzTot: real,
    pTot: real, etaTot: real, phiTot: real,
    nPart: nat, origIdx: int, idx: nat)

  // ---------------------------------------------------------------------------
  // Slot scan

  /** The index of the first slot whose energy is exactly 0, or the number of
      slots when there is none: the slots before it are the real particles. */
  function ParticleCount(e: seq<real>): (n: nat)
    ensures n <= |e|
    ensures forall i :: 0 <= i < n ==> e[i] != 0.0
    ensures n < |e| ==> e[n] == 0.0
  {
    if e == [] || e[0] == 0.0 then 0 else 1 + ParticleCount(e[1..])
  }

  /** The sum of the squares of three components. */
  function SquaredNorm(x: real, y: real, z: real): real
  {
    x * x + y * y + z * z
  }

  /** |p| of slot `i`, through the library's square root. */
  function Momentum(m: MathLib, row: Row, i: nat): real
    requires i < SlotCount
  {
    m.sqrt(SquaredNorm(row.px[i], row.py[i], row.pz[i]))
  }

  /** Both logarithms of the scan are defined for slot `i`. */
  predicate Loggable(m: MathLib, row: Row, i: nat)
    requires i < SlotCount
  {
    row.e[i] > 0.0 && Momentum(m, row, i) > 0.0
  }

  /** Some real particle has `E <= 0` or `|p| <= 0`, so one of the scan's logarithms fails. */
  predicate ScanFails(m: MathLib, row: Row)
  {
    exists i :: 0 <= i < ParticleCount(row.e) && !Loggable(m, row, i)
  }

  /** The lists of the scan: the raw values of the slots before the sentinel,
      in slot order, with `log E`, `|p|` and `log |p|` beside them. */
  function ScanLists(m: MathLib, row: Row): Scan
  {
    var n := ParticleCount(row.e);
    Scan(
      n, row.e[..n], row.px[..n], row.py[..n], row.pz[..n],
      seq(n, i requires 0 <= i < n => m.log(row.e[i])),
      seq(n, i requires 0 <= i < n => Momentum(m, row, i)),
      seq(n, i requires 0 <= i < n => m.log(Momentum(m, row, i))))
  }

  /** What the slot scan produces: its lists, or the logarithm's domain error. */
  function ScanSpec(m: MathLib, row: Row): Result<Scan, Failure>
  {
    if ScanFails(m, row) then Failure(LogOfNonPositive) else Success(ScanLists(m, row))
  }

  /** The slot loop: walks the slots in order, stops at the first zero energy,
      and appends the raw and derived values of every slot before it. */
  method ScanSlots(m: MathLib, row: Row) returns (r: Result<Scan, Failure>)
    ensures r == ScanSpec(m, row)
  {
    var e, px, py, pz, eLog, p, pLog := [], [], [], [], [], [], [];
    var nPart := 0;
    var ipar := 0;
    while ipar < SlotCount
      invariant ipar <= SlotCount && nPart == ipar
      invariant forall j :: 0 <= j < ipar ==> row.e[j] != 0.0
      invariant forall j :: 0 <= j < ipar ==> Loggable(m, row, j)
      invariant e == row.e[..ipar] && px == row.px[..ipar] && py == row.py[..ipar] && pz == row.pz[..ipar]
      invariant |eLog| == |p| == |pLog| == ipar
      invariant forall j :: 0 <= j < ipar ==>
        eLog[j] == m.log(row.e[j]) && p[j] == Momentum(m, row, j) && pLog[j] == m.log(p[j])
    {
      if row.e[ipar] == 0.0 {
        break;
      }
      e, px, py, pz := e + [row.e[ipar]], px + [row.px[ipar]], py + [row.py[ipar]], pz + [row.pz[ipar]];
      if row.e[ipar] <= 0.0 {
        ScanFailsAt(m, row, ipar);
        return Failure(LogOfNonPositive);
      }
      eLog := eLog + [m.log(row.e[ipar])];
      var pp := Momentum(m, row, ipar);
      p := p + [pp];
      if pp <= 0.0 {
        ScanFailsAt(m, row, ipar);
        return Failure(LogOfNonPositive);
      }
      pLog := pLog + [m.log(pp)];
      nPart := nPart + 1;
      ipar := ipar + 1;
    }
    assert ParticleCount(row.e) == nPart;
    assert !ScanFails(m, row);
    assert Scan(nPart, e, px, py, pz, eLog, p, pLog) == ScanLists(m, row) by {
      var want := ScanLists(m, row);
      assert eLog == want.eLog && p == want.p && pLog == want.pLog;
    }
    r := Success(Scan(nPart, e, px, py, pz, eLog, p, pLog));
  }

  /** A slot before the sentinel whose logarithm fails makes the scan fail. */
  lemma ScanFailsAt(m: MathLib, row: Row, i: nat)
    requires i < SlotCount && !Loggable(m, row, i)
    requires forall j :: 0 <= j <= i ==> row.e[j] != 0.0
    ensures ScanFails(m, row)
  {
    var n := ParticleCount(row.e);
    assert n < SlotCount ==> row.e[n] == 0.0;
    assert i < n;
  }

  // ---------------------------------------------------------------------------
  // Record assembly

  /** The per-particle angle failures of the second loop: `atanh(pz / p)` out of
      its domain, or a zero `px` under `py / px`. */
  function AngleFailure(scan: Scan, i: nat): Option<Failure>
    requires i < |scan.px| && i < |scan.pz| && i < |scan.p| && scan.p[i] != 0.0
  {
    if !InAtanhDomain(scan.pz[i] / scan.p[i]) then Some(AtanhOutOfDomain)
    else if scan.px[i] == 0.0 then Some(DivisionByZero)
    else None
  }

  /** The scan's lists all have `nPart` entries and every `|p|` is non-zero. */
  predicate Aligned(scan: Scan)
  {
    && |scan.e| == |scan.px| == |scan.py| == |scan.pz| == scan.nPart
    && |scan.eLog| == |scan.p| == |scan.pLog| == scan.nPart
    && forall i :: 0 <= i < scan.nPart ==> scan.p[i] != 0.0
  }

  /** The failure of the first particle, from `i` on, whose angles fail. */
  function FirstAngleFailure(scan: Scan, i: nat): (r: Option<Failure>)
    requires Aligned(scan) && i <= scan.nPart
    ensures r.None? <==> forall j :: i <= j < scan.nPart ==> AngleFailure(scan, j).None?
    ensures r.None? ==> forall j :: i <= j < scan.nPart ==> scan.px[j] != 0.0
    ensures r.Some? ==> exists j :: i <= j < scan.nPart && AngleFailure(scan, j) == r &&
                                   forall k :: i <= k < j ==> AngleFailure(scan, k).None?
    decreases scan.nPart - i
  {
    if i == scan.nPart then None
    else if AngleFailure(scan, i).Some? then AngleFailure(scan, i)
    else FirstAngleFailure(scan, i + 1)
  }

  /** The pseudorapidity of particle `i`: `atanh(pz / p)`. */
  function Eta(m: MathLib, scan: Scan, i: nat): real
    requires i < |scan.pz| && i < |scan.p| && scan.p[i] != 0.0
  {
    m.atanh(scan.pz[i] / scan.p[i])
  }

  /** The azimuth of particle `i`: single-ratio `atan(py / px)`. */
  function Phi(m: MathLib, scan: Scan, i: nat): real
    requires i < |scan.py| && i < |scan.px| && scan.px[i] != 0.0
  {
    m.atan(scan.py[i] / scan.px[i])
  }

  /** The event axis: `P_tot`, `Eta_tot` and `Phi_tot`. */
  datatype Axis = Axis(pTot: real, etaTot: real, phiTot: real)

  /** The event axis from the component totals, or the first exception:
      `PZ_tot / P_tot` with `P_tot == 0`, `atanh` outside (-1, 1), `PY_tot / PX_tot`
      with `PX_tot == 0`. */
  function AxisSpec(m: MathLib, pxTot: real, pyTot: real, pzTot: real): Result<Axis, Failure>
  {
    var pTot := m.sqrt(SquaredNorm(pxTot, pyTot, pzTot));
    if pTot == 0.0 then Failure(DivisionByZero)
    else if !InAtanhDomain(pzTot / pTot) then Failure(AtanhOutOfDomain)
    else if pxTot == 0.0 then Failure(DivisionByZero)
    else Success(Axis(pTot, m.atanh(pzTot / pTot), m.atan(pyTot / pxTot)))
  }

  /** Every particle's angles can be computed. */
  predicate AnglesDefined(scan: Scan)
    requires Aligned(scan)
  {
    forall i :: 0 <= i < scan.nPart ==> InAtanhDomain(scan.pz[i] / scan.p[i]) && scan.px[i] != 0.0
  }

  /** `Etarel`: each particle's pseudorapidity relative to the axis, signed by `sign(Eta_tot)`. */
  function EtaRel(m: MathLib, scan: Scan, etaTot: real): seq<real>
    requires Aligned(scan) && AnglesDefined(scan)
  {
    seq(scan.nPart, i requires 0 <= i < scan.nPart => Sign(etaTot) * (Eta(m, scan, i) - etaTot))
  }

  /** `Phirel`: each particle's azimuth relative to the axis, wrapped by a whole number of turns. */
  function PhiRel(m: MathLib, scan: Scan, phiTot: real): seq<real>
    requires Aligned(scan) && AnglesDefined(scan)
  {
    seq(scan.nPart, i requires 0 <= i < scan.nPart => Wrap(Phi(m, scan, i) - phiTot, m.twoPi))
  }

  /** What the record assembly produces from a successful scan: copied scalars,
      component totals, the event axis, bookkeeping and the relative angles;
      or the first exception raised on the way. */
  function AssembleSpec(m: MathLib, row: Row, scan: Scan, idx: nat): Result<Record, Failure>
    requires Aligned(scan)
  {
    var eTot, pxTot, pyTot, pzTot := Sum(scan.e), Sum(scan.px), Sum(scan.py), Sum(scan.pz);
    match AxisSpec(m, pxTot, pyTot, pzTot)
    case Failure(f) => Failure(f)
    case Success(axis) =>
      match FirstAngleFailure(scan, 0)
      case Some(f) => Failure(f)
      case None =>
        AnglesDefinedWhenNoFailure(scan);
        Success(Record(
          scan.e, scan.px, scan.py, scan.pz, scan.eLog, scan.p, scan.pLog,
          EtaRel(m, scan, axis.etaTot), PhiRel(m, scan, axis.phiTot),
          row.truthE, row.truthPX, row.truthPY, row.truthPZ, row.ttv, row.isSignalNew,
          eTot, pxTot, pyTot, pzTot, axis.pTot, axis.etaTot, axis.phiTot,
          scan.nPart, row.rowLabel, idx))
  }

  /** A successful scan is aligned. */
  lemma ScanAligned(m: MathLib, row: Row)
    requires ScanSpec(m, row).Success?
    ensures Aligned(ScanSpec(m, row).value)
  {
    var scan := ScanSpec(m, row).value;
    assert !ScanFails(m, row);
    forall i | 0 <= i < scan.nPart
      ensures scan.p[i] != 0.0
    {
      assert Loggable(m, row, i);
      assert scan.p[i] == Momentum(m, row, i);
    }
  }

  /** The whole conversion of one row, given the record's position `idx` in its batch. */
  function ConvertSpec(m: MathLib, row: Row, idx: nat): Result<Record, Failure>
  {
    match ScanSpec(m, row)
    case Failure(f) => Failure(f)
    case Success(scan) =>
      ScanAligned(m, row);
      AssembleSpec(m, row, scan, idx)
  }

  /** When no particle's angles fail, every particle's angles can be computed. */
  lemma AnglesDefinedWhenNoFailure(scan: Scan)
    requires Aligned(scan) && FirstAngleFailure(scan, 0).None?
    ensures AnglesDefined(scan)
  {
    forall i | 0 <= i < scan.nPart
      ensures InAtanhDomain(scan.pz[i] / scan.p[i]) && scan.px[i] != 0.0
    {
      assert AngleFailure(scan, i).None?;
    }
  }

  /** When particles `0..i-1` pass and particle `i` fails, the second loop
      reports particle `i`'s failure. */
  lemma FirstAngleFailureAt(scan: Scan, i: nat)
    requires Aligned(scan) && i < scan.nPart
    requires forall j :: 0 <= j < i ==> AngleFailure(scan, j).None?
    requires AngleFailure(scan, i).Some?
    ensures FirstAngleFailure(scan, 0) == AngleFailure(scan, i)
  {
    var r := FirstAngleFailure(scan, 0);
    var j :| 0 <= j < scan.nPart && AngleFailure(scan, j) == r &&
             forall k :: 0 <= k < j ==> AngleFailure(scan, k).None?;
    assert j == i;
  }

  /** The per-event part after the slot loop: totals, event axis and the
      second loop over the particles filling `Etarel` and `Phirel`. */
  method AssembleRecord(m: MathLib, row: Row, scan: Scan, idx: nat) returns (r: Result<Record, Failure>)
    requires Aligned(scan)
    ensures r == AssembleSpec(m, row, scan, idx)
  {
    var eTot, pxTot, pyTot, pzTot := Sum(scan.e), Sum(scan.px), Sum(scan.py), Sum(scan.pz);
    var axis := AxisSpec(m, pxTot, pyTot, pzTot);
    if axis.Failure? {
      return Failure(axis.error);
    }
    var etaTot, phiTot := axis.value.etaTot, axis.value.phiTot;
    var etaRel, phiRel := [], [];
    var ipar := 0;
    while ipar < scan.nPart
      invariant ipar <= scan.nPart
      invariant forall j :: 0 <= j < ipar ==> AngleFailure(scan, j).None?
      invariant forall j :: 0 <= j < ipar ==> InAtanhDomain(scan.pz[j] / scan.p[j]) && scan.px[j] != 0.0
      invariant |etaRel| == |phiRel| == ipar
      invariant forall j :: 0 <= j < ipar ==> etaRel[j] == Sign(etaTot) * (Eta(m, scan, j) - etaTot)
      invariant forall j :: 0 <= j < ipar ==> phiRel[j] == Wrap(Phi(m, scan, j) - phiTot, m.twoPi)
    {
      if !InAtanhDomain(scan.pz[ipar] / scan.p[ipar]) {
        FirstAngleFailureAt(scan, ipar);
        return Failure(AtanhOutOfDomain);
      }
      var eta := Eta(m, scan, ipar);
      if scan.px[ipar] == 0.0 {
        FirstAngleFailureAt(scan, ipar);
        return Failure(DivisionByZero);
      }
      var phi := Phi(m, scan, ipar);
      etaRel := etaRel + [Sign(etaTot) * (eta - etaTot)];
      phiRel := phiRel + [Wrap(phi - phiTot, m.twoPi)];
      ipar := ipar + 1;
    }
    assert AnglesDefined(scan);
    assert etaRel == EtaRel(m, scan, etaTot);
    assert phiRel == PhiRel(m, scan, phiTot);
    r := Success(Record(
      scan.e, scan.px, scan.py, scan.pz, scan.eLog, scan.p, scan.pLog, etaRel, phiRel,
      row.truthE, row.truthPX, row.truthPY, row.truthPZ, row.ttv, row.isSignalNew,
      eTot, pxTot, pyTot, pzTot, axis.value.pTot, etaTot, phiTot,
      scan.nPart, row.rowLabel, idx));
  }

  /** The body of the row loop up to the append: the slot scan, then the
      record assembly. */
  method ConvertRow(m: MathLib, row: Row, idx: nat) returns (r: Result<Record, Failure>)
    ensures r == ConvertSpec(m, row, idx)
  {
    var scan := ScanSlots(m, row);
    if scan.Failure? {
      return Failure(scan.error);
    }
    ScanAligned(m, row);
    r := AssembleRecord(m, row, scan.value, idx);
  }

  // ---------------------------------------------------------------------------
  // Properties of the conversion of one row

  /** `nPart` is characterised by the sentinel: a count with no zero energy
      before it and a zero energy at it (or the end of the row) is `nPart`. */
  lemma ParticleCountIsFirstZero(e: seq<real>, n: nat)
    requires n <= |e|
    requires forall i :: 0 <= i < n ==> e[i] != 0.0
    requires n < |e| ==> e[n] == 0.0
    ensures ParticleCount(e) == n
  {
  }

  /** The slots at and after the first zero-energy slot are padding: replacing
      them by anything that keeps a zero energy at the sentinel leaves the
      conversion unchanged. */
  lemma PaddingIgnored(m: MathLib, row: Row, e: Column, px: Column, py: Column, pz: Column, idx: nat)
    requires var n := ParticleCount(row.e);
      && e[..n] == row.e[..n] && px[..n] == row.px[..n]
      && py[..n] == row.py[..n] && pz[..n] == row.pz[..n]
      && (n < SlotCount ==> e[n] == 0.0)
    ensures ConvertSpec(m, row.(e := e, px := px, py := py, pz := pz), idx) == ConvertSpec(m, row, idx)
  {
    var other := row.(e := e, px := px, py := py, pz := pz);
    var n := ParticleCount(row.e);
    forall i | 0 <= i < n
      ensures other.e[i] == row.e[i] && Momentum(m, other, i) == Momentum(m, row, i)
    {
      assert e[i] == e[..n][i] && px[i] == px[..n][i] && py[i] == py[..n][i] && pz[i] == pz[..n][i];
      assert row.e[i] == row.e[..n][i] && row.px[i] == row.px[..n][i];
      assert row.py[i] == row.py[..n][i] && row.pz[i] == row.pz[..n][i];
    }
    ParticleCountIsFirstZero(e, n);
    assert ParticleCount(other.e) == n;
    assert ScanFails(m, other) == ScanFails(m, row) by {
      if ScanFails(m, row) {
        var i :| 0 <= i < n && !Loggable(m, row, i);
        assert !Loggable(m, other, i);
      }
      if ScanFails(m, other) {
        var i :| 0 <= i < n && !Loggable(m, other, i);
        assert !Loggable(m, row, i);
      }
    }
    assert ScanLists(m, other) == ScanLists(m, row);
  }

  /** An event whose first slot has zero energy has no particles and all-zero
      totals. With `sqrt(0) == 0` the division `PZ_tot / P_tot` raises; with
      any other `sqrt(0)` the quotient is 0, and dividing by `PX_tot == 0`
      raises instead, so no assumption on the library is needed. */
  lemma EmptyEventAborts(m: MathLib, row: Row, idx: nat)
    requires row.e[0] == 0.0
    ensures ConvertSpec(m, row, idx) == Failure(DivisionByZero)
  {
    var scan := ScanLists(m, row);
    assert scan.e == [] && scan.px == [] && scan.py == [] && scan.pz == [];
    assert SquaredNorm(0.0, 0.0, 0.0) == 0.0;
    assert ScanSpec(m, row) == Success(scan);
    var pTot := m.sqrt(SquaredNorm(0.0, 0.0, 0.0));
    if pTot != 0.0 {
      assert InAtanhDomain(0.0 / pTot);
    }
    assert AxisSpec(m, 0.0, 0.0, 0.0) == Failure(DivisionByZero);
  }

  /** Totals along the beam axis (`PX_tot == PY_tot == 0`, `PZ_tot != 0`) give
      `P_tot == |PZ_tot|`, so `PZ_tot / P_tot` is 1 or -1 and `atanh` raises
      before `PY_tot / PX_tot` is ever divided. */
  lemma AxisAlongBeamAborts(m: MathLib, pzTot: real)
    requires pzTot != 0.0
    requires m.sqrt(pzTot * pzTot) == (if pzTot < 0.0 then -pzTot else pzTot)
    ensures AxisSpec(m, 0.0, 0.0, pzTot) == Failure(AtanhOutOfDomain)
  {
    assert SquaredNorm(0.0, 0.0, pzTot) == pzTot * pzTot;
    var pTot := m.sqrt(SquaredNorm(0.0, 0.0, pzTot));
    if pzTot < 0.0 {
      assert pTot == -pzTot;
      assert pzTot / pTot == -1.0;
    } else {
      assert pTot == pzTot;
      assert pzTot / pTot == 1.0;
    }
  }

  /** A real particle with non-positive energy or zero momentum makes a
      logarithm raise, so the row does not convert. */
  lemma NonPositiveAborts(m: MathLib, row: Row, idx: nat, i: nat)
    requires i < ParticleCount(row.e)
    requires row.e[i] <= 0.0 || Momentum(m, row, i) <= 0.0
    ensures ConvertSpec(m, row, idx) == Failure(LogOfNonPositive)
  {
    assert !Loggable(m, row, i);
  }

  /** A converted record holds the raw values of the first `nPart` slots in
      slot order, nine lists of `nPart` entries each, totals that are the sums
      of the raw lists, the row's six scalars unchanged, its label and `idx`. */
  lemma RecordShape(m: MathLib, row: Row, idx: nat)
    requires ConvertSpec(m, row, idx).Success?
    ensures var rec, n := ConvertSpec(m, row, idx).value, ParticleCount(row.e);
      && rec.nPart == n <= SlotCount
      && rec.e == row.e[..n] && rec.px == row.px[..n]
      && rec.py == row.py[..n] && rec.pz == row.pz[..n]
      && |rec.eLog| == |rec.p| == |rec.pLog| == |rec.etaRel| == |rec.phiRel| == n
      && (forall i :: 0 <= i < n ==> rec.e[i] > 0.0 && rec.p[i] > 0.0)
      && rec.eTot == Sum(rec.e) && rec.pxTot == Sum(rec.px)
      && rec.pyTot == Sum(rec.py) && rec.pzTot == Sum(rec.pz)
      && rec.truthE == row.truthE && rec.truthPX == row.truthPX
      && rec.truthPY == row.truthPY && rec.truthPZ == row.truthPZ
      && rec.ttv == row.ttv && rec.isSignalNew == row.isSignalNew
      && rec.origIdx == row.rowLabel && rec.idx == idx
  {
    var n := ParticleCount(row.e);
    var rec := ConvertSpec(m, row, idx).value;
    ScanAligned(m, row);
    assert !ScanFails(m, row);
    forall i | 0 <= i < n
      ensures rec.e[i] > 0.0 && rec.p[i] > 0.0
    {
      assert Loggable(m, row, i);
      assert rec.p[i] == Momentum(m, row, i);
    }
  }

  /** Every `Phirel` entry lies in [-π, π) and differs from `Phi - Phi_tot` by
      a whole number of turns. */
  lemma PhiRelWrapped(m: MathLib, row: Row, idx: nat)
    requires ConvertSpec(m, row, idx).Success?
    ensures var rec := ConvertSpec(m, row, idx).value;
      |rec.phiRel| == |rec.px| == |rec.py| &&
      forall i :: 0 <= i < |rec.phiRel| ==>
        && rec.px[i] != 0.0
        && -(m.twoPi as real) / 2.0 <= rec.phiRel[i] < m.twoPi / 2.0
        && WholeTurns(m.atan(rec.py[i] / rec.px[i]) - rec.phiTot - rec.phiRel[i], m.twoPi)
  {
    var scan := ScanSpec(m, row).value;
    ScanAligned(m, row);
    var axis := AxisSpec(m, Sum(scan.px), Sum(scan.py), Sum(scan.pz)).value;
    AnglesDefinedWhenNoFailure(scan);
    PhiRelInRange(m, scan, axis.phiTot);
  }

  /** Each `Phirel` entry is the wrap of `Phi - Phi_tot`: in [-π, π) and a
      whole number of turns away from it. */
  lemma PhiRelInRange(m: MathLib, scan: Scan, phiTot: real)
    requires Aligned(scan) && AnglesDefined(scan)
    ensures var rel := PhiRel(m, scan, phiTot);
      forall i :: 0 <= i < scan.nPart ==>
        && -(m.twoPi as real) / 2.0 <= rel[i] < m.twoPi / 2.0
        && WholeTurns(Phi(m, scan, i) - phiTot - rel[i], m.twoPi)
  {
    var rel := PhiRel(m, scan, phiTot);
    forall i | 0 <= i < scan.nPart
      ensures -(m.twoPi as real) / 2.0 <= rel[i] < m.twoPi / 2.0
      ensures WholeTurns(Phi(m, scan, i) - phiTot - rel[i], m.twoPi)
    {
      var d := Phi(m, scan, i) - phiTot;
      WrapInRange(d, m.twoPi);
      WrapIsShift(d, m.twoPi);
    }
  }

  /** `Etarel` is oriented by the sign of the axis: with `Eta_tot == 0` every
      entry is 0, otherwise each entry is `±(Eta - Eta_tot)`, positive when the
      particle lies further from the centre than the axis on the axis' side. */
  lemma EtaRelOriented(m: MathLib, row: Row, idx: nat)
    requires ConvertSpec(m, row, idx).Success?
    ensures var rec := ConvertSpec(m, row, idx).value;
      |rec.etaRel| == |rec.pz| == |rec.p| &&
      forall i :: 0 <= i < |rec.etaRel| ==>
        && rec.p[i] != 0.0
        && var eta := m.atanh(rec.pz[i] / rec.p[i]);
           && (rec.etaTot == 0.0 ==> rec.etaRel[i] == 0.0)
           && (rec.etaTot > 0.0 ==> rec.etaRel[i] == eta - rec.etaTot)
           && (rec.etaTot < 0.0 ==> rec.etaRel[i] == rec.etaTot - eta)
  {
    ScanAligned(m, row);
    AnglesDefinedWhenNoFailure(ScanSpec(m, row).value);
  }
}
