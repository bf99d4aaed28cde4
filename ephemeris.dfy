/** Broadcast-ephemeris evaluation: choosing a satellite's record, the
    week-rollover time difference, the URA table, Kepler's equation solved by
    Newton's method, the satellite position and clock at a time, the velocity
    by finite differences, and the positions and clocks of every satellite of
    an epoch at signal transmission time. */
module Ephemeris {
  import opened Numerics
  import opened GnssCommon

  const MAX_ITER_KEPLER: nat := 30
  const RTOL_KEPLER: real := 1e-13

  // ---------------------------------------------------------------------------
  // Selecting a record

  /** The record seleph returns: the first one of satellite sat, or a blank
      record of satellite 0 when there is none. */
  function FirstRecord(sat: int, allEph: seq<Eph>): Eph {
    if |allEph| == 0 then NewEph(0)
    else if allEph[0].sat == sat then allEph[0]
    else FirstRecord(sat, allEph[1..])
  }

  /** FirstRecord returns the record at the lowest index with satellite sat,
      and the blank record exactly when no record has it. */
  lemma {:induction false} FirstRecordIsFirst(sat: int, allEph: seq<Eph>)
    ensures (exists i :: 0 <= i < |allEph| && allEph[i].sat == sat) ==>
      exists i :: 0 <= i < |allEph| && allEph[i].sat == sat
        && FirstRecord(sat, allEph) == allEph[i]
        && forall j :: 0 <= j < i ==> allEph[j].sat != sat
    ensures (forall i :: 0 <= i < |allEph| ==> allEph[i].sat != sat) ==>
      FirstRecord(sat, allEph) == NewEph(0)
  {
    if |allEph| > 0 && allEph[0].sat != sat {
      FirstRecordIsFirst(sat, allEph[1..]);
      if exists i :: 0 <= i < |allEph| && allEph[i].sat == sat {
        var i :| 0 <= i < |allEph| && allEph[i].sat == sat;
        assert allEph[1..][i - 1].sat == sat;
        var k :| 0 <= k < |allEph| - 1 && allEph[1..][k].sat == sat
          && FirstRecord(sat, allEph[1..]) == allEph[1..][k]
          && forall j :: 0 <= j < k ==> allEph[1..][j].sat != sat;
        assert forall j :: 1 <= j < k + 1 ==> allEph[j].sat == allEph[1..][j - 1].sat;
        assert allEph[k + 1] == allEph[1..][k];
      } else {
        assert forall i :: 0 <= i < |allEph| - 1 ==> allEph[1..][i] == allEph[i + 1];
      }
    }
  }

  /** seleph: linear search that stops at the first record of satellite sat. */
  method Seleph(sat: int, allEph: seq<Eph>) returns (eph: Eph)
    ensures eph == FirstRecord(sat, allEph)
  {
    eph := NewEph(0);
    var i := 0;
    while i < |allEph|
      invariant 0 <= i <= |allEph|
      invariant FirstRecord(sat, allEph) == FirstRecord(sat, allEph[i..])
      invariant eph == NewEph(0)
    {
      if sat == allEph[i].sat {
        eph := allEph[i];
        return;
      }
      assert allEph[i..][1..] == allEph[i + 1..];
      i := i + 1;
    }
  }

  /** A satellite with no record of its own gets the blank record, whose
      semi-major axis A is 0. eph2pos divides mu by A³ for the mean motion,
      which in Python raises ZeroDivisionError for this record; the model's
      FloatDiv reads that mean motion as 0 instead, so the mean anomaly is 0,
      and places the satellite at the earth's centre. */
  lemma BlankRecordHasNoOrbit(num: Numerics, sat: int, allEph: seq<Eph>, tk: real, t: real)
    requires Laws(num)
    requires forall i :: 0 <= i < |allEph| ==> allEph[i].sat != sat
    ensures FirstRecord(sat, allEph).A == 0.0
    ensures MeanAnomaly(num, FirstRecord(sat, allEph), tk) == 0.0
    ensures Eph2PosOf(num, t, FirstRecord(sat, allEph)).pos == V3(0.0, 0.0, 0.0)
  {
    FirstRecordIsFirst(sat, allEph);
    SqrtOfSquare(num, 0.0);
  }

  // ---------------------------------------------------------------------------
  // Week rollover

  /** One GPS week in seconds. */
  const WEEK: real := 604800.0

  /** dtadjust: t1 - t2, moved back by one week when it exceeds a week and
      forward by one week when it is below minus a week. */
  function DtAdjust(t1: real, t2: real): real {
    var dt := t1 - t2;
    if dt > WEEK then dt - WEEK else if dt < -WEEK then dt + WEEK else dt
  }

  /** Within a week either way the difference is kept; otherwise it moves by
      exactly one week toward zero, so a difference within two weeks comes back
      within one. Swapping the times negates the result. */
  lemma DtAdjustProperties(t1: real, t2: real)
    ensures -WEEK <= t1 - t2 <= WEEK ==> DtAdjust(t1, t2) == t1 - t2
    ensures t1 - t2 > WEEK ==> DtAdjust(t1, t2) == t1 - t2 - WEEK
    ensures t1 - t2 < -WEEK ==> DtAdjust(t1, t2) == t1 - t2 + WEEK
    ensures -2.0 * WEEK <= t1 - t2 <= 2.0 * WEEK ==> -WEEK <= DtAdjust(t1, t2) <= WEEK
    ensures DtAdjust(t2, t1) == -DtAdjust(t1, t2)
  {
  }

  // ---------------------------------------------------------------------------
  // User range accuracy

  /** The nominal URA in metres of the GPS accuracy indices 0 to 15. */
  const URA_NOMINAL: seq<real> := [2.0, 2.8, 4.0, 5.76, 8.0, 11.3, 16.0, 32.0, 64.0, 128.0,
                                   256.0, 512.0, 1024.0, 2048.0, 4096.0, 8192.0]

  /** sva2ura as written: 500² outside [0, 15], otherwise the table entry one
      past int(sva); None stands for the IndexError that entry 16 raises. */
  function Sva2UraAsWritten(sva: real): Option<real> {
    if sva < 0.0 || sva > 15.0 then Some(250000.0)
    else if Trunc(sva) + 1 < |URA_NOMINAL| then Some(URA_NOMINAL[Trunc(sva) + 1])
    else None
  }

  /** Index 15 makes the lookup fail, and index 0 yields the nominal value of
      index 1. */
  lemma Sva2UraAsWrittenCounterexample()
    ensures Sva2UraAsWritten(15.0).None?
    ensures Sva2UraAsWritten(0.0) == Some(2.8)
  {
  }

  /** sva2ura with the table read at int(sva), as the GPS accuracy index table
      is laid out (IS-GPS-200, section 20.3.3.3.1.3). */
  function Sva2Ura(sva: real): real {
    if sva < 0.0 || sva > 15.0 then 250000.0 else URA_NOMINAL[Trunc(sva)]
  }

  /** The table grows with the index. */
  lemma UraNominalIncreasing(i: int, j: int)
    requires 0 <= i < j < |URA_NOMINAL|
    ensures URA_NOMINAL[i] < URA_NOMINAL[j]
  {
  }

  /** Every accuracy index gets a positive value; an index in the table gets
      its own entry, and the value never decreases with the index inside the
      table. The as-written lookup returns, for the indices 0 to 14, the
      corrected value of the next index. */
  lemma Sva2UraProperties(sva: real, n: int)
    ensures 0.0 < Sva2Ura(sva)
    ensures 0 <= n <= 15 ==> Sva2Ura(n as real) == URA_NOMINAL[n]
    ensures 0 <= n <= 14 ==> Sva2UraAsWritten(n as real) == Some(Sva2Ura((n + 1) as real))
    ensures 0.0 <= sva <= n as real <= 15.0 ==> Sva2Ura(sva) <= Sva2Ura(n as real)
  {
    if 0.0 <= sva <= n as real <= 15.0 && Trunc(sva) < n {
      UraNominalIncreasing(Trunc(sva), n);
    }
  }

  // ---------------------------------------------------------------------------
  // Satellite clock

  /** The clock polynomial f0 + f1·t + f2·t² at t seconds from toc. */
  function ClockPoly(eph: Eph, t: real): real {
    eph.f0 + eph.f1 * t + eph.f2 * (t * t)
  }

  /** The time from toc after n passes of t := ts - poly(t), starting at ts. */
  function ClockTime(eph: Eph, ts: real, n: nat): real {
    if n == 0 then ts else ts - ClockPoly(eph, ClockTime(eph, ts, n - 1))
  }

  /** The clock offset eph2clk returns: the polynomial after two passes. */
  function ClockOffset(eph: Eph, time: real): real {
    ClockPoly(eph, ClockTime(eph, time - eph.toc, 2))
  }

  /** eph2clk: two fixed-point passes that take the offset off the time from
      toc, then the polynomial at the result. */
  method Eph2Clk(time: real, eph: Eph) returns (dts: real)
    ensures dts == ClockOffset(eph, time)
  {
    var ts := time - eph.toc;
    var t := ts;
    for k := 0 to 2
      invariant t == ClockTime(eph, ts, k)
    {
      t := ts - (eph.f0 + eph.f1 * t + eph.f2 * (t * t));
    }
    dts := eph.f0 + eph.f1 * t + eph.f2 * (t * t);
  }

  /** A clock without drift terms has offset f0 at every time: every pass
      lands on ts - f0. */
  lemma {:induction false} ClockOffsetDriftFree(eph: Eph, time: real, n: nat)
    requires eph.f1 == 0.0 && eph.f2 == 0.0
    ensures n > 0 ==> ClockTime(eph, time - eph.toc, n) == time - eph.toc - eph.f0
    ensures ClockOffset(eph, time) == eph.f0
  {
    if n > 1 {
      ClockOffsetDriftFree(eph, time, n - 1);
    }
  }

  // ---------------------------------------------------------------------------
  // Kepler's equation

  /** How far E is from solving Kepler's equation E - e·sin E = M. */
  function KeplerResidue(num: Numerics, e: real, M: real, E: real): real {
    E - e * num.sin(E) - M
  }

  /** The derivative 1 - e·cos E of the residue. */
  function KeplerSlope(num: Numerics, e: real, E: real): real {
    1.0 - e * num.cos(E)
  }

  /** One Newton step for Kepler's equation. */
  function KeplerStep(num: Numerics, e: real, M: real, E: real): real {
    E - FloatDiv(KeplerResidue(num, e, M, E), KeplerSlope(num, e, E))
  }

  /** The eccentric anomaly after k Newton steps from E = M. */
  function Iterate(num: Numerics, e: real, M: real, k: nat): real {
    if k == 0 then M else KeplerStep(num, e, M, Iterate(num, e, M, k - 1))
  }

  /** The anomaly before step k (0 before the first). */
  function Previous(num: Numerics, e: real, M: real, k: nat): real {
    if k == 0 then 0.0 else Iterate(num, e, M, k - 1)
  }

  /** Step k finds the last two anomalies closer than RTOL_KEPLER. */
  predicate Converged(num: Numerics, e: real, M: real, k: nat) {
    Abs(Iterate(num, e, M, k) - Previous(num, e, M, k)) < RTOL_KEPLER
  }

  /** The first k from k0 on at which the iteration has converged, or
      MAX_ITER_KEPLER when none before it has. */
  function StopIndex(num: Numerics, e: real, M: real, k0: nat): (n: nat)
    requires k0 <= MAX_ITER_KEPLER
    decreases MAX_ITER_KEPLER - k0
  {
    if k0 == MAX_ITER_KEPLER || Converged(num, e, M, k0) then k0
    else StopIndex(num, e, M, k0 + 1)
  }

  /** The stopping index is the first converged one at or after k0, and at
      most MAX_ITER_KEPLER. */
  lemma {:induction false} StopIndexFirst(num: Numerics, e: real, M: real, k0: nat)
    requires k0 <= MAX_ITER_KEPLER
    ensures var n := StopIndex(num, e, M, k0);
      k0 <= n <= MAX_ITER_KEPLER
      && (n < MAX_ITER_KEPLER ==> Converged(num, e, M, n))
      && forall k :: k0 <= k < n ==> !Converged(num, e, M, k)
    decreases MAX_ITER_KEPLER - k0
  {
    if k0 < MAX_ITER_KEPLER && !Converged(num, e, M, k0) {
      StopIndexFirst(num, e, M, k0 + 1);
    }
  }

  /** The eccentric anomaly eph2pos uses for mean anomaly M. */
  function EccentricAnomaly(num: Numerics, e: real, M: real): real {
    Iterate(num, e, M, StopIndex(num, e, M, 0))
  }

  /** The Kepler loop of eph2pos: at most MAX_ITER_KEPLER Newton steps from
      E = M, stopping before the first step whose two last anomalies differ
      by less than RTOL_KEPLER. Also returns the previous anomaly and the
      number of steps taken. */
  method SolveKepler(num: Numerics, e: real, M: real) returns (E: real, Ek: real, n: nat)
    ensures n <= MAX_ITER_KEPLER
    ensures E == Iterate(num, e, M, n) && Ek == Previous(num, e, M, n)
    ensures n < MAX_ITER_KEPLER ==> Abs(E - Ek) < RTOL_KEPLER
    ensures forall k :: 0 <= k < n ==> !Converged(num, e, M, k)
    ensures E == EccentricAnomaly(num, e, M)
  {
    E, Ek := M, 0.0;
    n := 0;
    while n < MAX_ITER_KEPLER
      invariant n <= MAX_ITER_KEPLER
      invariant E == Iterate(num, e, M, n) && Ek == Previous(num, e, M, n)
      invariant StopIndex(num, e, M, 0) == StopIndex(num, e, M, n)
    {
      if Abs(E - Ek) < RTOL_KEPLER {
        assert Converged(num, e, M, n);
        break;
      }
      assert StopIndex(num, e, M, n) == StopIndex(num, e, M, n + 1);
      Ek := E;
      E := E - FloatDiv(KeplerResidue(num, e, M, E), KeplerSlope(num, e, E));
      n := n + 1;
    }
    StopAt(num, e, M, n);
  }

  /** Where the loop stops is the stopping index. */
  lemma StopAt(num: Numerics, e: real, M: real, n: nat)
    requires n <= MAX_ITER_KEPLER && StopIndex(num, e, M, 0) == StopIndex(num, e, M, n)
    requires n == MAX_ITER_KEPLER || Converged(num, e, M, n)
    ensures n == StopIndex(num, e, M, 0)
    ensures forall k :: 0 <= k < n ==> !Converged(num, e, M, k)
  {
    StopIndexFirst(num, e, M, 0);
  }

  /** On a circular orbit every Newton step stays at the mean anomaly. */
  lemma {:induction false} CircularIterate(num: Numerics, M: real, k: nat)
    ensures Iterate(num, 0.0, M, k) == M
  {
    if k > 0 {
      CircularIterate(num, M, k - 1);
    }
  }

  /** On a circular orbit the eccentric anomaly is the mean anomaly. */
  lemma CircularAnomaly(num: Numerics, M: real)
    ensures EccentricAnomaly(num, 0.0, M) == M
  {
    CircularIterate(num, M, StopIndex(num, 0.0, M, 0));
  }

  /** When the loop stops early after at least one step, Kepler's equation
      holds at the previous anomaly to within RTOL_KEPLER times its slope. */
  lemma KeplerResidual(num: Numerics, e: real, M: real, n: nat)
    requires 0 < n && Converged(num, e, M, n)
    ensures var Ek := Previous(num, e, M, n);
      var d := KeplerSlope(num, e, Ek);
      d != 0.0 ==> Abs(KeplerResidue(num, e, M, Ek)) < RTOL_KEPLER * Abs(d)
  {
    var Ek := Previous(num, e, M, n);
    assert Iterate(num, e, M, n) == KeplerStep(num, e, M, Ek);
    NewtonResidual(Iterate(num, e, M, n), Ek, KeplerResidue(num, e, M, Ek), KeplerSlope(num, e, Ek));
  }

  /** A Newton step E = Ek - res/d shorter than RTOL_KEPLER leaves a residual
      below RTOL_KEPLER·|d|. */
  lemma NewtonResidual(E: real, Ek: real, res: real, d: real)
    requires E == Ek - FloatDiv(res, d) && Abs(E - Ek) < RTOL_KEPLER
    ensures d != 0.0 ==> Abs(res) < RTOL_KEPLER * Abs(d)
  {
    var q := FloatDiv(res, d);
    if d != 0.0 {
      ProductBelow(q, d, RTOL_KEPLER);
    }
  }

  /** |q| < b and d ≠ 0 give |q·d| < b·|d|. */
  lemma ProductBelow(q: real, d: real, b: real)
    requires Abs(q) < b && d != 0.0
    ensures Abs(q * d) < b * Abs(d)
  {
    var ad := Abs(d);
    assert 0.0 < ad;
    assert Abs(q * d) == Abs(q) * ad by {
      if q < 0.0 && d < 0.0 { assert q * d == (-q) * (-d); }
      else if q < 0.0 { assert -(q * d) == (-q) * d; }
      else if d < 0.0 { assert -(q * d) == q * (-d); }
    }
    assert (b - Abs(q)) * ad > 0.0 by { MulPositive(b - Abs(q), ad); }
  }

  // ---------------------------------------------------------------------------
  // Satellite position and clock

  /** Position and clock of a satellite at one time. */
  datatype SatFix = SatFix(pos: V3, clk: real)

  /** Mean anomaly at tk seconds from toe. */
  function MeanAnomaly(num: Numerics, eph: Eph, tk: real): real {
    eph.M0 + (num.sqrt(FloatDiv(MU_GPS, eph.A * eph.A * eph.A)) + eph.deln) * tk
  }

  /** Argument of latitude, radius and inclination in the orbital plane,
      after the second-harmonic corrections. */
  datatype Plane = Plane(u: real, r: real, i: real)

  /** The corrected orbital-plane quantities for eccentric anomaly E. */
  function OrbitPlane(num: Numerics, eph: Eph, tk: real, E: real): Plane {
    var sinE, cosE := num.sin(E), num.cos(E);
    var nus := num.sqrt(1.0 - eph.e * eph.e) * sinE;
    var nuc := cosE - eph.e;
    var nue := 1.0 - eph.e * cosE;
    var u := num.atan2(nus, nuc) + eph.omg;
    var r := eph.A * nue;
    var i := eph.i0 + eph.idot * tk;
    var sin2u, cos2u := num.sin(2.0 * u), num.cos(2.0 * u);
    Plane(u + eph.cus * sin2u + eph.cuc * cos2u,
          r + eph.crs * sin2u + eph.crc * cos2u,
          i + eph.cis * sin2u + eph.cic * cos2u)
  }

  /** Longitude of the ascending node in the earth-fixed frame. */
  function NodeLongitude(eph: Eph, tk: real): real {
    eph.OMG0 + (eph.OMGd - OMGE) * tk - OMGE * eph.toes
  }

  /** The earth-fixed position: the in-plane point (x, y) turned by the
      inclination and the node longitude. */
  function Rotate(x: real, y: real, cosi: real, sini: real, cosO: real, sinO: real): V3 {
    V3(x * cosO - y * cosi * sinO, x * sinO + y * cosi * cosO, y * sini)
  }

  /** The relativistic clock correction 2·sqrt(mu·A)·e·sin E / c². */
  function Relativity(num: Numerics, eph: Eph, E: real): real {
    2.0 * num.sqrt(MU_GPS * eph.A) * eph.e * num.sin(E) / (CLIGHT * CLIGHT)
  }

  /** The earth-fixed position of the orbital-plane point p when the node is
      at longitude O. */
  function Position(num: Numerics, p: Plane, O: real): V3 {
    var x, y := p.r * num.cos(p.u), p.r * num.sin(p.u);
    Rotate(x, y, num.cos(p.i), num.sin(p.i), num.cos(O), num.sin(O))
  }

  /** The position and clock eph2pos computes once the anomaly E is known. */
  function SatFixAt(num: Numerics, t: real, eph: Eph, E: real): SatFix {
    var tk := DtAdjust(t, eph.toe);
    SatFix(Position(num, OrbitPlane(num, eph, tk, E), NodeLongitude(eph, tk)),
           ClockPoly(eph, DtAdjust(t, eph.toc)) - Relativity(num, eph, E))
  }

  /** eph2pos as a value: the fix at the eccentric anomaly Kepler's loop finds. */
  function Eph2PosOf(num: Numerics, t: real, eph: Eph): SatFix {
    var tk := DtAdjust(t, eph.toe);
    SatFixAt(num, t, eph, EccentricAnomaly(num, eph.e, MeanAnomaly(num, eph, tk)))
  }

  /** eph2pos: solve Kepler's equation, then place the satellite and correct
      its clock. */
  method Eph2Pos(num: Numerics, t: real, eph: Eph) returns (rs: V3, dts: real)
    ensures SatFix(rs, dts) == Eph2PosOf(num, t, eph)
  {
    var tk := DtAdjust(t, eph.toe);
    var M := MeanAnomaly(num, eph, tk);
    var E, _, _ := SolveKepler(num, eph.e, M);
    var fix := SatFixAt(num, t, eph, E);
    rs, dts := fix.pos, fix.clk;
  }

  /** Turning the in-plane point keeps its distance from the centre. */
  lemma RotateKeepsNorm(x: real, y: real, cosi: real, sini: real, cosO: real, sinO: real)
    requires Sq(cosi) + Sq(sini) == 1.0 && Sq(cosO) + Sq(sinO) == 1.0
    ensures var p := Rotate(x, y, cosi, sini, cosO, sinO);
      Sq(p.x) + Sq(p.y) + Sq(p.z) == Sq(x) + Sq(y)
  {
    var a, b := x * cosO, y * cosi * sinO;
    var c, d := x * sinO, y * cosi * cosO;
    assert Sq(a - b) + Sq(c + d) == Sq(a) + Sq(b) + Sq(c) + Sq(d) - 2.0 * (a * b - c * d);
    assert a * b == c * d;
    assert Sq(a) + Sq(c) == Sq(x) * (Sq(cosO) + Sq(sinO));
    var yc := y * cosi;
    assert Sq(b) + Sq(d) == Sq(yc) * (Sq(cosO) + Sq(sinO));
    assert Sq(yc) + Sq(y * sini) == Sq(y) * (Sq(cosi) + Sq(sini));
  }

  /** The in-plane point (r cos u, r sin u) lies at distance |r|. */
  lemma PlanePointNorm(r: real, c: real, s: real)
    requires Sq(c) + Sq(s) == 1.0
    ensures Sq(r * c) + Sq(r * s) == Sq(r)
  {
    assert Sq(r * c) + Sq(r * s) == Sq(r) * (Sq(c) + Sq(s));
  }

  /** The position lies at distance |r| from the earth's centre. */
  lemma PositionRadius(num: Numerics, p: Plane, O: real)
    requires Laws(num)
    ensures var rs := Position(num, p, O);
      Sq(rs.x) + Sq(rs.y) + Sq(rs.z) == Sq(p.r)
  {
    assert Sq(num.cos(p.u)) + Sq(num.sin(p.u)) == 1.0;
    assert Sq(num.cos(p.i)) + Sq(num.sin(p.i)) == 1.0;
    assert Sq(num.cos(O)) + Sq(num.sin(O)) == 1.0;
    PlanePointNorm(p.r, num.cos(p.u), num.sin(p.u));
    RotateKeepsNorm(p.r * num.cos(p.u), p.r * num.sin(p.u),
                    num.cos(p.i), num.sin(p.i), num.cos(O), num.sin(O));
  }

  /** The satellite lies at the corrected orbit radius from the earth's
      centre: |rs|² = r², whatever the anomaly. */
  lemma SatFixRadius(num: Numerics, t: real, eph: Eph, E: real)
    requires Laws(num)
    ensures var p := OrbitPlane(num, eph, DtAdjust(t, eph.toe), E);
      var rs := SatFixAt(num, t, eph, E).pos;
      Sq(rs.x) + Sq(rs.y) + Sq(rs.z) == Sq(p.r)
  {
    var tk := DtAdjust(t, eph.toe);
    PositionRadius(num, OrbitPlane(num, eph, tk, E), NodeLongitude(eph, tk));
  }

  /** On a circular orbit the clock carries no relativistic term: it is the
      clock polynomial at t - toc, adjusted for the week. */
  lemma CircularClock(num: Numerics, t: real, eph: Eph)
    requires eph.e == 0.0
    ensures Eph2PosOf(num, t, eph).clk == ClockPoly(eph, DtAdjust(t, eph.toc))
  {
  }

  // ---------------------------------------------------------------------------
  // Velocity by finite differences

  /** Position and velocity, clock bias and drift from the fixes at a time
      and 1e-3 s later: the rates are forward differences over that step. */
  function FiniteDifference(f0: SatFix, f1: SatFix): (seq<real>, seq<real>) {
    ([f0.pos.x, f0.pos.y, f0.pos.z,
      (f1.pos.x - f0.pos.x) / 1e-3, (f1.pos.y - f0.pos.y) / 1e-3, (f1.pos.z - f0.pos.z) / 1e-3],
     [f0.clk, (f1.clk - f0.clk) / 1e-3])
  }

  /** ephpos as values. */
  function EphPosOf(num: Numerics, time: real, eph: Eph): (seq<real>, seq<real>) {
    FiniteDifference(Eph2PosOf(num, time, eph), Eph2PosOf(num, time + 1e-3, eph))
  }

  /** ephpos: evaluate eph2pos at time and time + 1e-3 into fresh buffers,
      then turn the second evaluation into a difference quotient. */
  method EphPos(num: Numerics, time: real, eph: Eph) returns (rs: array<real>, dts: array<real>)
    ensures fresh(rs) && fresh(dts)
    ensures (rs[..], dts[..]) == EphPosOf(num, time, eph)
  {
    rs := new real[6];
    dts := new real[2];
    var p0, c0 := Eph2Pos(num, time, eph);
    var t := time + 1e-3;
    var p1, c1 := Eph2Pos(num, t, eph);
    FillDifference(rs, dts, SatFix(p0, c0), SatFix(p1, c1));
  }

  /** The buffer work of ephpos: the first fix into rs[0:3] and dts[0], the
      second into rs[3:6] and dts[1], then the second made a difference
      quotient in place. */
  method FillDifference(rs: array<real>, dts: array<real>, f0: SatFix, f1: SatFix)
    requires rs.Length == 6 && dts.Length == 2 && rs != dts
    modifies rs, dts
    ensures (rs[..], dts[..]) == FiniteDifference(f0, f1)
  {
    rs[0], rs[1], rs[2], dts[0] := f0.pos.x, f0.pos.y, f0.pos.z, f0.clk;
    rs[3], rs[4], rs[5], dts[1] := f1.pos.x, f1.pos.y, f1.pos.z, f1.clk;
    rs[3], rs[4], rs[5] := (rs[3] - rs[0]) / 1e-3, (rs[4] - rs[1]) / 1e-3, (rs[5] - rs[2]) / 1e-3;
    dts[1] := (dts[1] - dts[0]) / 1e-3;
    assert rs[..] == FiniteDifference(f0, f1).0;
    assert dts[..] == FiniteDifference(f0, f1).1;
  }

  /** The velocity and drift integrate back over the step: the state at the
      first fix moved on by 1e-3 s at the rates is the second fix. */
  lemma FiniteDifferenceStep(f0: SatFix, f1: SatFix)
    ensures var (rs, dts) := FiniteDifference(f0, f1);
      |rs| == 6 && |dts| == 2
      && rs[0] + 1e-3 * rs[3] == f1.pos.x && rs[1] + 1e-3 * rs[4] == f1.pos.y
      && rs[2] + 1e-3 * rs[5] == f1.pos.z && dts[0] + 1e-3 * dts[1] == f1.clk
  {
  }

  // ---------------------------------------------------------------------------
  // All satellites of an epoch

  /** Row i of satposs: the record of satellite obs.sat[i], the transmit time
      corrected by the clock offset, and ephpos at that time. */
  function SatRow(num: Numerics, obs: Obs, allEph: seq<Eph>, i: int): (seq<real>, seq<real>)
    requires 0 <= i < |obs.sat| && |obs.t| == |obs.sat|
  {
    var eph := FirstRecord(obs.sat[i], allEph);
    EphPosOf(num, obs.t[i] - ClockOffset(eph, obs.t[i]), eph)
  }

  /** A row depends on nothing but its own satellite number and time. */
  lemma SatRowLocal(num: Numerics, obs: Obs, obs': Obs, allEph: seq<Eph>, i: int, j: int)
    requires 0 <= i < |obs.sat| && |obs.t| == |obs.sat|
    requires 0 <= j < |obs'.sat| && |obs'.t| == |obs'.sat|
    requires obs.sat[i] == obs'.sat[j] && obs.t[i] == obs'.t[j]
    ensures SatRow(num, obs, allEph, i) == SatRow(num, obs', allEph, j)
  {
  }

  /** rows holds every row of satposs. */
  ghost predicate IsSatTable(num: Numerics, obs: Obs, allEph: seq<Eph>, rows: seq<(seq<real>, seq<real>)>)
    requires |obs.t| == |obs.sat|
  {
    && |rows| == |obs.sat|
    && (forall i :: 0 <= i < |rows| ==> |rows[i].0| == 6 && |rows[i].1| == 2)
    && forall i {:trigger SatRow(num, obs, allEph, i)} :: 0 <= i < |obs.sat| ==>
      rows[i] == SatRow(num, obs, allEph, i)
  }

  /** The table of satposs exists. */
  lemma SatTable(num: Numerics, obs: Obs, allEph: seq<Eph>) returns (rows: seq<(seq<real>, seq<real>)>)
    requires |obs.t| == |obs.sat|
    ensures IsSatTable(num, obs, allEph, rows)
  {
    rows := seq(|obs.sat|, i requires 0 <= i < |obs.sat| && |obs.t| == |obs.sat| => SatRow(num, obs, allEph, i));
  }

  /** order visits every row index, each index it holds being a row. */
  predicate Visits(order: seq<int>, n: int) {
    (forall k :: 0 <= k < |order| ==> 0 <= order[k] < n)
    && forall i :: 0 <= i < n ==> i in order
  }

  /** satposs: an n×6 table of positions and velocities and an n×2 table of
      clock biases and drifts, filled row by row in the order of the sorted
      satellite numbers (order, which visits every row). */
  method Satposs(num: Numerics, obs: Obs, allEph: seq<Eph>, order: seq<int>)
      returns (rs: array2<real>, dts: array2<real>)
    requires |obs.t| == |obs.sat| && |obs.P| == |obs.sat|
    requires Visits(order, |obs.sat|)
    ensures fresh(rs) && fresh(dts)
    ensures rs.Length0 == |obs.sat| && rs.Length1 == 6
    ensures dts.Length0 == |obs.sat| && dts.Length1 == 2
    ensures forall i, j :: 0 <= i < rs.Length0 && 0 <= j < 6 ==>
      rs[i, j] == SatRow(num, obs, allEph, i).0[j]
    ensures forall i, j :: 0 <= i < dts.Length0 && 0 <= j < 2 ==>
      dts[i, j] == SatRow(num, obs, allEph, i).1[j]
  {
    var n := |obs.sat|;
    ghost var rows := SatTable(num, obs, allEph);
    rs := new real[n, 6]((_, _) => 0.0);
    dts := new real[n, 2]((_, _) => 0.0);
    for k := 0 to |order|
      invariant forall i, j :: 0 <= i < n && i in order[..k] && 0 <= j < 6 ==> rs[i, j] == rows[i].0[j]
      invariant forall i, j :: 0 <= i < n && i in order[..k] && 0 <= j < 2 ==> dts[i, j] == rows[i].1[j]
    {
      var i := order[k];
      var prs, pdts := SatposRow(num, obs, allEph, i, rows);
      CopyRow(rs, i, prs);
      CopyRow(dts, i, pdts);
      assert order[..k + 1] == order[..k] + [i];
    }
    assert order[..|order|] == order;
  }

  /** One pass of the satposs loop: the record of the satellite, the clock
      offset taken off the transmit time, and ephpos at the corrected time. */
  method SatposRow(num: Numerics, obs: Obs, allEph: seq<Eph>, i: int, ghost rows: seq<(seq<real>, seq<real>)>)
      returns (prs: array<real>, pdts: array<real>)
    requires 0 <= i < |obs.sat| && |obs.t| == |obs.sat| && |obs.P| == |obs.sat|
    requires IsSatTable(num, obs, allEph, rows)
    ensures fresh(prs) && fresh(pdts)
    ensures (prs[..], pdts[..]) == rows[i]
  {
    var sat := obs.sat[i];
    var pr := obs.P[i];
    var t := obs.t[i];
    var eph := Seleph(sat, allEph);
    var dt := Eph2Clk(t, eph);
    t := t + -dt;
    prs, pdts := EphPos(num, t, eph);
    assert rows[i] == SatRow(num, obs, allEph, i);
  }

  /** rs[i] = v for one row of a table. */
  method CopyRow(a: array2<real>, i: int, v: array<real>)
    requires 0 <= i < a.Length0 && v.Length == a.Length1
    modifies a
    ensures forall r, j :: 0 <= r < a.Length0 && 0 <= j < a.Length1 ==>
      a[r, j] == if r == i then v[j] else old(a[r, j])
  {
    for j := 0 to a.Length1
      invariant forall r, c :: 0 <= r < a.Length0 && 0 <= c < a.Length1 ==>
        a[r, c] == if r == i && c < j then v[c] else old(a[r, c])
    {
      a[i, j] := v[j];
    }
  }
}
