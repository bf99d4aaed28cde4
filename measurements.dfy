/** The measurement rows both estimators build from one epoch: for each
    satellite in turn, the pseudorange row (residual, design row over the
    state [x, y, z, clock bias, vx, vy, vz, clock drift], weight) and, when a
    Doppler value is present, the range-rate row right after it. A satellite
    below the earth's radius, at a negative range, under the elevation mask or
    without a pseudorange gives no row at all. The rows are compacted: a
    running counter nv says where the next one goes. The least-squares
    builder weights a row by the elevation weight and a Doppler row by five
    times that; the Kalman builder uses the noise variance 3/weight and a
    fifth of it for the Doppler row. */
module Measurements {
  import opened Matrices
  import opened Numerics
  import opened GnssCommon
  import GpsTime
  import Ionosphere
  import Troposphere
  import Ephemeris

  /** np.deg2rad(5): the elevation mask. */
  const MIN_EL: real := 5.0 * PI / 180.0
  /** Relative humidity for the Saastamoinen model. */
  const REL_HUMI: real := 0.7

  // ---------------------------------------------------------------------------
  // One satellite

  /** What one call of a builder reads: the iteration number, the epoch's
      observations, every ephemeris record, the satellite tables of satposs
      (n×6 positions and velocities, n×2 clock biases and drifts) and the
      state x. */
  datatype Context = Context(iter: int, obs: Obs, allEph: seq<Eph>,
                             rs: Matrix, dts: Matrix, x: seq<real>)

  predicate WellFormed(c: Context) {
    ObsShaped(c.obs) && IsMatrix(c.rs, |c.obs.sat|, 6) && IsMatrix(c.dts, |c.obs.sat|, 2)
    && |c.x| == 8
  }

  function Count(c: Context): nat { |c.obs.sat| }

  /** The receiver position x[0:3] and velocity x[4:7]. */
  function Position(x: seq<real>): V3 requires |x| == 8 { V3(x[0], x[1], x[2]) }
  function Velocity(x: seq<real>): V3 requires |x| == 8 { V3(x[4], x[5], x[6]) }

  /** The first and second halves of a row of rs. */
  function Head(r: seq<real>): V3 requires |r| == 6 { V3(r[0], r[1], r[2]) }
  function Tail(r: seq<real>): V3 requires |r| == 6 { V3(r[3], r[4], r[5]) }

  /** numpy.linalg.norm of a 3-vector. */
  function Norm(num: Numerics, a: V3): real { num.sqrt(Dot3(a, a)) }

  /** Why a satellite gives no row. */
  datatype Reason = BelowEarth | NegativeRange | LowElevation | NoPseudorange

  /** A residual and its row of the design matrix. */
  datatype Line = Line(v: real, h: seq<real>)

  /** A satellite either gives no row, or a pseudorange line at elevation el
      and, when it has a Doppler value, a range-rate line. */
  datatype Outcome = Rejected(why: Reason) | Accepted(el: real, code: Line, rate: Option<Line>)

  /** Ionospheric and tropospheric delays: computed from the second pass on,
      zero on the first. */
  function Corrections(num: Numerics, c: Context, i: int, pos: V3, look: AzEl): (d: (real, real))
    requires WellFormed(c) && 0 <= i < Count(c)
    ensures c.iter <= 0 ==> d == (0.0, 0.0)
  {
    if c.iter > 0 then
      var dion := Ionosphere.IonModel(num, c.obs.t[0], pos, look.az, look.el, Ionosphere.IonDefault);
      var trop := Troposphere.Tropmodel(num, pos, look.el, REL_HUMI);
      var m := Troposphere.Tropmapf(num, GpsTime.Gpst2Time(c.obs.week[i], c.obs.t[i]), pos, look.el);
      (dion, m.0 * trop.hydro + m.1 * trop.wet)
    else
      (0.0, 0.0)
  }

  /** The pseudorange line: the pseudorange less the group delay of the
      satellite's record, minus range, receiver clock, satellite clock and
      atmosphere; the design row is [-e, 1, 0, 0, 0, 0]. */
  function CodeLine(c: Context, i: int, r: real, e: V3, d: (real, real)): Line
    requires WellFormed(c) && 0 <= i < Count(c)
  {
    var pr := c.obs.P[i] - Ephemeris.FirstRecord(c.obs.sat[i], c.allEph).tgd * CLIGHT;
    Line(pr - (r + c.x[3] - CLIGHT * c.dts[i][0] + d.0 + d.1),
         [-e.x, -e.y, -e.z, 1.0, 0.0, 0.0, 0.0, 0.0])
  }

  /** The position part of a range-rate row: -ev + e·(e·ev). */
  function RateGeometry(e: V3, ev: V3): V3 {
    var p := Dot3(e, ev);
    V3(-ev.x + e.x * p, -ev.y + e.y * p, -ev.z + e.z * p)
  }

  /** The range-rate line: minus the Doppler value, less the range rate, the
      clock drifts and the earth-rotation term; the design row is
      [-ev + e(e·ev), 0, -e, 1]. */
  function RateLine(c: Context, i: int, r: real, e: V3, ev: V3): Line
    requires WellFormed(c) && 0 <= i < Count(c)
  {
    var rr, rv := Position(c.x), Velocity(c.x);
    var sp, sv := Head(c.rs[i]), Tail(c.rs[i]);
    var rangeRate := FloatDiv(Dot3(Sub3(sp, rr), Sub3(sv, rv)), r);
    var clockRate := c.x[7] - c.dts[i][1] * CLIGHT;
    var earthRate := OMGE * (sv.x * rr.y + rv.y * sp.x - sv.y * rr.x - rv.x * sp.y) / CLIGHT;
    var g := RateGeometry(e, ev);
    Line(-c.obs.D[i] - (rangeRate + clockRate + earthRate),
         [g.x, g.y, g.z, 0.0, -e.x, -e.y, -e.z, 1.0])
  }

  /** The rows satellite i gives, with the four rejections in the order the
      builders test them. */
  function SatOutcome(num: Numerics, c: Context, i: int): Outcome
    requires WellFormed(c) && 0 <= i < Count(c)
  {
    var sp, rr := Head(c.rs[i]), Position(c.x);
    if Norm(num, sp) < RE_WGS84 then Rejected(BelowEarth)
    else
      var g := Geodist(num, sp, rr);
      var ev := GeodistV(Tail(c.rs[i]), Velocity(c.x), g.0);
      if g.0 < 0.0 then Rejected(NegativeRange)
      else
        var pos := num.ecef2pos(rr);
        var look := Satazel(num, pos, g.1);
        if look.el < MIN_EL then Rejected(LowElevation)
        else
          var d := Corrections(num, c, i, pos, look);
          if c.obs.P[i] == 0.0 then Rejected(NoPseudorange)
          else
            Accepted(look.el, CodeLine(c, i, g.0, g.1, d),
                     if c.obs.D[i] == 0.0 then None else Some(RateLine(c, i, g.0, g.1, ev)))
  }

  /** An accepted satellite lies between the elevation mask and the zenith,
      has both lines eight wide, and has a range-rate line exactly when its
      Doppler value is non-zero; it is rejected exactly when one of the four
      tests fails. */
  lemma AcceptedSatellite(num: Numerics, c: Context, i: int)
    requires Laws(num) && WellFormed(c) && 0 <= i < Count(c)
    ensures var o := SatOutcome(num, c, i);
      o.Accepted? ==>
        (MIN_EL <= o.el <= PI / 2.0 && |o.code.h| == 8
         && (o.rate.Some? <==> c.obs.D[i] != 0.0) && (o.rate.Some? ==> |o.rate.value.h| == 8))
    ensures SatOutcome(num, c, i).Rejected? <==>
      var g := Geodist(num, Head(c.rs[i]), Position(c.x));
      Norm(num, Head(c.rs[i])) < RE_WGS84 || g.0 < 0.0
      || Satazel(num, num.ecef2pos(Position(c.x)), g.1).el < MIN_EL || c.obs.P[i] == 0.0
  {
    var g := Geodist(num, Head(c.rs[i]), Position(c.x));
    SatazelRange(num, num.ecef2pos(Position(c.x)), g.1);
  }

  /** From the second pass on, an accepted satellite has a positive
      ionospheric delay. */
  lemma IonosphereActive(num: Numerics, c: Context, i: int, pos: V3, look: AzEl)
    requires WellFormed(c) && 0 <= i < Count(c)
    requires c.iter > 0 && 0.0 <= look.el <= PI / 2.0
    ensures 0.0 < Corrections(num, c, i, pos, look).0
  {
    Ionosphere.IonModelPositive(num, c.obs.t[0], pos, look.az, look.el, Ionosphere.IonDefault);
  }

  /** For a unit line of sight e the position part of a range-rate row is
      orthogonal to e: it is the part of -ev across the line of sight. */
  lemma RateGeometryOrthogonal(e: V3, ev: V3)
    requires Dot3(e, e) == 1.0
    ensures Dot3(RateGeometry(e, ev), e) == 0.0
    ensures Dot3(RateGeometry(e, ev), ev) == Sq(Dot3(e, ev)) - Dot3(ev, ev)
  {
    var p := Dot3(e, ev);
    var g := RateGeometry(e, ev);
    assert Dot3(g, e) == -Dot3(ev, e) + p * Dot3(e, e);
    assert Dot3(g, ev) == -Dot3(ev, ev) + p * Dot3(e, ev);
  }

  // ---------------------------------------------------------------------------
  // The rows of an epoch

  /** Least-squares weights or Kalman noise variances. */
  datatype Scheme = Weights | Variances

  /** One row of the outputs: the satellite it came from, whether it is a
      range-rate row, the residual, the design row and the diagonal entry of
      the weight (or noise) matrix. */
  datatype Row = Row(sat: nat, doppler: bool, v: real, h: seq<real>, w: real)

  /** The diagonal entry of a pseudorange row: the elevation weight, or three
      times its reciprocal. */
  function CodeWeight(num: Numerics, s: Scheme, el: real): real {
    if s == Weights then ElevationWeight(num, el) else FloatDiv(1.0, ElevationWeight(num, el)) * 3.0
  }

  /** The diagonal entry of a range-rate row from that of the row before it. */
  function DopplerWeight(s: Scheme, w: real): real {
    if s == Weights then w * 5.0 else w / 5.0
  }

  /** Above the mask the weight of a pseudorange row is positive: at most 5000
      as a weight, at least 3/5000 as a variance. */
  lemma CodeWeightRange(num: Numerics, s: Scheme, el: real)
    requires Laws(num) && MIN_EL <= el <= PI / 2.0
    ensures 0.0 < CodeWeight(num, s, el)
    ensures s == Weights ==> CodeWeight(num, s, el) <= 5000.0
    ensures s == Variances ==> 3.0 / 5000.0 <= CodeWeight(num, s, el)
  {
    var w := ElevationWeight(num, el);
    ElevationWeightRange(num, el);
    if s == Variances {
      assert 1.0 / 5000.0 <= 1.0 / w;
    }
  }

  /** The rows of satellite i. */
  function SatRows(num: Numerics, s: Scheme, i: nat, o: Outcome): seq<Row> {
    match o
    case Rejected(_) => []
    case Accepted(el, code, rate) =>
      var w := CodeWeight(num, s, el);
      [Row(i, false, code.v, code.h, w)]
        + if rate.Some? then [Row(i, true, rate.value.v, rate.value.h, DopplerWeight(s, w))] else []
  }

  /** The outcomes of the first n satellites. */
  function Outcomes(num: Numerics, c: Context, n: nat): (outs: seq<Outcome>)
    requires WellFormed(c) && n <= Count(c)
    ensures |outs| == n
  {
    if n == 0 then [] else Outcomes(num, c, n - 1) + [SatOutcome(num, c, n - 1)]
  }

  /** The rows of a sequence of outcomes, satellite after satellite. */
  function Rows(num: Numerics, s: Scheme, outs: seq<Outcome>): seq<Row>
    decreases |outs|
  {
    if |outs| == 0 then []
    else Rows(num, s, outs[..|outs| - 1]) + SatRows(num, s, |outs| - 1, outs[|outs| - 1])
  }

  /** The rows a builder produces for one call; each is eight wide. */
  function EpochRows(num: Numerics, s: Scheme, c: Context): (rows: seq<Row>)
    requires WellFormed(c)
    ensures EightWide(rows)
  {
    var outs := Outcomes(num, c, Count(c));
    OutcomesShaped(num, c, Count(c));
    RowsLaid(num, s, outs);
    Rows(num, s, outs)
  }

  /** Every satellite gives at most two rows. */
  lemma {:induction false} RowsBound(num: Numerics, s: Scheme, outs: seq<Outcome>)
    ensures |Rows(num, s, outs)| <= 2 * |outs|
    decreases |outs|
  {
    if |outs| > 0 {
      RowsBound(num, s, outs[..|outs| - 1]);
    }
  }

  /** Position of a row among its satellite's rows. */
  function Slot(r: Row): nat { if r.doppler then 1 else 0 }

  /** Row k is the pseudorange row (slot 0) or the range-rate row (slot 1) of
      its own satellite. */
  lemma {:induction false} RowsFromSatellite(num: Numerics, s: Scheme, outs: seq<Outcome>)
    ensures forall k :: 0 <= k < |Rows(num, s, outs)| ==>
      var r := Rows(num, s, outs)[k];
      r.sat < |outs| && Slot(r) < |SatRows(num, s, r.sat, outs[r.sat])|
      && r == SatRows(num, s, r.sat, outs[r.sat])[Slot(r)]
    decreases |outs|
  {
    if |outs| > 0 {
      var n := |outs| - 1;
      var front := outs[..n];
      RowsFromSatellite(num, s, front);
      var before, mine := Rows(num, s, front), SatRows(num, s, n, outs[n]);
      var rows := before + mine;
      assert Rows(num, s, outs) == rows;
      forall k | 0 <= k < |rows|
        ensures rows[k].sat < |outs| && Slot(rows[k]) < |SatRows(num, s, rows[k].sat, outs[rows[k].sat])|
        ensures rows[k] == SatRows(num, s, rows[k].sat, outs[rows[k].sat])[Slot(rows[k])]
      {
        if k < |before| {
          assert rows[k] == before[k];
          assert outs[rows[k].sat] == front[rows[k].sat];
        } else {
          assert rows[k] == mine[k - |before|];
        }
      }
    }
  }

  /** A range-rate row directly follows a pseudorange row of the same
      satellite. */
  lemma {:induction false} RowsPaired(num: Numerics, s: Scheme, outs: seq<Outcome>)
    ensures forall k :: 0 <= k < |Rows(num, s, outs)| && Rows(num, s, outs)[k].doppler ==>
      0 < k && !Rows(num, s, outs)[k - 1].doppler && Rows(num, s, outs)[k - 1].sat == Rows(num, s, outs)[k].sat
    decreases |outs|
  {
    if |outs| > 0 {
      var n := |outs| - 1;
      RowsPaired(num, s, outs[..n]);
      var before, mine := Rows(num, s, outs[..n]), SatRows(num, s, n, outs[n]);
      var rows := before + mine;
      assert Rows(num, s, outs) == rows;
      forall k | 0 <= k < |rows| && rows[k].doppler
        ensures 0 < k && !rows[k - 1].doppler && rows[k - 1].sat == rows[k].sat
      {
        if k < |before| {
          assert rows[k] == before[k] && rows[k - 1] == before[k - 1];
        } else {
          assert k == |before| + 1;
          assert rows[k - 1] == mine[0];
        }
      }
    }
  }

  /** Rows go in satellite order. */
  lemma {:induction false} RowsOrdered(num: Numerics, s: Scheme, outs: seq<Outcome>)
    ensures forall k, l :: 0 <= k < l < |Rows(num, s, outs)| ==>
      Rows(num, s, outs)[k].sat <= Rows(num, s, outs)[l].sat
    decreases |outs|
  {
    if |outs| > 0 {
      var n := |outs| - 1;
      RowsOrdered(num, s, outs[..n]);
      RowsBefore(num, s, outs[..n]);
      var before, mine := Rows(num, s, outs[..n]), SatRows(num, s, n, outs[n]);
      var rows := before + mine;
      assert Rows(num, s, outs) == rows;
      forall k, l | 0 <= k < l < |rows|
        ensures rows[k].sat <= rows[l].sat
      {
        if l < |before| {
          assert rows[k] == before[k] && rows[l] == before[l];
        } else if k < |before| {
          assert rows[k] == before[k] && rows[l] == mine[l - |before|];
        } else {
          assert rows[k] == mine[k - |before|] && rows[l] == mine[l - |before|];
        }
      }
    }
  }

  /** Rows of the first satellites name only those satellites. */
  lemma {:induction false} RowsBefore(num: Numerics, s: Scheme, outs: seq<Outcome>)
    ensures forall k :: 0 <= k < |Rows(num, s, outs)| ==> Rows(num, s, outs)[k].sat < |outs|
    decreases |outs|
  {
    if |outs| > 0 {
      RowsBefore(num, s, outs[..|outs| - 1]);
    }
  }

  /** The rows a builder produces are laid out as the estimators expect:
      each comes from an accepted satellite and is eight wide; a pseudorange
      row is [-e, 1, 0, 0, 0, 0] and carries the weight of its elevation; a
      range-rate row comes right after the pseudorange row of its own
      satellite, ends in [0, -e, 1] with the same e, and its diagonal entry
      is that row's, times five for weights and over five for variances. */
  ghost predicate Laid(num: Numerics, s: Scheme, outs: seq<Outcome>, rows: seq<Row>) {
    && (forall k :: 0 <= k < |rows| ==>
          rows[k].sat < |outs| && outs[rows[k].sat].Accepted? && |rows[k].h| == 8)
    && (forall k :: 0 <= k < |rows| && !rows[k].doppler ==>
          rows[k].h[3] == 1.0 && rows[k].h[4] == 0.0 && rows[k].h[5] == 0.0
          && rows[k].h[6] == 0.0 && rows[k].h[7] == 0.0
          && rows[k].w == CodeWeight(num, s, outs[rows[k].sat].el))
    && (forall k :: 0 <= k < |rows| && rows[k].doppler ==>
          0 < k && !rows[k - 1].doppler && rows[k - 1].sat == rows[k].sat
          && outs[rows[k].sat].rate.Some?
          && rows[k].h[3] == 0.0 && rows[k].h[7] == 1.0
          && rows[k].h[4] == rows[k - 1].h[0] && rows[k].h[5] == rows[k - 1].h[1]
          && rows[k].h[6] == rows[k - 1].h[2]
          && rows[k].w == DopplerWeight(s, rows[k - 1].w))
  }

  /** The lines of an outcome are eight wide, a pseudorange line ends in
      [1, 0, 0, 0, 0], and a range-rate line has [0, -e, 1] where the
      pseudorange line has [-e, 1]. */
  predicate Shaped(o: Outcome) {
    o.Accepted? ==>
      |o.code.h| == 8 && o.code.h[3..] == [1.0, 0.0, 0.0, 0.0, 0.0]
      && (o.rate.Some? ==>
            var h, g := o.code.h, o.rate.value.h;
            |g| == 8 && g[3] == 0.0 && g[7] == 1.0 && g[4] == h[0] && g[5] == h[1] && g[6] == h[2])
  }

  /** Every outcome is shaped, whatever the data. */
  lemma SatOutcomeShaped(num: Numerics, c: Context, i: int)
    requires WellFormed(c) && 0 <= i < Count(c)
    ensures Shaped(SatOutcome(num, c, i))
  {
    var sp, rr := Head(c.rs[i]), Position(c.x);
    if Norm(num, sp) >= RE_WGS84 {
      var g := Geodist(num, sp, rr);
      var ev := GeodistV(Tail(c.rs[i]), Velocity(c.x), g.0);
      var pos := num.ecef2pos(rr);
      var d := Corrections(num, c, i, pos, Satazel(num, pos, g.1));
      LinesShaped(c, i, g.0, g.1, ev, d);
    }
  }

  /** Both lines of a satellite have the shape Shaped asks for. */
  lemma LinesShaped(c: Context, i: int, r: real, e: V3, ev: V3, d: (real, real))
    requires WellFormed(c) && 0 <= i < Count(c)
    ensures forall el :: Shaped(Accepted(el, CodeLine(c, i, r, e, d), None))
    ensures forall el :: Shaped(Accepted(el, CodeLine(c, i, r, e, d), Some(RateLine(c, i, r, e, ev))))
  {
  }

  lemma RowsLaid(num: Numerics, s: Scheme, outs: seq<Outcome>)
    requires forall i :: 0 <= i < |outs| ==> Shaped(outs[i])
    ensures Laid(num, s, outs, Rows(num, s, outs))
  {
    var rows := Rows(num, s, outs);
    RowsFromSatellite(num, s, outs);
    RowsPaired(num, s, outs);
    forall k | 0 <= k < |rows|
      ensures rows[k].sat < |outs| && outs[rows[k].sat].Accepted? && |rows[k].h| == 8
    {
      assert Shaped(outs[rows[k].sat]);
    }
    forall k | 0 <= k < |rows| && !rows[k].doppler
      ensures rows[k].h[3] == 1.0 && rows[k].h[4] == 0.0 && rows[k].h[5] == 0.0
      ensures rows[k].h[6] == 0.0 && rows[k].h[7] == 0.0
      ensures rows[k].w == CodeWeight(num, s, outs[rows[k].sat].el)
    {
      var o := outs[rows[k].sat];
      assert rows[k] == SatRows(num, s, rows[k].sat, o)[0];
      assert Shaped(o);
      assert rows[k].h[3..] == o.code.h[3..];
    }
    forall k | 0 <= k < |rows| && rows[k].doppler
      ensures 0 < k && !rows[k - 1].doppler && rows[k - 1].sat == rows[k].sat
      ensures outs[rows[k].sat].rate.Some? && rows[k].h[3] == 0.0 && rows[k].h[7] == 1.0
      ensures rows[k].w == DopplerWeight(s, rows[k - 1].w)
      ensures rows[k].h[4] == rows[k - 1].h[0] && rows[k].h[5] == rows[k - 1].h[1]
      ensures rows[k].h[6] == rows[k - 1].h[2]
    {
      var mine := SatRows(num, s, rows[k].sat, outs[rows[k].sat]);
      assert rows[k] == mine[1];
      assert rows[k - 1] == mine[0];
      assert Shaped(outs[rows[k].sat]);
    }
  }

  /** Each accepted satellite gives a pseudorange row, and a range-rate row
      as well when its outcome has one. */
  lemma {:induction false} RowsComplete(num: Numerics, s: Scheme, outs: seq<Outcome>, i: nat)
    requires i < |outs| && outs[i].Accepted?
    ensures exists k :: (0 <= k < |Rows(num, s, outs)| && Rows(num, s, outs)[k].sat == i
      && !Rows(num, s, outs)[k].doppler)
    ensures outs[i].rate.Some? ==>
      exists k :: (0 <= k < |Rows(num, s, outs)| && Rows(num, s, outs)[k].sat == i
        && Rows(num, s, outs)[k].doppler)
    decreases |outs|
  {
    var n := |outs| - 1;
    var before := Rows(num, s, outs[..n]);
    var rows := Rows(num, s, outs);
    if i == n {
      assert rows[|before|].sat == i && !rows[|before|].doppler;
      if outs[i].rate.Some? {
        assert rows[|before| + 1].sat == i && rows[|before| + 1].doppler;
      }
    } else {
      RowsComplete(num, s, outs[..n], i);
      var k :| 0 <= k < |before| && before[k].sat == i && !before[k].doppler;
      assert rows[k] == before[k];
      if outs[i].rate.Some? {
        var k' :| 0 <= k' < |before| && before[k'].sat == i && before[k'].doppler;
        assert rows[k'] == before[k'];
      }
    }
  }

  // ---------------------------------------------------------------------------
  // The builder

  /** The arrays v (residuals), H (design matrix, eight columns) and P
      (weights, square) hold the rows, in order, from index 0; every entry
      past the rows, and every off-diagonal entry of P, is zero. */
  ghost predicate Holds(v: array<real>, H: array2<real>, P: array2<real>, rows: seq<Row>)
    reads v, H, P
  {
    && |rows| <= v.Length && H.Length0 == v.Length && H.Length1 == 8
    && P.Length0 == v.Length && P.Length1 == v.Length
    && EightWide(rows)
    && (forall k :: 0 <= k < v.Length ==> v[k] == if k < |rows| then rows[k].v else 0.0)
    && (forall k, j :: 0 <= k < v.Length && 0 <= j < 8 ==>
          H[k, j] == if k < |rows| then rows[k].h[j] else 0.0)
    && (forall k, l :: 0 <= k < v.Length && 0 <= l < v.Length ==>
          P[k, l] == if k == l && k < |rows| then rows[k].w else 0.0)
  }

  /** The builders' loop: v, H and P start at zero with room for two rows a
      satellite, and each satellite's rows go in at the counter nv. */
  method BuildRows(num: Numerics, s: Scheme, iter: int, obs: Obs, allEph: seq<Eph>,
                   rs: array2<real>, dts: array2<real>, x: seq<real>)
      returns (nv: nat, v: array<real>, H: array2<real>, P: array2<real>)
    requires WellFormed(Context(iter, obs, allEph, Table(rs), Table(dts), x))
    ensures fresh(v) && fresh(H) && fresh(P)
    ensures v.Length == 2 * |obs.sat|
    ensures var rows := EpochRows(num, s, Context(iter, obs, allEph, Table(rs), Table(dts), x));
      nv == |rows| && Holds(v, H, P, rows)
  {
    ghost var c := Context(iter, obs, allEph, Table(rs), Table(dts), x);
    var ns := |obs.sat|;
    v := new real[2 * ns](_ => 0.0);
    H := new real[2 * ns, 8]((_, _) => 0.0);
    P := new real[2 * ns, 2 * ns]((_, _) => 0.0);
    nv := 0;
    ghost var outs: seq<Outcome> := [];
    for i := 0 to ns
      invariant OutcomesSoFar(num, c, outs) && |outs| == i
      invariant Holds(v, H, P, Rows(num, s, outs))
      invariant nv == |Rows(num, s, outs)|
    {
      RowsBound(num, s, outs);
      var o := MeasureSat(num, iter, obs, allEph, rs, dts, x, i, outs);
      RowsAppend(num, s, outs, o);
      nv := AddSatellite(num, s, v, H, P, Rows(num, s, outs), nv, i, o);
      outs := outs + [o];
    }
    OutcomesSoFarAre(num, c, outs);
  }

  /** outs holds the outcomes of the first |outs| satellites. */
  ghost predicate OutcomesSoFar(num: Numerics, c: Context, outs: seq<Outcome>) {
    WellFormed(c) && |outs| <= Count(c)
    && forall k {:trigger SatOutcome(num, c, k)} :: 0 <= k < |outs| ==> outs[k] == SatOutcome(num, c, k)
  }

  lemma {:induction false} OutcomesSoFarAre(num: Numerics, c: Context, outs: seq<Outcome>)
    requires OutcomesSoFar(num, c, outs)
    ensures outs == Outcomes(num, c, |outs|)
    decreases |outs|
  {
    if |outs| > 0 {
      var n := |outs| - 1;
      assert SatOutcome(num, c, n) == outs[n];
      OutcomesSoFarAre(num, c, outs[..n]);
    }
  }

  /** Outcomes holds the outcome of each satellite at its index. */
  lemma {:induction false} OutcomesIndexed(num: Numerics, c: Context, n: nat)
    requires WellFormed(c) && n <= Count(c)
    ensures OutcomesSoFar(num, c, Outcomes(num, c, n))
  {
    if n > 0 {
      OutcomesIndexed(num, c, n - 1);
      var outs := Outcomes(num, c, n);
      assert outs[..n - 1] == Outcomes(num, c, n - 1);
      forall k | 0 <= k < n
        ensures outs[k] == SatOutcome(num, c, k)
      {
        if k < n - 1 {
          assert outs[k] == outs[..n - 1][k];
        }
      }
    }
  }

  /** Every outcome of a builder call has the layout Shaped describes. */
  lemma OutcomesShaped(num: Numerics, c: Context, n: nat)
    requires WellFormed(c) && n <= Count(c)
    ensures forall i :: 0 <= i < n ==> Shaped(Outcomes(num, c, n)[i])
  {
    var outs := Outcomes(num, c, n);
    OutcomesIndexed(num, c, n);
    forall i | 0 <= i < n
      ensures Shaped(outs[i])
    {
      assert outs[i] == SatOutcome(num, c, i);
      SatOutcomeShaped(num, c, i);
    }
  }

  /** The rows of a builder call have the layout Laid describes. */
  lemma EpochRowsLaid(num: Numerics, s: Scheme, c: Context)
    requires WellFormed(c)
    ensures Laid(num, s, Outcomes(num, c, Count(c)), EpochRows(num, s, c))
  {
    OutcomesShaped(num, c, Count(c));
    RowsLaid(num, s, Outcomes(num, c, Count(c)));
  }

  // ---------------------------------------------------------------------------
  // The passes of a solver

  /** The rows a pass of a solver sees, from the pass number and the state. */
  type Builder = (int, seq<real>) -> seq<Row>

  /** Every design row is eight wide. */
  predicate EightWide(rows: seq<Row>) {
    forall k :: 0 <= k < |rows| ==> |rows[k].h| == 8
  }

  /** Every row a builder gives for an eight-entry state is eight wide. */
  ghost predicate Wide(rowsAt: Builder) {
    forall k, y :: |y| == 8 ==> EightWide(rowsAt(k, y))
  }

  /** The rows of pass k at state y over the epoch of c. */
  function PassRows(num: Numerics, s: Scheme, c: Context, k: int, y: seq<real>): (rows: seq<Row>)
    requires WellFormed(c) && |y| == 8
    ensures EightWide(rows)
  {
    EpochRows(num, s, c.(iter := k, x := y))
  }

  /** b gives, at every pass and eight-entry state, the rows of scheme s
      over the epoch of c. */
  ghost predicate Builds(num: Numerics, s: Scheme, c: Context, b: Builder)
    requires WellFormed(c)
  {
    && Wide(b)
    && forall k: int, y: seq<real> {:trigger PassRows(num, s, c, k, y)} ::
         |y| == 8 ==> b(k, y) == PassRows(num, s, c, k, y)
  }

  /** The builder of scheme s over one epoch: the rows of pass k at state y. */
  function Passes(num: Numerics, s: Scheme, c: Context): (b: Builder)
    requires WellFormed(c)
    ensures Builds(num, s, c, b)
  {
    (k: int, y: seq<real>) => if |y| == 8 then PassRows(num, s, c, k, y) else []
  }

  // ---------------------------------------------------------------------------
  // The trimmed outputs

  /** The residuals of the rows, v[:nv]. */
  function Residuals(rows: seq<Row>): (r: Vector)
    ensures |r| == |rows| && forall k :: 0 <= k < |rows| ==> r[k] == rows[k].v
  {
    seq(|rows|, k requires 0 <= k < |rows| => rows[k].v)
  }

  /** The design rows, H[:nv, :]. */
  function Design(rows: seq<Row>): (D: Matrix)
    requires EightWide(rows)
    ensures IsMatrix(D, |rows|, 8) && forall k :: 0 <= k < |rows| ==> D[k] == rows[k].h
  {
    seq(|rows|, k requires 0 <= k < |rows| => rows[k].h)
  }

  /** The diagonal matrix of the rows' weights (or variances). */
  function Weighting(rows: seq<Row>): (W: Matrix)
    ensures Diagonal(W) && |W| == |rows|
    ensures forall k :: 0 <= k < |rows| ==> W[k][k] == rows[k].w
  {
    seq(|rows|, k requires 0 <= k < |rows| =>
      seq(|rows|, l requires 0 <= l < |rows| => if k == l then rows[k].w else 0.0))
  }

  /** Arrays that hold the rows hold, in their leading part, the residuals,
      the design matrix and the weight matrix of the rows. */
  lemma HoldsSliced(v: array<real>, H: array2<real>, P: array2<real>, rows: seq<Row>)
    requires Holds(v, H, P, rows)
    ensures v[..|rows|] == Residuals(rows) && EightWide(rows)
    ensures Block(H, |rows|, 8) == Design(rows)
    ensures Block(P, |rows|, |rows|) == Weighting(rows)
  {
    var n := |rows|;
    assert v[..n] == Residuals(rows);
    forall k | 0 <= k < n
      ensures Block(H, n, 8)[k] == Design(rows)[k]
    {
    }
    forall k | 0 <= k < n
      ensures Block(P, n, n)[k] == Weighting(rows)[k]
    {
    }
  }

  /** The rows of one more outcome go after those of the ones before. */
  lemma RowsAppend(num: Numerics, s: Scheme, outs: seq<Outcome>, o: Outcome)
    ensures Rows(num, s, outs + [o]) == Rows(num, s, outs) + SatRows(num, s, |outs|, o)
  {
    assert (outs + [o])[..|outs|] == outs;
  }

  /** Writes the rows of satellite i at the counter nv: its pseudorange row,
      then its range-rate row with the weight read back from P[nv-1, nv-1]. */
  method AddSatellite(num: Numerics, s: Scheme, v: array<real>, H: array2<real>, P: array2<real>,
                      ghost before: seq<Row>, nv: nat, i: nat, o: Outcome)
      returns (nv': nat)
    requires Holds(v, H, P, before) && nv == |before| && nv + 2 <= v.Length && H != P
    requires Shaped(o)
    modifies v, H, P
    ensures Holds(v, H, P, before + SatRows(num, s, i, o))
    ensures nv' == |before + SatRows(num, s, i, o)|
  {
    nv' := nv;
    if o.Accepted? {
      var w := CodeWeight(num, s, o.el);
      var row := Row(i, false, o.code.v, o.code.h, w);
      PutRow(v, H, P, before, nv', row);
      nv' := nv' + 1;
      if o.rate.Some? {
        var wd := DopplerWeight(s, P[nv' - 1, nv' - 1]);
        var rate := Row(i, true, o.rate.value.v, o.rate.value.h, wd);
        PutRow(v, H, P, before + [row], nv', rate);
        nv' := nv' + 1;
        assert SatRows(num, s, i, o) == [row, rate];
        assert before + [row] + [rate] == before + [row, rate];
      } else {
        assert SatRows(num, s, i, o) == [row];
      }
    } else {
      assert SatRows(num, s, i, o) == [];
      assert before + [] == before;
    }
  }

  /** Writes row k of v, H and P. */
  method PutRow(v: array<real>, H: array2<real>, P: array2<real>, ghost rows: seq<Row>, k: nat, row: Row)
    requires Holds(v, H, P, rows) && k == |rows| < v.Length && |row.h| == 8 && H != P
    modifies v, H, P
    ensures Holds(v, H, P, rows + [row])
  {
    for j := 0 to 8
      invariant unchanged(v) && unchanged(P)
      invariant forall r, c :: 0 <= r < H.Length0 && 0 <= c < 8 ==>
        H[r, c] == if r == k && c < j then row.h[c] else old(H[r, c])
    {
      H[k, j] := row.h[j];
    }
    v[k] := row.v;
    P[k, k] := row.w;
  }

  /** One pass of the builders' loop body: the tests in the order
      design_wetight_matrix_wls makes them, each failing one ending the
      satellite. */
  method MeasureSat(num: Numerics, iter: int, obs: Obs, allEph: seq<Eph>,
                    rs: array2<real>, dts: array2<real>, x: seq<real>, i: nat, ghost outs: seq<Outcome>)
      returns (o: Outcome)
    requires OutcomesSoFar(num, Context(iter, obs, allEph, Table(rs), Table(dts), x), outs)
    requires i == |outs| < |obs.sat|
    ensures OutcomesSoFar(num, Context(iter, obs, allEph, Table(rs), Table(dts), x), outs + [o])
    ensures Shaped(o)
  {
    var c := Context(iter, obs, allEph, Table(rs), Table(dts), x);
    SatOutcomeShaped(num, c, i);
    assert Head(c.rs[i]) == V3(rs[i, 0], rs[i, 1], rs[i, 2]);
    assert Tail(c.rs[i]) == V3(rs[i, 3], rs[i, 4], rs[i, 5]);
    var sp, sv := V3(rs[i, 0], rs[i, 1], rs[i, 2]), V3(rs[i, 3], rs[i, 4], rs[i, 5]);
    var rr, rv := Position(x), Velocity(x);
    if Norm(num, sp) < RE_WGS84 {
      return Rejected(BelowEarth);
    }
    var g := Geodist(num, sp, rr);
    var ev := GeodistV(sv, rv, g.0);
    if g.0 < 0.0 {
      return Rejected(NegativeRange);
    }
    var pos := num.ecef2pos(rr);
    var look := Satazel(num, pos, g.1);
    if look.el < MIN_EL {
      return Rejected(LowElevation);
    }
    var d := Corrections(num, c, i, pos, look);
    if obs.P[i] == 0.0 {
      return Rejected(NoPseudorange);
    }
    var code := CodeLine(c, i, g.0, g.1, d);
    if obs.D[i] == 0.0 {
      return Accepted(look.el, code, None);
    }
    return Accepted(look.el, code, Some(RateLine(c, i, g.0, g.1, ev)));
  }

  // ---------------------------------------------------------------------------
  // The epoch

  /** The satellite positions and velocities satposs computes for an epoch. */
  function Positions(num: Numerics, obs: Obs, allEph: seq<Eph>): (T: Matrix)
    requires |obs.t| == |obs.sat|
    ensures |T| == |obs.sat|
    ensures forall i :: 0 <= i < |obs.sat| ==> T[i] == Ephemeris.SatRow(num, obs, allEph, i).0
  {
    seq(|obs.sat|, i requires 0 <= i < |obs.sat| && |obs.t| == |obs.sat| =>
      Ephemeris.SatRow(num, obs, allEph, i).0)
  }

  /** The satellite clock biases and drifts satposs computes for an epoch. */
  function Clocks(num: Numerics, obs: Obs, allEph: seq<Eph>): (T: Matrix)
    requires |obs.t| == |obs.sat|
    ensures |T| == |obs.sat|
    ensures forall i :: 0 <= i < |obs.sat| ==> T[i] == Ephemeris.SatRow(num, obs, allEph, i).1
  {
    seq(|obs.sat|, i requires 0 <= i < |obs.sat| && |obs.t| == |obs.sat| =>
      Ephemeris.SatRow(num, obs, allEph, i).1)
  }

  /** The first pass of an epoch from state x. */
  function EpochContext(num: Numerics, obs: Obs, allEph: seq<Eph>, x: seq<real>): Context
    requires |obs.t| == |obs.sat|
  {
    Context(0, obs, allEph, Positions(num, obs, allEph), Clocks(num, obs, allEph), x)
  }

  /** The tables of satposs have the shapes the builders need. */
  lemma EpochWellFormed(num: Numerics, obs: Obs, allEph: seq<Eph>, x: seq<real>)
    requires ObsShaped(obs) && |x| == 8
    ensures WellFormed(EpochContext(num, obs, allEph, x))
  {
    var rows := Ephemeris.SatTable(num, obs, allEph);
    var T, D := Positions(num, obs, allEph), Clocks(num, obs, allEph);
    forall i | 0 <= i < |obs.sat|
      ensures |T[i]| == 6 && |D[i]| == 2
    {
      assert rows[i] == Ephemeris.SatRow(num, obs, allEph, i);
    }
  }

  /** satposs for an epoch, visiting the satellites in index order: any order
      that visits every index gives the same tables. */
  method EpochTables(num: Numerics, obs: Obs, allEph: seq<Eph>) returns (rs: array2<real>, dts: array2<real>)
    requires ObsShaped(obs)
    ensures fresh(rs) && fresh(dts)
    ensures Table(rs) == Positions(num, obs, allEph) && Table(dts) == Clocks(num, obs, allEph)
  {
    var n := |obs.sat|;
    var order := seq(n, i => i);
    forall i | 0 <= i < n
      ensures i in order
    {
      assert order[i] == i;
    }
    rs, dts := Ephemeris.Satposs(num, obs, allEph, order);
    EpochWellFormed(num, obs, allEph, Zeros(8));
    var T, D := Positions(num, obs, allEph), Clocks(num, obs, allEph);
    forall i | 0 <= i < n
      ensures Table(rs)[i] == T[i] && Table(dts)[i] == D[i]
    {
    }
  }

  /** One line of output: the epoch's first time tag, the position and the
      velocity (the clock bias and drift are dropped). */
  function Record(obs: Obs, x: seq<real>): (r: seq<real>)
    requires |obs.t| > 0 && |x| == 8
    ensures |r| == 7 && r[0] == obs.t[0]
  {
    [obs.t[0], x[0], x[1], x[2], x[4], x[5], x[6]]
  }

  /** norm(dx) < 1e-4: the stopping test of both solvers. */
  predicate SmallStep(num: Numerics, dx: Vector) {
    num.sqrt(Dot(dx, dx)) < 1e-4
  }

  /** The stopping test is a bound on the squared norm. */
  lemma SmallStepSquared(num: Numerics, dx: Vector)
    requires Laws(num)
    ensures SmallStep(num, dx) <==> Dot(dx, dx) < 1e-8
  {
    var s := Dot(dx, dx);
    DotSelf(dx);
    var q := num.sqrt(s);
    assert 0.0 <= q && q * q == s;
    if q < 1e-4 {
      SquareMonotone(q, 1e-4);
    } else if q > 1e-4 {
      SquareMonotone(1e-4, q);
    }
  }
}
