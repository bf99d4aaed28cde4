/** The geometry helpers of gnsscommon: physical constants, the elevation
    weighting of measurements, the latitude-table interpolation of the Niell
    mapping coefficients, the earth-centred to local east-north-up rotation,
    satellite azimuth and elevation, and the geometric range with its Sagnac
    correction. */
module GnssCommon {
  import opened Matrices
  import opened Numerics

  const CLIGHT: real := 299792458.0
  const MU_GPS: real := 3.9860050e14
  const OMGE: real := 7.2921151467e-5
  const RE_WGS84: real := 6378137.0
  const FE_WGS84: real := 1.0 / 298.257223563

  // ---------------------------------------------------------------------------
  // Records

  /** Obs: one epoch of measurements, one entry per tracked satellite in each
      list: satellite number, transmit time (seconds of the GPS week), GPS
      week, raw and corrected pseudorange, Doppler and signal strength. */
  datatype Obs = Obs(sat: seq<int>, t: seq<real>, week: seq<int>, P: seq<real>,
                     corP: seq<real>, D: seq<real>, SNR: seq<real>)

  /** Every list of an epoch has one entry per satellite. */
  predicate ObsShaped(obs: Obs) {
    |obs.t| == |obs.sat| && |obs.week| == |obs.sat| && |obs.P| == |obs.sat|
    && |obs.corP| == |obs.sat| && |obs.D| == |obs.sat| && |obs.SNR| == |obs.sat|
  }

  /** Eph: the broadcast GPS ephemeris of one satellite: clock polynomial
      (f0, f1, f2 at toc), Keplerian elements at toe with their harmonic
      corrections, group delay tgd and accuracy index sva. Times are seconds
      of the GPS week. */
  datatype Eph = Eph(sat: int, iode: int, iodc: int, f0: real, f1: real, f2: real,
                     toc: real, toe: real, tot: real, week: int,
                     crs: real, crc: real, cus: real, cuc: real, cis: real, cic: real,
                     e: real, i0: real, A: real, deln: real, M0: real, OMG0: real,
                     OMGd: real, omg: real, idot: real, tgd: real, sva: real,
                     health: int, fit: int, toes: real)

  /** Eph(sat): the blank record of satellite sat, every number zero. The
      Python class keeps tgd as the list [0.0, 0.0] in the blank record; a
      record has a single group delay here, so it is 0.0. */
  function NewEph(sat: int): Eph {
    Eph(sat, 0, 0, 0.0, 0.0, 0.0, 0.0, 0.0, 0.0, 0, 0.0, 0.0, 0.0, 0.0, 0.0, 0.0,
        0.0, 0.0, 0.0, 0.0, 0.0, 0.0, 0.0, 0.0, 0.0, 0.0, 0.0, 0, 0, 0.0)
  }

  // ---------------------------------------------------------------------------
  // Elevation weighting

  /** get_weight_based_elevation: the GAMIT model 1/(a² + (b/sin el)²) with
      a = b = 0.01, and 0 at or below the horizon. */
  function ElevationWeight(num: Numerics, el: real): real {
    if el <= 0.0 then 0.0 else SineWeight(num.sin(el))
  }

  /** The weight as a function of s = sin(el). A zero sine makes b/s infinite in
      numpy, and 1 divided by infinity is 0. */
  function SineWeight(s: real): real {
    if s == 0.0 then 0.0 else 1.0 / (0.01 * 0.01 + (0.01 / s) * (0.01 / s))
  }

  /** For s in (0, 1] the weight is positive and at most 1/(a² + b²) = 5000,
      which it reaches exactly at the zenith. */
  lemma SineWeightBounds(s: real)
    requires 0.0 < s <= 1.0
    ensures 0.0 < SineWeight(s) <= 5000.0
    ensures SineWeight(s) == 5000.0 <==> s == 1.0
  {
    var q := 0.01 / s;
    assert q * s == 0.01 && 0.0 < q;
    ScaleMonotone(q, s, 1.0);
    RecipMonotone(0.01, q);
  }

  /** The weight grows strictly with the sine of the elevation. */
  lemma SineWeightMonotone(s1: real, s2: real)
    requires 0.0 < s1 < s2
    ensures SineWeight(s1) < SineWeight(s2)
  {
    var q1, q2 := 0.01 / s1, 0.01 / s2;
    assert q1 * s1 == 0.01 && q2 * s2 == 0.01 && 0.0 < q2;
    ScaleMonotone(q2, s1, s2);
    assert q2 * s1 < q1 * s1;
    ScaleCancel(q2, q1, s1);
    RecipMonotone(q2, q1);
  }

  /** The weight only depends on |sin el|. */
  lemma SineWeightEven(s: real)
    ensures SineWeight(-s) == SineWeight(s)
  {
    if s != 0.0 {
      var q := 0.01 / s;
      assert 0.01 / -s == -q;
      assert (-q) * (-q) == q * q;
    }
  }

  /** At or below the horizon the weight is 0; above it and up to the zenith it
      is positive and at most 5000. */
  lemma ElevationWeightRange(num: Numerics, el: real)
    requires Laws(num)
    ensures el <= 0.0 ==> ElevationWeight(num, el) == 0.0
    ensures 0.0 < el <= PI / 2.0 ==> 0.0 < ElevationWeight(num, el) <= 5000.0
  {
    if 0.0 < el <= PI / 2.0 {
      SinCosBounds(num, el);
      SineWeightBounds(num.sin(el));
    }
  }

  /** k·a <= k·b for a <= b and k > 0, strictly when a < b. */
  lemma ScaleMonotone(k: real, a: real, b: real)
    requires 0.0 < k && a <= b
    ensures k * a <= k * b && (a < b ==> k * a < k * b)
  {
    assert k * b - k * a == k * (b - a);
  }

  /** a·s < b·s with s > 0 gives a < b. */
  lemma ScaleCancel(a: real, b: real, s: real)
    requires 0.0 < s && a * s < b * s
    ensures a < b
  {
    assert (b - a) * s == b * s - a * s;
  }

  /** 1/(a² + q²) with a = 0.01 decreases strictly as q >= 0 grows, and is positive. */
  lemma RecipMonotone(a: real, b: real)
    requires 0.0 <= a <= b
    ensures 0.0 < 1.0 / (0.0001 + b * b) <= 1.0 / (0.0001 + a * a)
    ensures a < b ==> 1.0 / (0.0001 + b * b) < 1.0 / (0.0001 + a * a)
  {
    if a < b {
      SquareMonotone(a, b);
    }
    var da, db := 0.0001 + a * a, 0.0001 + b * b;
    assert 0.0 < da <= db;
    var x, y := 1.0 / da, 1.0 / db;
    assert x * da == 1.0 && y * db == 1.0 && 0.0 < y;
    ScaleMonotone(y, da, db);
    if a < b {
      ScaleCancel(y, x, da);
    }
  }

  // ---------------------------------------------------------------------------
  // Latitude interpolation

  /** interpc: linear interpolation in a table whose five columns hold the
      values at latitudes 15, 30, 45, 60 and 75 degrees; constant below 15 and
      above 75. */
  function Interpc(coef: Matrix, lat: real): (c: Vector)
    requires IsMatrix(coef, |coef|, 5)
    ensures |c| == |coef|
  {
    var i := Trunc(lat / 15.0);
    if i < 1 then Col(coef, 0)
    else if i > 4 then Col(coef, 4)
    else
      var d := lat / 15.0 - i as real;
      seq(|coef|, k requires 0 <= k < |coef| => Lerp(coef[k][i - 1], coef[k][i], d))
  }

  /** The point a fraction d of the way from a to b. */
  function Lerp(a: real, b: real, d: real): real {
    a * (1.0 - d) + b * d
  }

  /** Below 15 degrees (and for every negative latitude) the first column. */
  lemma InterpcLow(coef: Matrix, lat: real)
    requires IsMatrix(coef, |coef|, 5) && lat < 15.0
    ensures Interpc(coef, lat) == Col(coef, 0)
  {
  }

  /** From 75 degrees on the last column. */
  lemma InterpcHigh(coef: Matrix, lat: real)
    requires IsMatrix(coef, |coef|, 5) && 75.0 <= lat
    ensures Interpc(coef, lat) == Col(coef, 4)
  {
    assert 5 <= Trunc(lat / 15.0) by {
      assert 5.0 <= lat / 15.0;
    }
  }

  /** Between 15 and 75 degrees each entry is the convex combination of the
      two neighbouring columns with weight d in [0, 1), so it lies between
      them. */
  lemma InterpcBetween(coef: Matrix, lat: real)
    requires IsMatrix(coef, |coef|, 5) && 15.0 <= lat < 75.0
    ensures var i := Trunc(lat / 15.0);
      1 <= i <= 4 && 15.0 * i as real <= lat < 15.0 * (i + 1) as real &&
      forall k :: 0 <= k < |coef| ==>
        Min(coef[k][i - 1], coef[k][i]) <= Interpc(coef, lat)[k] <= Max(coef[k][i - 1], coef[k][i])
  {
    var i := Trunc(lat / 15.0);
    var d := lat / 15.0 - i as real;
    MidIndex(lat);
    var c := Interpc(coef, lat);
    forall k | 0 <= k < |coef|
      ensures Min(coef[k][i - 1], coef[k][i]) <= c[k] <= Max(coef[k][i - 1], coef[k][i])
    {
      assert c[k] == Lerp(coef[k][i - 1], coef[k][i], d);
      Convex(coef[k][i - 1], coef[k][i], d);
    }
  }

  lemma MidIndex(lat: real)
    requires 15.0 <= lat < 75.0
    ensures 1 <= Trunc(lat / 15.0) <= 4
    ensures 15.0 * Trunc(lat / 15.0) as real <= lat < 15.0 * (Trunc(lat / 15.0) + 1) as real
  {
    assert 1.0 <= lat / 15.0 < 5.0;
  }

  /** At the table latitudes 15, 30, 45, 60 and 75 the interpolation returns
      the table column itself. */
  lemma InterpcNodes(coef: Matrix, n: int)
    requires IsMatrix(coef, |coef|, 5) && 1 <= n <= 5
    ensures Interpc(coef, 15.0 * n as real) == Col(coef, n - 1)
  {
    assert Trunc(15.0 * n as real / 15.0) == n;
  }

  lemma Convex(a: real, b: real, d: real)
    requires 0.0 <= d <= 1.0
    ensures Min(a, b) <= Lerp(a, b, d) <= Max(a, b)
  {
    if a <= b {
      Toward(a, b, 1.0 - d, d);
    } else {
      Toward(b, a, d, 1.0 - d);
    }
  }

  /** The weighted mean a*s + b*t with non-negative weights summing to one
      lies between a and b. */
  lemma Toward(a: real, b: real, s: real, t: real)
    requires 0.0 <= s && 0.0 <= t && s + t == 1.0 && a <= b
    ensures a <= a * s + b * t <= b
  {
    var x := b - a;
    MulNonneg(x, s);
    MulNonneg(x, t);
    assert x * s + x * t == x * (s + t);
    assert a * s + b * t == a * (s + t) + x * t;
  }

  // ---------------------------------------------------------------------------
  // Local frame

  /** xyz2enu: the rotation from earth-centred to east-north-up axes at the
      geodetic position pos = (latitude, longitude, height) in radians. */
  function Xyz2Enu(num: Numerics, pos: V3): M3 {
    LocalFrame(num.sin(pos.x), num.cos(pos.x), num.sin(pos.y), num.cos(pos.y))
  }

  /** ecef2enu: E·r */
  function Ecef2Enu(num: Numerics, pos: V3, r: V3): V3 {
    MulM3(Xyz2Enu(num, pos), r)
  }

  /** enu2ecef: Eᵀ·e */
  function Enu2Ecef(num: Numerics, pos: V3, e: V3): V3 {
    MulM3(Transpose3(Xyz2Enu(num, pos)), e)
  }

  /** The two conversions are mutual inverses, because the frame is a rotation
      once sin² + cos² = 1. */
  lemma EnuRoundTrip(num: Numerics, pos: V3, r: V3, e: V3)
    requires Laws(num)
    ensures Enu2Ecef(num, pos, Ecef2Enu(num, pos, r)) == r
    ensures Ecef2Enu(num, pos, Enu2Ecef(num, pos, e)) == e
  {
    var E := Xyz2Enu(num, pos);
    LocalFrameOrthonormal(num.sin(pos.x), num.cos(pos.x), num.sin(pos.y), num.cos(pos.y));
    TransposeInverts(E, e);
    TransposeInverts(Transpose3(E), r);
    assert Transpose3(Transpose3(E)) == E;
  }

  // ---------------------------------------------------------------------------
  // Azimuth and elevation

  /** Azimuth and elevation in radians. */
  datatype AzEl = AzEl(az: real, el: real)

  /** satazel: azimuth and elevation of the line-of-sight vector e seen from the
      geodetic position pos; (0, π/2) below the earth's surface. */
  function Satazel(num: Numerics, pos: V3, e: V3): AzEl {
    if pos.z > -RE_WGS84 + 1.0 then
      var enu := Ecef2Enu(num, pos, e);
      var az := if Dot3(enu, enu) > 1e-12 then num.atan2(enu.x, enu.y) else 0.0;
      AzEl(if az > 0.0 then az else az + 2.0 * PI, num.asin(enu.z))
    else
      AzEl(0.0, PI / 2.0)
  }

  /** Above the centre region the azimuth lies in (0, 2π]; in every case it
      lies in [0, 2π] and the elevation in [-π/2, π/2]. */
  lemma SatazelRange(num: Numerics, pos: V3, e: V3)
    requires Laws(num)
    ensures pos.z > -RE_WGS84 + 1.0 ==> 0.0 < Satazel(num, pos, e).az
    ensures 0.0 <= Satazel(num, pos, e).az <= 2.0 * PI
    ensures -PI / 2.0 <= Satazel(num, pos, e).el <= PI / 2.0
  {
    if pos.z > -RE_WGS84 + 1.0 {
      var enu := Ecef2Enu(num, pos, e);
      var az := if Dot3(enu, enu) > 1e-12 then num.atan2(enu.x, enu.y) else 0.0;
      assert -PI <= az <= PI;
      assert -PI / 2.0 <= num.asin(enu.z) <= PI / 2.0;
      AzimuthWrap(az);
    }
  }

  /** Shifting a non-positive angle of [-π, π] by 2π lands in (0, 2π]. */
  lemma AzimuthWrap(a: real)
    requires -PI <= a <= PI
    ensures 0.0 < (if a > 0.0 then a else a + 2.0 * PI) <= 2.0 * PI
  {
  }

  /** A zero (or almost zero) local vector has azimuth 2π; a position deeper
      than the earth's radius gives the zenith. */
  lemma SatazelDegenerate(num: Numerics, pos: V3, e: V3)
    ensures pos.z <= -RE_WGS84 + 1.0 ==> Satazel(num, pos, e) == AzEl(0.0, PI / 2.0)
    ensures pos.z > -RE_WGS84 + 1.0 && Dot3(Ecef2Enu(num, pos, e), Ecef2Enu(num, pos, e)) <= 1e-12
      ==> Satazel(num, pos, e).az == 2.0 * PI
  {
  }

  // ---------------------------------------------------------------------------
  // Geometric range

  /** v / k component-wise, as numpy divides an array by a scalar. */
  function Div3(v: V3, k: real): V3 {
    V3(FloatDiv(v.x, k), FloatDiv(v.y, k), FloatDiv(v.z, k))
  }

  /** geodist: the distance from receiver rr to satellite rs with the Sagnac
      correction, and the unit line-of-sight vector. */
  function Geodist(num: Numerics, rs: V3, rr: V3): (real, V3) {
    var d := Sub3(rs, rr);
    var n := num.sqrt(Dot3(d, d));
    (n + OMGE * (rs.x * rr.y - rs.y * rr.x) / CLIGHT, Div3(d, n))
  }

  /** geodist_v: the relative velocity divided by the range r. */
  function GeodistV(rsv: V3, rv: V3, r: real): V3 {
    Div3(Sub3(rsv, rv), r)
  }

  /** For distinct points, the line of sight is a unit vector that, scaled by
      the straight-line distance, gives rs - rr; the range differs from that
      distance by the Sagnac term alone. */
  lemma GeodistUnit(num: Numerics, rs: V3, rr: V3)
    requires Laws(num) && rs != rr
    ensures var n := num.sqrt(Dot3(Sub3(rs, rr), Sub3(rs, rr)));
      0.0 < n && Dot3(Geodist(num, rs, rr).1, Geodist(num, rs, rr).1) == 1.0
      && Scale3(n, Geodist(num, rs, rr).1) == Sub3(rs, rr)
      && Geodist(num, rs, rr).0 - n == OMGE * (rs.x * rr.y - rs.y * rr.x) / CLIGHT
  {
    var d := Sub3(rs, rr);
    NonzeroSquare(d);
    var n := num.sqrt(Dot3(d, d));
    SqrtSquared(num, Dot3(d, d));
    SqrtPositive(num, Dot3(d, d));
    UnitAfterDivision(d, n);
  }

  /** A non-zero vector has a positive squared length. */
  lemma NonzeroSquare(d: V3)
    requires d != V3(0.0, 0.0, 0.0)
    ensures 0.0 < Dot3(d, d)
  {
    assert d.x != 0.0 || d.y != 0.0 || d.z != 0.0;
    SquareSign(d.x);
    SquareSign(d.y);
    SquareSign(d.z);
    assert Dot3(d, d) == Sq(d.x) + Sq(d.y) + Sq(d.z);
  }

  /** d divided by its length n is a unit vector, and n times it is d again. */
  lemma UnitAfterDivision(d: V3, n: real)
    requires 0.0 < n && Sq(n) == Dot3(d, d)
    ensures Dot3(Div3(d, n), Div3(d, n)) == 1.0 && Scale3(n, Div3(d, n)) == d
  {
    var e := Div3(d, n);
    assert Scale3(n, e) == d;
    ScaledDot(n, e, d);
    assert Sq(n) == Sq(n) * Dot3(e, e);
    UnitFactor(Dot3(e, e), n);
  }

  lemma ScaledDot(k: real, e: V3, d: V3)
    requires Scale3(k, e) == d
    ensures Dot3(d, d) == Sq(k) * Dot3(e, e)
  {
  }

  lemma UnitFactor(u: real, n: real)
    requires 0.0 < n && Sq(n) == Sq(n) * u
    ensures u == 1.0
  {
    var m := n * u;
    assert n * n == n * m;
    assert n == m;
    assert n * 1.0 == n * u;
  }

  /** Dividing by a non-zero range and scaling back recovers the velocity difference. */
  lemma GeodistVScale(rsv: V3, rv: V3, r: real)
    requires r != 0.0
    ensures Scale3(r, GeodistV(rsv, rv, r)) == Sub3(rsv, rv)
  {
  }
}
