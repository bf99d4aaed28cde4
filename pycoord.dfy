/** pycoord: angle-unit conversion, geodetic and Cartesian coordinates on a
    named reference ellipsoid, and the north-east-up offsets of a rover from a
    base station. */
module PyCoord {
  import opened Numerics

  /** The value of π the module writes out (its IEEE rounding equals numpy's pi). */
  const GEO_PI: real := 3.14159265358979323846

  /** The reference ellipsoids of the ELLIPSOIDS table. */
  datatype Ellipsoid = Wgs84 | Cgcs2000 | Grs80

  /** Semi-major axis in metres: the same for all three. */
  function SemiMajor(ell: Ellipsoid): real { 6378137.0 }

  /** Flattening. */
  function Flattening(ell: Ellipsoid): real {
    match ell
    case Wgs84 => 1.0 / 298.257223563
    case Cgcs2000 => 1.0 / 298.257222101
    case Grs80 => 1.0 / 298.257222100882711243
  }

  /** First eccentricity squared, f(2 - f). */
  function Eccentricity2(ell: Ellipsoid): (e2: real)
    ensures 0.0 < e2 < 0.01
  {
    var f := Flattening(ell);
    f * (2.0 - f)
  }

  /** degree2radian: decimal degrees to radians. */
  function Degree2Radian(deg: real): real { deg * GEO_PI / 180.0 }

  /** radian2degree: radians to decimal degrees. */
  function Radian2Degree(rad: real): real { rad * 180.0 / GEO_PI }

  /** The two unit conversions are inverse to each other. */
  lemma AngleRoundTrip(deg: real, rad: real)
    ensures Radian2Degree(Degree2Radian(deg)) == deg
    ensures Degree2Radian(Radian2Degree(rad)) == rad
  {
  }

  /** xyz2blh: the closed-form conversion to latitude and longitude in degrees and
      ellipsoidal height. The division by the radius r is numpy's. */
  function Xyz2Blh(num: Numerics, ell: Ellipsoid, p: V3): V3 {
    var a, f, e2 := SemiMajor(ell), Flattening(ell), Eccentricity2(ell);
    var lon := num.atan2(p.y, p.x);
    var pe := num.sqrt(p.x * p.x + p.y * p.y);
    var r := num.sqrt(pe * pe + p.z * p.z);
    var u := num.atan2(p.z * ((1.0 - f) + FloatDiv(e2 * a, r)), pe);
    var su, cu := num.sin(u), num.cos(u);
    var lat := num.atan2(p.z * (1.0 - f) + e2 * a * (su * su * su), (1.0 - f) * (pe - e2 * a * (cu * cu * cu)));
    var sl := num.sin(lat);
    var h := pe * num.cos(lat) + p.z * sl - a * num.sqrt(1.0 - e2 * (sl * sl));
    V3(Radian2Degree(lat), Radian2Degree(lon), h)
  }

  /** blh2xyz: Cartesian coordinates of a geodetic position given in degrees. */
  function Blh2Xyz(num: Numerics, ell: Ellipsoid, b: V3): V3 {
    var a, e2 := SemiMajor(ell), Eccentricity2(ell);
    var lat, lon := Degree2Radian(b.x), Degree2Radian(b.y);
    var n := FloatDiv(a, num.sqrt(Radicand(e2, num.sin(lat))));
    V3((n + b.z) * num.cos(lat) * num.cos(lon),
       (n + b.z) * num.cos(lat) * num.sin(lon),
       ((1.0 - e2) * n + b.z) * num.sin(lat))
  }

  /** 1 - e² sin²(lat), under the square root of the prime-vertical radius. */
  function Radicand(e2: real, s: real): real { 1.0 - e2 * s * s }

  /** The radicand is positive, so the prime-vertical radius is a true quotient
      and positive. */
  lemma Blh2XyzRadius(num: Numerics, ell: Ellipsoid, lat: real)
    requires Laws(num)
    ensures 0.0 < Radicand(Eccentricity2(ell), num.sin(lat)) <= 1.0
    ensures 0.0 < num.sqrt(Radicand(Eccentricity2(ell), num.sin(lat)))
  {
    SinCosBounds(num, lat);
    RadicandRange(Eccentricity2(ell), num.sin(lat));
    SqrtPositive(num, Radicand(Eccentricity2(ell), num.sin(lat)));
  }

  lemma RadicandRange(e2: real, s: real)
    requires 0.0 < e2 < 0.01 && -1.0 <= s <= 1.0
    ensures 0.0 < Radicand(e2, s) <= 1.0
  {
    UnitSq(s);
    MulBounds(e2, Sq(s));
    var w := e2 * s * s;
    assert w == e2 * Sq(s);
    assert w < 1.0;
    assert 0.0 <= w;
  }

  /** The square of a number in [-1, 1] lies in [0, 1]. */
  lemma UnitSq(s: real)
    requires -1.0 <= s <= 1.0
    ensures 0.0 <= Sq(s) <= 1.0
  {
    var t := if s < 0.0 then -s else s;
    assert Sq(s) == t * t;
    MulNonneg(t, t);
    MulNonneg(t, 1.0 - t);
    assert t - t * t == t * (1.0 - t);
  }

  lemma MulBounds(e: real, q: real)
    requires 0.0 < e < 0.01 && 0.0 <= q <= 1.0
    ensures 0.0 <= e * q < 1.0
  {
    MulNonneg(e, q);
    MulNonneg(e, 1.0 - q);
    assert e - e * q == e * (1.0 - q);
  }

  /** The origin of the geodetic coordinates is the point (a, 0, 0) on the
      equator at the prime meridian. */
  lemma Blh2XyzOrigin(num: Numerics, ell: Ellipsoid)
    requires Laws(num)
    ensures Blh2Xyz(num, ell, V3(0.0, 0.0, 0.0)) == V3(SemiMajor(ell), 0.0, 0.0)
  {
    assert Degree2Radian(0.0) == 0.0;
    SqrtOfSquare(num, 1.0);
    assert Radicand(Eccentricity2(ell), num.sin(0.0)) == 1.0 * 1.0;
  }

  /** The rotation of xyz2neu at a base of latitude and longitude with sines sp,
      sl and cosines cp, cl: rows are the north, east and up unit vectors. */
  function NeuMatrix(sp: real, cp: real, sl: real, cl: real): M3 {
    M3(V3(-sp * cl, -sp * sl, cp), V3(-sl, cl, 0.0), V3(cp * cl, cp * sl, sp))
  }

  /** The rotation of neu2xyz, written out by columns of the same angles. */
  function NeuInverseMatrix(sp: real, cp: real, sl: real, cl: real): M3 {
    M3(V3(-sp * cl, -sl, cp * cl), V3(-sp * sl, cl, cp * sl), V3(cp, 0.0, sp))
  }

  /** The neu2xyz matrix is the transpose of the xyz2neu matrix; both have the
      rows of the east-north-up frame, north first. */
  lemma NeuMatrixTranspose(sp: real, cp: real, sl: real, cl: real)
    ensures NeuInverseMatrix(sp, cp, sl, cl) == Transpose3(NeuMatrix(sp, cp, sl, cl))
    ensures var E := LocalFrame(sp, cp, sl, cl); NeuMatrix(sp, cp, sl, cl) == M3(E.r1, E.r0, E.r2)
  {
  }

  /** The base's geodetic angles as the conversions compute them: xyz2blh in
      degrees, then back to radians. */
  function BaseLat(num: Numerics, ell: Ellipsoid, base: V3): real {
    Degree2Radian(Xyz2Blh(num, ell, base).x)
  }

  function BaseLon(num: Numerics, ell: Ellipsoid, base: V3): real {
    Degree2Radian(Xyz2Blh(num, ell, base).y)
  }

  function BaseNeu(num: Numerics, ell: Ellipsoid, base: V3): M3 {
    var lat, lon := BaseLat(num, ell, base), BaseLon(num, ell, base);
    NeuMatrix(num.sin(lat), num.cos(lat), num.sin(lon), num.cos(lon))
  }

  function BaseNeuInverse(num: Numerics, ell: Ellipsoid, base: V3): M3 {
    var lat, lon := BaseLat(num, ell, base), BaseLon(num, ell, base);
    NeuInverseMatrix(num.sin(lat), num.cos(lat), num.sin(lon), num.cos(lon))
  }

  /** xyz2neu: north, east and up offsets of rover from base. */
  function Xyz2Neu(num: Numerics, ell: Ellipsoid, base: V3, rover: V3): V3 {
    MulM3(BaseNeu(num, ell, base), Sub3(rover, base))
  }

  /** neu2xyz: the rover position at offsets neu from base. */
  function Neu2Xyz(num: Numerics, ell: Ellipsoid, neu: V3, base: V3): V3 {
    Add3(MulM3(BaseNeuInverse(num, ell, base), neu), base)
  }

  /** The base is at zero offset from itself, and zero offset is the base. */
  lemma NeuAtBase(num: Numerics, ell: Ellipsoid, base: V3)
    ensures Xyz2Neu(num, ell, base, base) == V3(0.0, 0.0, 0.0)
    ensures Neu2Xyz(num, ell, V3(0.0, 0.0, 0.0), base) == base
  {
  }

  /** The north-east-up matrix is a rotation whenever sin² + cos² = 1. */
  lemma NeuMatrixOrthonormal(sp: real, cp: real, sl: real, cl: real)
    requires sp * sp + cp * cp == 1.0 && sl * sl + cl * cl == 1.0
    ensures Orthonormal(NeuMatrix(sp, cp, sl, cl))
    ensures Orthonormal(Transpose3(NeuMatrix(sp, cp, sl, cl)))
  {
    var E := LocalFrame(sp, cp, sl, cl);
    LocalFrameOrthonormal(sp, cp, sl, cl);
    var N := NeuMatrix(sp, cp, sl, cl);
    assert N == M3(E.r1, E.r0, E.r2);
    var T, U := Transpose3(N), Transpose3(E);
    assert T.r0 == V3(U.r0.y, U.r0.x, U.r0.z);
    assert T.r1 == V3(U.r1.y, U.r1.x, U.r1.z);
    assert T.r2 == V3(U.r2.y, U.r2.x, U.r2.z);
  }

  /** At any base the inverse matrix is the transpose of a rotation. */
  lemma BaseNeuRotation(num: Numerics, ell: Ellipsoid, base: V3)
    requires Laws(num)
    ensures BaseNeuInverse(num, ell, base) == Transpose3(BaseNeu(num, ell, base))
    ensures Orthonormal(BaseNeu(num, ell, base)) && Orthonormal(Transpose3(BaseNeu(num, ell, base)))
  {
    NeuRotationAt(num, BaseLat(num, ell, base), BaseLon(num, ell, base));
  }

  lemma NeuRotationAt(num: Numerics, lat: real, lon: real)
    requires Laws(num)
    ensures var sp, cp, sl, cl := num.sin(lat), num.cos(lat), num.sin(lon), num.cos(lon);
      NeuInverseMatrix(sp, cp, sl, cl) == Transpose3(NeuMatrix(sp, cp, sl, cl)) &&
      Orthonormal(NeuMatrix(sp, cp, sl, cl)) && Orthonormal(Transpose3(NeuMatrix(sp, cp, sl, cl)))
  {
    var sp, cp, sl, cl := num.sin(lat), num.cos(lat), num.sin(lon), num.cos(lon);
    NeuMatrixOrthonormal(sp, cp, sl, cl);
    NeuMatrixTranspose(sp, cp, sl, cl);
  }

  /** Offsets and positions convert back and forth without loss: the two
      conversions at the same base are inverse to each other. */
  lemma NeuRoundTrip(num: Numerics, ell: Ellipsoid, base: V3, rover: V3, neu: V3)
    requires Laws(num)
    ensures Neu2Xyz(num, ell, Xyz2Neu(num, ell, base, rover), base) == rover
    ensures Xyz2Neu(num, ell, base, Neu2Xyz(num, ell, neu, base)) == neu
  {
    var N := BaseNeu(num, ell, base);
    BaseNeuRotation(num, ell, base);
    TransposeInverts(Transpose3(N), Sub3(rover, base));
    assert Transpose3(Transpose3(N)) == N;
    TransposeInverts(N, neu);
    assert Sub3(Add3(MulM3(Transpose3(N), neu), base), base) == MulM3(Transpose3(N), neu);
  }
}
