/** The Klobuchar broadcast ionosphere model (IS-GPS-200, section
    20.3.3.5.2.5) as ionmodel computes it: the ionospheric pierce point's
    geomagnetic latitude clamped to ±0.416 semicircles, the local time wrapped
    into one day, the amplitude and period polynomials clipped below, the
    cosine pulse in its fourth-order expansion with a 5 ns night-time floor,
    and the slant factor. */
module Ionosphere {
  import opened Matrices
  import opened Numerics
  import GnssCommon

  /** ion_default: the broadcast alpha (row 0) and beta (row 1) coefficients. */
  const IonDefault: Matrix := [
    [0.1118e-07, 0.0, -0.5960e-07, 0.0],
    [0.9011e05, 0.0, -0.1966e06, 0.0]]

  /** Earth-centred angle between the receiver and the pierce point, in
      semicircles. */
  function EarthAngle(el: real): real {
    FloatDiv(0.0137, el / PI + 0.11) - 0.022
  }

  /** max(lo, min(hi, x)) */
  function Clamp(x: real, lo: real, hi: real): real {
    Max(lo, Min(hi, x))
  }

  /** Latitude of the pierce point, in semicircles, clamped. */
  function PiercedLat(num: Numerics, pos: V3, az: real, el: real): (phi: real)
    ensures -0.416 <= phi <= 0.416
  {
    Clamp(pos.x / PI + EarthAngle(el) * num.cos(az), -0.416, 0.416)
  }

  /** Longitude of the pierce point, in semicircles. */
  function PiercedLon(num: Numerics, pos: V3, az: real, el: real): real {
    var phi := PiercedLat(num, pos, az, el);
    pos.y / PI + FloatDiv(EarthAngle(el) * num.sin(az), num.cos(phi * PI))
  }

  /** The clamped pierce-point latitude moved to the geomagnetic frame. */
  function GeomagneticLat(num: Numerics, pos: V3, az: real, el: real): real {
    var lam := PiercedLon(num, pos, az, el);
    PiercedLat(num, pos, az, el) + 0.064 * num.cos((lam - 1.617) * PI)
  }

  /** 43200·lam + tow, less the whole days numpy's floor counts. */
  function LocalTime(lam: real, tow: real): real {
    var tt := 43200.0 * lam + tow;
    tt - (tt / 86400.0).Floor as real * 86400.0
  }

  /** The local time lies in one day; a time already in the day is kept, and
      a whole day more of time-of-week gives the same local time. */
  lemma LocalTimeRange(lam: real, tow: real)
    ensures 0.0 <= LocalTime(lam, tow) < 86400.0
    ensures 0.0 <= 43200.0 * lam + tow < 86400.0 ==> LocalTime(lam, tow) == 43200.0 * lam + tow
    ensures LocalTime(lam, tow + 86400.0) == LocalTime(lam, tow)
  {
    var tt := 43200.0 * lam + tow;
    var k := (tt / 86400.0).Floor;
    assert k as real <= tt / 86400.0 < k as real + 1.0;
    var k' := ((tt + 86400.0) / 86400.0).Floor;
    assert (tt + 86400.0) / 86400.0 == tt / 86400.0 + 1.0;
    assert k' == k + 1;
  }

  /** 1 + 16·(0.53 - el/π)³; numpy's power with exponent 3.0 is the cube. */
  function SlantFactor(el: real): real {
    var b := 0.53 - el / PI;
    1.0 + 16.0 * (b * b * b)
  }

  /** Between the horizon and the zenith the slant factor exceeds 1. */
  lemma SlantFactorAboveOne(el: real)
    requires 0.0 <= el <= PI / 2.0
    ensures SlantFactor(el) > 1.0
  {
    var b := 0.53 - el / PI;
    assert el / PI <= 0.5;
    assert 0.0 < b;
    var bb := b * b;
    MulPositive(b, b);
    MulPositive(bb, b);
  }

  /** The cubic 1 + c1·phi + c2·phi² + c3·phi³ of a row of coefficients. */
  function Cubic(c: seq<real>, phi: real): real
    requires |c| == 4
  {
    Dot([1.0, phi, phi * phi, phi * phi * phi], c)
  }

  /** Amplitude of the pulse, clipped at zero. */
  function Amplitude(ion: Matrix, phi: real): (amp: real)
    requires IsMatrix(ion, 2, 4)
    ensures 0.0 <= amp
    ensures amp == 0.0 || amp == Cubic(ion[0], phi)
  {
    Max(Cubic(ion[0], phi), 0.0)
  }

  /** Period of the pulse, clipped at 72000 s. */
  function Period(ion: Matrix, phi: real): (per: real)
    requires IsMatrix(ion, 2, 4)
    ensures 72000.0 <= per
    ensures per == 72000.0 || per == Cubic(ion[1], phi)
  {
    Max(Cubic(ion[1], phi), 72000.0)
  }

  /** The phase of the pulse, in radians from its peak at 14:00 local time. */
  function Phase(tt: real, per: real): real
    requires 72000.0 <= per
  {
    2.0 * PI * (tt - 50400.0) / per
  }

  /** The fourth-order expansion of cos x. */
  function Pulse(x: real): real {
    1.0 + x * x * (-0.5 + x * x / 24.0)
  }

  /** Vertical delay in seconds: the pulse inside a quarter period of the
      peak, 5 ns otherwise. */
  function VerticalDelay(amp: real, x: real): real {
    if Abs(x) < 1.57 then 5e-9 + amp * Pulse(x) else 5e-9
  }

  /** ionmodel: slant ionospheric delay in metres at GPS time-of-week tow,
      receiver geodetic position pos (radians), azimuth az and elevation el. */
  function IonModel(num: Numerics, tow: real, pos: V3, az: real, el: real, ion: Matrix): real
    requires IsMatrix(ion, 2, 4)
  {
    var phi := GeomagneticLat(num, pos, az, el);
    var tt := LocalTime(PiercedLon(num, pos, az, el), tow);
    var amp, per := Amplitude(ion, phi), Period(ion, phi);
    GnssCommon.CLIGHT * SlantFactor(el) * VerticalDelay(amp, Phase(tt, per))
  }

  /** The expansion stays positive while |x| < 1.57: with y = x², it is
      ((6 - y)² - 12)/24 and 6 - y > 3.5. */
  lemma PulsePositive(x: real)
    requires -1.57 < x < 1.57
    ensures 0.0 < Pulse(x)
  {
    var a := if x < 0.0 then -x else x;
    SquareMonotone(a, 1.57);
    assert Sq(x) == a * a;
    var y := Sq(x);
    assert y < 2.4649;
    assert 0.0 <= y by { SquareSign(x); }
    assert Pulse(x) == 1.0 + y * (-0.5 + y / 24.0);
    var z := 6.0 - y;
    assert 3.5 < z;
    SquareMonotone(3.5, z);
    assert 1.0 + y * (-0.5 + y / 24.0) == (z * z - 12.0) / 24.0;
  }

  /** The delay is never below the 5 ns floor, and equals it outside the pulse. */
  lemma VerticalDelayFloor(amp: real, x: real)
    requires 0.0 <= amp
    ensures 5e-9 <= VerticalDelay(amp, x)
    ensures (x <= -1.57 || 1.57 <= x) ==> VerticalDelay(amp, x) == 5e-9
  {
    if -1.57 < x < 1.57 {
      PulsePositive(x);
      MulNonneg(amp, Pulse(x));
    }
  }

  /** For a satellite between the horizon and the zenith the slant delay is
      positive, whatever the coefficients. */
  lemma IonModelPositive(num: Numerics, tow: real, pos: V3, az: real, el: real, ion: Matrix)
    requires IsMatrix(ion, 2, 4) && 0.0 <= el <= PI / 2.0
    ensures 0.0 < IonModel(num, tow, pos, az, el, ion)
  {
    var phi := GeomagneticLat(num, pos, az, el);
    var tt := LocalTime(PiercedLon(num, pos, az, el), tow);
    var amp, per := Amplitude(ion, phi), Period(ion, phi);
    var v := VerticalDelay(amp, Phase(tt, per));
    VerticalDelayFloor(amp, Phase(tt, per));
    SlantFactorAboveOne(el);
    var f := SlantFactor(el);
    MulPositive(GnssCommon.CLIGHT, f);
    MulPositive(GnssCommon.CLIGHT * f, v);
  }

  /** Away from the pulse (more than 1.57 rad of phase from 14:00 local time)
      the delay is the night-time floor scaled by the slant factor. */
  lemma IonModelNight(num: Numerics, tow: real, pos: V3, az: real, el: real, ion: Matrix)
    requires IsMatrix(ion, 2, 4)
    requires var phi := GeomagneticLat(num, pos, az, el);
      var x := Phase(LocalTime(PiercedLon(num, pos, az, el), tow), Period(ion, phi));
      x <= -1.57 || 1.57 <= x
    ensures IonModel(num, tow, pos, az, el, ion) == GnssCommon.CLIGHT * SlantFactor(el) * 5e-9
  {
    var phi := GeomagneticLat(num, pos, az, el);
    VerticalDelayFloor(Amplitude(ion, phi),
      Phase(LocalTime(PiercedLon(num, pos, az, el), tow), Period(ion, phi)));
  }
}
