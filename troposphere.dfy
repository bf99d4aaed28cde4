/** Tropospheric delay: the Niell mapping functions (hydrostatic and wet, with
    latitude interpolation of the coefficient table, a seasonal term whose
    phase is shifted half a year in the southern hemisphere, and a height
    correction) and the Saastamoinen zenith delays under a standard
    atmosphere. */
module Troposphere {
  import opened Matrices
  import opened Numerics
  import opened GpsTime
  import opened GnssCommon

  /** nmf_coef: rows 0-2 the hydrostatic average coefficients a, b, c, rows 3-5
      their seasonal amplitudes, rows 6-8 the wet coefficients; the columns
      belong to latitudes 15, 30, 45, 60 and 75 degrees. */
  const NmfCoef: Matrix := [
    [1.2769934e-3, 1.2683230e-3, 1.2465397e-3, 1.2196049e-3, 1.2045996e-3],
    [2.9153695e-3, 2.9152299e-3, 2.9288445e-3, 2.9022565e-3, 2.9024912e-3],
    [62.610505e-3, 62.837393e-3, 63.721774e-3, 63.824265e-3, 64.258455e-3],
    [0.0, 1.2709626e-5, 2.6523662e-5, 3.4000452e-5, 4.1202191e-5],
    [0.0, 2.1414979e-5, 3.0160779e-5, 7.2562722e-5, 11.723375e-5],
    [0.0, 9.0128400e-5, 4.3497037e-5, 84.795348e-5, 170.37206e-5],
    [5.8021897e-4, 5.6794847e-4, 5.8118019e-4, 5.9727542e-4, 6.1641693e-4],
    [1.4275268e-3, 1.5138625e-3, 1.4572752e-3, 1.5007428e-3, 1.7599082e-3],
    [4.3472961e-2, 4.6729510e-2, 4.3908931e-2, 4.4626982e-2, 5.4736038e-2]]

  /** nmf_aht: the coefficients of the height correction. */
  const NmfAht: V3 := V3(2.53e-5, 5.49e-3, 1.14e-3)

  /** s + a/(s + b/(s + c)), the continued fraction of the mapping functions. */
  function Fraction(s: real, k: V3): real {
    s + FloatDiv(k.x, s + FloatDiv(k.y, s + k.z))
  }

  /** mapf: the continued fraction at sin(el), normalised to its value at the
      zenith. */
  function Mapf(num: Numerics, el: real, k: V3): real {
    FloatDiv(Fraction(1.0, k), Fraction(num.sin(el), k))
  }

  predicate NonNegative(k: V3) {
    0.0 <= k.x && 0.0 <= k.y && 0.0 <= k.z
  }

  /** With non-negative coefficients the fraction is at least s for s > 0. */
  lemma FractionAtLeast(s: real, k: V3)
    requires 0.0 < s && NonNegative(k)
    ensures s <= Fraction(s, k)
  {
    var inner := s + FloatDiv(k.y, s + k.z);
    assert 0.0 <= FloatDiv(k.y, s + k.z);
    assert 0.0 < inner;
    assert 0.0 <= FloatDiv(k.x, inner);
  }

  /** With non-negative coefficients the mapping function is 1 at the zenith
      and positive above the horizon. */
  lemma MapfZenith(num: Numerics, el: real, k: V3)
    requires NonNegative(k)
    ensures num.sin(el) == 1.0 ==> Mapf(num, el, k) == 1.0
    ensures 0.0 < num.sin(el) ==> 0.0 < Mapf(num, el, k)
  {
    FractionAtLeast(1.0, k);
    if 0.0 < num.sin(el) {
      FractionAtLeast(num.sin(el), k);
    }
  }

  /** numpy's rad2deg. */
  function Rad2Deg(x: real): real { x * 180.0 / PI }

  /** Degrees keep the sign of radians and turn with them. */
  lemma Rad2DegOdd(x: real)
    ensures Rad2Deg(-x) == -Rad2Deg(x)
    ensures 0.0 < x ==> 0.0 < Rad2Deg(x)
  {
  }

  /** cos(2πy), the seasonal term. */
  function SeasonCos(num: Numerics, y: real): real {
    num.cos(2.0 * PI * y)
  }

  lemma SeasonCosBounds(num: Numerics, y: real)
    requires Laws(num)
    ensures -1.0 <= SeasonCos(num, y) <= 1.0
  {
    SinCosBounds(num, 2.0 * PI * y);
  }

  /** The seasonal phase in years from day of year 28, half a year later in
      the southern hemisphere. */
  function Season(t: GTime, lat: real): real {
    (Time2Doy(t) - 28.0) / 365.25 + (if lat < 0.0 then 0.5 else 0.0)
  }

  /** The hydrostatic coefficients at seasonal phase cosine cosy. */
  function Hydrostatic(c: Vector, cosy: real): V3
    requires |c| == 9
  {
    V3(c[0] - c[3] * cosy, c[1] - c[4] * cosy, c[2] - c[5] * cosy)
  }

  function Wet(c: Vector): V3
    requires |c| == 9
  {
    V3(c[6], c[7], c[8])
  }

  /** The height correction of the hydrostatic mapping function: the excess
      of 1/sin(el) over the height mapping function, per kilometre of h. */
  function HeightCorrection(num: Numerics, h: real, el: real): real {
    (FloatDiv(1.0, num.sin(el)) - Mapf(num, el, NmfAht)) * h * 1e-3
  }

  /** At the zenith the height correction vanishes. */
  lemma HeightCorrectionZenith(num: Numerics, h: real, el: real)
    requires num.sin(el) == 1.0
    ensures HeightCorrection(num, h, el) == 0.0
  {
    MapfZenith(num, el, NmfAht);
    assert FloatDiv(1.0, num.sin(el)) - Mapf(num, el, NmfAht) == 0.0;
  }

  /** tropmapf: hydrostatic and wet mapping functions at time t, geodetic
      position pos (radians, metres) and elevation el; (0, 0) outside the
      height range [-1 km, 20 km] and at or below the horizon. */
  function Tropmapf(num: Numerics, t: GTime, pos: V3, el: real): (m: (real, real))
    ensures (pos.z < -1e3 || pos.z > 20e3 || el <= 0.0) ==> m == (0.0, 0.0)
  {
    if pos.z < -1e3 || pos.z > 20e3 || el <= 0.0 then (0.0, 0.0)
    else
      var lat := Rad2Deg(pos.x);
      Niell(num, Season(t, lat), Abs(lat), pos.z, el)
  }

  /** The Niell mapping functions (hydrostatic, wet) at seasonal phase y,
      absolute latitude alat in degrees, ellipsoidal height h and elevation el. */
  function Niell(num: Numerics, y: real, alat: real, h: real, el: real): (real, real) {
    var c := Interpc(NmfCoef, alat);
    var ah := Hydrostatic(c, SeasonCos(num, y));
    (Mapf(num, el, ah) + HeightCorrection(num, h, el), Mapf(num, el, Wet(c)))
  }

  /** Every entry of row r lies in [lo, hi]. */
  predicate RowWithin(r: seq<real>, lo: real, hi: real) {
    |r| == 5 && forall j :: 0 <= j < 5 ==> lo <= r[j] <= hi
  }

  /** The ranges of the rows of the Niell table: each seasonal amplitude
      (rows 3-5) stays below the least average coefficient it modulates
      (rows 0-2), and the wet coefficients are positive. */
  predicate NmfShaped(coef: Matrix) {
    && |coef| == 9
    && RowWithin(coef[0], 0.0012, 0.0013) && RowWithin(coef[1], 0.0029, 0.003)
    && RowWithin(coef[2], 0.062, 0.065) && RowWithin(coef[3], 0.0, 0.00005)
    && RowWithin(coef[4], 0.0, 0.00012) && RowWithin(coef[5], 0.0, 0.0018)
    && RowWithin(coef[6], 0.0005, 0.0007) && RowWithin(coef[7], 0.0014, 0.0018)
    && RowWithin(coef[8], 0.043, 0.055)
  }

  lemma NmfCoefShaped()
    ensures NmfShaped(NmfCoef) && IsMatrix(NmfCoef, 9, 5)
  {
  }

  /** An interpolated coefficient stays within the range of its row. */
  lemma InterpcWithin(coef: Matrix, lat: real, k: int, lo: real, hi: real)
    requires IsMatrix(coef, |coef|, 5) && 0 <= k < |coef| && RowWithin(coef[k], lo, hi)
    ensures lo <= Interpc(coef, lat)[k] <= hi
  {
    if lat < 15.0 {
      InterpcLow(coef, lat);
    } else if 75.0 <= lat {
      InterpcHigh(coef, lat);
    } else {
      InterpcBetween(coef, lat);
    }
  }

  /** The ranges of the nine interpolated coefficients. */
  predicate CoefRanges(c: Vector) {
    && |c| == 9
    && 0.0012 <= c[0] <= 0.0013 && 0.0029 <= c[1] <= 0.003 && 0.062 <= c[2] <= 0.065
    && 0.0 <= c[3] <= 0.00005 && 0.0 <= c[4] <= 0.00012 && 0.0 <= c[5] <= 0.0018
    && 0.0005 <= c[6] <= 0.0007 && 0.0014 <= c[7] <= 0.0018 && 0.043 <= c[8] <= 0.055
  }

  /** At every latitude the interpolated coefficients keep the ranges of the
      table rows. */
  lemma InterpcRanges(coef: Matrix, alat: real)
    requires NmfShaped(coef) && IsMatrix(coef, 9, 5)
    ensures CoefRanges(Interpc(coef, alat))
  {
    InterpcWithin(coef, alat, 0, 0.0012, 0.0013);
    InterpcWithin(coef, alat, 1, 0.0029, 0.003);
    InterpcWithin(coef, alat, 2, 0.062, 0.065);
    InterpcWithin(coef, alat, 3, 0.0, 0.00005);
    InterpcWithin(coef, alat, 4, 0.0, 0.00012);
    InterpcWithin(coef, alat, 5, 0.0, 0.0018);
    InterpcWithin(coef, alat, 6, 0.0005, 0.0007);
    InterpcWithin(coef, alat, 7, 0.0014, 0.0018);
    InterpcWithin(coef, alat, 8, 0.043, 0.055);
  }

  /** For any season the hydrostatic and wet coefficients are non-negative:
      the seasonal amplitudes are smaller than the averages. */
  lemma CoefficientsNonNegative(c: Vector, cosy: real)
    requires CoefRanges(c) && -1.0 <= cosy <= 1.0
    ensures NonNegative(Hydrostatic(c, cosy)) && NonNegative(Wet(c))
  {
    SeasonalBelow(c[0], c[3], cosy);
    SeasonalBelow(c[1], c[4], cosy);
    SeasonalBelow(c[2], c[5], cosy);
  }

  lemma SeasonalBelow(avg: real, amp: real, cosy: real)
    requires 0.0 <= amp < avg && -1.0 <= cosy <= 1.0
    ensures 0.0 <= avg - amp * cosy
  {
    MulNonneg(amp, 1.0 - cosy);
    assert amp - amp * cosy == amp * (1.0 - cosy);
  }

  /** At the zenith both mapping functions are exactly 1, at every latitude,
      season and height in range. */
  lemma TropmapfZenith(num: Numerics, t: GTime, pos: V3, el: real)
    requires Laws(num)
    requires -1e3 <= pos.z <= 20e3 && 0.0 < el && num.sin(el) == 1.0
    ensures Tropmapf(num, t, pos, el) == (1.0, 1.0)
  {
    var lat := Rad2Deg(pos.x);
    var c := Interpc(NmfCoef, Abs(lat));
    var cosy := SeasonCos(num, Season(t, lat));
    SeasonCosBounds(num, Season(t, lat));
    NmfCoefShaped();
    InterpcRanges(NmfCoef, Abs(lat));
    CoefficientsNonNegative(c, cosy);
    MapfZenith(num, el, Hydrostatic(c, cosy));
    MapfZenith(num, el, Wet(c));
    HeightCorrectionZenith(num, pos.z, el);
  }

  /** Above the horizon the wet mapping function is positive. */
  lemma TropmapfWetPositive(num: Numerics, t: GTime, pos: V3, el: real)
    requires -1e3 <= pos.z <= 20e3 && 0.0 < el && 0.0 < num.sin(el)
    ensures 0.0 < Tropmapf(num, t, pos, el).1
  {
    var c := Interpc(NmfCoef, Abs(Rad2Deg(pos.x)));
    NmfCoefShaped();
    InterpcRanges(NmfCoef, Abs(Rad2Deg(pos.x)));
    CoefficientsNonNegative(c, 0.0);
    MapfZenith(num, el, Wet(c));
  }

  /** The hemispheres mirror each other half a year apart: a southern site on
      day d - 182.625 of its year maps as the northern site at the mirrored
      latitude on day d, at any longitude. */
  lemma TropmapfHemisphere(num: Numerics, tn: GTime, ts: GTime, north: V3, south: V3, el: real)
    requires 0.0 < north.x && south.x == -north.x && south.z == north.z
    requires Time2Doy(ts) == Time2Doy(tn) - 182.625
    ensures Tropmapf(num, ts, south, el) == Tropmapf(num, tn, north, el)
  {
    var latn, lats := Rad2Deg(north.x), Rad2Deg(south.x);
    Rad2DegOdd(north.x);
    if -1e3 <= north.z <= 20e3 && 0.0 < el {
      assert Season(ts, lats) == Season(tn, latn);
      assert Abs(lats) == Abs(latn);
    }
  }

  // ---------------------------------------------------------------------------
  // Saastamoinen

  /** Hydrostatic and wet zenith-scaled delays in metres, and the zenith angle. */
  datatype TropDelay = TropDelay(hydro: real, wet: real, zenith: real)

  /** Standard-atmosphere temperature in kelvin at height hgt: 15 °C at sea
      level, falling 6.5 K per km. */
  function Temperature(hgt: real): real {
    15.0 - 6.5e-3 * hgt + 273.16
  }

  /** tropmodel: Saastamoinen delays at geodetic position pos, elevation el and
      relative humidity humi; zero outside the height range [-100 m, 10 km]
      and at or below the horizon. Heights below sea level count as 0. */
  function Tropmodel(num: Numerics, pos: V3, el: real, humi: real): (d: TropDelay)
    ensures (pos.z < -100.0 || pos.z > 1e4 || el <= 0.0) ==> d == TropDelay(0.0, 0.0, 0.0)
  {
    if pos.z < -100.0 || pos.z > 1e4 || el <= 0.0 then TropDelay(0.0, 0.0, 0.0)
    else Saastamoinen(num, pos.x, Max(pos.z, 0.0), el, humi)
  }

  /** The Saastamoinen hydrostatic and wet delays of a standard atmosphere at
      latitude lat, height hgt in [0, 10 km], elevation el and relative
      humidity humi, with the zenith angle. */
  function Saastamoinen(num: Numerics, lat: real, hgt: real, el: real, humi: real): TropDelay
    requires 0.0 <= hgt <= 1e4
  {
    var temp := Temperature(hgt);
    var z := PI / 2.0 - el;
    var hs := FloatDiv(FloatDiv(0.0022768 * Pressure(num, hgt), Gravity(num, lat, hgt)), num.cos(z));
    var wet := FloatDiv(0.002277 * (1255.0 / temp + 0.05) * VapourPressure(num, hgt, humi), num.cos(z));
    TropDelay(hs, wet, z)
  }

  /** Standard-atmosphere pressure in hPa at height hgt. */
  function Pressure(num: Numerics, hgt: real): real {
    1013.25 * num.pow(1.0 - 2.2557e-5 * hgt, 5.2568)
  }

  /** Partial pressure of water vapour in hPa at relative humidity humi. */
  function VapourPressure(num: Numerics, hgt: real, humi: real): real
    requires 0.0 <= hgt <= 1e4
  {
    var temp := Temperature(hgt);
    6.108 * humi * num.exp((17.15 * temp - 4684.0) / (temp - 38.45))
  }

  /** The latitude and height dependence of gravity in the hydrostatic term. */
  function Gravity(num: Numerics, lat: real, hgt: real): real {
    1.0 - 0.00266 * num.cos(2.0 * lat) - 0.00028e-3 * hgt
  }

  /** Below sea level (down to -100 m) the delays are those at sea level. */
  lemma TropmodelSeaLevel(num: Numerics, pos: V3, el: real, humi: real)
    requires -100.0 <= pos.z < 0.0
    ensures Tropmodel(num, pos, el, humi) == Tropmodel(num, V3(pos.x, pos.y, 0.0), el, humi)
  {
  }

  /** The factors of the two delays have fixed signs between sea level and
      10 km: positive pressure and gravity term, a temperature between the
      values at 10 km and at sea level, non-negative vapour pressure. */
  lemma AtmosphereSigns(num: Numerics, lat: real, hgt: real, humi: real)
    requires Laws(num) && 0.0 <= hgt <= 1e4 && 0.0 <= humi
    ensures 0.0 < Pressure(num, hgt) && 0.0 < Gravity(num, lat, hgt)
    ensures 223.16 <= Temperature(hgt) <= 288.16
    ensures 0.0 <= VapourPressure(num, hgt, humi)
  {
    assert 0.0 < 1.0 - 2.2557e-5 * hgt;
    SinCosBounds(num, 2.0 * lat);
    var temp := Temperature(hgt);
    MulNonneg(6.108 * humi, num.exp((17.15 * temp - 4684.0) / (temp - 38.45)));
  }

  /** In range and above the horizon the hydrostatic delay is positive, the
      wet delay is non-negative for non-negative humidity, and the zenith
      angle is the complement of the elevation. */
  lemma TropmodelPositive(num: Numerics, pos: V3, el: real, humi: real)
    requires Laws(num)
    requires -100.0 <= pos.z <= 1e4 && 0.0 < el < PI && 0.0 <= humi
    ensures var d := Tropmodel(num, pos, el, humi);
      0.0 < d.hydro && 0.0 <= d.wet && d.zenith == PI / 2.0 - el
  {
    var hgt := Max(pos.z, 0.0);
    AtmosphereSigns(num, pos.x, hgt, humi);
    var cz := num.cos(PI / 2.0 - el);
    assert 0.0 < cz;
    var q := FloatDiv(0.0022768 * Pressure(num, hgt), Gravity(num, pos.x, hgt));
    assert 0.0 < q;
    var g := 1255.0 / Temperature(hgt) + 0.05;
    assert 0.0 < g;
    MulNonneg(0.002277 * g, VapourPressure(num, hgt, humi));
  }
}
