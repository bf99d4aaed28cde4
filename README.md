# wls_ekf in Dafny

The wls_ekf repository computes GNSS receiver positions and velocities one epoch at a time. It has two estimators:

- a weighted least-squares solver (`estpos` and `WLS_pos_vel_estimation`);
- an extended Kalman filter that carries its state across epochs (`ekf_iteration` and `EKF_pos_vel_estimation`).

Both rest on helpers ported from rtklib-py:

- GPS time and calendar arithmetic;
- elevation weighting;
- table interpolation;
- the east-north-up rotation;
- the Klobuchar ionosphere model;
- the Saastamoinen delay and Niell mapping troposphere models;
- broadcast-ephemeris satellite positions and clocks (IS-GPS-200).

The repository also has its own coordinate conversions in `pycoord.py` (geodetic and Cartesian coordinates, and north-east-up offsets from a base point). The estimators do not call them.

This project models those parts over Dafny's unbounded `real` and `int`.

- `numerics.dfy` (module `Numerics`) collects the numerical functions the Python code takes from `math` and numpy as fields of a `Numerics` value. These are sin, cos, asin, atan2, sqrt, exp, pow, the iterative `ecef2pos` and the matrix inverse. Every property that depends on them names the laws it uses:
  - `Laws`: sin² + cos² = 1, sin 0 = 0, cos 0 = 1, the signs of sin and cos on the first quarter turn, the ranges of asin and atan2, sqrt as the non-negative square root, and positive exp and pow;
  - `InverseLaw`: M·inv(M) = I for an invertible M.

  Python's truncating `int()` is `Trunc`. numpy float division is `FloatDiv`.
- `matrices.dfy` (module `Matrices`) holds vectors and matrices as sequences, numpy slicing of two-dimensional arrays (`Block`, `Table`), and the symmetry facts the filter needs.
- `gps_time.dfy` (module `GpsTime`) models the `gtime_t` pair `(time, sec)`, `epoch2time` and `time2epoch` (with its 48-month walk as a loop), `timeadd`, `timediff`, the UTC and GPS-week conversions, and `time2doy`.
- `gnss_common.dfy` (module `GnssCommon`) holds the constants of `rCST`, the `Obs` and `Eph` records, the elevation weight, `interpc`, the ENU rotation, `satazel`, `geodist` and `geodist_v`.
- `ionosphere.dfy`, `troposphere.dfy` and `pycoord.dfy` hold the atmospheric models and the coordinate conversions as pure functions.
- `ephemeris.dfy` (module `Ephemeris`) models:
  - `seleph` as a linear search;
  - `dtadjust` and `sva2ura`;
  - `eph2clk` with its two fixed-point passes;
  - `eph2pos` with its Kepler loop, orbit and relativistic clock term;
  - `ephpos` filling its buffers in place;
  - `satposs` writing the rows of its two tables in place.
- `measurements.dfy` (module `Measurements`) is the satellite loop the two builders share, `design_wetight_matrix_wls` and `design_matrix_ekf`.
  - Each satellite is rejected for one of four reasons, or gives a pseudorange row and possibly a range-rate row.
  - The rows are written into `v`, `H` and `P` at the counter `nv`.
  - The two builders differ only in the weighting scheme: a weight and five times it, or a variance and a fifth of it.
- `wls.dfy` (module `Wls`) models `lst`, `estpos` with its capped loop and early exit, and the epoch loop of `WLS_pos_vel_estimation`.
- `ekf.dfy` (module `Ekf`) covers:
  - the transition, initial covariance and process noise;
  - the prediction and the Joseph-form update;
  - `design_matrix_ekf` with its trimming;
  - the pass loop of `ekf_iteration`;
  - a `Filter` class that carries `x`, `P` and `prev_time` across epochs, as `EKF_pos_vel_estimation` does.

The loops of the estimators are proved against specification functions, which carry the properties:

- `EstposFrom` and `EkfFrom` for the pass loops;
- `WlsRecords` for the WLS epoch loop;
- `Run` for the filter over all epochs.

The builders, the solver and the per-epoch iteration are passed to these loops as ghost functions. Predicates tie each one to the concrete model, so every loop is verified once against its abstract pass:

- `Builds` ties a builder to `EpochRows`;
- `Solves` ties a pass to the one-pass functions `Wls.Step` and `Ekf.Step`;
- `Fixed` ties a solver to `EpochFix`;
- `Follows` ties an iteration to `EpochIterate`.

## Model

| member | source | states |
|---|---|---|
| GpsTime.Epoch2Time | wls_ekf/gnsscommon.py:92-108 | the zero time for a year outside 1970..2099 or a month outside 1..12; for a non-negative seconds field the fractional part `sec` lies in [0, 1) |
| GpsTime.Epoch2TimeOrigins | wls_ekf/gnsscommon.py:13 | 1970-01-01 00:00:00 is time 0 and the GPS origin 1980-01-06 is 315964800 s |
| GpsTime.CycleTable | wls_ekf/gnsscommon.py:94-104 | row r of the 48-month `mday` table is the calendar of year 1970 + r, and its running sum equals the `doy` table plus the leap days epoch2time adds |
| GpsTime.MonthUnique | wls_ekf/gnsscommon.py:160-171 | a day of the 1461-day cycle has exactly one (month, day-in-month) decomposition against the `mday` table |
| GpsTime.MonthWalk | wls_ekf/gnsscommon.py:167-171 | the month walk stops inside the 48-month table with a day inside its month, and month start plus day is the day it started from |
| GpsTime.DayCountOf | wls_ekf/gnsscommon.py:164-165 | for non-negative times `int(t.time/86400)` is the integer quotient and the seconds of the day are the remainder |
| GpsTime.Time2Epoch | wls_ekf/gnsscommon.py:158-179 | the loop over the month table computes the epoch `EpochOf(t)` |
| GpsTime.EpochRoundTrip | wls_ekf/gnsscommon.py:92-179 | time2epoch(epoch2time(ep)) == ep for every valid calendar epoch of 1970..2099 |
| GpsTime.TimeRoundTrip | wls_ekf/gnsscommon.py:92-179 | epoch2time(time2epoch(t)) == t for every normalised time of 1970..2099 |
| GpsTime.TimeAdd | wls_ekf/gnsscommon.py:122-129 | the result has 0 <= sec < 1 and timediff(timeadd(t, s), t) == s |
| GpsTime.TimeAddTwice | wls_ekf/gnsscommon.py:122-129 | shifting by a and then by b is shifting by a + b |
| GpsTime.TimeAddZero | wls_ekf/gnsscommon.py:122-129 | shifting a normalised time by zero leaves it unchanged |
| GpsTime.TimeDiff | wls_ekf/gnsscommon.py:132-136 | definition of timediff as the difference of whole seconds plus the difference of fractions; it is the inverse partner of timeadd in `TimeAdd`, `UtcRoundTrip` and `Time2DoyIsYearDay` |
| GpsTime.Gpst2Utc | wls_ekf/gnsscommon.py:111-114 | definition: timeadd by the leap seconds; `UtcRoundTrip` proves utc2gpst undoes it and that the two times differ by the leap seconds |
| GpsTime.Utc2Gpst | wls_ekf/gnsscommon.py:116-119 | definition: timeadd by minus the leap seconds; its property is `UtcRoundTrip` |
| GpsTime.UtcRoundTrip | wls_ekf/gnsscommon.py:111-119 | utc2gpst(gpst2utc(t)) == t for a normalised t, and the two differ by the leap seconds |
| GpsTime.Gpst2Time | wls_ekf/gnsscommon.py:139-146 | definition of gpst2time with Python int() truncation of tow; its properties are `Gpst2TimeGuard`, `GpsWeekRoundTrip` and `GpsTimeRoundTrip` |
| GpsTime.Gpst2TimeGuard | wls_ekf/gnsscommon.py:139-146 | a time of week beyond ±1e9 s is read as 0; a tow in [0, 1e9] adds its whole seconds to the week's start and keeps a fraction in [0, 1) |
| GpsTime.Time2Gpst | wls_ekf/gnsscommon.py:149-155 | definition of time2gpst with the week truncated toward zero; `GpsWeekRoundTrip` and `GpsTimeRoundTrip` prove it inverts gpst2time |
| GpsTime.GpsWeekRoundTrip | wls_ekf/gnsscommon.py:139-155 | time2gpst(gpst2time(week, tow)) == (week, tow) for week >= 0 and 0 <= tow < 604800 |
| GpsTime.GpsTimeRoundTrip | wls_ekf/gnsscommon.py:139-155 | a normalised time at or after the GPS origin survives the trip through week and time of week, and its tow lies in [0, 604800) |
| GpsTime.Time2Doy | wls_ekf/gnsscommon.py:182-187 | definition of time2doy: timediff from 1 January of the time's own year, in days, plus one; `Time2DoyIsYearDay` states its value |
| GpsTime.Time2DoyIsYearDay | wls_ekf/gnsscommon.py:182-187 | time2doy is the calendar day of the year of the epoch plus the elapsed fraction of that day |
| GnssCommon.SineWeightBounds | wls_ekf/gnsscommon.py:223-228 | for sin el in (0, 1] the weight is positive and at most 1/(a²+b²) = 5000, reached exactly at sin el = 1 |
| GnssCommon.SineWeightMonotone | wls_ekf/gnsscommon.py:225-228 | the weight grows strictly with sin el |
| GnssCommon.SineWeightEven | wls_ekf/gnsscommon.py:227 | the weight depends on sin el only through its square |
| GnssCommon.ElevationWeight | wls_ekf/gnsscommon.py:219-228 | definition of get_weight_based_elevation; `ElevationWeightRange`, `SineWeightBounds`, `SineWeightMonotone` and `SineWeightEven` carry its properties |
| GnssCommon.ElevationWeightRange | wls_ekf/gnsscommon.py:219-228 | the weight is 0 at or below the horizon, and lies in (0, 5000] above it up to the zenith |
| GnssCommon.Interpc | wls_ekf/gnsscommon.py:315-323 | the interpolated column has one entry per table row |
| GnssCommon.InterpcLow | wls_ekf/gnsscommon.py:317-319 | below 15 degrees, negative latitudes included, interpc returns column 0 |
| GnssCommon.InterpcHigh | wls_ekf/gnsscommon.py:320-321 | from 75 degrees on interpc returns column 4 |
| GnssCommon.InterpcBetween | wls_ekf/gnsscommon.py:317-323 | in [15, 75) the index i = int(lat/15) lies in 1..4 and brackets lat, and every entry lies between columns i-1 and i |
| GnssCommon.InterpcNodes | wls_ekf/gnsscommon.py:317-323 | at latitudes 15, 30, 45, 60, 75 interpc returns the table column itself |
| GnssCommon.Xyz2Enu | wls_ekf/gnsscommon.py:239-250 | definition of the xyz2enu matrix; `Numerics.LocalFrameOrthonormal` proves it orthonormal |
| GnssCommon.Ecef2Enu | wls_ekf/gnsscommon.py:292-296 | definition E·r; `EnuRoundTrip` proves enu2ecef undoes it |
| GnssCommon.Enu2Ecef | wls_ekf/gnsscommon.py:298-302 | definition Eᵀ·e; `EnuRoundTrip` proves ecef2enu undoes it |
| GnssCommon.EnuRoundTrip | wls_ekf/gnsscommon.py:239-302 | enu2ecef(pos, ecef2enu(pos, r)) == r and ecef2enu(pos, enu2ecef(pos, e)) == e under sin² + cos² = 1 |
| GnssCommon.Satazel | wls_ekf/gnsscommon.py:304-313 | definition of satazel; `SatazelRange` and `SatazelDegenerate` carry its ranges and degenerate cases |
| GnssCommon.SatazelRange | wls_ekf/gnsscommon.py:304-313 | above the centre region the azimuth is in (0, 2π]; always az in [0, 2π] and el in [-π/2, π/2] |
| GnssCommon.SatazelDegenerate | wls_ekf/gnsscommon.py:306-313 | a position deeper than the earth radius gives (0, π/2); a near-zero local vector gives azimuth 2π |
| GnssCommon.Geodist | wls_ekf/gnsscommon.py:189-203 | definition of geodist; `GeodistUnit` carries its properties |
| GnssCommon.GeodistV | wls_ekf/gnsscommon.py:205-217 | definition of geodist_v; `GeodistVScale` carries its property |
| GnssCommon.GeodistUnit | wls_ekf/gnsscommon.py:189-203 | for rs ≠ rr the line of sight is a unit vector, the norm times it is rs - rr, and the range exceeds the norm by the Sagnac term |
| GnssCommon.GeodistVScale | wls_ekf/gnsscommon.py:205-217 | for r ≠ 0, r times geodist_v is the velocity difference |
| Numerics.Trunc | wls_ekf/gnsscommon.py:96-98 | Python int() truncates toward zero: for x >= 0 the result is the floor, and for x < 0 the ceiling |
| Numerics.FloatDiv | wls_ekf/ekf.py:124-125 | for a non-zero divisor the quotient times the divisor is the dividend |
| Numerics.TransposeInverts | wls_ekf/gnsscommon.py:298-302 | the transpose of a matrix with orthonormal rows undoes it |
| Numerics.LocalFrameOrthonormal | wls_ekf/gnsscommon.py:239-250 | the xyz2enu matrix has orthonormal rows and columns under sin² + cos² = 1 |
| PyCoord.Eccentricity2 | wls_ekf/pycoord.py:5-18 | f(2 - f) of each of the three ellipsoids lies in (0, 0.01) |
| PyCoord.Degree2Radian | wls_ekf/pycoord.py:31-45 | definition deg·π/180; `AngleRoundTrip` proves radian2degree undoes it |
| PyCoord.Radian2Degree | wls_ekf/pycoord.py:48-62 | definition rad·180/π; `AngleRoundTrip` proves degree2radian undoes it |
| PyCoord.Xyz2Blh | wls_ekf/pycoord.py:65-101 | definition of the closed-form xyz2blh; no property of its own is proved (see "## Left out"); it supplies the base latitude and longitude of `BaseNeuRotation` |
| PyCoord.AngleRoundTrip | wls_ekf/pycoord.py:31-62 | radian2degree(degree2radian(d)) == d and degree2radian(radian2degree(r)) == r |
| PyCoord.Blh2Xyz | wls_ekf/pycoord.py:104-132 | definition of blh2xyz; `Blh2XyzRadius` and `Blh2XyzOrigin` carry its properties |
| PyCoord.Blh2XyzRadius | wls_ekf/pycoord.py:125-128 | the radicand 1 - e² sin² lat lies in (0, 1], so the prime-vertical radius is a positive quotient |
| PyCoord.Blh2XyzOrigin | wls_ekf/pycoord.py:104-132 | blh2xyz(0, 0, 0) == (a, 0, 0) |
| PyCoord.NeuMatrixTranspose | wls_ekf/pycoord.py:165-169 | the neu2xyz matrix is the transpose of the xyz2neu matrix, whose rows are the north, east and up rows of the ENU frame |
| PyCoord.NeuMatrixOrthonormal | wls_ekf/pycoord.py:206-210 | the xyz2neu matrix and its transpose have orthonormal rows under sin² + cos² = 1 |
| PyCoord.BaseNeuRotation | wls_ekf/pycoord.py:160-169 | at any base, neu2xyz's matrix is the transpose of xyz2neu's, and both are rotations |
| PyCoord.NeuRotationAt | wls_ekf/pycoord.py:200-210 | the two matrices built from the same latitude and longitude are transposes, and both are rotations |
| PyCoord.NeuAtBase | wls_ekf/pycoord.py:170-172 | xyz2neu(base, base) == (0, 0, 0) and neu2xyz(0, 0, 0, base) == base |
| PyCoord.Xyz2Neu | wls_ekf/pycoord.py:175-212 | definition of xyz2neu as the NEU matrix at the base times rover - base; `NeuAtBase` and `NeuRoundTrip` carry its properties |
| PyCoord.Neu2Xyz | wls_ekf/pycoord.py:135-172 | definition of neu2xyz as the transposed matrix times neu plus the base; `NeuAtBase` and `NeuRoundTrip` carry its properties |
| PyCoord.NeuRoundTrip | wls_ekf/pycoord.py:135-212 | neu2xyz(xyz2neu(base, rover), base) == rover and xyz2neu(base, neu2xyz(neu, base)) == neu |
| Ionosphere.PiercedLat | wls_ekf/ionosphere.py:22-24 | the pierce-point latitude is clamped to [-0.416, 0.416] semicircles |
| Ionosphere.LocalTimeRange | wls_ekf/ionosphere.py:29-30 | the local time lies in [0, 86400); a time already there is kept; a whole day more gives the same local time |
| Ionosphere.SlantFactorAboveOne | wls_ekf/ionosphere.py:31 | for 0 <= el <= π/2 the slant factor exceeds 1 |
| Ionosphere.Amplitude | wls_ekf/ionosphere.py:33-36 | amp >= 0, and it is 0 or the cubic of the first coefficient row |
| Ionosphere.Period | wls_ekf/ionosphere.py:33-37 | per >= 72000, and it is 72000 or the cubic of the second coefficient row |
| Ionosphere.PulsePositive | wls_ekf/ionosphere.py:39-40 | 1 - x²/2 + x⁴/24 > 0 for abs(x) < 1.57 |
| Ionosphere.VerticalDelayFloor | wls_ekf/ionosphere.py:38-42 | the vertical delay is at least 5e-9, and exactly 5e-9 for abs(x) >= 1.57 |
| Ionosphere.IonModel | wls_ekf/ionosphere.py:20-44 | definition of the Klobuchar ionmodel; `IonModelPositive`, `IonModelNight` and the lemmas on its parts above carry its properties |
| Ionosphere.IonModelPositive | wls_ekf/ionosphere.py:20-44 | for 0 <= el <= π/2 the slant delay is positive, whatever the coefficients |
| Ionosphere.IonModelNight | wls_ekf/ionosphere.py:38-43 | outside the pulse the delay is c · f · 5e-9 |
| Troposphere.FractionAtLeast | wls_ekf/troposphere.py:27 | with non-negative coefficients the continued fraction at s > 0 is at least s |
| Troposphere.Mapf | wls_ekf/troposphere.py:24-27 | definition of mapf; `MapfZenith` and `FractionAtLeast` carry its properties |
| Troposphere.MapfZenith | wls_ekf/troposphere.py:24-27 | mapf is 1 when sin el = 1, and positive when sin el > 0, for non-negative coefficients |
| Troposphere.HeightCorrectionZenith | wls_ekf/troposphere.py:45 | the height correction dm vanishes at the zenith |
| Troposphere.Tropmapf | wls_ekf/troposphere.py:30-33 | (0, 0) below -1 km, above 20 km, or at or below the horizon |
| Troposphere.Niell | wls_ekf/troposphere.py:35-49 | definition of the in-range part of tropmapf; `TropmapfZenith`, `TropmapfWetPositive`, `TropmapfHemisphere` and `CoefficientsNonNegative` carry its properties |
| Troposphere.NmfCoefShaped | wls_ekf/troposphere.py:12-21 | the Niell table is 9×5 and each row lies within its stated range |
| Troposphere.InterpcRanges | wls_ekf/troposphere.py:41 | the coefficients interpolated at any latitude keep the ranges of the table rows |
| Troposphere.CoefficientsNonNegative | wls_ekf/troposphere.py:40-43 | ah = c[0:3] - c[3:6]·cosy and aw = c[6:9] are non-negative for every season |
| Troposphere.TropmapfZenith | wls_ekf/troposphere.py:30-49 | in range at the zenith both mapping functions are exactly 1 |
| Troposphere.TropmapfWetPositive | wls_ekf/troposphere.py:43-47 | in range and above the horizon the wet mapping function is positive |
| Troposphere.TropmapfHemisphere | wls_ekf/troposphere.py:36-41 | a southern point half a year (182.625 days) earlier maps exactly as its northern mirror point |
| Troposphere.Tropmodel | wls_ekf/troposphere.py:52-56 | (0, 0, 0) below -100 m, above 10 km, or at or below the horizon |
| Troposphere.Saastamoinen | wls_ekf/troposphere.py:57-67 | definition of the in-range part of tropmodel; `AtmosphereSigns` and `TropmodelPositive` carry its properties |
| Troposphere.TropmodelSeaLevel | wls_ekf/troposphere.py:57 | a height in [-100, 0) gives the delays at sea level |
| Troposphere.AtmosphereSigns | wls_ekf/troposphere.py:57-61 | for heights in [0, 10 km] pressure and gravity are positive, the temperature lies in [223.16, 288.16] and vapour pressure is non-negative |
| Troposphere.TropmodelPositive | wls_ekf/troposphere.py:52-67 | in range and for 0 < el < π, the hydrostatic delay is positive, the wet delay non-negative, and z == π/2 - el |
| Ephemeris.FirstRecordIsFirst | wls_ekf/ephemeris.py:15-21 | the selected record is the lowest-index record of the satellite; a fresh default record exactly when none matches |
| Ephemeris.FirstRecord | wls_ekf/ephemeris.py:15-21 | definition of the record seleph returns; `FirstRecordIsFirst` characterises it and `Seleph` computes it |
| Ephemeris.BlankRecordHasNoOrbit | wls_ekf/ephemeris.py:57 | a satellite without a record gets a blank record with A = 0, the divisor of mu/A³ where Python raises; the model's mean anomaly there is 0 and the satellite sits at the earth's centre (see "## Left out") |
| Ephemeris.Seleph | wls_ekf/ephemeris.py:15-21 | the search loop returns that record |
| Ephemeris.DtAdjust | wls_ekf/ephemeris.py:23-30 | definition of dtadjust; `DtAdjustProperties` carries its properties |
| Ephemeris.DtAdjustProperties | wls_ekf/ephemeris.py:23-30 | within a week the difference is kept; beyond it, shifted by one week toward zero; within two weeks it lands in [-week, week]; it is antisymmetric |
| Ephemeris.UraNominalIncreasing | wls_ekf/ephemeris.py:35-36 | the URA table increases strictly |
| Ephemeris.Sva2UraAsWritten | wls_ekf/ephemeris.py:33-38 | sva2ura as written, with None for the IndexError; `Sva2UraAsWrittenCounterexample` exhibits its two faults |
| Ephemeris.Sva2UraAsWrittenCounterexample | wls_ekf/ephemeris.py:37-38 | the lookup as written fails at sva = 15 and gives 2.8 (the value of index 1) at sva = 0 |
| Ephemeris.Sva2Ura | wls_ekf/ephemeris.py:33-38 | the corrected sva2ura; `Sva2UraProperties` carries its properties |
| Ephemeris.Sva2UraProperties | wls_ekf/ephemeris.py:33-38 | the corrected lookup is positive, reads index n at n in 0..15, is monotone on [0, 15], and the as-written lookup at n is the corrected one at n + 1 |
| Ephemeris.ClockOffset | wls_ekf/ephemeris.py:109-115 | definition of the eph2clk result; `Eph2Clk` computes it and `ClockOffsetDriftFree` carries its property |
| Ephemeris.Eph2Clk | wls_ekf/ephemeris.py:109-115 | the two fixed-point passes compute `ClockOffset` |
| Ephemeris.ClockOffsetDriftFree | wls_ekf/ephemeris.py:111-114 | with f1 = f2 = 0 every pass lands on ts - f0 and the clock offset is f0 |
| Ephemeris.StopIndexFirst | wls_ekf/ephemeris.py:59-62 | the Kepler loop stops at the first converged index, at most MAX_ITER_KEPLER = 30 |
| Ephemeris.SolveKepler | wls_ekf/ephemeris.py:58-64 | the loop takes n <= 30 Newton steps, stops early only when successive anomalies differ by less than 1e-13, and no earlier step had converged |
| Ephemeris.CircularAnomaly | wls_ekf/ephemeris.py:59-64 | on a circular orbit (e = 0) the eccentric anomaly is the mean anomaly |
| Ephemeris.KeplerResidual | wls_ekf/ephemeris.py:61-64 | an early stop leaves Kepler's equation residual below 1e-13 times its slope |
| Ephemeris.Eph2PosOf | wls_ekf/ephemeris.py:41-87 | definition of the eph2pos result; `SatFixRadius` and `CircularClock` carry its properties (A = 0 differs, see "## Left out") |
| Ephemeris.Eph2Pos | wls_ekf/ephemeris.py:41-87 | the method computes `Eph2PosOf`: orbit position and clock with relativistic term |
| Ephemeris.SatFixRadius | wls_ekf/ephemeris.py:66-82 | the satellite lies at the corrected orbit radius r from the earth's centre |
| Ephemeris.CircularClock | wls_ekf/ephemeris.py:83-86 | with e = 0 the clock is f0 + f1·tk + f2·tk² with tk = dtadjust(t, toc) |
| Ephemeris.EphPosOf | wls_ekf/ephemeris.py:90-102 | definition of the ephpos result; `FiniteDifferenceStep` carries its property |
| Ephemeris.EphPos | wls_ekf/ephemeris.py:90-102 | the buffers hold `EphPosOf`: eph2pos at t, then the difference quotient to t + 1e-3 |
| Ephemeris.FillDifference | wls_ekf/ephemeris.py:100-101 | the in-place update turns the second evaluation into the difference quotient |
| Ephemeris.FiniteDifferenceStep | wls_ekf/ephemeris.py:95-101 | position and clock at t moved on by 1e-3 s at the computed rates give the second evaluation |
| Ephemeris.SatRow | wls_ekf/ephemeris.py:147-161 | definition of row i of satposs; `SatRowLocal` carries its property and `Satposs` writes it |
| Ephemeris.SatRowLocal | wls_ekf/ephemeris.py:147-161 | a row of satposs depends only on the satellite number and time of that observation, not on its pseudorange |
| Ephemeris.SatposRow | wls_ekf/ephemeris.py:148-161 | one pass: the record, the clock offset taken off the time, and ephpos at the corrected time |
| Ephemeris.Satposs | wls_ekf/ephemeris.py:143-162 | n×6 and n×2 tables whose row i is the row of observation i, for any visiting order covering every index |
| Measurements.Corrections | wls_ekf/wls.py:40-48 | ionospheric and tropospheric delays are zero on the first pass |
| Measurements.SatOutcome | wls_ekf/wls.py:30-79 | definition of the outcome of one satellite; `AcceptedSatellite` characterises rejection and acceptance, `RowsLaid` the rows |
| Measurements.CodeLine | wls_ekf/wls.py:52-58 | definition of the pseudorange residual and design row; `RowsLaid` states its layout |
| Measurements.RateLine | wls_ekf/wls.py:62-77 | definition of the range-rate residual and design row; `RowsLaid` and `RateGeometryOrthogonal` state its layout and geometry |
| Measurements.AcceptedSatellite | wls_ekf/wls.py:30-64 | a satellite is rejected exactly when its position is inside the earth, r < 0, el < MIN_EL or P == 0; an accepted one has MIN_EL <= el <= π/2, eight-wide rows, and a range-rate row exactly when D ≠ 0 |
| Measurements.IonosphereActive | wls_ekf/wls.py:40-42 | from the second pass on the ionospheric delay is positive |
| Measurements.RateGeometryOrthogonal | wls_ekf/wls.py:72-74 | the position part of a range-rate row is orthogonal to the unit line of sight |
| Measurements.CodeWeight | wls_ekf/ekf.py:72 | definition of the pseudorange weight w(el) (WLS, wls.py:60) or variance 3/w (EKF); `CodeWeightRange` carries its range |
| Measurements.DopplerWeight | wls_ekf/ekf.py:92 | definition of the range-rate weight from the pseudorange weight before it, five times it (WLS, wls.py:78) or a fifth (EKF); `RowsLaid` states it |
| Measurements.CodeWeightRange | wls_ekf/ekf.py:72 | the pseudorange weight lies in (0, 5000] and the EKF variance 3/w is at least 3/5000 |
| Measurements.EpochRows | wls_ekf/wls.py:30-79 | the rows of one builder call are all eight wide |
| Measurements.RowsBound | wls_ekf/wls.py:19-21 | at most two rows per satellite, so nv <= 2·ns |
| Measurements.RowsFromSatellite | wls_ekf/wls.py:55-79 | each row is the pseudorange or range-rate row of its own satellite |
| Measurements.RowsPaired | wls_ekf/wls.py:61-79 | a range-rate row directly follows the pseudorange row of the same satellite |
| Measurements.RowsOrdered | wls_ekf/wls.py:30 | rows appear in satellite order |
| Measurements.RowsBefore | wls_ekf/wls.py:30 | rows of the first satellites name only those satellites |
| Measurements.RowsLaid | wls_ekf/wls.py:55-78 | rows have the layout [-e, 1, 0…] and [-ev + e(e·ev), 0, -e, 1], with weights w(el) and 5w (WLS) or 3/w and a fifth of it (EKF) |
| Measurements.EpochRowsLaid | wls_ekf/ekf.py:42-93 | every builder call's rows have that layout |
| Measurements.RowsComplete | wls_ekf/wls.py:55-79 | every accepted satellite contributes a pseudorange row, and a range-rate row when it has one |
| Measurements.BuildRows | wls_ekf/wls.py:19-80 | the loop leaves nv == number of rows, the rows in v, H, P from index 0, zeros everywhere else |
| Measurements.AddSatellite | wls_ekf/wls.py:55-79 | the rows of one satellite are appended at nv, the range-rate weight read back from P[nv-1, nv-1] |
| Measurements.PutRow | wls_ekf/wls.py:55-61 | one row written into v, H and P keeps the layout |
| Measurements.MeasureSat | wls_ekf/wls.py:31-51 | the checks are made in source order and give the satellite's outcome |
| Measurements.HoldsSliced | wls_ekf/wls.py:100-102 | v[:nv], H[:nv, :8] and P[:nv, :nv] are the residuals, design matrix and diagonal weight matrix of the rows |
| Measurements.Residuals | wls_ekf/wls.py:100 | one residual per row, in row order |
| Measurements.Design | wls_ekf/wls.py:101 | an nv×8 matrix whose rows are the design rows |
| Measurements.Weighting | wls_ekf/wls.py:102 | a diagonal matrix carrying each row's weight |
| Measurements.Passes | wls_ekf/wls.py:97 | the builder over an epoch gives the rows of each pass |
| Measurements.Positions | wls_ekf/ephemeris.py:143-162 | one row of satposs per observation |
| Measurements.Clocks | wls_ekf/ephemeris.py:143-162 | one clock row of satposs per observation |
| Measurements.EpochWellFormed | wls_ekf/wls.py:119-120 | satposs tables have the shapes the builders need |
| Measurements.EpochTables | wls_ekf/wls.py:119 | satposs in index order yields those tables |
| Measurements.Record | wls_ekf/wls.py:121 | a record has seven entries and starts with obs.t[0] |
| Measurements.SmallStepSquared | wls_ekf/wls.py:105 | norm(dx) < 1e-4 exactly when dx·dx < 1e-8 |
| Wls.DesignWeightMatrixWls | wls_ekf/wls.py:14-80 | full 2·ns buffers returned untrimmed, the rows in front and zeros after them |
| Wls.Lst | wls_ekf/wls.py:82-88 | dx has eight entries and solves the normal equations (HᵀPH)·dx = HᵀPv when HᵀPH is invertible |
| Wls.InverseSolves | wls_ekf/wls.py:85-87 | inv(N)·b solves N·y = b for invertible N |
| Wls.LstUnique | wls_ekf/wls.py:82-88 | lst's step is the only solution of the normal equations |
| Wls.Step | wls_ekf/wls.py:97-103 | a pass gives no step exactly when fewer than eight rows are accepted |
| Wls.Lsts | wls_ekf/wls.py:96-103 | the passes of estpos agree with Step |
| Wls.EstposFrom | wls_ekf/wls.py:96-107 | the state after the remaining passes has eight entries |
| Wls.Advance | wls_ekf/wls.py:98-106 | one pass and the rest keep eight entries |
| Wls.EstposStarved | wls_ekf/wls.py:98-99 | passes without eight rows leave x unchanged |
| Wls.EstposZero | wls_ekf/wls.py:92-99 | if no pass has eight rows the result is the zero vector |
| Wls.Applied | wls_ekf/wls.py:96-104 | at most one step per remaining pass, MAXITR = 10 in all |
| Wls.EstposSum | wls_ekf/wls.py:92-107 | the result is the zero start plus the steps applied |
| Wls.AppliedContinues | wls_ekf/wls.py:105-106 | every applied step but the last has norm >= 1e-4 |
| Wls.AddTo | wls_ekf/wls.py:104 | x += dx in place |
| Wls.Estpos | wls_ekf/wls.py:90-107 | the loop returns `EstposFrom` from the zero state |
| Wls.EstposPass | wls_ekf/wls.py:97-103 | one loop body gives the pass's step |
| Wls.EpochFix | wls_ekf/wls.py:119-120 | estpos over one epoch gives eight entries |
| Wls.Fixes | wls_ekf/wls.py:119-120 | the solver agrees with EpochFix |
| Wls.WlsRecordsCount | wls_ekf/wls.py:114-121 | one record per epoch with at least four satellites, seven wide and tagged with that epoch's time |
| Wls.WlsPosVel | wls_ekf/wls.py:109-122 | the epoch loop emits `WlsRecords`, each epoch solved from scratch |
| Wls.WlsEpoch | wls_ekf/wls.py:119-120 | one epoch: satposs then estpos |
| Ekf.Transition | wls_ekf/ekf.py:18-22 | F is 8×8, the identity plus dt at (0,4), (1,5), (2,6), (3,7) |
| Ekf.TransitionRow | wls_ekf/ekf.py:18-22 | row i of F is unit row i plus dt times unit row i+4 for i < 4, otherwise unit row i |
| Ekf.Predicted | wls_ekf/ekf.py:23 | (F·x)[k] == x[k] + dt·x[k+4] for k < 4 and x[k] for 4 <= k < 8 |
| Ekf.InitialCovariance | wls_ekf/ekf.py:107-111 | P is 8×8 |
| Ekf.InitialCovarianceShape | wls_ekf/ekf.py:102-112 | P is diagonal and symmetric with 1e4 on 0..3 and 1e2 on 4..7 |
| Ekf.ProcessNoise | wls_ekf/ekf.py:119-126 | Q is 8×8 |
| Ekf.ProcessNoiseShape | wls_ekf/ekf.py:115-126 | Q diagonal, 0.25·dt on 0..2 and 0.01·dt on 4..6; for dt ≠ 0, Q33·dt² = 0.25 and Q77·dt² = 0.01; positive diagonal for dt > 0 |
| Ekf.PredictedCovariance | wls_ekf/ekf.py:135 | F·P·Fᵀ + Q is 8×8 |
| Ekf.Predict | wls_ekf/ekf.py:133-135 | prediction keeps the shapes |
| Ekf.PredictSymmetric | wls_ekf/ekf.py:135 | F·P·Fᵀ + Q is symmetric when P is |
| Matrices.SandwichSymmetric | wls_ekf/ekf.py:135 | A·M·Aᵀ is symmetric whenever M is |
| Ekf.Innovation | wls_ekf/ekf.py:141-142 | S = H·P·Hᵀ + R is nv×nv |
| Ekf.Gain | wls_ekf/ekf.py:143 | K is 8×nv |
| Ekf.GainEquation | wls_ekf/ekf.py:141-143 | K·S == P·Hᵀ whenever S is invertible |
| Ekf.Joseph | wls_ekf/ekf.py:146-147 | the Joseph form is 8×8 |
| Ekf.JosephSymmetric | wls_ekf/ekf.py:146-147 | the Joseph form is symmetric for symmetric P and diagonal R, whatever K |
| Ekf.Update | wls_ekf/ekf.py:141-147 | dx has eight entries and the new x is x + dx |
| Ekf.UpdateSymmetric | wls_ekf/ekf.py:141-147 | an update keeps P symmetric |
| Ekf.DiagonalOf | wls_ekf/ekf.py:96-98 | R_valid is nv×nv, diagonal, with R's diagonal entries |
| Ekf.LeadingRows | wls_ekf/ekf.py:95 | H[:nv, :] copies the leading rows |
| Ekf.Trim | wls_ekf/ekf.py:94-98 | trimmed outputs are the residuals, design matrix and weighting of the rows |
| Ekf.DesignMatrixEkf | wls_ekf/ekf.py:27-99 | nv == number of rows <= 2·ns; v, H, R are the rows' residuals, design and variances |
| Ekf.Step | wls_ekf/ekf.py:137-147 | no update exactly when nv < 8; otherwise x + dx with shapes kept |
| Ekf.Updates | wls_ekf/ekf.py:136-147 | the passes agree with Step |
| Ekf.UpdatesKeepSymmetry | wls_ekf/ekf.py:141-147 | every pass keeps P symmetric |
| Ekf.EkfFrom | wls_ekf/ekf.py:136-150 | the estimate after the remaining passes keeps the shapes |
| Ekf.EkfFromGoesOn | wls_ekf/ekf.py:145-149 | a pass with a large step hands its estimate to the next pass |
| Ekf.EkfIterationOf | wls_ekf/ekf.py:129-150 | ekf_iteration keeps the shapes |
| Ekf.EkfStarved | wls_ekf/ekf.py:133-140 | fewer than eight rows on the first pass returns exactly (F·x, F·P·Fᵀ + Q) |
| Ekf.EkfStopsStarved | wls_ekf/ekf.py:139-140 | a later starved pass returns the estimate corrected so far |
| Ekf.EkfFromSymmetric | wls_ekf/ekf.py:136-150 | symmetry of P survives the passes |
| Ekf.EkfIterationSymmetric | wls_ekf/ekf.py:129-150 | ekf_iteration keeps a symmetric P symmetric |
| Ekf.Applied | wls_ekf/ekf.py:136-145 | at most one step per remaining pass |
| Ekf.EkfSum | wls_ekf/ekf.py:136-149 | x returned is x plus the applied steps; each but the last has norm >= 1e-4 |
| Ekf.EkfPass | wls_ekf/ekf.py:137-147 | one loop body gives the pass's result |
| Ekf.EkfIteration | wls_ekf/ekf.py:129-150 | the method returns `EkfIterationOf` |
| Ekf.EpochIterate | wls_ekf/ekf.py:169-177 | per-epoch iteration keeps the shapes |
| Ekf.Iterates | wls_ekf/ekf.py:177 | the iteration agrees with EpochIterate |
| Ekf.EpochIterateSymmetric | wls_ekf/ekf.py:177 | per-epoch iteration keeps P symmetric |
| Ekf.Start | wls_ekf/ekf.py:161-162 | initial state: symmetric P and no previous time |
| Ekf.Next | wls_ekf/ekf.py:171-177 | the state after a processed epoch keeps an 8-entry x and an 8×8 P |
| Ekf.Run | wls_ekf/ekf.py:164-179 | the run over all epochs keeps the shapes |
| Ekf.RunStep | wls_ekf/ekf.py:164-178 | an epoch with fewer than four satellites leaves the state and records unchanged; any other updates both |
| Ekf.RunCount | wls_ekf/ekf.py:164-178 | one seven-wide tagged record per usable epoch; prev_time unchanged when none is usable |
| Ekf.RunPrev | wls_ekf/ekf.py:162-176 | the kept time is the time tag of the last epoch with at least four satellites, or the starting value if there is none |
| Ekf.EpochInterval | wls_ekf/ekf.py:171-175 | a processed epoch's dt is 0.1 when no earlier epoch was processed, and otherwise its t0 minus the last processed epoch's t0 |
| Ekf.RunSymmetric | wls_ekf/ekf.py:164-178 | P stays symmetric over the whole run |
| Ekf.Filter.constructor | wls_ekf/ekf.py:161-162 | a new filter is valid and in the start state |
| Ekf.Filter.Epoch | wls_ekf/ekf.py:165-178 | fewer than four satellites changes nothing; otherwise the state becomes Next and the record is returned |
| Ekf.EkfEpoch | wls_ekf/ekf.py:169-177 | satposs then ekf_iteration, shapes and symmetry kept |
| Ekf.EkfPosVel | wls_ekf/ekf.py:153-179 | one filter over all epochs gives the records of `Run` |

## Left out

- `read_mat.py`, `main.py` and `plot/` are file I/O, result formatting and plotting. The models take the epochs and ephemeris records as already-read values.
- Floating point is modelled with exact `real` arithmetic. Rounding, inf, nan and numpy warnings are not modelled. `FloatDiv` gives 0 where numpy would give inf or nan.
- Ekf.ProcessNoise: at dt = 0 numpy gives inf for Q[3][3] and Q[7][7]; the model gives 0 there.
- sin, cos, asin, atan2, sqrt, exp, pow, numpy `inv` and the iterative `ecef2pos` are fields of `Numerics`. Their accuracy and the convergence of `ecef2pos` are not modelled. Only the named laws are assumed where a property needs them.
- `pos2ecef` is not called by the estimators, so it is not modelled. The iterative `ecef2pos` is a field of `Numerics`.
- PyCoord.Xyz2Blh: the closed form is modelled as written, but no property of it is proved. Its accuracy rests on the `atan2`, `sqrt`, `sin` and `cos` of `Numerics`.
- `get_weight_based_SNR` is never called, so it is not modelled.
- Ephemeris.Eph2Pos: a record with A = 0 makes Python raise ZeroDivisionError at `mu / eph.A ** 3` (wls_ekf/ephemeris.py:57). The model's `FloatDiv` reads that mean motion as 0 and returns a fix (`BlankRecordHasNoOrbit`). The model does not stop there as Python does.
- Ephemeris.EphPos: for A = 0 Python raises in its first eph2pos call, where the model fills both buffers.
- Ephemeris.SatposRow: `seleph` gives a satellite without a record the blank record, whose A is 0, so Python raises in eph2pos. The model writes that row; its position is the earth's centre.
- Ephemeris.Satposs: an observed satellite without a record aborts Python's satposs with ZeroDivisionError. The model fills its rows, and the builders then reject the satellite because its position lies inside the earth.
- Wls.WlsPosVel: an epoch with an observed satellite that has no record ends Python's whole run in satposs. The model goes on without that satellite.
- Ekf.EkfPosVel: the same as for Wls.WlsPosVel. Python's run ends in satposs; the filter of the model goes on without that satellite.
- GnssCommon.NewEph: Python's blank record keeps `tgd` as the list [0.0, 0.0], and `obs.P[i] - tmp_eph.tgd * rCST.CLIGHT` would raise TypeError on it (wls_ekf/wls.py:53, wls_ekf/ekf.py:66). satposs raises first for the same satellite. The model's record has one group delay, 0.0 in the blank record.
- Ephemeris.SolveKepler: Newton accuracy is not claimed. Only the iteration structure, the stopping rule and the residual at stop are modelled.
- Ephemeris.Satposs: `np.argsort` is not computed. The method accepts any visiting order covering every index, and the order does not change the tables.
- Ephemeris.Satposs: the `eph is None` branch at wls_ekf/ephemeris.py:155 is dead code because `seleph` never returns None, so it is not modelled.
- The `satpos` and `ephclk` wrappers are inlined.
- `ELLIPSOIDS[ell]` with an unknown name raises KeyError. The model's ellipsoid is a datatype with only the three names.
- Wls.Lst: a singular HᵀPH raises LinAlgError in numpy. The model's contract holds only under `Invertible`.
- Ekf.GainEquation: holds only under `Invertible`, for the same reason.
- Measurements.PutRow writes the whole design row, including zeros the Python code leaves untouched. The arrays are the same because they start at zero.
- The `gtime_t` copy in `timeadd` is modelled as a value, so no aliasing is possible.
- Ekf.Filter.Epoch: `satposs` and the iteration are passed as a ghost function tied to `EpochIterate` by `Follows`. The method calls the concrete code, and the ghost function only states what it computes.
- Wls.WlsPosVel: the ghost solver it takes is tied to `EpochFix` by `Fixed`, for the same reason.
- Numeric values of range, line of sight, delays and weights are not computed, beyond the properties stated above.

## Findings

| source | as written | input that shows it | evidently intended | confidence | as-written member | corrected member |
|---|---|---|---|---|---|---|
| wls_ekf/ephemeris.py:38 | `ura_nominal[int(sva) + 1]` reads one entry past the URA index | sva = 15 raises IndexError on the 16-entry table; sva = 0 yields 2.8 instead of 2.0 | `ura_nominal[int(sva)]` | not executed | Ephemeris.Sva2UraAsWrittenCounterexample | Ephemeris.Sva2UraProperties |
