/** GPS time and calendar arithmetic of gnsscommon (rtklib's gtime_t): a time is
    whole seconds since 1970-01-01 00:00:00 plus a fractional part; calendar dates
    are counted over a 1461-day four-year cycle of 48 months, which is exact for
    the years 1970..2099 (2000 is a leap year and 2100 is outside the range). */
module GpsTime {
  import opened Numerics

  datatype GTime = GTime(time: int, sec: real)

  /** A calendar epoch [year, month, day, hour, minute, second]. epoch2time reads
      it as floats and truncates the first five fields; time2epoch produces
      integral values in them. */
  datatype Epoch = Epoch(year: real, month: real, day: real, hour: real, minute: real, second: real)

  /** First day of each month, one-based, in a year without 29 February. */
  const Doy: seq<int> := [1, 32, 60, 91, 121, 152, 182, 213, 244, 274, 305, 335]

  /** Month lengths over the cycle 1970, 1971, 1972 (leap), 1973. */
  const Mday: seq<int> :=
    [31, 28, 31, 30, 31, 30, 31, 31, 30, 31, 30, 31] +
    [31, 28, 31, 30, 31, 30, 31, 31, 30, 31, 30, 31] +
    [31, 29, 31, 30, 31, 30, 31, 31, 30, 31, 30, 31] +
    [31, 28, 31, 30, 31, 30, 31, 31, 30, 31, 30, 31]

  /** Cum[k] is the number of days in the first k months of the cycle. */
  const Cum: seq<int> :=
    [0, 31, 59, 90, 120, 151, 181, 212, 243, 273, 304, 334] +
    [365, 396, 424, 455, 485, 516, 546, 577, 608, 638, 669, 699] +
    [730, 761, 790, 821, 851, 882, 912, 943, 974, 1004, 1035, 1065] +
    [1096, 1127, 1155, 1186, 1216, 1247, 1277, 1308, 1339, 1369, 1400, 1430] + [1461]

  /** The GPS time origin 1980-01-06 00:00:00. */
  const Gpst0: Epoch := Epoch(1980.0, 1.0, 6.0, 0.0, 0.0, 0.0)

  /** Seconds from 1970-01-01 to 1980-01-06. */
  const Gpst0Time: int := 315964800

  /** GPS time minus UTC in seconds, as the source fixes it (leaps_ = -18). */
  const DefaultLeaps: real := -18.0

  // ---------------------------------------------------------------------------
  // The month table

  lemma Enumerate12(m: int)
    requires 0 <= m < 12
    ensures m == 0 || m == 1 || m == 2 || m == 3 || m == 4 || m == 5 || m == 6 || m == 7
         || m == 8 || m == 9 || m == 10 || m == 11
  {
  }

  /** The cycle is 1461 days long. */
  lemma CumEnds()
    ensures |Cum| == 49 && Cum[0] == 0 && Cum[48] == 1461
  {
  }

  /** Cum accumulates Mday. */
  lemma CumStep(m: int)
    requires 0 <= m < 48
    ensures Cum[m + 1] == Cum[m] + Mday[m]
  {
    if m < 12 { Row0(0, m); }
    else if m < 24 { Row1(1, m - 12); }
    else if m < 36 { Row2(2, m - 24); }
    else { Row3(3, m - 36); }
  }

  /** Month j of the first (1970) year of the cycle. */
  lemma Row0(r: int, j: int)
    requires r == 0 && 0 <= j < 12
    ensures Cum[12 * r + j + 1] == Cum[12 * r + j] + Mday[12 * r + j]
    ensures Mday[12 * r + j] == MonthLength(r == 2, j + 1)
    ensures Cum[12 * r + j] ==
      365 * r + (if r == 3 then 1 else 0) + Doy[j] - 1 + (if r == 2 && j >= 2 then 1 else 0)
  {
    Enumerate12(j);
  }

  /** Month j of the second (1971) year of the cycle. */
  lemma Row1(r: int, j: int)
    requires r == 1 && 0 <= j < 12
    ensures Cum[12 * r + j + 1] == Cum[12 * r + j] + Mday[12 * r + j]
    ensures Mday[12 * r + j] == MonthLength(r == 2, j + 1)
    ensures Cum[12 * r + j] ==
      365 * r + (if r == 3 then 1 else 0) + Doy[j] - 1 + (if r == 2 && j >= 2 then 1 else 0)
  {
    Enumerate12(j);
  }

  /** Month j of the third (1972, leap) year of the cycle. */
  lemma Row2(r: int, j: int)
    requires r == 2 && 0 <= j < 12
    ensures Cum[12 * r + j + 1] == Cum[12 * r + j] + Mday[12 * r + j]
    ensures Mday[12 * r + j] == MonthLength(r == 2, j + 1)
    ensures Cum[12 * r + j] ==
      365 * r + (if r == 3 then 1 else 0) + Doy[j] - 1 + (if r == 2 && j >= 2 then 1 else 0)
  {
    Enumerate12(j);
  }

  /** Month j of the fourth (1973) year of the cycle. */
  lemma Row3(r: int, j: int)
    requires r == 3 && 0 <= j < 12
    ensures Cum[12 * r + j + 1] == Cum[12 * r + j] + Mday[12 * r + j]
    ensures Mday[12 * r + j] == MonthLength(r == 2, j + 1)
    ensures Cum[12 * r + j] ==
      365 * r + (if r == 3 then 1 else 0) + Doy[j] - 1 + (if r == 2 && j >= 2 then 1 else 0)
  {
    Enumerate12(j);
  }

  lemma {:induction false} CumMonotone(i: int, j: int)
    requires 0 <= i <= j <= 48
    ensures Cum[i] <= Cum[j]
    decreases j - i
  {
    if i < j {
      CumStep(i);
      CumMonotone(i + 1, j);
    }
  }

  /** A day inside month k of the cycle is a day of the 1461-day cycle. */
  lemma CumRange(k: int, d: int)
    requires 0 <= k < 48 && 0 <= d < Mday[k]
    ensures 0 <= Cum[k] + d < 1461
  {
    CumEnds();
    CumMonotone(0, k);
    CumStep(k);
    CumMonotone(k + 1, 48);
  }

  /** A day of the cycle determines its month: the (month, day-in-month)
      decomposition against Cum is unique. */
  lemma MonthUnique(k: int, d: int, k': int, d': int)
    requires 0 <= k < 48 && 0 <= d < Mday[k]
    requires 0 <= k' < 48 && 0 <= d' < Mday[k']
    requires Cum[k] + d == Cum[k'] + d'
    ensures k == k' && d == d'
  {
    if k < k' {
      CumStep(k);
      CumMonotone(k + 1, k');
    } else if k' < k {
      CumStep(k');
      CumMonotone(k' + 1, k);
    }
  }

  /** The number of days of a month of the years 1970..2099, where every fourth
      year, starting with 1972, is a leap year. */
  function DaysInMonth(year: int, month: int): int {
    MonthLength(year % 4 == 0, month)
  }

  function MonthLength(leap: bool, month: int): int {
    if month == 2 then (if leap then 29 else 28)
    else if month == 4 || month == 6 || month == 9 || month == 11 then 30
    else 31
  }

  /** Row r of the cycle table is the calendar of the year 1970 + r, and its
      running sum agrees with the day-of-year table plus the leap days. */
  lemma CycleTable(r: int, j: int)
    requires 0 <= r < 4 && 0 <= j < 12
    ensures Mday[12 * r + j] == MonthLength(r == 2, j + 1)
    ensures Cum[12 * r + j] ==
      365 * r + (if r == 3 then 1 else 0) + Doy[j] - 1 + (if r == 2 && j >= 2 then 1 else 0)
    ensures Cum[12 * r] == 365 * r + (if r == 3 then 1 else 0)
  {
    if r == 0 {
      Row0(r, j); Row0(r, 0);
    } else if r == 1 {
      Row1(r, j); Row1(r, 0);
    } else if r == 2 {
      Row2(r, j); Row2(r, 0);
    } else {
      Row3(r, j); Row3(r, 0);
    }
  }

  // ---------------------------------------------------------------------------
  // epoch2time and time2epoch

  /** Time of a calendar epoch; the zero time when the year is outside
      1970..2099 or the month outside 1..12. */
  function Epoch2Time(ep: Epoch): (t: GTime)
    ensures var year, mon := Trunc(ep.year), Trunc(ep.month);
      year < 1970 || year > 2099 || mon < 1 || mon > 12 ==> t == GTime(0, 0.0)
    ensures 0.0 <= ep.second ==> 0.0 <= t.sec < 1.0
  {
    var year := Trunc(ep.year);
    var mon := Trunc(ep.month);
    var day := Trunc(ep.day);
    if year < 1970 || year > 2099 || mon < 1 || mon > 12 then GTime(0, 0.0)
    else
      var sec := Trunc(ep.second);
      GTime(DaysOf(year, mon, day) * 86400 + Trunc(ep.hour) * 3600 + Trunc(ep.minute) * 60 + sec,
            ep.second - sec as real)
  }

  /** Days from 1970-01-01 to the given date, by epoch2time's day-of-year table
      and leap-day count. */
  function DaysOf(year: int, mon: int, day: int): int
    requires 1970 <= year && 1 <= mon <= 12
  {
    var days := (year - 1970) * 365 + (year - 1969) / 4 + Doy[mon - 1] + day - 2;
    if year % 4 == 0 && mon >= 3 then days + 1 else days
  }

  /** The month walk of time2epoch from month `mon` on: it subtracts month
      lengths while the remaining day count covers the whole month. */
  function MonthWalk(day: int, mon: int): (r: (int, int))
    requires 0 <= mon < 48 && 0 <= day < Cum[48] - Cum[mon]
    ensures mon <= r.0 < 48 && 0 <= r.1 < Mday[r.0]
    ensures Cum[r.0] + r.1 == Cum[mon] + day
    decreases 48 - mon
  {
    CumStep(mon);
    if day >= Mday[mon] then
      assert mon < 47 by {
        if mon == 47 { CumEnds(); assert false; }
      }
      MonthWalk(day - Mday[mon], mon + 1)
    else (mon, day)
  }

  /** The day and second-of-day split of time2epoch: Python's int() of the
      quotient, truncating toward zero. */
  function DayCount(t: GTime): int {
    Trunc(t.time as real / 86400.0)
  }

  /** The epoch time2epoch computes. */
  function EpochOf(t: GTime): Epoch {
    var days := DayCount(t);
    var sod := t.time - days * 86400;
    var w := MonthWalk(days % 1461, 0);
    Epoch((1970 + days / 1461 * 4 + w.0 / 12) as real, (w.0 % 12 + 1) as real, (w.1 + 1) as real,
          (sod / 3600) as real, (sod % 3600 / 60) as real, (sod % 60) as real + t.sec)
  }

  /** time2epoch: the loop walks the 48-month table and always stops inside it,
      because the table covers the whole 1461-day cycle. */
  method Time2Epoch(t: GTime) returns (ep: Epoch)
    ensures ep == EpochOf(t)
  {
    var days := Trunc(t.time as real / 86400.0);
    var sec := t.time - days * 86400;
    var day := days % 1461;
    var mon := 0;
    CumEnds();
    while mon < 48
      invariant 0 <= mon <= 48 && 0 <= day && Cum[mon] + day == days % 1461
    {
      CumStep(mon);
      if day >= Mday[mon] {
        day := day - Mday[mon];
      } else {
        break;
      }
      mon := mon + 1;
    }
    assert mon < 48 && day < Mday[mon];
    EpochOfWalk(t, days, sec, mon, day);
    ep := Epoch((1970 + days / 1461 * 4 + mon / 12) as real, (mon % 12 + 1) as real, (day + 1) as real,
                (sec / 3600) as real, (sec % 3600 / 60) as real, (sec % 60) as real + t.sec);
  }

  /** A calendar epoch of 1970..2099 with integral date and time-of-day fields in
      their ranges. */
  ghost predicate ValidEpoch(ep: Epoch) {
    && ep.year == ep.year.Floor as real && 1970 <= ep.year.Floor <= 2099
    && ep.month == ep.month.Floor as real && 1 <= ep.month.Floor <= 12
    && ep.day == ep.day.Floor as real && 1 <= ep.day.Floor <= DaysInMonth(ep.year.Floor, ep.month.Floor)
    && ep.hour == ep.hour.Floor as real && 0 <= ep.hour.Floor < 24
    && ep.minute == ep.minute.Floor as real && 0 <= ep.minute.Floor < 60
    && 0.0 <= ep.second < 60.0
  }

  /** A normalised time of 1970..2099. */
  ghost predicate ValidTime(t: GTime) {
    0 <= t.time && 0.0 <= t.sec < 1.0 && EpochOf(t).year < 2100.0
  }

  lemma DivMod(n: int, d: int, q: int, r: int)
    requires 0 < d && n == d * q + r && 0 <= r < d
    ensures n / d == q && n % d == r
  {
    var q', r' := n / d, n % d;
    assert n == d * q' + r' && 0 <= r' < d;
    if q' < q {
      MulStep(d, q', q);
    } else if q < q' {
      MulStep(d, q, q');
    }
  }

  lemma MulStep(d: int, a: int, b: int)
    requires 0 < d && a < b
    ensures d * a + d <= d * b
  {
    MulMonotone(d, a + 1, b);
    assert d * (a + 1) == d * a + d;
  }

  lemma MulMonotone(d: int, a: int, b: int)
    requires 0 < d && a <= b
    ensures d * a <= d * b
  {
    assert d * b - d * a == d * (b - a);
  }

  /** For a non-negative integer time, DayCount is the integer quotient. */
  lemma DayCountOf(t: GTime)
    requires 0 <= t.time
    ensures DayCount(t) == t.time / 86400 && t.time - DayCount(t) * 86400 == t.time % 86400
  {
    var n := DayCount(t);
    var x := t.time as real / 86400.0;
    assert n as real <= x < n as real + 1.0;
    assert n * 86400 <= t.time < n * 86400 + 86400 by {
      assert (n as real) * 86400.0 <= x * 86400.0 < (n as real) * 86400.0 + 86400.0;
    }
    DivMod(t.time, 86400, n, t.time - n * 86400);
  }

  /** The day count of a date of 1970..2099 splits into whole four-year cycles
      and the cycle table entry of its year and month. */
  lemma CycleDays(year: int, mon: int, day: int, q: int, r: int)
    requires year == 1970 + 4 * q + r && 0 <= q && 0 <= r < 4
    requires 1 <= mon <= 12 && 1 <= day <= DaysInMonth(year, mon)
    ensures DaysOf(year, mon, day) == 1461 * q + Cum[12 * r + mon - 1] + day - 1
    ensures 0 <= day - 1 < Mday[12 * r + mon - 1]
  {
    YearSplit(year, q, r);
    CycleTable(r, mon - 1);
    var leap := year % 4 == 0;
    assert leap == (r == 2);
    assert (year - 1970) * 365 == 1460 * q + 365 * r;
    assert DaysOf(year, mon, day) == 1460 * q + 365 * r + (year - 1969) / 4 + Doy[mon - 1] + day - 2
      + (if leap && mon >= 3 then 1 else 0);
  }

  /** The leap-day count and the leap-year test of epoch2time, in terms of the
      position of the year in its four-year cycle. */
  lemma YearSplit(year: int, q: int, r: int)
    requires year == 1970 + 4 * q + r && 0 <= q && 0 <= r < 4
    ensures (year - 1969) / 4 == q + (if r == 3 then 1 else 0)
    ensures year % 4 == 0 <==> r == 2
  {
    DivMod(year - 1969, 4, q + (if r == 3 then 1 else 0), if r == 3 then 0 else r + 1);
    DivMod(year, 4, 492 + q + (if r >= 2 then 1 else 0), if r >= 2 then r - 2 else r + 2);
  }

  /** The epoch of cycle q, year r of the cycle, month j of the year, day d of
      the month, second sod of the day and fraction frac of the second. */
  function PartsEpoch(q: int, r: int, j: int, d: int, sod: int, frac: real): Epoch {
    Epoch((1970 + 4 * q + r) as real, (j + 1) as real, (d + 1) as real,
      (sod / 3600) as real, (sod % 3600 / 60) as real, (sod % 60) as real + frac)
  }

  /** EpochOf of a time given by its parts. */
  lemma EpochOfParts(t: GTime, q: int, r: int, j: int, d: int, sod: int)
    requires 0 <= q && 0 <= r < 4 && 0 <= j < 12 && 0 <= d < Mday[12 * r + j] && 0 <= sod < 86400
    requires t.time == (1461 * q + Cum[12 * r + j] + d) * 86400 + sod
    ensures EpochOf(t) == PartsEpoch(q, r, j, d, sod, t.sec)
  {
    var k := 12 * r + j;
    var days := 1461 * q + Cum[k] + d;
    assert DayCount(t) == days && t.time - days * 86400 == sod by {
      CumRange(k, d);
      DivMod(t.time, 86400, days, sod);
      DayCountOf(t);
    }
    assert days / 1461 == q && days % 1461 == Cum[k] + d by {
      CumRange(k, d);
      DivMod(days, 1461, q, Cum[k] + d);
    }
    assert k / 12 == r && k % 12 == j by {
      DivMod(k, 12, r, j);
    }
    EpochOfWalk(t, days, sod, k, d);
  }

  /** EpochOf of a time whose day count and month walk are known. */
  lemma EpochOfWalk(t: GTime, days: int, sod: int, k: int, d: int)
    requires DayCount(t) == days && t.time - days * 86400 == sod
    requires 0 <= k < 48 && 0 <= d < Mday[k] && days % 1461 == Cum[k] + d
    ensures EpochOf(t) == Epoch((1970 + days / 1461 * 4 + k / 12) as real, (k % 12 + 1) as real,
      (d + 1) as real, (sod / 3600) as real, (sod % 3600 / 60) as real, (sod % 60) as real + t.sec)
  {
    CumEnds();
    var w := MonthWalk(days % 1461, 0);
    MonthUnique(w.0, w.1, k, d);
  }

  /** Hours, minutes and seconds of a second of the day. */
  lemma SecondOfDay(h: int, mi: int, s: int)
    requires 0 <= h < 24 && 0 <= mi < 60 && 0 <= s < 60
    ensures var sod := h * 3600 + mi * 60 + s;
      0 <= sod < 86400 && sod / 3600 == h && sod % 3600 / 60 == mi && sod % 60 == s
  {
    var sod := h * 3600 + mi * 60 + s;
    DivMod(sod, 3600, h, mi * 60 + s);
    DivMod(mi * 60 + s, 60, mi, s);
    DivMod(sod, 60, h * 60 + mi, s);
  }

  /** A second of the day is its hours, minutes and seconds. */
  lemma SecondOfDaySplit(sod: int)
    requires 0 <= sod < 86400
    ensures 0 <= sod / 3600 < 24 && 0 <= sod % 3600 / 60 < 60
    ensures sod == sod / 3600 * 3600 + sod % 3600 / 60 * 60 + sod % 60
  {
    var a, b := sod / 3600, sod % 3600;
    var c, e := b / 60, b % 60;
    assert sod == 3600 * a + b && b == 60 * c + e;
    DivMod(sod, 60, 60 * a + c, e);
  }

  /** time2epoch inverts epoch2time on the valid epochs. */
  lemma EpochRoundTrip(ep: Epoch)
    requires ValidEpoch(ep)
    ensures EpochOf(Epoch2Time(ep)) == ep
  {
    var year, mon, day := ep.year.Floor, ep.month.Floor, ep.day.Floor;
    var h, mi, s := ep.hour.Floor, ep.minute.Floor, ep.second.Floor;
    assert Trunc(ep.year) == year && Trunc(ep.month) == mon && Trunc(ep.day) == day;
    assert Trunc(ep.hour) == h && Trunc(ep.minute) == mi && Trunc(ep.second) == s;
    var q, r := (year - 1970) / 4, (year - 1970) % 4;
    CycleDays(year, mon, day, q, r);
    var sod := h * 3600 + mi * 60 + s;
    SecondOfDay(h, mi, s);
    var t := Epoch2Time(ep);
    assert t.time == DaysOf(year, mon, day) * 86400 + sod;
    EpochOfParts(t, q, r, mon - 1, day - 1, sod);
    assert t.sec == ep.second - s as real;
  }

  /** The epoch of valid parts is a valid epoch. */
  lemma PartsEpochValid(q: int, r: int, j: int, d: int, sod: int, frac: real)
    requires 0 <= q && 0 <= r < 4 && 0 <= j < 12 && 0 <= d < Mday[12 * r + j]
    requires 0 <= sod < 86400 && 0.0 <= frac < 1.0 && 1970 + 4 * q + r <= 2099
    ensures ValidEpoch(PartsEpoch(q, r, j, d, sod, frac))
  {
    SecondOfDaySplit(sod);
    CycleTable(r, j);
    YearSplit(1970 + 4 * q + r, q, r);
  }

  /** The day count epoch2time gives the date of a cycle day. */
  lemma PartsDays(q: int, r: int, j: int, d: int)
    requires 0 <= q && 0 <= r < 4 && 0 <= j < 12 && 0 <= d < Mday[12 * r + j]
    requires 1970 + 4 * q + r <= 2099
    ensures DaysOf(1970 + 4 * q + r, j + 1, d + 1) == 1461 * q + Cum[12 * r + j] + d
  {
    var year := 1970 + 4 * q + r;
    assert d + 1 <= DaysInMonth(year, j + 1) by {
      YearSplit(year, q, r);
      CycleTable(r, j);
    }
    CycleDays(year, j + 1, d + 1, q, r);
  }

  /** Epoch2Time of the epoch of valid parts. */
  lemma Epoch2TimeOfParts(q: int, r: int, j: int, d: int, sod: int, frac: real)
    requires 0 <= q && 0 <= r < 4 && 0 <= j < 12 && 0 <= d < Mday[12 * r + j]
    requires 0 <= sod < 86400 && 0.0 <= frac < 1.0 && 1970 + 4 * q + r <= 2099
    ensures Epoch2Time(PartsEpoch(q, r, j, d, sod, frac))
      == GTime((1461 * q + Cum[12 * r + j] + d) * 86400 + sod, frac)
  {
    var year := 1970 + 4 * q + r;
    var ep := PartsEpoch(q, r, j, d, sod, frac);
    assert Trunc(ep.year) == year && Trunc(ep.month) == j + 1 && Trunc(ep.day) == d + 1;
    assert Trunc(ep.second) == sod % 60 && ep.second - (sod % 60) as real == frac;
    assert Trunc(ep.hour) * 3600 + Trunc(ep.minute) * 60 + Trunc(ep.second) == sod by {
      SecondOfDaySplit(sod);
    }
    PartsDays(q, r, j, d);
    assert Epoch2Time(ep) == GTime(DaysOf(year, j + 1, d + 1) * 86400 + sod, frac);
  }

  /** A normalised time of 1970..2099 as its parts. */
  lemma TimeParts(t: GTime) returns (q: int, r: int, j: int, d: int, sod: int)
    requires ValidTime(t)
    ensures 0 <= q && 0 <= r < 4 && 0 <= j < 12 && 0 <= d < Mday[12 * r + j] && 0 <= sod < 86400
    ensures 1970 + 4 * q + r <= 2099
    ensures t.time == (1461 * q + Cum[12 * r + j] + d) * 86400 + sod
    ensures EpochOf(t) == PartsEpoch(q, r, j, d, sod, t.sec)
  {
    DayCountOf(t);
    var days := t.time / 86400;
    sod := t.time % 86400;
    q := days / 1461;
    CumEnds();
    var w := MonthWalk(days % 1461, 0);
    var k := w.0;
    d := w.1;
    r, j := k / 12, k % 12;
    assert k == 12 * r + j;
    assert t.time == (1461 * q + Cum[k] + d) * 86400 + sod;
    EpochOfParts(t, q, r, j, d, sod);
  }

  /** epoch2time inverts time2epoch on the normalised times of 1970..2099. */
  lemma TimeRoundTrip(t: GTime)
    requires ValidTime(t)
    ensures Epoch2Time(EpochOf(t)) == t
  {
    var q, r, j, d, sod := TimeParts(t);
    Epoch2TimeOfParts(q, r, j, d, sod, t.sec);
  }

  /** 1970-01-01 00:00:00 is time zero, and the GPS origin is Gpst0Time. */
  lemma Epoch2TimeOrigins()
    ensures Epoch2Time(Epoch(1970.0, 1.0, 1.0, 0.0, 0.0, 0.0)) == GTime(0, 0.0)
    ensures Epoch2Time(Gpst0) == GTime(Gpst0Time, 0.0)
  {
  }

  // ---------------------------------------------------------------------------
  // Differences, shifts and GPS week

  /** timediff: t1 - t2 in seconds. */
  function TimeDiff(t1: GTime, t2: GTime): real {
    (t1.time - t2.time) as real + (t1.sec - t2.sec)
  }

  /** timeadd: shift by `sec` seconds, moving the whole part of the fraction into
      `time`. The argument is a value, so it is left unchanged as the source's
      copy leaves it. */
  function TimeAdd(t: GTime, sec: real): (r: GTime)
    ensures 0.0 <= r.sec < 1.0
    ensures TimeDiff(r, t) == sec
  {
    var s := t.sec + sec;
    var tt := s.Floor;
    GTime(t.time + tt, s - tt as real)
  }

  /** Two shifts make one shift by the sum. */
  lemma TimeAddTwice(t: GTime, a: real, b: real)
    ensures TimeAdd(TimeAdd(t, a), b) == TimeAdd(t, a + b)
  {
    var s := t.sec + a;
    var f := s - s.Floor as real;
    assert (f + b).Floor == (s + b).Floor - s.Floor;
  }

  /** A shift by zero leaves a normalised time as it is. */
  lemma TimeAddZero(t: GTime)
    requires 0.0 <= t.sec < 1.0
    ensures TimeAdd(t, 0.0) == t
  {
  }

  /** gpst2utc: GPS time shifted by the leap seconds (negative, -18 by
      default) to UTC. */
  function Gpst2Utc(t: GTime, leaps: real): GTime {
    TimeAdd(t, leaps)
  }

  /** utc2gpst: UTC shifted back to GPS time. */
  function Utc2Gpst(t: GTime, leaps: real): GTime {
    TimeAdd(t, -leaps)
  }

  /** Converting GPS time to UTC and back returns the normalised time. */
  lemma UtcRoundTrip(t: GTime, leaps: real)
    requires 0.0 <= t.sec < 1.0
    ensures Utc2Gpst(Gpst2Utc(t, leaps), leaps) == t
    ensures TimeDiff(t, Gpst2Utc(t, leaps)) == -leaps
  {
    TimeAddTwice(t, leaps, -leaps);
    TimeAddZero(t);
  }

  /** gpst2time: a time-of-week outside +-1e9 s is read as 0. */
  function Gpst2Time(week: int, tow: real): GTime {
    var t := Epoch2Time(Gpst0);
    var tow' := if tow < -1e9 || tow > 1e9 then 0.0 else tow;
    GTime(t.time + 604800 * week + Trunc(tow'), tow' - Trunc(tow') as real)
  }

  /** A time of week beyond +-1e9 s counts as the start of the week; any other
      is split into whole seconds and a fraction in [0, 1) when non-negative. */
  lemma Gpst2TimeGuard(week: int, tow: real)
    ensures tow < -1e9 || tow > 1e9 ==> Gpst2Time(week, tow) == GTime(Gpst0Time + 604800 * week, 0.0)
    ensures 0.0 <= tow <= 1e9 ==>
      Gpst2Time(week, tow).time == Gpst0Time + 604800 * week + tow.Floor
      && 0.0 <= Gpst2Time(week, tow).sec < 1.0
  {
    Epoch2TimeOrigins();
  }

  /** time2gpst: GPS week (truncated toward zero) and time of week. */
  function Time2Gpst(t: GTime): (int, real) {
    var t0 := Epoch2Time(Gpst0);
    var sec := t.time - t0.time;
    var week := Trunc(sec as real / (86400 * 7) as real);
    (week, (sec - week * 604800) as real + t.sec)
  }

  /** Week and time of week survive the round trip through a time. */
  lemma GpsWeekRoundTrip(week: int, tow: real)
    requires 0 <= week && 0.0 <= tow < 604800 as real
    ensures Time2Gpst(Gpst2Time(week, tow)) == (week, tow)
  {
    Epoch2TimeOrigins();
    var f := Trunc(tow);
    var sec := 604800 * week + f;
    var n := Trunc(sec as real / 604800.0);
    assert n == week by {
      var x := sec as real / 604800.0;
      assert n as real <= x < n as real + 1.0;
      assert week as real <= x < week as real + 1.0 by {
        assert x * 604800.0 == sec as real;
      }
    }
  }

  /** A normalised time at or after the GPS origin survives the round trip
      through week and time of week. */
  lemma GpsTimeRoundTrip(t: GTime)
    requires Gpst0Time <= t.time && 0.0 <= t.sec < 1.0
    ensures var (week, tow) := Time2Gpst(t); Gpst2Time(week, tow) == t
    ensures 0.0 <= Time2Gpst(t).1 < 604800 as real
  {
    Epoch2TimeOrigins();
    var sec := t.time - Gpst0Time;
    var week := Trunc(sec as real / 604800.0);
    assert week == sec / 604800 && sec - week * 604800 == sec % 604800 by {
      DayCountOfWeek(sec);
    }
    var tow := (sec - week * 604800) as real + t.sec;
    assert Trunc(tow) == sec - week * 604800;
  }

  lemma DayCountOfWeek(sec: int)
    requires 0 <= sec
    ensures Trunc(sec as real / 604800.0) == sec / 604800
  {
    var n := Trunc(sec as real / 604800.0);
    var x := sec as real / 604800.0;
    assert n * 604800 <= sec < n * 604800 + 604800 by {
      assert (n as real) * 604800.0 <= x * 604800.0 < (n as real) * 604800.0 + 604800.0;
    }
    DivMod(sec, 604800, n, sec - n * 604800);
  }

  // ---------------------------------------------------------------------------
  // Day of year

  /** time2doy: days since 1 January of the time's year, plus one. */
  function Time2Doy(t: GTime): real {
    DoyFrom(t, EpochOf(t))
  }

  /** The day of the year of `t`, counted from 1 January of the year of `ep`. */
  function DoyFrom(t: GTime, ep: Epoch): real {
    TimeDiff(t, Epoch2Time(Epoch(ep.year, 1.0, 1.0, 0.0, 0.0, 0.0))) / 86400.0 + 1.0
  }

  /** The calendar day of the year (1 for 1 January), by the day-of-year table
      and the 29 February of leap years. */
  function YearDay(year: int, mon: int, day: int): int
    requires 1 <= mon <= 12
  {
    Doy[mon - 1] + day - 1 + (if year % 4 == 0 && mon >= 3 then 1 else 0)
  }

  lemma DoyArithmetic(n: int, sod: int, f: real)
    ensures ((n * 86400 + sod) as real + f) / 86400.0 + 1.0 == (n + 1) as real + (sod as real + f) / 86400.0
  {
  }

  /** 1 January of the year r of cycle q. */
  lemma YearStart(q: int, r: int)
    requires 0 <= q && 0 <= r < 4 && 1970 + 4 * q + r <= 2099
    ensures Epoch2Time(Epoch((1970 + 4 * q + r) as real, 1.0, 1.0, 0.0, 0.0, 0.0))
      == GTime((1461 * q + Cum[12 * r]) * 86400, 0.0)
  {
    CycleTable(r, 0);
    PartsDays(q, r, 0, 0);
  }

  /** The day of the year by the cycle table agrees with the calendar day. */
  lemma YearDayOfCycle(year: int, mon: int, day: int, q: int, r: int, j: int, d: int)
    requires 0 <= q && 0 <= r < 4 && 0 <= j < 12 && 0 <= d < Mday[12 * r + j]
    requires year == 1970 + 4 * q + r && mon == j + 1 && day == d + 1
    ensures 1 <= mon <= 12 && YearDay(year, mon, day) == Cum[12 * r + j] - Cum[12 * r] + d + 1
  {
    YearSplit(year, q, r);
    CycleTable(r, j);
  }

  /** The day of the year of a time given as its parts. */
  lemma PartsDoy(t: GTime, q: int, r: int, j: int, d: int, sod: int)
    requires 0 <= q && 0 <= r < 4 && 0 <= j < 12 && 0 <= d < Mday[12 * r + j] && 0 <= sod < 86400
    requires 1970 + 4 * q + r <= 2099 && 0.0 <= t.sec < 1.0
    requires t.time == (1461 * q + Cum[12 * r + j] + d) * 86400 + sod
    ensures var ep := PartsEpoch(q, r, j, d, sod, t.sec);
      1 <= ep.month.Floor <= 12 &&
      DoyFrom(t, ep) == YearDay(ep.year.Floor, ep.month.Floor, ep.day.Floor) as real
        + (ep.hour * 3600.0 + ep.minute * 60.0 + ep.second) / 86400.0
  {
    var ep := PartsEpoch(q, r, j, d, sod, t.sec);
    var n := Cum[12 * r + j] - Cum[12 * r] + d;
    YearDayOfCycle(ep.year.Floor, ep.month.Floor, ep.day.Floor, q, r, j, d);
    assert DoyFrom(t, ep) == (n + 1) as real + (sod as real + t.sec) / 86400.0 by {
      var start := Epoch2Time(Epoch(ep.year, 1.0, 1.0, 0.0, 0.0, 0.0));
      assert start.time == (1461 * q + Cum[12 * r]) * 86400 && start.sec == 0.0 by {
        YearStart(q, r);
      }
      assert t.time - start.time == n * 86400 + sod;
      DoyArithmetic(n, sod, t.sec);
    }
    assert ep.hour * 3600.0 + ep.minute * 60.0 + ep.second == sod as real + t.sec by {
      SecondOfDaySplit(sod);
    }
  }

  /** time2doy is the calendar day of the year of the time's epoch plus the
      elapsed fraction of that day. */
  lemma Time2DoyIsYearDay(t: GTime)
    requires ValidTime(t)
    ensures var ep := EpochOf(t);
      1 <= ep.month.Floor <= 12 &&
      Time2Doy(t) == YearDay(ep.year.Floor, ep.month.Floor, ep.day.Floor) as real
        + (ep.hour * 3600.0 + ep.minute * 60.0 + ep.second) / 86400.0
  {
    var q, r, j, d, sod := TimeParts(t);
    PartsDoy(t, q, r, j, d, sod);
  }
}
