/**
  UTC flooring of instants, given as epoch seconds.

  An instant is split into a civil date (proleptic Gregorian calendar, UTC)
  and a time of day, and the floor is rebuilt from some of those fields, the
  way `t.Date()` followed by `time.Date(y, m, d, ...)` works.
 */
module TimeRound {

  const SecondsPerMinute: int := 60
  const SecondsPerHour: int := 3600
  const SecondsPerDay: int := 86400

  /** A civil date: year, month (1..12), day of month (1..31). */
  datatype Date = Date(year: int, month: int, day: int)

  predicate IsLeapYear(y: int) {
    y % 4 == 0 && (y % 100 != 0 || y % 400 == 0)
  }

  function DaysInYear(y: int): int {
    if IsLeapYear(y) then 366 else 365
  }

  function DaysInMonth(y: int, m: int): int
    requires 1 <= m <= 12
  {
    if m == 2 then (if IsLeapYear(y) then 29 else 28)
    else if m == 4 || m == 6 || m == 9 || m == 11 then 30
    else 31
  }

  predicate ValidDate(d: Date) {
    1 <= d.month <= 12 && 1 <= d.day <= DaysInMonth(d.year, d.month)
  }

  /** Days from 1 January of `y` to the first day of month `m`; month 13 stands for the next 1 January. */
  function DaysBeforeMonth(y: int, m: int): int
    requires 1 <= m <= 13
  {
    var cumulative := [0, 31, 59, 90, 120, 151, 181, 212, 243, 273, 304, 334, 365];
    cumulative[m - 1] + (if m > 2 && IsLeapYear(y) then 1 else 0)
  }

  /** Number of leap years in [1, y - 1] (counted negatively below year 1); `/` floors here. */
  function LeapYearsBefore(y: int): int {
    (y - 1) / 4 - (y - 1) / 100 + (y - 1) / 400
  }

  /** Days from 1970-01-01 to 1 January of year `y` (negative before 1970). */
  function DaysBeforeYear(y: int): int {
    365 * (y - 1970) + LeapYearsBefore(y) - LeapYearsBefore(1970)
  }

  /** Day number (days since 1970-01-01) of a civil date. */
  function DaysFromCivil(d: Date): int
    requires 1 <= d.month <= 12
  {
    DaysBeforeYear(d.year) + DaysBeforeMonth(d.year, d.month) + d.day - 1
  }

  lemma MonthStep(y: int, m: int)
    requires 1 <= m <= 12
    ensures DaysBeforeMonth(y, m + 1) == DaysBeforeMonth(y, m) + DaysInMonth(y, m)
    ensures DaysBeforeMonth(y, 13) == DaysInYear(y)
  {
  }

  /** Stepping a year moves each of the quotients by 4, 100 and 400 exactly when the year is a multiple. */
  lemma QuotientSteps(y: int)
    ensures y / 4 == (y - 1) / 4 + (if y % 4 == 0 then 1 else 0)
    ensures y / 100 == (y - 1) / 100 + (if y % 100 == 0 then 1 else 0)
    ensures y / 400 == (y - 1) / 400 + (if y % 400 == 0 then 1 else 0)
  {
  }

  /** A multiple of a larger divisor is a multiple of any of its factors: 400 and 100. */
  lemma Multiple400Is100(y: int)
    requires y % 400 == 0
    ensures y % 100 == 0
  {
    var q, p, r := y / 400, y / 100, y % 100;
    assert y == 400 * q;
    assert y == 100 * p + r;
    assert r == 100 * (4 * q - p);
  }

  /** 100 and 4. */
  lemma Multiple100Is4(y: int)
    requires y % 100 == 0
    ensures y % 4 == 0
  {
    var q, p, r := y / 100, y / 4, y % 4;
    assert y == 100 * q;
    assert y == 4 * p + r;
    assert r == 4 * (25 * q - p);
  }

  /** Every multiple of 400 is a multiple of 100, and every multiple of 100 a multiple of 4. */
  lemma DivisorChain(y: int)
    ensures y % 400 == 0 ==> y % 100 == 0
    ensures y % 100 == 0 ==> y % 4 == 0
  {
    if y % 400 == 0 {
      Multiple400Is100(y);
    }
    if y % 100 == 0 {
      Multiple100Is4(y);
    }
  }

  lemma YearStep(y: int)
    ensures DaysBeforeYear(y + 1) == DaysBeforeYear(y) + DaysInYear(y)
  {
    QuotientSteps(y);
    DivisorChain(y);
  }

  lemma {:induction false} DaysBeforeYearMonotone(a: int, b: int)
    requires a <= b
    ensures DaysBeforeYear(a) <= DaysBeforeYear(b)
    ensures a < b ==> DaysBeforeYear(a + 1) <= DaysBeforeYear(b)
    decreases b - a
  {
    if a < b {
      YearStep(a);
      DaysBeforeYearMonotone(a + 1, b);
    }
  }

  /** The year holding day number `z`, searching upwards from year `y`. */
  function YearUpFrom(y: int, z: int): (r: int)
    requires DaysBeforeYear(y) <= z
    ensures DaysBeforeYear(r) <= z < DaysBeforeYear(r + 1)
    decreases z - DaysBeforeYear(y)
  {
    YearStep(y);
    if z < DaysBeforeYear(y + 1) then y else YearUpFrom(y + 1, z)
  }

  /** The year holding day number `z`, searching downwards from year `y`. */
  function YearDownFrom(y: int, z: int): (r: int)
    requires z < DaysBeforeYear(y + 1)
    ensures DaysBeforeYear(r) <= z < DaysBeforeYear(r + 1)
    decreases DaysBeforeYear(y + 1) - z
  {
    YearStep(y);
    if DaysBeforeYear(y) <= z then y else YearDownFrom(y - 1, z)
  }

  function YearOf(z: int): (r: int)
    ensures DaysBeforeYear(r) <= z < DaysBeforeYear(r + 1)
  {
    if 0 <= z then YearUpFrom(1970, z) else YearDownFrom(1969, z)
  }

  /** The month of year `y` holding day-of-year `doy` (0-based), searching upwards from month `m`. */
  function MonthFrom(y: int, doy: int, m: int): (r: int)
    requires 1 <= m <= 12 && DaysBeforeMonth(y, m) <= doy < DaysInYear(y)
    ensures m <= r <= 12 && DaysBeforeMonth(y, r) <= doy < DaysBeforeMonth(y, r + 1)
    decreases 12 - m
  {
    MonthStep(y, m);
    if doy < DaysBeforeMonth(y, m + 1) then m else MonthFrom(y, doy, m + 1)
  }

  /** The civil date of day number `z`: the decomposition `t.Date()` performs in UTC. */
  function CivilFromDays(z: int): (d: Date)
    ensures ValidDate(d) && DaysFromCivil(d) == z
  {
    var y := YearOf(z);
    YearStep(y);
    var doy := z - DaysBeforeYear(y);
    var m := MonthFrom(y, doy, 1);
    MonthStep(y, m);
    Date(y, m, doy - DaysBeforeMonth(y, m) + 1)
  }

  lemma YearUnique(y1: int, y2: int, z: int)
    requires DaysBeforeYear(y1) <= z < DaysBeforeYear(y1 + 1)
    requires DaysBeforeYear(y2) <= z < DaysBeforeYear(y2 + 1)
    ensures y1 == y2
  {
    if y1 < y2 {
      DaysBeforeYearMonotone(y1, y2);
    } else if y2 < y1 {
      DaysBeforeYearMonotone(y2, y1);
    }
  }

  lemma MonthUnique(y: int, m1: int, m2: int, doy: int)
    requires 1 <= m1 <= 12 && 1 <= m2 <= 12
    requires DaysBeforeMonth(y, m1) <= doy < DaysBeforeMonth(y, m1 + 1)
    requires DaysBeforeMonth(y, m2) <= doy < DaysBeforeMonth(y, m2 + 1)
    ensures m1 == m2
  {
  }

  /** A valid date's day number falls inside its year, and its day-of-year inside its month. */
  lemma DateWithinYear(d: Date)
    requires ValidDate(d)
    ensures DaysBeforeYear(d.year) <= DaysFromCivil(d) < DaysBeforeYear(d.year + 1)
    ensures DaysBeforeMonth(d.year, d.month) <= DaysFromCivil(d) - DaysBeforeYear(d.year)
            < DaysBeforeMonth(d.year, d.month + 1)
  {
    MonthStep(d.year, d.month);
    assert DaysBeforeMonth(d.year, d.month + 1) <= DaysBeforeMonth(d.year, 13);
    YearStep(d.year);
  }

  /** Decomposing the day number of a valid date gives the date back. */
  lemma CivilRoundTrip(d: Date)
    requires ValidDate(d)
    ensures CivilFromDays(DaysFromCivil(d)) == d
  {
    var z := DaysFromCivil(d);
    var r := CivilFromDays(z);
    DateWithinYear(d);
    DateWithinYear(r);
    YearUnique(r.year, d.year, z);
    MonthUnique(d.year, r.month, d.month, z - DaysBeforeYear(d.year));
  }

  /** The UTC civil date of instant `t` (epoch seconds). */
  function DateOf(t: int): (d: Date)
    ensures ValidDate(d) && DaysFromCivil(d) == t / SecondsPerDay
  {
    CivilFromDays(t / SecondsPerDay)
  }

  /** The instant `time.Date(y, m, d, hh, mm, ss, 0, time.UTC).Unix()` for in-range fields. */
  function Unix(d: Date, hh: int, mm: int, ss: int): int
    requires 1 <= d.month <= 12
  {
    DaysFromCivil(d) * SecondsPerDay + hh * SecondsPerHour + mm * SecondsPerMinute + ss
  }

  /** Scaling a day number to seconds and back. */
  lemma ScaleDays(z: int)
    ensures (z * SecondsPerDay) / SecondsPerDay == z
    ensures (z * SecondsPerDay) % SecondsPerDay == 0
  {
  }

  /** Midnight UTC of the date `t` falls on. */
  function DayFloor(t: int): (r: int)
    ensures r <= t < r + SecondsPerDay
    ensures r % SecondsPerDay == 0
  {
    var d := DateOf(t);
    ScaleDays(DaysFromCivil(d));
    Unix(Date(d.year, d.month, d.day), 0, 0, 0)
  }

  lemma ScaleHours(q: int)
    ensures (q * SecondsPerHour) % SecondsPerHour == 0
  {
  }

  /** Splitting an instant into whole days, whole hours of the day and the rest. */
  lemma SplitHours(t: int)
    ensures (t / SecondsPerDay) * SecondsPerDay + ((t % SecondsPerDay) / SecondsPerHour) * SecondsPerHour
            == (t / SecondsPerHour) * SecondsPerHour
  {
    var q, s := t / SecondsPerDay, t % SecondsPerDay;
    var h := s / SecondsPerHour;
    assert t == q * SecondsPerDay + h * SecondsPerHour + s % SecondsPerHour;
    assert t == (q * 24 + h) * SecondsPerHour + s % SecondsPerHour;
    assert t / SecondsPerHour == q * 24 + h;
  }

  /** The start of the UTC hour `t` falls in. */
  function HourFloor(t: int): (r: int)
    ensures r <= t < r + SecondsPerHour
    ensures r % SecondsPerHour == 0
  {
    var d := DateOf(t);
    var hour := (t % SecondsPerDay) / SecondsPerHour;
    SplitHours(t);
    ScaleHours(t / SecondsPerHour);
    Unix(Date(d.year, d.month, d.day), hour, 0, 0)
  }

  /** Midnight UTC on day 1 of the UTC year and month `t` falls in. */
  function MonthFloor(t: int): (r: int)
    ensures r <= t && r % SecondsPerDay == 0
    ensures DateOf(r) == Date(DateOf(t).year, DateOf(t).month, 1)
    ensures t - r < DaysInMonth(DateOf(t).year, DateOf(t).month) * SecondsPerDay
  {
    var d := DateOf(t);
    var first := Date(d.year, d.month, 1);
    CivilRoundTrip(first);
    var z := DaysFromCivil(first);
    ScaleDays(z);
    assert t / SecondsPerDay == z + d.day - 1;
    assert z * SecondsPerDay / SecondsPerDay == z;
    Unix(first, 0, 0, 0)
  }

  lemma DayFloorIdempotent(t: int)
    ensures DayFloor(DayFloor(t)) == DayFloor(t)
    ensures t % SecondsPerDay == 0 ==> DayFloor(t) == t
  {
  }

  /** The UTC day floor in closed form: the instant less its offset into the day. */
  lemma DayFloorClosedForm(t: int)
    ensures DayFloor(t) == t - t % SecondsPerDay
  {
    var r := DayFloor(t);
    var q := r / SecondsPerDay;
    assert r == q * SecondsPerDay;
    assert t == q * SecondsPerDay + (t - r) && 0 <= t - r < SecondsPerDay;
    assert t / SecondsPerDay == q;
  }

  /** Of two day-aligned instants less than a day apart, the first cannot be the later one. */
  lemma DayAlignedOrder(r1: int, r2: int)
    requires r1 % SecondsPerDay == 0 && r2 % SecondsPerDay == 0
    requires r1 < r2 + SecondsPerDay
    ensures r1 <= r2
  {
    var q1, q2 := r1 / SecondsPerDay, r2 / SecondsPerDay;
    assert r1 == q1 * SecondsPerDay && r2 == q2 * SecondsPerDay;
  }

  /** Every instant of 1970-01-01 UTC floors to the epoch. */
  lemma DayFloorOfFirstDay(t: int)
    requires 0 <= t < SecondsPerDay
    ensures DayFloor(t) == 0
  {
    var r := DayFloor(t);
    DayAlignedOrder(r, 0);
    DayAlignedOrder(0, r);
  }

  lemma DayFloorMonotone(t1: int, t2: int)
    requires t1 <= t2
    ensures DayFloor(t1) <= DayFloor(t2)
  {
    DayAlignedOrder(DayFloor(t1), DayFloor(t2));
  }

  /** Of two hour-aligned instants less than an hour apart, the first cannot be the later one. */
  lemma HourAlignedOrder(r1: int, r2: int)
    requires r1 % SecondsPerHour == 0 && r2 % SecondsPerHour == 0
    requires r1 < r2 + SecondsPerHour
    ensures r1 <= r2
  {
    var q1, q2 := r1 / SecondsPerHour, r2 / SecondsPerHour;
    assert r1 == q1 * SecondsPerHour && r2 == q2 * SecondsPerHour;
  }

  lemma HourFloorMonotone(t1: int, t2: int)
    requires t1 <= t2
    ensures HourFloor(t1) <= HourFloor(t2)
  {
    HourAlignedOrder(HourFloor(t1), HourFloor(t2));
  }

  lemma HourFloorIdempotent(t: int)
    ensures HourFloor(HourFloor(t)) == HourFloor(t)
    ensures t % SecondsPerHour == 0 ==> HourFloor(t) == t
  {
    var r := HourFloor(t);
    HourAlignedOrder(r, HourFloor(r));
    if t % SecondsPerHour == 0 {
      HourAlignedOrder(t, r);
    }
  }

  lemma MonthFloorIdempotent(t: int)
    ensures MonthFloor(MonthFloor(t)) == MonthFloor(t)
  {
  }

  /** A later instant never has an earlier month floor. */
  lemma MonthFloorMonotone(t1: int, t2: int)
    requires t1 <= t2
    ensures MonthFloor(t1) <= MonthFloor(t2)
  {
    var r1, r2 := MonthFloor(t1), MonthFloor(t2);
    if r1 > r2 {
      var d2 := DateOf(t2);
      var z1, z2 := r1 / SecondsPerDay, r2 / SecondsPerDay;
      var dim := DaysInMonth(d2.year, d2.month);
      assert r1 == z1 * SecondsPerDay && r2 == z2 * SecondsPerDay;
      assert z2 < z1 < z2 + dim;
      var mid := Date(d2.year, d2.month, z1 - z2 + 1);
      assert DaysFromCivil(mid) == z1;
      CivilRoundTrip(mid);
      assert false;
    }
  }

  predicate ValidClock(hh: int, mm: int, ss: int) {
    0 <= hh < 24 && 0 <= mm < 60 && 0 <= ss < 60
  }

  /** The civil fields of `Unix(d, hh, mm, ss)` are `d` and the clock time. */
  lemma DateOfUnix(d: Date, hh: int, mm: int, ss: int)
    requires ValidDate(d) && ValidClock(hh, mm, ss)
    ensures Unix(d, hh, mm, ss) / SecondsPerDay == DaysFromCivil(d)
    ensures DateOf(Unix(d, hh, mm, ss)) == d
  {
    CivilRoundTrip(d);
  }

  lemma DayFloorOfCivil(d: Date, hh: int, mm: int, ss: int)
    requires ValidDate(d) && ValidClock(hh, mm, ss)
    ensures DayFloor(Unix(d, hh, mm, ss)) == Unix(d, 0, 0, 0)
  {
    DateOfUnix(d, hh, mm, ss);
  }

  lemma HourFloorOfCivil(d: Date, hh: int, mm: int, ss: int)
    requires ValidDate(d) && ValidClock(hh, mm, ss)
    ensures HourFloor(Unix(d, hh, mm, ss)) == Unix(d, hh, 0, 0)
  {
    DateOfUnix(d, hh, mm, ss);
    var t := Unix(d, hh, mm, ss);
    var z := DaysFromCivil(d);
    var rest := hh * SecondsPerHour + mm * SecondsPerMinute + ss;
    assert t == z * SecondsPerDay + rest && 0 <= rest < SecondsPerDay;
    assert t % SecondsPerDay == rest;
    assert rest / SecondsPerHour == hh;
  }

  lemma MonthFloorOfCivil(d: Date, hh: int, mm: int, ss: int)
    requires ValidDate(d) && ValidClock(hh, mm, ss)
    ensures MonthFloor(Unix(d, hh, mm, ss)) == Unix(Date(d.year, d.month, 1), 0, 0, 0)
  {
    DateOfUnix(d, hh, mm, ss);
  }

  /** 2014-05-01 00:00:00 UTC, the instant the tests floor to, is 1398902400. */
  lemma May2014()
    ensures Unix(Date(2014, 5, 1), 0, 0, 0) == 1398902400
  {
    assert LeapYearsBefore(2014) == 488 && LeapYearsBefore(1970) == 477;
    assert DaysBeforeYear(2014) == 16071;
    assert DaysFromCivil(Date(2014, 5, 1)) == 16191;
  }
}
