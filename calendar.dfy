/**
 * DuckDB's DATE and TIMESTAMP values as integers, and the calendar
 * arithmetic the pipeline relies on: `ts::DATE`, `date_trunc('week', ..)`,
 * `date_trunc('month', ..)` and the civil date a day number stands for
 * (proleptic Gregorian calendar).
 */
module Calendar {

  /** A TIMESTAMP without time zone: seconds since 1970-01-01 00:00:00. */
  type Timestamp = int

  /** A DATE: days since 1970-01-01. */
  type Date = int

  const SecondsPerDay: int := 86400

  predicate IsLeapYear(y: int) {
    y % 4 == 0 && (y % 100 != 0 || y % 400 == 0)
  }

  function DaysInYear(y: int): int {
    if IsLeapYear(y) then 366 else 365
  }

  function DaysInMonth(y: int, m: int): int
    requires 1 <= m <= 12
  {
    if m == 2 then (if IsLeapYear(y) then 29 else 28)
    else if m == 4 || m == 6 || m == 9 || m == 11 then 30
    else 31
  }

  predicate ValidDate(y: int, m: int, d: int) {
    1 <= m <= 12 && 1 <= d <= DaysInMonth(y, m)
  }

  /** Days of year `y` before the first of month `m`. */
  function DaysBeforeMonth(y: int, m: int): int
    requires 1 <= m <= 12
  {
    var leap := if IsLeapYear(y) && m > 2 then 1 else 0;
    leap + (
      if m == 1 then 0 else if m == 2 then 31 else if m == 3 then 59
      else if m == 4 then 90 else if m == 5 then 120 else if m == 6 then 151
      else if m == 7 then 181 else if m == 8 then 212 else if m == 9 then 243
      else if m == 10 then 273 else if m == 11 then 304 else 334)
  }

  lemma DaysBeforeNextMonth(y: int, m: int)
    requires 1 <= m < 12
    ensures DaysBeforeMonth(y, m + 1) == DaysBeforeMonth(y, m) + DaysInMonth(y, m)
  {
  }

  lemma DaysBeforeMonthInYear(y: int, m: int)
    requires 1 <= m <= 12
    ensures 0 <= DaysBeforeMonth(y, m)
    ensures DaysBeforeMonth(y, m) + DaysInMonth(y, m) <= DaysInYear(y)
    ensures m == 12 ==> DaysBeforeMonth(y, m) + DaysInMonth(y, m) == DaysInYear(y)
  {
  }

  /** The number of leap years among 1..n when n >= 0; the same floor formula extends it below 0. */
  function LeapYearsThrough(n: int): int {
    n / 4 - n / 100 + n / 400
  }

  /** The day number of January 1st of year `y`. */
  function YearStart(y: int): Date {
    365 * (y - 1970) + LeapYearsThrough(y - 1) - LeapYearsThrough(1969)
  }

  /** The day number of the civil date y-m-d. */
  function DaysFromCivil(y: int, m: int, d: int): Date
    requires 1 <= m <= 12
  {
    YearStart(y) + DaysBeforeMonth(y, m) + d - 1
  }

  /** Stepping `y` down by one lowers `y / k` exactly when `k` divides `y`. */
  lemma DivStep(y: int, k: int)
    requires k > 0
    ensures y / k - (y - 1) / k == (if y % k == 0 then 1 else 0)
  {
    var q, r := y / k, y % k;
    assert y == k * q + r && 0 <= r < k;
    if r == 0 {
      assert y - 1 == k * (q - 1) + (k - 1);
      DivUnique(y - 1, k, q - 1, k - 1);
    } else {
      assert y - 1 == k * q + (r - 1);
      DivUnique(y - 1, k, q, r - 1);
    }
  }

  /** Euclidean division has one quotient and remainder. */
  lemma DivUnique(x: int, k: int, q: int, r: int)
    requires k > 0 && 0 <= r < k && x == k * q + r
    ensures x / k == q
  {
    var q', r' := x / k, x % k;
    assert k * q + r == k * q' + r';
    if q > q' {
      assert k * q == k * q' + k * (q - q');
      MulAtLeast(k, q - q');
    } else if q < q' {
      assert k * q' == k * q + k * (q' - q);
      MulAtLeast(k, q' - q);
    }
  }

  lemma {:induction false} MulAtLeast(k: int, d: int)
    requires k > 0 && d >= 1
    ensures k * d >= k
    decreases d
  {
    if d > 1 {
      MulAtLeast(k, d - 1);
      assert k * d == k * (d - 1) + k;
    }
  }

  lemma DividesDown(y: int, a: int, b: int)
    requires a > 0 && b > 0 && y % (a * b) == 0
    ensures y % a == 0
  {
    var q := y / (a * b);
    assert y == (a * b) * q;
    assert y == a * (b * q);
    DivUnique(y, a, b * q, 0);
  }

  lemma YearStartNext(y: int)
    ensures YearStart(y + 1) == YearStart(y) + DaysInYear(y)
  {
    DivStep(y, 4);
    DivStep(y, 100);
    DivStep(y, 400);
    if y % 400 == 0 {
      DividesDown(y, 100, 4);
      DividesDown(y, 4, 100);
    }
    if y % 100 == 0 {
      DividesDown(y, 4, 25);
    }
  }

  lemma {:induction false} YearStartMonotone(a: int, b: int)
    requires a <= b
    ensures YearStart(a) + 365 * (b - a) <= YearStart(b)
    decreases b - a
  {
    if a < b {
      YearStartMonotone(a, b - 1);
      YearStartNext(b - 1);
    }
  }

  /** Four hundred Gregorian years always hold 146097 days. */
  lemma YearStartEra(y: int)
    ensures YearStart(y + 400) == YearStart(y) + 146097
  {
    assert (y + 399) / 4 == (y - 1) / 4 + 100;
    assert (y + 399) / 100 == (y - 1) / 100 + 4;
    assert (y + 399) / 400 == (y - 1) / 400 + 1;
  }

  lemma {:induction false} YearStartOfEra(q: int)
    ensures YearStart(1970 + 400 * q) == 146097 * q
    decreases if q < 0 then -q else q
  {
    if q > 0 {
      YearStartOfEra(q - 1);
      YearStartEra(1970 + 400 * (q - 1));
    } else if q < 0 {
      YearStartOfEra(q + 1);
      YearStartEra(1970 + 400 * q);
    }
  }

  /** The year holding day `z`, searched upwards from a year that starts on or before it. */
  function FindYear(z: Date, y: int): (r: int)
    requires YearStart(y) <= z
    ensures YearStart(r) <= z < YearStart(r + 1)
    decreases z - YearStart(y)
  {
    YearStartNext(y);
    if z < YearStart(y + 1) then y else FindYear(z, y + 1)
  }

  /** The year holding day `z`: the one whose January 1st is the last on or before `z`. */
  function YearOf(z: Date): (y: int)
    ensures YearStart(y) <= z < YearStart(y + 1)
  {
    var q := z / 146097;
    YearStartOfEra(q);
    FindYear(z, 1970 + 400 * q)
  }

  /** The month of year `y` holding day-of-year `doy` (counting from 0), searched from month `m`. */
  function FindMonth(y: int, doy: int, m: int): (r: int)
    requires 1 <= m <= 12
    requires DaysBeforeMonth(y, m) <= doy < DaysInYear(y)
    ensures m <= r <= 12
    ensures DaysBeforeMonth(y, r) <= doy < DaysBeforeMonth(y, r) + DaysInMonth(y, r)
    decreases 12 - m
  {
    DaysBeforeMonthInYear(y, m);
    if m == 12 || doy < DaysBeforeMonth(y, m) + DaysInMonth(y, m) then m
    else
      DaysBeforeNextMonth(y, m);
      FindMonth(y, doy, m + 1)
  }

  datatype CivilDate = CivilDate(year: int, month: int, day: int)

  /** The civil date of day number `z`. */
  function CivilFromDays(z: Date): (c: CivilDate)
    ensures ValidDate(c.year, c.month, c.day)
    ensures DaysFromCivil(c.year, c.month, c.day) == z
  {
    var y := YearOf(z);
    YearStartNext(y);
    var m := FindMonth(y, z - YearStart(y), 1);
    CivilDate(y, m, z - YearStart(y) - DaysBeforeMonth(y, m) + 1)
  }

  /** A valid date's day number lies inside its year. */
  lemma DaysFromCivilInYear(y: int, m: int, d: int)
    requires ValidDate(y, m, d)
    ensures YearStart(y) <= DaysFromCivil(y, m, d) < YearStart(y + 1)
  {
    DaysBeforeMonthInYear(y, m);
    YearStartNext(y);
  }

  lemma {:induction false} DaysBeforeMonthMonotone(y: int, a: int, b: int)
    requires 1 <= a < b <= 12
    ensures DaysBeforeMonth(y, a) + DaysInMonth(y, a) <= DaysBeforeMonth(y, b)
    decreases b - a
  {
    DaysBeforeNextMonth(y, a);
    if a + 1 < b {
      DaysBeforeMonthMonotone(y, a + 1, b);
    }
  }

  /** Different valid dates have different day numbers. */
  lemma DaysFromCivilInjective(y1: int, m1: int, d1: int, y2: int, m2: int, d2: int)
    requires ValidDate(y1, m1, d1) && ValidDate(y2, m2, d2)
    requires DaysFromCivil(y1, m1, d1) == DaysFromCivil(y2, m2, d2)
    ensures y1 == y2 && m1 == m2 && d1 == d2
  {
    SameYear(y1, m1, d1, y2, m2, d2);
    SameMonth(y1, m1, d1, m2, d2);
  }

  lemma SameYear(y1: int, m1: int, d1: int, y2: int, m2: int, d2: int)
    requires ValidDate(y1, m1, d1) && ValidDate(y2, m2, d2)
    requires DaysFromCivil(y1, m1, d1) == DaysFromCivil(y2, m2, d2)
    ensures y1 == y2
  {
    DaysFromCivilInYear(y1, m1, d1);
    DaysFromCivilInYear(y2, m2, d2);
    if y1 < y2 {
      YearStartMonotone(y1 + 1, y2);
    } else if y2 < y1 {
      YearStartMonotone(y2 + 1, y1);
    }
  }

  lemma SameMonth(y: int, m1: int, d1: int, m2: int, d2: int)
    requires ValidDate(y, m1, d1) && ValidDate(y, m2, d2)
    requires DaysFromCivil(y, m1, d1) == DaysFromCivil(y, m2, d2)
    ensures m1 == m2 && d1 == d2
  {
    if m1 < m2 {
      DaysBeforeMonthMonotone(y, m1, m2);
    } else if m2 < m1 {
      DaysBeforeMonthMonotone(y, m2, m1);
    }
  }

  /** Day numbers and civil dates are in one-to-one correspondence. */
  lemma CivilRoundTrip(y: int, m: int, d: int)
    requires ValidDate(y, m, d)
    ensures CivilFromDays(DaysFromCivil(y, m, d)) == CivilDate(y, m, d)
  {
    var c := CivilFromDays(DaysFromCivil(y, m, d));
    DaysFromCivilInjective(c.year, c.month, c.day, y, m, d);
  }

  // ------------------------------------------------------- engine functions

  /** `ts::DATE`: the day a timestamp falls on (rounding down, also before 1970). */
  function DayOf(t: Timestamp): (d: Date)
    ensures SecondsPerDay * d <= t < SecondsPerDay * d + SecondsPerDay
  {
    t / SecondsPerDay
  }

  /** The timestamp of hh:mm:ss on day `d`. */
  function TimestampAt(d: Date, hour: int, minute: int, second: int): Timestamp {
    d * SecondsPerDay + hour * 3600 + minute * 60 + second
  }

  lemma DayOfTimestampAt(d: Date, hour: int, minute: int, second: int)
    requires 0 <= hour < 24 && 0 <= minute < 60 && 0 <= second < 60
    ensures DayOf(TimestampAt(d, hour, minute, second)) == d
  {
    var r := hour * 3600 + minute * 60 + second;
    assert 0 <= r < SecondsPerDay;
    assert TimestampAt(d, hour, minute, second) == d * SecondsPerDay + r;
  }

  /** `date_trunc('week', ..)`: the Monday on or before day `d` (1970-01-01 was a Thursday). */
  function WeekStart(d: Date): Date {
    d - (d + 3) % 7
  }

  lemma WeekStartFacts(d: Date)
    ensures WeekStart(d) <= d < WeekStart(d) + 7
    ensures (WeekStart(d) + 3) % 7 == 0
    ensures WeekStart(WeekStart(d)) == WeekStart(d)
  {
  }

  /** Two week starts lie a whole number of weeks apart. */
  lemma WeekStartsApart(a: Date, b: Date)
    ensures (WeekStart(a) - WeekStart(b)) % 7 == 0
  {
    WeekStartFacts(a);
    WeekStartFacts(b);
    var x, y := WeekStart(a) + 3, WeekStart(b) + 3;
    assert x == (x / 7) * 7 && y == (y / 7) * 7;
    assert WeekStart(a) - WeekStart(b) == (x / 7 - y / 7) * 7;
  }

  /** `date_trunc('month', ..)`: the first day of the month holding day `d`. */
  function MonthStart(d: Date): Date {
    var c := CivilFromDays(d);
    DaysFromCivil(c.year, c.month, 1)
  }

  /** The month start of a civil date is the first of its month. */
  lemma MonthStartOfCivil(y: int, m: int, d: int)
    requires ValidDate(y, m, d)
    ensures MonthStart(DaysFromCivil(y, m, d)) == DaysFromCivil(y, m, 1)
  {
    CivilRoundTrip(y, m, d);
  }

  lemma MonthStartFacts(d: Date)
    ensures MonthStart(d) <= d
    ensures d - MonthStart(d) < 31
    ensures MonthStart(MonthStart(d)) == MonthStart(d)
  {
    var c := CivilFromDays(d);
    MonthStartOfCivil(c.year, c.month, 1);
  }
}
