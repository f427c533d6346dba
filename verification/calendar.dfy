/**
 * Proleptic-Gregorian calendar arithmetic.  A date is a (year, month, day)
 * triple; `Ordinal` numbers the days consecutively, with day 0 being
 * Monday 0001-01-01, so that moving a PHP DateTime forward by one day
 * ('P1D') is adding one to the ordinal and the ISO weekday ('N' format)
 * follows from the ordinal modulo 7.
 */
module Calendar {

  datatype Date = Date(year: int, month: int, day: int)

  predicate IsLeapYear(y: int) {
    y % 4 == 0 && (y % 100 != 0 || y % 400 == 0)
  }

  function DaysInYear(y: int): int {
    if IsLeapYear(y) then 366 else 365
  }

  function DaysInMonth(y: int, m: int): int {
    if m == 2 then (if IsLeapYear(y) then 29 else 28)
    else if m == 4 || m == 6 || m == 9 || m == 11 then 30
    else 31
  }

  predicate ValidDate(d: Date) {
    1 <= d.month <= 12 && 1 <= d.day <= DaysInMonth(d.year, d.month)
  }

  /** Days of year `y` that lie before the first of month `m`. */
  function DaysBeforeMonth(y: int, m: int): int {
    var leap := if IsLeapYear(y) then 1 else 0;
    if m <= 1 then 0
    else if m == 2 then 31
    else if m == 3 then 59 + leap
    else if m == 4 then 90 + leap
    else if m == 5 then 120 + leap
    else if m == 6 then 151 + leap
    else if m == 7 then 181 + leap
    else if m == 8 then 212 + leap
    else if m == 9 then 243 + leap
    else if m == 10 then 273 + leap
    else if m == 11 then 304 + leap
    else if m == 12 then 334 + leap
    else 365 + leap
  }

  /** Days from 0001-01-01 to January 1 of year `y` (negative before year 1). */
  function DaysBeforeYear(y: int): int {
    365 * (y - 1) + (y - 1) / 4 - (y - 1) / 100 + (y - 1) / 400
  }

  /** The day number of a date; 0001-01-01 is day 0. */
  function Ordinal(d: Date): int {
    DaysBeforeYear(d.year) + DaysBeforeMonth(d.year, d.month) + d.day - 1
  }

  /** ISO-8601 weekday of a day number: 1 = Monday ... 7 = Sunday. */
  function IsoWeekday(n: int): (w: int)
    ensures 1 <= w <= 7
  {
    n % 7 + 1
  }

  /** Chronological order of two dates, field by field. */
  predicate Before(a: Date, b: Date) {
    a.year < b.year
    || (a.year == b.year && a.month < b.month)
    || (a.year == b.year && a.month == b.month && a.day < b.day)
  }

  lemma DivStep(a: int, k: int)
    requires k == 4 || k == 100 || k == 400
    ensures (a + 1) / k - a / k == (if (a + 1) % k == 0 then 1 else 0)
  {
    if k == 4 {
    } else if k == 100 {
    } else {
    }
  }

  /** One more year adds exactly the length of the year. */
  lemma YearLength(y: int)
    ensures DaysBeforeYear(y + 1) - DaysBeforeYear(y) == DaysInYear(y)
  {
    DivStep(y - 1, 4);
    DivStep(y - 1, 100);
    DivStep(y - 1, 400);
    DivisibilityChain(y);
  }

  lemma DivisibilityChain(y: int)
    ensures y % 400 == 0 ==> y % 100 == 0
    ensures y % 100 == 0 ==> y % 4 == 0
  {
    var k := y / 400;
    assert y == 400 * k + y % 400;
    if y % 400 == 0 {
      assert y / 100 == 4 * k;
    }
    var c := y / 100;
    assert y == 100 * c + y % 100;
    if y % 100 == 0 {
      assert y / 4 == 25 * c;
    }
  }

  /** The days from July 1 of `y` to June 30 of `y + 1`, inclusive, number 365 or 366. */
  lemma FinancialYearLength(y: int)
    ensures Ordinal(Date(y + 1, 6, 30)) - Ordinal(Date(y, 7, 1)) + 1 == DaysInYear(y + 1)
    ensures DaysInYear(y + 1) == 365 || DaysInYear(y + 1) == 366
  {
    YearLength(y);
  }

  lemma {:induction false} YearsAreOrdered(a: int, b: int)
    requires a < b
    ensures DaysBeforeYear(b) - DaysBeforeYear(a) >= DaysInYear(a)
    decreases b - a
  {
    YearLength(a);
    if a + 1 < b {
      YearsAreOrdered(a + 1, b);
      YearLength(a + 1);
    }
  }

  lemma DayOfYearBounds(d: Date)
    requires ValidDate(d)
    ensures 0 <= DaysBeforeMonth(d.year, d.month) + d.day - 1 < DaysInYear(d.year)
  {
  }

  lemma MonthsAreOrdered(y: int, m1: int, d1: int, m2: int, d2: int)
    requires ValidDate(Date(y, m1, d1)) && ValidDate(Date(y, m2, d2))
    requires m1 < m2
    ensures DaysBeforeMonth(y, m1) + d1 < DaysBeforeMonth(y, m2) + d2
  {
  }

  /**
   * On valid dates the day number is strictly increasing in chronological
   * order, so comparing day numbers is comparing PHP DateTime values at
   * midnight, and equal day numbers mean equal dates.
   */
  lemma OrdinalIsChronological(a: Date, b: Date)
    requires ValidDate(a) && ValidDate(b)
    ensures Ordinal(a) < Ordinal(b) <==> Before(a, b)
    ensures Ordinal(a) == Ordinal(b) <==> a == b
  {
    DayOfYearBounds(a);
    DayOfYearBounds(b);
    if a.year < b.year {
      YearsAreOrdered(a.year, b.year);
    } else if b.year < a.year {
      YearsAreOrdered(b.year, a.year);
    } else if a.month < b.month {
      MonthsAreOrdered(a.year, a.month, a.day, b.month, b.day);
    } else if b.month < a.month {
      MonthsAreOrdered(a.year, b.month, b.day, a.month, a.day);
    }
  }
}
