/**
 * Calendar dates as .NET's DateTime uses them for whole days: the proleptic
 * Gregorian calendar, with a date represented by its day number.
 */
module Dates {
  import opened Wrappers

  /** Days since 0001-01-01, which is day 0 and a Monday. Earlier days are negative. */
  type Date = int

  datatype CivilDate = CivilDate(year: int, month: int, day: int)

  predicate IsLeapYear(y: int) {
    y % 4 == 0 && (y % 100 != 0 || y % 400 == 0)
  }

  function DaysInYear(y: int): int {
    if IsLeapYear(y) then 366 else 365
  }

  /** DateTime.DaysInMonth: the length of month `m` of year `y`. */
  function DaysInMonth(y: int, m: int): (r: int)
    requires 1 <= m <= 12
    ensures 28 <= r <= 31
    ensures r == 29 <==> m == 2 && IsLeapYear(y)
  {
    if m == 2 then (if IsLeapYear(y) then 29 else 28)
    else if m == 4 || m == 6 || m == 9 || m == 11 then 30
    else 31
  }

  predicate ValidCivil(c: CivilDate) {
    1 <= c.month <= 12 && 1 <= c.day <= DaysInMonth(c.year, c.month)
  }

  /** Days of year `y` that come before the first day of month `m` (month 13 stands for the next year). */
  function DaysBeforeMonth(y: int, m: int): int
    requires 1 <= m <= 13
  {
    if m == 1 then 0 else DaysBeforeMonth(y, m - 1) + DaysInMonth(y, m - 1)
  }

  /** Day number of 1 January of year `y`. */
  function DaysBeforeYear(y: int): int {
    var k := y - 1;
    365 * k + k / 4 - k / 100 + k / 400
  }

  /** Day number of the civil date `c`: `new DateTime(year, month, day)`. */
  function ToDays(c: CivilDate): Date
    requires 1 <= c.month <= 12
  {
    DaysBeforeYear(c.year) + DaysBeforeMonth(c.year, c.month) + c.day - 1
  }

  lemma MonthsPartitionYear(y: int, m: int)
    requires 1 <= m <= 12
    ensures DaysBeforeMonth(y, m + 1) == DaysBeforeMonth(y, m) + DaysInMonth(y, m)
    ensures DaysBeforeMonth(y, 13) == DaysInYear(y)
  {
    var leap := if IsLeapYear(y) then 1 else 0;
    assert DaysBeforeMonth(y, 2) == 31;
    assert DaysBeforeMonth(y, 3) == 59 + leap;
    assert DaysBeforeMonth(y, 4) == 90 + leap;
    assert DaysBeforeMonth(y, 5) == 120 + leap;
    assert DaysBeforeMonth(y, 6) == 151 + leap;
    assert DaysBeforeMonth(y, 7) == 181 + leap;
    assert DaysBeforeMonth(y, 8) == 212 + leap;
    assert DaysBeforeMonth(y, 9) == 243 + leap;
    assert DaysBeforeMonth(y, 10) == 273 + leap;
    assert DaysBeforeMonth(y, 11) == 304 + leap;
    assert DaysBeforeMonth(y, 12) == 334 + leap;
  }

  /** How a quotient by `m` moves when the dividend grows by one. */
  lemma QuotientStep(k: int, m: int)
    requires m == 4 || m == 100 || m == 400
    ensures (k + 1) / m == k / m + (if (k + 1) % m == 0 then 1 else 0)
  {
  }

  /** Every multiple of 400 is a multiple of 100, and every multiple of 100 a multiple of 4. */
  lemma DivisorChain(n: int)
    ensures n % 100 == 0 ==> n % 4 == 0
    ensures n % 400 == 0 ==> n % 100 == 0
  {
    if n % 100 == 0 {
      assert n == 4 * (25 * (n / 100));
    }
    if n % 400 == 0 {
      assert n == 100 * (4 * (n / 400));
    }
  }

  lemma NextYearStart(y: int)
    ensures DaysBeforeYear(y + 1) == DaysBeforeYear(y) + DaysInYear(y)
  {
    var k := y - 1;
    QuotientStep(k, 4);
    QuotientStep(k, 100);
    QuotientStep(k, 400);
    DivisorChain(y);
    var step := (if y % 4 == 0 then 1 else 0) - (if y % 100 == 0 then 1 else 0) + (if y % 400 == 0 then 1 else 0);
    assert DaysBeforeYear(y + 1) == DaysBeforeYear(y) + 365 + step;
    assert step == DaysInYear(y) - 365;
  }

  lemma {:induction false} YearStartsIncrease(a: int, b: int)
    requires a <= b
    ensures DaysBeforeYear(a) + 365 * (b - a) <= DaysBeforeYear(b)
    decreases b - a
  {
    if a < b {
      YearStartsIncrease(a, b - 1);
      NextYearStart(b - 1);
    }
  }

  /** The measure that makes YearFrom terminate: how far `n` lies outside year `y`. */
  function YearDistance(n: Date, y: int): nat {
    if n < DaysBeforeYear(y) then DaysBeforeYear(y) - n
    else if n >= DaysBeforeYear(y + 1) then n - DaysBeforeYear(y)
    else 0
  }

  /** Each step of the year search moves towards the year holding `n`. */
  lemma YearDistanceDecreases(n: Date, y: int)
    ensures n < DaysBeforeYear(y) ==> YearDistance(n, y - 1) < YearDistance(n, y)
    ensures n >= DaysBeforeYear(y + 1) ==> YearDistance(n, y + 1) < YearDistance(n, y)
  {
    NextYearStart(y - 1);
    NextYearStart(y);
  }

  /** The year holding day `n`, searched for from year `y`. */
  function YearFrom(n: Date, y: int): int
    decreases YearDistance(n, y)
  {
    YearDistanceDecreases(n, y);
    if n < DaysBeforeYear(y) then YearFrom(n, y - 1)
    else if n >= DaysBeforeYear(y + 1) then YearFrom(n, y + 1)
    else y
  }

  /** Day `n` falls in year `y`. */
  predicate InYear(n: Date, y: int) {
    DaysBeforeYear(y) <= n < DaysBeforeYear(y + 1)
  }

  /** The year YearFrom finds does hold day `n`. */
  lemma {:induction false} YearFromBounds(n: Date, y: int)
    ensures InYear(n, YearFrom(n, y))
    decreases YearDistance(n, y)
  {
    YearDistanceDecreases(n, y);
    if n < DaysBeforeYear(y) {
      YearFromBounds(n, y - 1);
    } else if n >= DaysBeforeYear(y + 1) {
      YearFromBounds(n, y + 1);
    }
  }

  /** The month holding day `doy` (counted from 0) of year `y`, searched for from month `m`. */
  function MonthFrom(y: int, doy: int, m: int): (r: int)
    requires 1 <= m <= 12 && DaysBeforeMonth(y, m) <= doy < DaysInYear(y)
    ensures m <= r <= 12
    ensures DaysBeforeMonth(y, r) <= doy < DaysBeforeMonth(y, r + 1)
    decreases 12 - m
  {
    MonthsPartitionYear(y, m);
    if m == 12 || doy < DaysBeforeMonth(y, m + 1) then m else MonthFrom(y, doy, m + 1)
  }

  /** The month holding day `doy` (counted from 0) of year `y`. */
  function MonthOfDay(y: int, doy: int): (m: int)
    requires 0 <= doy < DaysInYear(y)
    ensures 1 <= m <= 12
    ensures DaysBeforeMonth(y, m) <= doy < DaysBeforeMonth(y, m + 1)
  {
    MonthFrom(y, doy, 1)
  }

  /** The year, month and day of day number `n` (DateTime.Year, .Month, .Day). */
  function Civil(n: Date): (c: CivilDate)
    ensures ValidCivil(c)
    ensures ToDays(c) == n
  {
    var y := YearFrom(n, 1);
    YearFromBounds(n, 1);
    NextYearStart(y);
    var doy := n - DaysBeforeYear(y);
    var m := MonthOfDay(y, doy);
    MonthsPartitionYear(y, m);
    CivilDate(y, m, doy - DaysBeforeMonth(y, m) + 1)
  }

  /** Every valid civil date lies inside its own year and month. */
  lemma CivilBounds(c: CivilDate)
    requires ValidCivil(c)
    ensures DaysBeforeYear(c.year) <= ToDays(c) < DaysBeforeYear(c.year + 1)
  {
    MonthsPartitionYear(c.year, c.month);
    NextYearStart(c.year);
    MonthStartsIncrease(c.year, 1, c.month);
    MonthStartsIncrease(c.year, c.month + 1, 13);
  }

  lemma MonthStartsIncrease(y: int, i: int, j: int)
    requires 1 <= i <= j <= 13
    ensures DaysBeforeMonth(y, i) <= DaysBeforeMonth(y, j)
    decreases j - i
  {
    if i < j {
      MonthStartsIncrease(y, i + 1, j);
    }
  }

  /** Two valid civil dates with the same day number fall in the same year. */
  lemma SameDaysSameYear(c: CivilDate, d: CivilDate)
    requires ValidCivil(c) && ValidCivil(d)
    requires ToDays(c) == ToDays(d)
    ensures c.year == d.year
  {
    CivilBounds(c);
    CivilBounds(d);
    if c.year < d.year {
      YearStartsIncrease(c.year + 1, d.year);
    } else if d.year < c.year {
      YearStartsIncrease(d.year + 1, c.year);
    }
  }

  /** Two valid civil dates with the same day number are the same date. */
  lemma ToDaysInjective(c: CivilDate, d: CivilDate)
    requires ValidCivil(c) && ValidCivil(d)
    requires ToDays(c) == ToDays(d)
    ensures c == d
  {
    SameDaysSameYear(c, d);
    var y := c.year;
    MonthsPartitionYear(y, c.month);
    MonthsPartitionYear(y, d.month);
    if c.month < d.month {
      MonthStartsIncrease(y, c.month + 1, d.month);
    } else if d.month < c.month {
      MonthStartsIncrease(y, d.month + 1, c.month);
    }
  }

  /** Civil and ToDays are inverse: a valid date survives the round trip through its day number. */
  lemma CivilOfToDays(c: CivilDate)
    requires ValidCivil(c)
    ensures Civil(ToDays(c)) == c
  {
    ToDaysInjective(Civil(ToDays(c)), c);
  }

  function Year(n: Date): int { Civil(n).year }

  function Month(n: Date): int { Civil(n).month }

  function Day(n: Date): int { Civil(n).day }

  /** DateTime.DayOfWeek numbered as .NET numbers it: 0 is Sunday, 6 is Saturday. */
  function DayOfWeek(n: Date): (w: int)
    ensures 0 <= w < 7
  {
    (n + 1) % 7
  }

  const Sunday := 0
  const Saturday := 6

  /** 1 January 2024 is a Monday. */
  lemma DayOfWeekAnchor()
    ensures DayOfWeek(ToDays(CivilDate(2024, 1, 1))) == 1
  {
    assert DaysBeforeMonth(2024, 1) == 0;
    assert DaysBeforeYear(2024) == 738885;
  }

  /** Each day is the weekday after the day before it, Saturday wrapping round to Sunday. */
  lemma DayOfWeekStep(n: Date)
    ensures DayOfWeek(n + 1) == (DayOfWeek(n) + 1) % 7
    ensures DayOfWeek(n + 7) == DayOfWeek(n)
  {
    var q := (n + 1) / 7;
    assert n + 1 == 7 * q + DayOfWeek(n);
    assert n + 2 == 7 * q + (DayOfWeek(n) + 1);
    assert n + 8 == 7 * (q + 1) + DayOfWeek(n);
  }

  /** DateTime.AddDays for a whole number of days. */
  function AddDays(n: Date, k: int): Date {
    n + k
  }

  /**
   * DateTime.AddMonths: move `k` months on in the calendar, keeping the day
   * of the month unless the target month is shorter, in which case the
   * result is that month's last day.
   */
  function AddMonths(n: Date, k: int): (r: Date)
    ensures var c, c' := Civil(n), Civil(r);
      && 12 * c'.year + c'.month == 12 * c.year + c.month + k
      && c'.day == Min(c.day, DaysInMonth(c'.year, c'.month))
  {
    var c := Civil(n);
    var total := c.month - 1 + k;
    var y := c.year + total / 12;
    var m := total % 12 + 1;
    var target := CivilDate(y, m, Min(c.day, DaysInMonth(y, m)));
    CivilOfToDays(target);
    ToDays(target)
  }

  /** `new DateTime(d.Year, d.Month, day)` with the day clamped to the month's length, as the scheduler does. */
  function WithDayOfMonth(n: Date, day: int): (r: Date)
    requires day >= 1
    ensures Year(r) == Year(n) && Month(r) == Month(n)
    ensures Day(r) == Min(day, DaysInMonth(Year(n), Month(n)))
  {
    var c := Civil(n);
    var target := CivilDate(c.year, c.month, Min(day, DaysInMonth(c.year, c.month)));
    CivilOfToDays(target);
    ToDays(target)
  }

  /** The first day of the month after the one holding `c` comes right after that month's last day. */
  lemma NextMonthStart(c: CivilDate)
    requires ValidCivil(c)
    ensures var next := if c.month == 12 then CivilDate(c.year + 1, 1, 1) else CivilDate(c.year, c.month + 1, 1);
      ToDays(next) == ToDays(CivilDate(c.year, c.month, 1)) + DaysInMonth(c.year, c.month)
  {
    MonthsPartitionYear(c.year, c.month);
    NextYearStart(c.year);
  }

  /** Any date in a later month than day `n` is a later day. */
  lemma LaterMonthIsLater(n: Date, r: Date)
    requires var c, c' := Civil(n), Civil(r); 12 * c'.year + c'.month == 12 * c.year + c.month + 1
    ensures r > n
  {
    var c, c' := Civil(n), Civil(r);
    NextMonthStart(c);
    var next := if c.month == 12 then CivilDate(c.year + 1, 1, 1) else CivilDate(c.year, c.month + 1, 1);
    assert c'.year == next.year && c'.month == next.month;
  }

  /** Adding one month always moves a date strictly forward. */
  lemma AddOneMonthIsLater(n: Date)
    ensures AddMonths(n, 1) > n
  {
    LaterMonthIsLater(n, AddMonths(n, 1));
  }
}
