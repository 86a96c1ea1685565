/**
 * Calendar dates in the proleptic Gregorian calendar, numbered by days.
 * DayNumber and FromDayNumber are inverse to each other; the time axis of a
 * collection is built on them.
 */
module Calendar {

  datatype Date = Date(year: int, month: int, day: int)

  predicate IsLeapYear(y: int) {
    y % 4 == 0 && (y % 100 != 0 || y % 400 == 0)
  }

  function YearLength(y: int): int {
    if IsLeapYear(y) then 366 else 365
  }

  function DaysInMonth(y: int, m: int): int
    requires 1 <= m <= 12
  {
    if m == 2 then (if IsLeapYear(y) then 29 else 28)
    else if m == 4 || m == 6 || m == 9 || m == 11 then 30
    else 31
  }

  predicate IsValidDate(d: Date) {
    1 <= d.month <= 12 && 1 <= d.day <= DaysInMonth(d.year, d.month)
  }

  /** A date pandas can hold: a real day of a real month. */
  type CalendarDate = d: Date | IsValidDate(d) witness Date(2000, 1, 1)

  /** Days from January 1 of year y to the first day of month m; m = 13 gives the year's length. */
  function DaysBeforeMonth(y: int, m: int): (n: int)
    requires 1 <= m <= 13
    ensures 0 <= n <= 366
  {
    var common :=
      match m
      case 1 => 0
      case 2 => 31
      case 3 => 59
      case 4 => 90
      case 5 => 120
      case 6 => 151
      case 7 => 181
      case 8 => 212
      case 9 => 243
      case 10 => 273
      case 11 => 304
      case 12 => 334
      case _ => 365;
    common + (if IsLeapYear(y) && m > 2 then 1 else 0)
  }

  /** Days from 0001-01-01 to January 1 of year y (negative before year 1). */
  function DaysBeforeYear(y: int): int {
    365 * (y - 1) + (y - 1) / 4 - (y - 1) / 100 + (y - 1) / 400
  }

  /** The day number of a date: 0 for 0001-01-01, one more for each following day. */
  function DayNumber(d: Date): int
    requires 1 <= d.month <= 12
  {
    DaysBeforeYear(d.year) + DaysBeforeMonth(d.year, d.month) + d.day - 1
  }

  lemma DaysBeforeMonthStep(y: int, m: int)
    requires 1 <= m <= 12
    ensures DaysBeforeMonth(y, m + 1) == DaysBeforeMonth(y, m) + DaysInMonth(y, m)
  {
  }

  lemma DaysBeforeMonthMonotone(y: int, m1: int, m2: int)
    requires 1 <= m1 <= m2 <= 13
    ensures DaysBeforeMonth(y, m1) <= DaysBeforeMonth(y, m2)
  {
  }

  lemma YearLengthIsLastMonthEnd(y: int)
    ensures DaysBeforeMonth(y, 13) == YearLength(y)
  {
  }

  /** One year further on is exactly that year's length further on. */
  lemma DaysBeforeYearStep(y: int)
    ensures DaysBeforeYear(y + 1) == DaysBeforeYear(y) + YearLength(y)
  {
    DivStep(y - 1, 4);
    DivStep(y - 1, 100);
    DivStep(y - 1, 400);
  }

  lemma DivStep(a: int, k: int)
    requires k > 0
    ensures (a + 1) / k == a / k + (if (a + 1) % k == 0 then 1 else 0)
  {
    var q, r := a / k, a % k;
    assert a == k * q + r && 0 <= r < k;
    if r + 1 < k {
      assert a + 1 == k * q + (r + 1);
      DivUnique(a + 1, k, q, r + 1);
    } else {
      assert a + 1 == k * (q + 1) + 0;
      DivUnique(a + 1, k, q + 1, 0);
    }
  }

  lemma DivUnique(a: int, k: int, q: int, r: int)
    requires k > 0 && a == k * q + r && 0 <= r < k
    ensures a / k == q && a % k == r
  {
    var q', r' := a / k, a % k;
    assert a == k * q' + r' && 0 <= r' < k;
    if q' > q {
      assert k * q' >= k * (q + 1) by { MulMonotone(k, q + 1, q'); }
    } else if q' < q {
      assert k * q >= k * (q' + 1) by { MulMonotone(k, q' + 1, q); }
    }
  }

  lemma MulMonotone(k: int, a: int, b: int)
    requires k > 0 && a <= b
    ensures k * a <= k * b
  {
    assert k * b - k * a == k * (b - a);
  }

  /** Later years start at least 365 days per year later. */
  lemma {:induction false} DaysBeforeYearMonotone(a: int, b: int)
    requires a <= b
    ensures DaysBeforeYear(a) + 365 * (b - a) <= DaysBeforeYear(b)
    decreases b - a
  {
    if a < b {
      DaysBeforeYearMonotone(a, b - 1);
      DaysBeforeYearStep(b - 1);
    }
  }

  /** The year that day number n falls in, searched from year y. */
  function YearOfDay(n: int, y: int): (r: int)
    ensures DaysBeforeYear(r) <= n < DaysBeforeYear(r + 1)
    decreases if n < DaysBeforeYear(y) then 1 else 0,
              if n < DaysBeforeYear(y) then DaysBeforeYear(y) - n else n - DaysBeforeYear(y)
  {
    DaysBeforeYearStep(y - 1);
    DaysBeforeYearStep(y);
    if n < DaysBeforeYear(y) then YearOfDay(n, y - 1)
    else if n >= DaysBeforeYear(y + 1) then YearOfDay(n, y + 1)
    else y
  }

  /** The month that day r of year y (counted from 0) falls in, searched downwards from month m. */
  function MonthOfDay(y: int, r: int, m: int): (res: int)
    requires 1 <= m <= 12 && 0 <= r < DaysBeforeMonth(y, m + 1)
    ensures 1 <= res <= m
    ensures DaysBeforeMonth(y, res) <= r < DaysBeforeMonth(y, res + 1)
    decreases m
  {
    if DaysBeforeMonth(y, m) <= r then m else MonthOfDay(y, r, m - 1)
  }

  /** The calendar date whose day number is n. */
  function FromDayNumber(n: int): (d: CalendarDate)
    ensures DayNumber(d) == n
  {
    var y := YearOfDay(n, 1);
    var r := n - DaysBeforeYear(y);
    DaysBeforeYearStep(y);
    YearLengthIsLastMonthEnd(y);
    var m := MonthOfDay(y, r, 12);
    DaysBeforeMonthStep(y, m);
    Date(y, m, r - DaysBeforeMonth(y, m) + 1)
  }

  /** A valid date's day number lies within its own year. */
  lemma DayNumberWithinYear(d: CalendarDate)
    ensures DaysBeforeYear(d.year) <= DayNumber(d) < DaysBeforeYear(d.year + 1)
  {
    DaysBeforeMonthStep(d.year, d.month);
    DaysBeforeMonthMonotone(d.year, d.month + 1, 13);
    YearLengthIsLastMonthEnd(d.year);
    DaysBeforeYearStep(d.year);
  }

  /** Two different valid dates never share a day number. */
  lemma DayNumberInjective(a: CalendarDate, b: CalendarDate)
    requires DayNumber(a) == DayNumber(b)
    ensures a == b
  {
    DayNumberWithinYear(a);
    DayNumberWithinYear(b);
    if a.year < b.year {
      DaysBeforeYearMonotone(a.year + 1, b.year);
    } else if b.year < a.year {
      DaysBeforeYearMonotone(b.year + 1, a.year);
    }
    assert a.year == b.year;
    DaysBeforeMonthStep(a.year, a.month);
    DaysBeforeMonthStep(b.year, b.month);
    if a.month < b.month {
      DaysBeforeMonthMonotone(a.year, a.month + 1, b.month);
    } else if b.month < a.month {
      DaysBeforeMonthMonotone(a.year, b.month + 1, a.month);
    }
  }

  /** Numbering a date and converting the number back gives the date again. */
  lemma FromDayNumberRoundTrip(d: CalendarDate)
    ensures FromDayNumber(DayNumber(d)) == d
  {
    DayNumberInjective(FromDayNumber(DayNumber(d)), d);
  }

  /** The day after the last day of a year is January 1 of the next. */
  lemma NewYearFollows(y: int)
    ensures DayNumber(Date(y + 1, 1, 1)) == DayNumber(Date(y, 12, 31)) + 1
  {
    DaysBeforeYearStep(y);
  }

  /** Chronological order of dates: by year, then month, then day. */
  predicate DateBefore(a: Date, b: Date) {
    a.year < b.year || (a.year == b.year && (a.month < b.month || (a.month == b.month && a.day < b.day)))
  }

  /** Chronological order is the order of day numbers. */
  lemma DateBeforeIsDayOrder(a: CalendarDate, b: CalendarDate)
    ensures DateBefore(a, b) <==> DayNumber(a) < DayNumber(b)
  {
    DayNumberWithinYear(a);
    DayNumberWithinYear(b);
    if a.year < b.year {
      DaysBeforeYearMonotone(a.year + 1, b.year);
    } else if b.year < a.year {
      DaysBeforeYearMonotone(b.year + 1, a.year);
    } else {
      DaysBeforeMonthStep(a.year, a.month);
      DaysBeforeMonthStep(b.year, b.month);
      if a.month < b.month {
        DaysBeforeMonthMonotone(a.year, a.month + 1, b.month);
      } else if b.month < a.month {
        DaysBeforeMonthMonotone(a.year, b.month + 1, a.month);
      }
    }
  }
}
