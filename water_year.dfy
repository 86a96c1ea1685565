/**
 * The water-year rule of add_to_collection and the time coordinate of a collection:
 * "hours since <epoch year>-10-01 00:00:00" in the standard calendar, every flight
 * stamped at 23:00 of its day.
 */
module WaterYear {
  import opened Outcomes
  import opened Calendar

  /** The water year a flight date is filed under: its calendar year up to October, the next year in November and December. */
  function WaterYearOf(d: Date): int {
    if d.month <= 10 then d.year else d.year + 1
  }

  /** The two fields add_to_collection sets: water_year always, start_yr only in its first branch. */
  datatype YearFields = YearFields(waterYear: int, startYear: Option<int>)

  /** The water-year code exactly as written: start_yr is left unassigned for November and December. */
  function YearFieldsAsWritten(d: Date): (f: YearFields)
    ensures f.waterYear == WaterYearOf(d)
    ensures f.startYear.Some? <==> d.month <= 10
    ensures f.startYear.Some? ==> f.startYear.value == f.waterYear - 1
  {
    var waterYear := d.year;
    if d.month <= 10 then YearFields(waterYear, Some(waterYear - 1))
    else YearFields(waterYear + 1, None)
  }

  /** The epoch year a new collection is stamped with, as the code intends: the year before the water year. */
  function StartYearOf(d: Date): (y: int)
    ensures y + 1 == WaterYearOf(d)
    ensures YearFieldsAsWritten(d).startYear.Some? ==> YearFieldsAsWritten(d).startYear.value == y
  {
    WaterYearOf(d) - 1
  }

  /** The first day of the time axis: October 1 of the epoch year. */
  function EpochDay(epochYear: int): int {
    DayNumber(Date(epochYear, 10, 1))
  }

  /** nc.date2num(date + 23 h, "hours since <epochYear>-10-01", "standard"). */
  function TimeValue(epochYear: int, d: CalendarDate): int {
    24 * (DayNumber(d) - EpochDay(epochYear)) + 23
  }

  /** nc.num2date(t, units, "standard") reduced to its calendar date. */
  function DateOfHours(epochYear: int, t: int): CalendarDate {
    FromDayNumber(EpochDay(epochYear) + t / 24)
  }

  /** Every time value sits at 23:00 of its day. */
  lemma TimeValueAtElevenPm(epochYear: int, d: CalendarDate)
    ensures TimeValue(epochYear, d) % 24 == 23
  {
    DayOfHour(DayNumber(d) - EpochDay(epochYear));
  }

  lemma DayOfHour(k: int)
    ensures (24 * k + 23) / 24 == k && (24 * k + 23) % 24 == 23
  {
  }

  /** Converting a flight's time value back to a calendar date gives the flight date again. */
  lemma TimeValueRoundTrip(epochYear: int, d: CalendarDate)
    ensures DateOfHours(epochYear, TimeValue(epochYear, d)) == d
  {
    var n := DayNumber(d);
    var e := EpochDay(epochYear);
    DayOfHour(n - e);
    assert TimeValue(epochYear, d) / 24 == n - e;
    FromDayNumberRoundTrip(d);
  }

  /** A stored time reads back as date d exactly when it lies within d's day (hours 0 to 23 of it). */
  lemma DateOfHoursIff(epochYear: int, t: int, d: CalendarDate)
    ensures DateOfHours(epochYear, t) == d <==> t / 24 == DayNumber(d) - EpochDay(epochYear)
  {
    if DateOfHours(epochYear, t) == d {
      assert DayNumber(FromDayNumber(EpochDay(epochYear) + t / 24)) == EpochDay(epochYear) + t / 24;
    } else if t / 24 == DayNumber(d) - EpochDay(epochYear) {
      FromDayNumberRoundTrip(d);
    }
  }

  /** Different flight dates never share a time value. */
  lemma TimeValueInjective(epochYear: int, a: CalendarDate, b: CalendarDate)
    requires TimeValue(epochYear, a) == TimeValue(epochYear, b)
    ensures a == b
  {
    TimeValueRoundTrip(epochYear, a);
    TimeValueRoundTrip(epochYear, b);
  }

  /**
   * In the collection of its own water year (epoch year = water year - 1) a flight's time value lies
   * between November 1 (day 31) and October 31 of the next year (day 396), so it is positive and far
   * below 2^24: the float32 time variable holds it exactly.
   */
  lemma TimeValueWithinWaterYear(d: CalendarDate)
    ensures 24 * 31 + 23 <= TimeValue(StartYearOf(d), d) <= 24 * 396 + 23
    ensures 0 < TimeValue(StartYearOf(d), d) < 0x100_0000
  {
    var e := StartYearOf(d);
    if d.month <= 10 {
      assert d.year == e + 1;
      DaysBeforeYearStep(e);
      DaysBeforeMonthMonotone(d.year, d.month, 10);
    } else {
      assert d.year == e;
    }
  }

  /**
   * Flights on December 31 and on the next January 1 fall in the same water year, and the
   * second gets a time value exactly one day later: the axis runs on across the new year.
   */
  lemma TimeValueAcrossNewYear(y: int)
    ensures StartYearOf(Date(y, 12, 31)) == StartYearOf(Date(y + 1, 1, 1)) == y
    ensures TimeValue(y, Date(y + 1, 1, 1)) == TimeValue(y, Date(y, 12, 31)) + 24
  {
    NewYearFollows(y);
  }
}
