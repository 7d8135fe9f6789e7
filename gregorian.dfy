/**
 * A proleptic Gregorian day count. `calElement` obtains its day offset from
 * the anchor 1900-01-31 (the first day of lunar year 1900) through the Java
 * date library; this module states that offset as plain arithmetic on the
 * calendar date instead.
 */
module Gregorian {

  datatype Date = Date(year: int, month: int, day: int)

  predicate IsLeapYear(year: int)
  {
    year % 4 == 0 && (year % 100 != 0 || year % 400 == 0)
  }

  function MonthLength(year: int, month: int): (days: int)
    requires 1 <= month <= 12
    ensures 28 <= days <= 31
  {
    if month == 2 then (if IsLeapYear(year) then 29 else 28)
    else if month == 4 || month == 6 || month == 9 || month == 11 then 30
    else 31
  }

  /** A date that exists in the proleptic Gregorian calendar. */
  predicate Valid(date: Date)
  {
    1 <= date.month <= 12 && 1 <= date.day <= MonthLength(date.year, date.month)
  }

  /** Days from 0001-01-01 to January 1 of `year`; `/` is floor division here. */
  function DaysBeforeYear(year: int): int
  {
    365 * (year - 1) + (year - 1) / 4 - (year - 1) / 100 + (year - 1) / 400
  }

  /** Days from January 1 to the first day of `month`. */
  function DaysBeforeMonth(year: int, month: int): (days: int)
    requires 1 <= month <= 13
    ensures 28 * (month - 1) <= days <= 31 * (month - 1)
  {
    if month == 1 then 0 else DaysBeforeMonth(year, month - 1) + MonthLength(year, month - 1)
  }

  /** Serial number of a date, counted from 0001-01-01. */
  function SerialDay(date: Date): int
    requires Valid(date)
  {
    DaysBeforeYear(date.year) + DaysBeforeMonth(date.year, date.month) + date.day - 1
  }

  const Anchor := Date(1900, 1, 31)

  /** Whole days from 1900-01-31 to `date` (negative before the anchor). */
  function DaysSinceAnchor(date: Date): int
    requires Valid(date)
  {
    SerialDay(date) - SerialDay(Anchor)
  }

  /** The calendar day after `date`. */
  function NextDay(date: Date): (next: Date)
    requires Valid(date)
    ensures Valid(next)
  {
    if date.day < MonthLength(date.year, date.month) then Date(date.year, date.month, date.day + 1)
    else if date.month < 12 then Date(date.year, date.month + 1, 1)
    else Date(date.year + 1, 1, 1)
  }

  /** Each leap-year counter in DaysBeforeYear steps up exactly at the multiples of its divisor. */
  lemma LeapCounters(y: int)
    ensures y / 4 - (y - 1) / 4 == if y % 4 == 0 then 1 else 0
    ensures y / 100 - (y - 1) / 100 == if y % 100 == 0 then 1 else 0
    ensures y / 400 - (y - 1) / 400 == if y % 400 == 0 then 1 else 0
    ensures y % 400 == 0 ==> y % 100 == 0
    ensures y % 100 == 0 ==> y % 4 == 0
  {
    if y % 400 == 0 {
      assert y == 100 * (4 * (y / 400));
    }
    if y % 100 == 0 {
      assert y == 4 * (25 * (y / 100));
    }
  }

  /** A year has 366 days when it is a leap year and 365 otherwise. */
  lemma YearLength(year: int)
    ensures DaysBeforeMonth(year, 13) == if IsLeapYear(year) then 366 else 365
  {
    var leap := if IsLeapYear(year) then 1 else 0;
    assert DaysBeforeMonth(year, 3) == 59 + leap;
    assert DaysBeforeMonth(year, 5) == 120 + leap;
    assert DaysBeforeMonth(year, 7) == 181 + leap;
    assert DaysBeforeMonth(year, 9) == 243 + leap;
    assert DaysBeforeMonth(year, 11) == 304 + leap;
  }

  /** DaysBeforeYear advances by the length of each year. */
  lemma NextYear(year: int)
    ensures DaysBeforeYear(year + 1) == DaysBeforeYear(year) + DaysBeforeMonth(year, 13)
  {
    LeapCounters(year);
    YearLength(year);
    assert DaysBeforeYear(year + 1) - DaysBeforeYear(year)
        == 365 + (year / 4 - (year - 1) / 4) - (year / 100 - (year - 1) / 100) + (year / 400 - (year - 1) / 400);
  }

  /**
   * The day count is the calendar's own succession of days: the next day is
   * always numbered one higher, across month and year ends alike.
   */
  lemma NextDayCounts(date: Date)
    requires Valid(date)
    ensures DaysSinceAnchor(NextDay(date)) == DaysSinceAnchor(date) + 1
  {
    if date.day == MonthLength(date.year, date.month) && date.month == 12 {
      NextYear(date.year);
    }
  }

  /**
   * ISO day of the week, 1 (Monday) .. 7 (Sunday), counted from the anchor
   * 1900-01-31, a Wednesday. The Java date library's `getDayOfWeek` gives
   * the same numbering.
   */
  function DayOfWeek(date: Date): (weekday: int)
    requires Valid(date)
    ensures 1 <= weekday <= 7
  {
    (DaysSinceAnchor(date) + 2) % 7 + 1
  }

  /** The anchor 1900-01-31 was a Wednesday. */
  lemma AnchorIsWednesday()
    ensures DaysSinceAnchor(Anchor) == 0 && DayOfWeek(Anchor) == 3
  {
  }

  /** The weekday advances by one each day, Sunday (7) wrapping round to Monday (1). */
  lemma WeekdayAdvances(date: Date)
    requires Valid(date)
    ensures DayOfWeek(NextDay(date)) == DayOfWeek(date) % 7 + 1
  {
    NextDayCounts(date);
    WeekdayStep(DaysSinceAnchor(date));
  }

  lemma WeekdayStep(n: int)
    ensures (n + 1 + 2) % 7 + 1 == ((n + 2) % 7 + 1) % 7 + 1
  {
    var r := (n + 2) % 7;
    assert n + 2 == 7 * ((n + 2) / 7) + r;
    assert n + 3 == 7 * ((n + 2) / 7) + (r + 1);
    if r == 6 {
      assert n + 3 == 7 * ((n + 2) / 7 + 1);
    }
  }

  /** The months before `month` and the month itself fit in the year. */
  lemma {:induction false} CalendarMonthFitsYear(year: int, month: int)
    requires 1 <= month <= 12
    ensures DaysBeforeMonth(year, month) + MonthLength(year, month) <= DaysBeforeMonth(year, 13)
    decreases 13 - month
  {
    if month < 12 {
      CalendarMonthFitsYear(year, month + 1);
    }
  }

  /** Later years start later. */
  lemma {:induction false} DaysBeforeYearMono(a: int, b: int)
    requires a <= b
    ensures DaysBeforeYear(a) <= DaysBeforeYear(b)
    decreases b - a
  {
    if a < b {
      DaysBeforeYearMono(a, b - 1);
      NextYear(b - 1);
    }
  }

  /** Every date of a year before 1900 lies before the anchor. */
  lemma BeforeAnchorYear(date: Date)
    requires Valid(date) && date.year < 1900
    ensures DaysSinceAnchor(date) < 0
  {
    CalendarMonthFitsYear(date.year, date.month);
    NextYear(date.year);
    DaysBeforeYearMono(date.year + 1, 1900);
  }
}
