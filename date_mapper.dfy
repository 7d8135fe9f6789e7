/**
 * `calElement`: resolves a Gregorian date to (lunar year, lunar month, lunar
 * day, leap flag) by consuming its day offset from 1900-01-31, first whole
 * lunar years, then the months of the resolved year with the leap month
 * inserted after month `leap`.
 *
 * The specification side: DayOffset gives, for a lunar date, the number of
 * days from the anchor, by adding up the lengths of every year and month
 * before it in calendar order. CalElement is proved to return a valid lunar
 * date whose DayOffset is the input's offset, and DayOffsetInjective shows
 * that this date is the only one.
 */
module DateMapper {
  import opened LunarTable
  import Gregorian

  const EndYear := FirstYear + TableSize

  /** Total length of the lunar years 1900 .. year - 1. */
  function YearsBefore(year: int): (days: int)
    requires FirstYear <= year <= EndYear
    ensures 348 * (year - FirstYear) <= days
    decreases year - FirstYear
  {
    if year == FirstYear then 0 else YearsBefore(year - 1) + YearDays(year - 1)
  }

  lemma YearsBeforeStep(year: int)
    requires FirstYear < year <= EndYear
    ensures YearsBefore(year) == YearsBefore(year - 1) + YearDays(year - 1)
  {
  }

  /** Length of month `month` of `year`: the leap month if `isLeap`, otherwise the ordinary one. */
  function SlotDays(year: int, month: int, isLeap: bool): int
    requires InTable(year) && 1 <= month <= 12
  {
    if isLeap then LeapMonthDays(year) else MonthDays(year, month)
  }

  /**
   * Days of `year` before the first day of the given month. The months run
   * 1 .. leap, then the leap month, then leap + 1 .. 12.
   */
  function DaysBefore(year: int, month: int, isLeap: bool): int
    requires InTable(year) && 1 <= month <= 12
  {
    MonthsBefore(year, month) +
      if isLeap then MonthDays(year, month)
      else if 0 < LeapMonth(year) < month then LeapMonthDays(year)
      else 0
  }

  /** A lunar date the table describes: the leap flag only on the year's leap month, the day within its month. */
  predicate ValidLunarDate(year: int, month: int, isLeap: bool, day: int)
  {
    && InTable(year)
    && 1 <= month <= 12
    && (isLeap ==> month == LeapMonth(year))
    && 1 <= day <= SlotDays(year, month, isLeap)
  }

  /** Days from the anchor 1900-01-31 (lunar 1900, month 1, day 1) to a lunar date. */
  function DayOffset(year: int, month: int, isLeap: bool, day: int): int
    requires ValidLunarDate(year, month, isLeap, day)
  {
    YearsBefore(year) + DaysBefore(year, month, isLeap) + day - 1
  }

  /** The dates calElement can resolve: from 1900-01-31 up to the last day of lunar year 2049. */
  predicate InRange(date: Gregorian.Date)
  {
    Gregorian.Valid(date) && 0 <= Gregorian.DaysSinceAnchor(date) < YearsBefore(EndYear)
  }

  /** Years are laid end to end: a year ends no later than any later year begins. */
  lemma {:induction false} YearsBeforeMono(a: int, b: int)
    requires FirstYear <= a < b <= EndYear
    ensures YearsBefore(a) + YearDays(a) <= YearsBefore(b)
    decreases b - a
  {
    if a + 1 < b {
      YearsBeforeMono(a, b - 1);
    }
  }

  /** The ordinary months before `a` take no more days than those before a later month `b`. */
  lemma {:induction false} MonthsBeforeMono(year: int, a: int, b: int)
    requires InTable(year) && 1 <= a <= b <= 13
    ensures MonthsBefore(year, a) <= MonthsBefore(year, b)
    decreases b - a
  {
    if a < b {
      MonthsBeforeMono(year, a, b - 1);
    }
  }

  /**
   * Months in calendar order (month m, then its leap month when m is the leap
   * index, then m + 1) are laid end to end: a month ends no later than any
   * later month begins.
   */
  lemma MonthOrder(year: int, m1: int, leap1: bool, m2: int, leap2: bool)
    requires InTable(year) && 1 <= m1 <= 12 && 1 <= m2 <= 12
    requires leap1 ==> m1 == LeapMonth(year)
    requires leap2 ==> m2 == LeapMonth(year)
    requires m1 < m2 || (m1 == m2 && !leap1 && leap2)
    ensures DaysBefore(year, m1, leap1) + SlotDays(year, m1, leap1) <= DaysBefore(year, m2, leap2)
  {
    if m1 < m2 {
      MonthsBeforeMono(year, m1 + 1, m2);
    }
  }

  /** Every month of a year ends within the year. */
  lemma MonthWithinYear(year: int, month: int, isLeap: bool)
    requires InTable(year) && 1 <= month <= 12
    requires isLeap ==> month == LeapMonth(year)
    ensures DaysBefore(year, month, isLeap) + SlotDays(year, month, isLeap) <= YearDays(year)
  {
    MonthsBeforeMono(year, month + 1, 13);
  }

  /** Every lunar date the table describes lies inside the span calElement resolves. */
  lemma DayOffsetRange(year: int, month: int, isLeap: bool, day: int)
    requires ValidLunarDate(year, month, isLeap, day)
    ensures 0 <= DayOffset(year, month, isLeap, day) < YearsBefore(EndYear)
  {
    MonthWithinYear(year, month, isLeap);
    if year + 1 < EndYear {
      YearsBeforeMono(year + 1, EndYear);
    }
  }

  /**
   * Distinct lunar dates have distinct day offsets, so the date calElement
   * finds for a day offset is the only one.
   */
  lemma DayOffsetInjective(y1: int, m1: int, leap1: bool, d1: int, y2: int, m2: int, leap2: bool, d2: int)
    requires ValidLunarDate(y1, m1, leap1, d1) && ValidLunarDate(y2, m2, leap2, d2)
    requires DayOffset(y1, m1, leap1, d1) == DayOffset(y2, m2, leap2, d2)
    ensures y1 == y2 && m1 == m2 && leap1 == leap2 && d1 == d2
  {
    MonthWithinYear(y1, m1, leap1);
    MonthWithinYear(y2, m2, leap2);
    if y1 < y2 {
      YearsBeforeMono(y1, y2);
    } else if y2 < y1 {
      YearsBeforeMono(y2, y1);
    } else if m1 < m2 || (m1 == m2 && !leap1 && leap2) {
      MonthOrder(y1, m1, leap1, m2, leap2);
    } else if m2 < m1 || (m1 == m2 && !leap2 && leap1) {
      MonthOrder(y1, m2, leap2, m1, leap1);
    }
  }

  /** The lunar date (year, month, isLeap, day) falls on the Gregorian date `date`. */
  ghost predicate LunarDateOf(date: Gregorian.Date, year: int, month: int, isLeap: bool, day: int)
  {
    && InRange(date)
    && ValidLunarDate(year, month, isLeap, day)
    && DayOffset(year, month, isLeap, day) == Gregorian.DaysSinceAnchor(date)
  }

  /** A date calElement can resolve lies in Gregorian year 1900 or later. */
  lemma InRangeYear(date: Gregorian.Date)
    requires InRange(date)
    ensures date.year >= 1900
  {
    if date.year < 1900 {
      Gregorian.BeforeAnchorYear(date);
      assert false;
    }
  }

  /** The anchor 1900-01-31 is the first day of the first month of lunar year 1900. */
  lemma AnchorIsNewYear1900()
    ensures ValidLunarDate(1900, 1, false, 1)
    ensures DayOffset(1900, 1, false, 1) == Gregorian.DaysSinceAnchor(Gregorian.Anchor) == 0
  {
  }

  /** No other lunar date falls on the anchor: it is 1900, first month, day 1, not leap. */
  lemma AnchorLunarDate(year: int, month: int, isLeap: bool, day: int)
    requires LunarDateOf(Gregorian.Anchor, year, month, isLeap, day)
    ensures year == 1900 && month == 1 && !isLeap && day == 1
  {
    AnchorIsNewYear1900();
    DayOffsetInjective(year, month, isLeap, day, 1900, 1, false, 1);
  }

  /**
   * Days the month walk of `year` has consumed when it stands at `month`:
   * the ordinary months before it, plus the leap month once it lies behind
   * the walk or is being consumed (`inLeap`).
   */
  ghost function Consumed(year: int, month: int, inLeap: bool): int
    requires InTable(year) && 1 <= month <= 13
  {
    MonthsBefore(year, month) +
      if inLeap || 0 < LeapMonth(year) < month - 1 then LeapMonthDays(year) else 0
  }

  /**
   * `calElement(year, month, day)`. The result array holds the lunar year
   * (0), month (1) and day (2), the year's cycle index (3), the month and
   * day cycle counters (4, 5) and the leap flag (6).
   */
  method CalElement(year: int, month: int, day: int) returns (nongDate: array<int>)
    requires InRange(Gregorian.Date(year, month, day))
    ensures nongDate.Length == 7
    ensures nongDate[6] == 0 || nongDate[6] == 1
    ensures ValidLunarDate(nongDate[0], nongDate[1], nongDate[6] == 1, nongDate[2])
    ensures DayOffset(nongDate[0], nongDate[1], nongDate[6] == 1, nongDate[2])
         == Gregorian.DaysSinceAnchor(Gregorian.Date(year, month, day))
    ensures nongDate[3] == nongDate[0] - 1864
    ensures nongDate[4] == 14 + 12 * (nongDate[0] - FirstYear) + nongDate[1] - 1
    ensures nongDate[5] == Gregorian.DaysSinceAnchor(Gregorian.Date(year, month, day)) + 40
  {
    nongDate := new int[7];
    var offset := Gregorian.DaysSinceAnchor(Gregorian.Date(year, month, day));
    nongDate[5] := offset + 40;
    nongDate[4] := 14;
    var i;
    i, offset := WalkYears(nongDate, offset);
    nongDate[0] := i;
    nongDate[3] := i - 1864;
    WalkMonths(nongDate, offset);
  }

  /**
   * The year loop of `calElement`: subtracts whole lunar years from
   * `offset` until it is no longer positive, then steps back one year if it
   * went below zero; nongDate[4] advances by 12 per year.
   */
  method WalkYears(nongDate: array<int>, start: int) returns (i: int, offset: int)
    requires nongDate.Length == 7 && nongDate[4] == 14
    requires 0 <= start < YearsBefore(EndYear)
    modifies nongDate
    ensures InTable(i) && 0 <= offset < YearDays(i) && start == YearsBefore(i) + offset
    ensures nongDate[4] == 14 + 12 * (i - FirstYear)
    ensures forall k | 0 <= k < 7 && k != 4 :: nongDate[k] == old(nongDate[k])
  {
    var temp := 0;
    offset := start;
    i := FirstYear;
    while i < EndYear && offset > 0
      invariant FirstYear <= i <= EndYear
      invariant offset == start - YearsBefore(i)
      invariant i > FirstYear ==> temp == YearDays(i - 1) && offset + temp > 0
      invariant nongDate[4] == 14 + 12 * (i - FirstYear)
      invariant forall k | 0 <= k < 7 && k != 4 :: nongDate[k] == old(nongDate[k])
    {
      temp := LunarYearDays(i);
      offset := offset - temp;
      nongDate[4] := nongDate[4] + 12;
      i := i + 1;
    }
    if offset < 0 {
      YearsBeforeStep(i);
      offset := offset + temp;
      i := i - 1;
      nongDate[4] := nongDate[4] - 12;
    }
    if i == EndYear {
      // offset == 0 here would mean start == YearsBefore(EndYear).
      assert false;
    }
  }

  /**
   * The month loop of `calElement` and the corrections after it: resolves
   * the day `rest` of lunar year nongDate[0] to a month, a day and the leap
   * flag nongDate[6], advancing nongDate[4] by one per ordinary month.
   */
  method WalkMonths(nongDate: array<int>, rest: int)
    requires nongDate.Length == 7
    requires InTable(nongDate[0]) && 0 <= rest < YearDays(nongDate[0])
    requires nongDate[4] == 14 + 12 * (nongDate[0] - FirstYear)
    modifies nongDate
    ensures nongDate[0] == old(nongDate[0]) && nongDate[3] == old(nongDate[3]) && nongDate[5] == old(nongDate[5])
    ensures nongDate[6] == 0 || nongDate[6] == 1
    ensures ValidLunarDate(nongDate[0], nongDate[1], nongDate[6] == 1, nongDate[2])
    ensures rest == DaysBefore(nongDate[0], nongDate[1], nongDate[6] == 1) + nongDate[2] - 1
    ensures nongDate[4] == 14 + 12 * (nongDate[0] - FirstYear) + nongDate[1] - 1
  {
    ghost var y := nongDate[0];
    var offset := rest;
    var i, temp := 1, 0;
    var leap := LeapMonth(nongDate[0]);
    nongDate[6] := 0;
    LeapMonthBelowTwelve(y);
    while i < 13 && offset > 0
      invariant 1 <= i <= 13
      invariant nongDate[0] == y && nongDate[3] == old(nongDate[3]) && nongDate[5] == old(nongDate[5])
      invariant nongDate[6] == 0 || nongDate[6] == 1
      invariant nongDate[6] == 1 ==> 0 < leap && i == leap + 1
      invariant offset == rest - Consumed(y, i, nongDate[6] == 1)
      invariant i > 1 ==> offset + temp > 0
      invariant i > 1 ==> temp == if nongDate[6] == 1 then LeapMonthDays(y) else MonthDays(y, i - 1)
      invariant nongDate[4] == 14 + 12 * (y - FirstYear) + i - 1
      decreases 2 * (13 - i) + 1 - nongDate[6]
    {
      if leap > 0 && i == leap + 1 && nongDate[6] == 0 {
        i := i - 1;
        nongDate[6] := 1;
        temp := LeapMonthDays(nongDate[0]);
      } else {
        temp := MonthDays(nongDate[0], i);
      }
      if nongDate[6] == 1 && i == leap + 1 {
        nongDate[6] := 0;
      }
      offset := offset - temp;
      if nongDate[6] == 0 {
        nongDate[4] := nongDate[4] + 1;
      }
      i := i + 1;
    }
    if offset == 0 && leap > 0 && i == leap + 1 {
      if nongDate[6] == 1 {
        nongDate[6] := 0;
      } else {
        nongDate[6] := 1;
        i := i - 1;
        nongDate[4] := nongDate[4] - 1;
      }
    }
    if offset < 0 {
      offset := offset + temp;
      i := i - 1;
      nongDate[4] := nongDate[4] - 1;
    }
    assert 1 <= i <= 12;
    nongDate[1] := i;
    nongDate[2] := offset + 1;
  }
}
