/**
 * The packed year table and its decoders (the `lunarInfo` array and the
 * `leapMonth`, `monthDays`, `leapMonthDays` and `lunarYearDays` helpers of
 * `LunarDate`).
 *
 * Each entry describes one lunar year, starting with lunar year 1900:
 *   bits 0-3   index of the leap month, 0 when the year has none;
 *   bits 4-15  bit 16 - m is set when ordinary month m has 30 days (else 29);
 *   bit 16     set when the leap month has 30 days (else 29).
 */
module LunarTable {

  const FirstYear := 1900
  const TableSize := 150
  /** Ordinary months per lunar year. */
  const MonthsPerYear := 12
  /** The bit that gives the length of the leap month. */
  const LeapLengthBit := 16

  /** The years the table describes: 1900 up to and including 2049. */
  predicate InTable(year: int)
  {
    FirstYear <= year < FirstYear + TableSize
  }

  /** Every record of `records` names a leap month below 12 (or none). */
  ghost predicate LeapIndicesBelowTwelve(records: seq<int>)
  {
    forall k | 0 <= k < |records| :: records[k] % 16 < 12
  }

  /** Ten consecutive year records, each with a leap index below 12; every decade is checked where it is declared. */
  type Decade = records: seq<int> | |records| == 10 && LeapIndicesBelowTwelve(records)
    witness [0, 0, 0, 0, 0, 0, 0, 0, 0, 0]

  /** `lunarInfo`, one decade per constant: the record of lunar year 1900 + index sits at index. */
  const Decade1900: Decade := [0x04bd8, 0x04ae0, 0x0a570, 0x054d5, 0x0d260, 0x0d950, 0x16554, 0x056a0, 0x09ad0, 0x055d2]
  const Decade1910: Decade := [0x04ae0, 0x0a5b6, 0x0a4d0, 0x0d250, 0x1d255, 0x0b540, 0x0d6a0, 0x0ada2, 0x095b0, 0x14977]
  const Decade1920: Decade := [0x04970, 0x0a4b0, 0x0b4b5, 0x06a50, 0x06d40, 0x1ab54, 0x02b60, 0x09570, 0x052f2, 0x04970]
  const Decade1930: Decade := [0x06566, 0x0d4a0, 0x0ea50, 0x06e95, 0x05ad0, 0x02b60, 0x186e3, 0x092e0, 0x1c8d7, 0x0c950]
  const Decade1940: Decade := [0x0d4a0, 0x1d8a6, 0x0b550, 0x056a0, 0x1a5b4, 0x025d0, 0x092d0, 0x0d2b2, 0x0a950, 0x0b557]
  const Decade1950: Decade := [0x06ca0, 0x0b550, 0x15355, 0x04da0, 0x0a5d0, 0x14573, 0x052d0, 0x0a9a8, 0x0e950, 0x06aa0]
  const Decade1960: Decade := [0x0aea6, 0x0ab50, 0x04b60, 0x0aae4, 0x0a570, 0x05260, 0x0f263, 0x0d950, 0x05b57, 0x056a0]
  const Decade1970: Decade := [0x096d0, 0x04dd5, 0x04ad0, 0x0a4d0, 0x0d4d4, 0x0d250, 0x0d558, 0x0b540, 0x0b5a0, 0x195a6]
  const Decade1980: Decade := [0x095b0, 0x049b0, 0x0a974, 0x0a4b0, 0x0b27a, 0x06a50, 0x06d40, 0x0af46, 0x0ab60, 0x09570]
  const Decade1990: Decade := [0x04af5, 0x04970, 0x064b0, 0x074a3, 0x0ea50, 0x06b58, 0x055c0, 0x0ab60, 0x096d5, 0x092e0]
  const Decade2000: Decade := [0x0c960, 0x0d954, 0x0d4a0, 0x0da50, 0x07552, 0x056a0, 0x0abb7, 0x025d0, 0x092d0, 0x0cab5]
  const Decade2010: Decade := [0x0a950, 0x0b4a0, 0x0baa4, 0x0ad50, 0x055d9, 0x04ba0, 0x0a5b0, 0x15176, 0x052b0, 0x0a930]
  const Decade2020: Decade := [0x07954, 0x06aa0, 0x0ad50, 0x05b52, 0x04b60, 0x0a6e6, 0x0a4e0, 0x0d260, 0x0ea65, 0x0d530]
  const Decade2030: Decade := [0x05aa0, 0x076a3, 0x096d0, 0x04bd7, 0x04ad0, 0x0a4d0, 0x1d0b6, 0x0d250, 0x0d520, 0x0dd45]
  const Decade2040: Decade := [0x0b5a0, 0x056d0, 0x055b2, 0x049b0, 0x0a577, 0x0a4b0, 0x0aa50, 0x1b255, 0x06d20, 0x0ada0]

  const Decades: seq<Decade> := [
    Decade1900, Decade1910, Decade1920, Decade1930, Decade1940,
    Decade1950, Decade1960, Decade1970, Decade1980, Decade1990,
    Decade2000, Decade2010, Decade2020, Decade2030, Decade2040]

  /** The decades one after another. */
  function Flatten(rows: seq<seq<int>>): seq<int>
  {
    if |rows| == 0 then [] else Flatten(rows[..|rows| - 1]) + rows[|rows| - 1]
  }

  const LunarInfo: seq<int> := Flatten(Decades)

  /** 2 to the power k: the mask that selects bit k. */
  function Pow2(k: nat): (p: nat)
    ensures p >= 1
  {
    if k == 0 then 1 else 2 * Pow2(k - 1)
  }

  /** Bit k of a record (the record shifted right k times, then its lowest bit). */
  function Bit(record: int, k: nat): int
    decreases k
  {
    if k == 0 then record % 2 else Bit(record / 2, k - 1)
  }

  /** `(record & mask) != 0` for the one-bit mask Pow2(k). */
  predicate HasBit(record: int, k: nat)
  {
    Bit(record, k) == 1
  }

  /** `leapMonth`: bits 0-3 (`& 0xf`), the month followed by a leap month, 0 for none. */
  function LeapMonth(year: int): (m: int)
    requires InTable(year)
    ensures 0 <= m < 16
  {
    TableSize150();
    LunarInfo[year - FirstYear] % 16
  }

  /** `monthDays`: bit 16 - month (`& (0x10000 >> month)`) decides between 29 and 30 days. */
  function MonthDays(year: int, month: int): (days: int)
    requires InTable(year) && 1 <= month <= 12
    ensures days == 29 || days == 30
  {
    TableSize150();
    if !HasBit(LunarInfo[year - FirstYear], 16 - month) then 29 else 30
  }

  /** `leapMonthDays`: 0 without a leap month, otherwise bit 16 (`& 0x10000`) decides between 29 and 30. */
  function LeapMonthDays(year: int): (days: int)
    requires InTable(year)
    ensures days == 0 <==> LeapMonth(year) == 0
    ensures days != 0 ==> days == 29 || days == 30
  {
    if LeapMonth(year) != 0 then
      TableSize150();
      if HasBit(LunarInfo[year - FirstYear], LeapLengthBit) then 30 else 29
    else
      0
  }

  /** Total length of the ordinary months 1 .. month - 1 of a year. */
  function MonthsBefore(year: int, month: int): (days: int)
    requires InTable(year) && 1 <= month <= 13
    ensures 29 * (month - 1) <= days <= 30 * (month - 1)
  {
    if month == 1 then 0 else MonthsBefore(year, month - 1) + MonthDays(year, month - 1)
  }

  /** Length of a lunar year: its twelve ordinary months plus its leap month, if any. */
  function YearDays(year: int): (days: int)
    requires InTable(year)
    ensures 348 <= days <= 390
  {
    MonthsBefore(year, MonthsPerYear + 1) + LeapMonthDays(year)
  }

  /**
   * `lunarYearDays`: starts from 12 * 29 = 348 and scans the month bits from
   * 0x8000 down to 0x10, adding a day per set bit, then adds the leap month.
   */
  method LunarYearDays(year: int) returns (sum: int)
    requires InTable(year)
    ensures sum == YearDays(year)
  {
    var i := 0x8000;
    sum := 348;
    ghost var month := 1;
    MaskShift(month);
    TableSize150();
    while i > 0x8
      invariant 1 <= month <= 13
      invariant i == Pow2(16 - month)
      invariant sum == 348 + MonthsBefore(year, month) - 29 * (month - 1)
      decreases i
    {
      MaskShift(month);
      BitByDivision(LunarInfo[year - FirstYear], 16 - month);
      if (LunarInfo[year - FirstYear] / i) % 2 == 1 {
        sum := sum + 1;
      }
      i := i / 2;
      month := month + 1;
    }
    MaskShift(month);
    sum := sum + LeapMonthDays(year);
  }

  /** The mask of month m is `0x10000 >> m`: it starts at 0x8000, halves each month and drops to 8 after month 12. */
  lemma MaskShift(month: int)
    requires 1 <= month <= 13
    ensures month == 1 ==> Pow2(16 - month) == 0x8000
    ensures Pow2(16 - month) > 0x8 <==> month < 13
    ensures month < 13 ==> Pow2(16 - month) / 2 == Pow2(15 - month)
  {
    if month == 1 {
      assert Pow2(5) == 32;
      assert Pow2(10) == 1024;
      assert Pow2(16 - month) == Pow2(15);
    }
    if month < 13 {
      Pow2AtLeast16(16 - month);
    }
  }

  /** Testing a record against the mask Pow2(k) reads bit k: `(record & Pow2(k)) != 0` is HasBit(record, k). */
  lemma {:induction false} BitByDivision(record: int, k: nat)
    ensures Bit(record, k) == (record / Pow2(k)) % 2
    decreases k
  {
    if k > 0 {
      BitByDivision(record / 2, k - 1);
      HalveThenDivide(record, Pow2(k - 1));
    }
  }

  /** Shifting right by one and then by k - 1 places is shifting by k places. */
  lemma HalveThenDivide(x: int, p: int)
    requires p >= 1
    ensures x / 2 / p == x / (2 * p)
  {
    var q, r := x / (2 * p), x % (2 * p);
    var m := p * q;
    assert x == 2 * m + r;
    assert x / 2 == m + r / 2;
    DivUnique(x / 2, p, q, r / 2);
  }

  /** The quotient is the only q with x == d * q + r and 0 <= r < d. */
  lemma DivUnique(x: int, d: int, q: int, r: int)
    requires d >= 1 && x == d * q + r && 0 <= r < d
    ensures x / d == q
  {
    var q', r' := x / d, x % d;
    assert x == d * q' + r';
    assert d * (q' - q) == r - r';
    SmallMultiple(d, q' - q);
  }

  /** The only multiple of d strictly between -d and d is 0. */
  lemma SmallMultiple(d: int, k: int)
    requires d >= 1 && -d < d * k < d
    ensures k == 0
  {
    if k >= 1 {
      MulAtLeast(d, k);
      assert false;
    } else if k <= -1 {
      MulAtLeast(d, -k);
      assert false;
    }
  }

  lemma {:induction false} MulAtLeast(d: int, k: int)
    requires d >= 1 && k >= 1
    ensures d * k >= d
  {
    if k > 1 {
      MulAtLeast(d, k - 1);
      assert d * k == d * (k - 1) + d;
    }
  }

  lemma {:induction false} Pow2AtLeast16(k: nat)
    requires k >= 4
    ensures Pow2(k) >= 16
  {
    if k > 4 {
      Pow2AtLeast16(k - 1);
    }
  }

  lemma {:induction false} FlattenDecades(rows: seq<Decade>)
    ensures |Flatten(rows)| == 10 * |rows|
    ensures LeapIndicesBelowTwelve(Flatten(rows))
  {
    if |rows| > 0 {
      var init, last := rows[..|rows| - 1], rows[|rows| - 1];
      FlattenDecades(init);
      forall k | 0 <= k < |Flatten(rows)|
        ensures Flatten(rows)[k] % 16 < 12
      {
        if k >= |Flatten(init)| {
          assert Flatten(rows)[k] == last[k - |Flatten(init)|];
        } else {
          assert Flatten(rows)[k] == Flatten(init)[k];
        }
      }
    }
  }

  /** The table holds exactly one record per year from 1900 to 2049. */
  lemma TableSize150()
    ensures |LunarInfo| == TableSize
  {
    FlattenDecades(Decades);
  }

  /**
   * A fact about the whole table, checked decade by decade: every leap index
   * is below 12, so the leap month always falls inside the twelve-step month
   * walk of the date mapper.
   */
  lemma LeapMonthBelowTwelve(year: int)
    requires InTable(year)
    ensures LeapMonth(year) < 12
  {
    FlattenDecades(Decades);
  }
}
