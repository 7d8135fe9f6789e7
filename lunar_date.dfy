/**
 * The `LunarDate` object: a Gregorian date together with its lunar date and
 * their Chinese text, computed once by `initialize` and rendered by
 * `format`.
 */
module LunarDates {
  import Gregorian
  import opened LunarTable
  import opened DateMapper
  import opened Sexagenary
  import opened TextRenderer

  class LunarDate {
    /** The Gregorian date this lunar date describes. */
    const localDate: Gregorian.Date

    var lDateCn: string
    var suiCi: string
    var lAnimal: string
    var lYear: int
    var lMonth: int
    var lDay: int
    var lYearCn: string
    var lMonthCn: string
    var lDayCn: string
    var weekCn: string

    /** Whether lMonth is the leap month; computed by calElement, then dropped by initialize. */
    ghost var isLeap: bool

    /**
     * The fields describe localDate: the cycle name and animal of its
     * Gregorian year, its lunar date, and the text of both.
     */
    ghost predicate Valid()
      reads this
    {
      DateValid() && TextReady() && TextValid()
    }

    /** The lunar date and the year's cycle name and animal describe localDate. */
    ghost predicate DateValid()
      reads this`lYear, this`lMonth, this`lDay, this`isLeap, this`suiCi, this`lAnimal
    {
      && LunarDateOf(localDate, lYear, lMonth, isLeap, lDay)
      && localDate.year >= 1900
      && suiCi == Cyclical(localDate.year)
      && lAnimal == AnimalsYear(localDate.year)
    }

    /** The numbers the text fields are rendered from lie in the ranges the renderers accept. */
    ghost predicate TextReady()
      reads this`lYear, this`lMonth, this`lDay
    {
      0 <= lYear < 10000 && 1 <= lMonth <= 12 && 1 <= lDay <= 30 && Gregorian.Valid(localDate)
    }

    /** The text fields spell out the lunar date and the weekday. */
    ghost predicate TextValid()
      reads this`lYear, this`lMonth, this`lDay
      reads this`lYearCn, this`lMonthCn, this`lDayCn, this`weekCn, this`lDateCn
      requires TextReady()
    {
      && lYearCn == GetChinaYear(lYear)
      && lMonthCn == LunarMonth[lMonth]
      && lDayCn == DayName(lDay)
      && weekCn == GetWeekCn(Gregorian.DayOfWeek(localDate))
      && lDateCn == lYearCn + "年" + lMonthCn + "月" + lDayCn
    }

    /** `LunarDate(localDate)`: stores the date and runs initialize. */
    constructor (localDate: Gregorian.Date)
      requires InRange(localDate)
      ensures this.localDate == localDate && Valid()
    {
      this.localDate := localDate;
      new;
      Initialize();
    }

    /**
     * `initialize`: resolves the lunar date with calElement and fills in
     * every text field. The cycle name and the animal are taken from the
     * Gregorian year, the numerals from the lunar year; the month name is
     * looked up without regard to the leap flag.
     */
    method Initialize()
      requires InRange(localDate)
      modifies this
      ensures Valid()
    {
      ResolveDate();
      RenderText();
    }

    /** The date half of `initialize`: calElement, then the cycle name, the animal and the lunar date. */
    method ResolveDate()
      requires InRange(localDate)
      modifies this`lYear, this`lMonth, this`lDay, this`isLeap, this`suiCi, this`lAnimal
      ensures DateValid() && TextReady()
    {
      var year := localDate.year;
      var month := localDate.month;
      var day := localDate.day;
      var l := CalElement(year, month, day);
      InRangeYear(localDate);
      var y, m, d := l[0], l[1], l[2];
      ghost var leap := l[6] == 1;
      assert LunarDateOf(localDate, y, m, leap, d);

      suiCi := Cyclical(year);
      lAnimal := AnimalsYear(year);

      lYear := y;
      lMonth := m;
      lDay := d;
      isLeap := leap;
    }

    /** The text half of `initialize`: the year, month and day numerals, the weekday and the date text. */
    method RenderText()
      requires TextReady()
      modifies this`lYearCn, this`lMonthCn, this`lDayCn, this`weekCn, this`lDateCn
      ensures TextValid()
    {
      lYearCn := GetChinaYear(lYear);
      lMonthCn := LunarMonth[lMonth];
      lDayCn := GetChinaDay(lDay);

      weekCn := GetWeekCn(Gregorian.DayOfWeek(localDate));
      lDateCn := lYearCn + "年" + lMonthCn + "月" + lDayCn;
    }

    /**
     * `format`: "<cycle name><animal>年 <lunar year>年<month>月<day> <weekday>".
     * Each part can be read back from its fixed position.
     */
    function Format(): (s: string)
      reads this
      requires Valid()
      ensures |s| == 18
      ensures s[..2] == Cyclical(localDate.year) && s[2..3] == AnimalsYear(localDate.year)
      ensures s[5..9] == GetChinaYear(lYear) && YearNumber(s[5..9]) == lYear
      ensures MonthNumber(s[10]) == lMonth
      ensures s[12..14] == DayName(lDay) && DayNumber(s[12..14]) == lDay
      ensures s[15..] == GetWeekCn(Gregorian.DayOfWeek(localDate))
      ensures s[3..5] == "年 " && s[9] == '年' && s[11] == '月' && s[14] == ' '
    {
      ChinaYearReadsBack(lYear);
      MonthNameRoundTrip(lMonth);
      DayNameRoundTrip(lDay);
      DisplayLayout(suiCi, lAnimal, lYearCn, lMonthCn, lDayCn, weekCn);
      var s := suiCi + lAnimal + "年 " + lDateCn + " " + weekCn;
      assert s[5..9] == lYearCn && s[12..14] == lDayCn;
      s
    }
  }

  lemma AnchorText()
    ensures "庚子" + "鼠" + "年 " + "一九〇〇年正月初一" + " " + "星期三" == "庚子鼠年 一九〇〇年正月初一 星期三"
  {
  }

  /** Where each part of the display string sits. */
  lemma DisplayLayout(cycle: string, animal: string, year: string, month: string, day: string, week: string)
    requires |cycle| == 2 && |animal| == 1 && |year| == 4 && |month| == 1 && |day| == 2
    ensures var s := cycle + animal + "年 " + (year + "年" + month + "月" + day) + " " + week;
      && |s| == 15 + |week|
      && s[..2] == cycle && s[2..3] == animal && s[5..9] == year
      && s[10] == month[0] && s[12..14] == day && s[15..] == week
      && s[3..5] == "年 " && s[9] == '年' && s[11] == '月' && s[14] == ' '
  {
    var head := cycle + animal + "年 ";
    var date := year + "年" + month + "月" + day;
    var s := head + date + " " + week;
    assert s == head + (date + " " + week);
    assert date == year + ("年" + month + "月" + day);
    assert s[..5] == head && head == cycle + (animal + "年 ");
  }

  /** The object built for the anchor holds lunar new year's day of 1900. */
  lemma AnchorFields(date: LunarDate)
    requires date.localDate == Gregorian.Anchor && date.DateValid()
    ensures date.lYear == 1900 && date.lMonth == 1 && !date.isLeap && date.lDay == 1
    ensures Gregorian.DayOfWeek(date.localDate) == 3
  {
    AnchorLunarDate(date.lYear, date.lMonth, date.isLeap, date.lDay);
    Gregorian.AnchorIsWednesday();
  }

  /** The fields of the object built for the anchor spell 庚子鼠年 一九〇〇年正月初一 星期三. */
  lemma AnchorFieldsText(date: LunarDate)
    requires date.localDate == Gregorian.Anchor && date.Valid()
    ensures date.suiCi + date.lAnimal + "年 " + date.lDateCn + " " + date.weekCn == "庚子鼠年 一九〇〇年正月初一 星期三"
  {
    AnchorFields(date);
    ChinaYearExamples();
    Examples();
    assert date.lDateCn == "一九〇〇年正月初一";
    AnchorText();
  }

  /**
   * The anchor 1900-01-31, a Wednesday and lunar new year's day of 1900,
   * formats as 庚子鼠年 一九〇〇年正月初一 星期三.
   */
  method AnchorFormat() returns (s: string)
    ensures s == "庚子鼠年 一九〇〇年正月初一 星期三"
  {
    var date := new LunarDate(Gregorian.Anchor);
    AnchorFieldsText(date);
    s := date.Format();
  }
}
