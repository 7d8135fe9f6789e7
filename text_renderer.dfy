/**
 * The Chinese text of a lunar date: `getChinaYear`, `getChinaDay`,
 * `getWeekCn` and the month names `lunarMonth`. Every glyph used here is a
 * single character, so a string of n glyphs has length n.
 */
module TextRenderer {

  /** `numStr`: the digit glyphs 0-9. */
  const NumStr: seq<string> := ["〇", "一", "二", "三", "四", "五", "六", "七", "八", "九"]

  /** `lunarMonth`: month names 正, 二 .. 十, 冬, 腊 at indices 1-12; index 0 is unused. */
  const LunarMonth: seq<string> := ["", "正", "二", "三", "四", "五", "六", "七", "八", "九", "十", "冬", "腊"]

  /** Reads a month glyph back as its month number 1-12; -1 for any other character. */
  function MonthNumber(glyph: char): (m: int)
    ensures -1 <= m <= 12
  {
    if glyph == '正' then 1
    else if glyph == '十' then 10
    else if glyph == '冬' then 11
    else if glyph == '腊' then 12
    else if 2 <= DigitValue(glyph) then DigitValue(glyph)
    else -1
  }

  /** Every month name is one glyph and reads back as its month, so the twelve names are distinct. */
  lemma MonthNameRoundTrip(month: int)
    requires 1 <= month <= 12
    ensures |LunarMonth[month]| == 1 && MonthNumber(LunarMonth[month][0]) == month
  {
  }

  /** Value of a digit glyph of NumStr, -1 for any other character. */
  function DigitValue(glyph: char): (d: int)
    ensures -1 <= d <= 9
  {
    if glyph == '〇' then 0
    else if glyph == '一' then 1
    else if glyph == '二' then 2
    else if glyph == '三' then 3
    else if glyph == '四' then 4
    else if glyph == '五' then 5
    else if glyph == '六' then 6
    else if glyph == '七' then 7
    else if glyph == '八' then 8
    else if glyph == '九' then 9
    else -1
  }

  /** Reads four digit glyphs back as a number; -1 when any of them is not a digit glyph. */
  function YearNumber(glyphs: string): (n: int)
    requires |glyphs| == 4
    ensures -1 <= n < 10000
  {
    if DigitValue(glyphs[0]) < 0 || DigitValue(glyphs[1]) < 0 || DigitValue(glyphs[2]) < 0 || DigitValue(glyphs[3]) < 0 then -1
    else 1000 * DigitValue(glyphs[0]) + 100 * DigitValue(glyphs[1]) + 10 * DigitValue(glyphs[2]) + DigitValue(glyphs[3])
  }

  /**
   * `getChinaYear(year)`: the last four decimal digits of the year, one glyph
   * each, thousands first, zeros written out. A negative year would index
   * numStr with a negative remainder, so the year is non-negative.
   */
  function GetChinaYear(year: int): (glyphs: string)
    requires year >= 0
    ensures |glyphs| == 4
  {
    var ge := NumStr[year % 10];
    var shi := NumStr[year / 10 % 10];
    var bai := NumStr[year / 100 % 10];
    var qian := NumStr[year / 1000 % 10];
    qian + bai + shi + ge
  }

  /** Each digit glyph reads back as its own index. */
  lemma DigitGlyphs(d: int)
    requires 0 <= d < 10
    ensures |NumStr[d]| == 1 && DigitValue(NumStr[d][0]) == d
  {
  }

  /** The year glyphs read back as the year modulo 10000, so years 0-9999 get distinct names. */
  lemma ChinaYearRoundTrip(year: int)
    requires year >= 0
    ensures forall k | 0 <= k < 4 :: 0 <= DigitValue(GetChinaYear(year)[k])
    ensures YearNumber(GetChinaYear(year)) == year % 10000
  {
    var glyphs := GetChinaYear(year);
    DigitGlyphs(year / 1000 % 10);
    DigitGlyphs(year / 100 % 10);
    DigitGlyphs(year / 10 % 10);
    DigitGlyphs(year % 10);
    assert glyphs[0] == NumStr[year / 1000 % 10][0];
    assert glyphs[1] == NumStr[year / 100 % 10][0];
    assert glyphs[2] == NumStr[year / 10 % 10][0];
    assert glyphs[3] == NumStr[year % 10][0];
    DigitSum(year);
  }

  /** The decimal digits of 1000a + 100b + 10c + d are a, b, c and d. */
  lemma DigitsOf(a: int, b: int, c: int, d: int)
    requires 0 <= a < 10 && 0 <= b < 10 && 0 <= c < 10 && 0 <= d < 10
    ensures var n := 1000 * a + 100 * b + 10 * c + d;
      n / 1000 % 10 == a && n / 100 % 10 == b && n / 10 % 10 == c && n % 10 == d
  {
    var n := 1000 * a + 100 * b + 10 * c + d;
    assert n / 10 == 10 * (10 * a + b) + c;
    assert n / 100 == 10 * a + b;
    assert n / 1000 == a;
  }

  /** The year reader accepts only year numerals: whatever it reads as n is the numeral of n. */
  lemma YearNumberExact(glyphs: string)
    requires |glyphs| == 4 && YearNumber(glyphs) != -1
    ensures glyphs == GetChinaYear(YearNumber(glyphs))
  {
    var a, b, c, d := DigitValue(glyphs[0]), DigitValue(glyphs[1]), DigitValue(glyphs[2]), DigitValue(glyphs[3]);
    DigitsOf(a, b, c, d);
    DigitGlyphInverse(glyphs[0]);
    DigitGlyphInverse(glyphs[1]);
    DigitGlyphInverse(glyphs[2]);
    DigitGlyphInverse(glyphs[3]);
    assert GetChinaYear(YearNumber(glyphs)) == NumStr[a] + NumStr[b] + NumStr[c] + NumStr[d];
    assert glyphs == [glyphs[0]] + [glyphs[1]] + [glyphs[2]] + [glyphs[3]];
  }

  /** The four decimal digits of a year, weighted back, give its last four digits. */
  lemma DigitSum(year: int)
    requires year >= 0
    ensures 1000 * (year / 1000 % 10) + 100 * (year / 100 % 10) + 10 * (year / 10 % 10) + year % 10 == year % 10000
  {
    assert year / 10 / 10 == year / 100;
    assert year / 100 / 10 == year / 1000;
    assert year / 1000 / 10 == year / 10000;
  }

  /** A year of at most four digits reads back unchanged. */
  lemma ChinaYearReadsBack(year: int)
    requires 0 <= year < 10000
    ensures YearNumber(GetChinaYear(year)) == year
  {
    ChinaYearRoundTrip(year);
  }

  lemma ChinaYearExamples()
    ensures GetChinaYear(1900) == "一九〇〇"
    ensures GetChinaYear(2019) == "二〇一九"
  {
  }

  /**
   * Java's `/` on int: the quotient truncated toward zero, the multiple of b
   * next to a on the side of zero.
   */
  function JavaDiv(a: int, b: int): (q: int)
    requires b > 0
    ensures a >= 0 ==> b * q <= a < b * q + b
    ensures a < 0 ==> b * q - b < a <= b * q
  {
    if a >= 0 then
      assert a == b * (a / b) + a % b;
      a / b
    else
      var m := -a;
      assert m == b * (m / b) + m % b;
      assert b * -(m / b) == -(b * (m / b));
      -(m / b)
  }

  /** Java's `%` on int: the remainder takes the sign of the dividend. */
  function JavaRem(a: int, b: int): (r: int)
    requires b > 0
    ensures a == b * JavaDiv(a, b) + r
    ensures a >= 0 ==> 0 <= r < b
    ensures a < 0 ==> -b < r <= 0
  {
    a - b * JavaDiv(a, b)
  }

  /** Glyph of 1-10, the second glyph of a day name: the digit glyph, or 十 for 10. */
  function UnitGlyph(n: int): string
    requires 1 <= n <= 10
  {
    if n == 10 then "十" else NumStr[n]
  }

  /**
   * The traditional name of lunar day 1-30: 初一 .. 初十, 十一 .. 十九, 二十,
   * 廿一 .. 廿九, 三十.
   */
  function DayName(day: int): (name: string)
    requires 1 <= day <= 30
  {
    if day <= 10 then "初" + UnitGlyph(day)
    else if day < 20 then "十" + UnitGlyph(day - 10)
    else if day == 20 then "二十"
    else if day < 30 then "廿" + UnitGlyph(day - 20)
    else "三十"
  }

  /** Value of a unit glyph, -1 for any other character. */
  function UnitValue(glyph: char): int
  {
    if glyph == '十' then 10 else DigitValue(glyph)
  }

  /**
   * Reads a two-glyph day name back as a day number; -1 when it is not one:
   * 初 takes a unit 1-10, 十 and 廿 a digit 1-9, and 二十, 三十 stand whole.
   */
  function DayNumber(name: string): (day: int)
    requires |name| == 2
    ensures day == -1 || 1 <= day <= 30
  {
    if name[0] == '初' && 1 <= UnitValue(name[1]) <= 10 then UnitValue(name[1])
    else if name[0] == '十' && 1 <= DigitValue(name[1]) <= 9 then 10 + DigitValue(name[1])
    else if name[0] == '廿' && 1 <= DigitValue(name[1]) <= 9 then 20 + DigitValue(name[1])
    else if name[1] == '十' && name[0] == '二' then 20
    else if name[1] == '十' && name[0] == '三' then 30
    else -1
  }

  /** Only the digit glyph of d reads back as d. */
  lemma DigitGlyphInverse(glyph: char)
    requires 0 <= DigitValue(glyph)
    ensures NumStr[DigitValue(glyph)] == [glyph]
  {
  }

  /** Only the unit glyph of n reads back as n. */
  lemma UnitGlyphInverse(glyph: char)
    requires 1 <= UnitValue(glyph) <= 10
    ensures UnitGlyph(UnitValue(glyph)) == [glyph]
  {
  }

  /** The day reader accepts only day names: whatever it reads as a day is that day's name. */
  lemma DayNumberExact(name: string)
    requires |name| == 2 && DayNumber(name) != -1
    ensures name == DayName(DayNumber(name))
  {
    assert name == [name[0]] + [name[1]];
    var day := DayNumber(name);
    if name[0] == '初' && 1 <= UnitValue(name[1]) <= 10 {
      UnitGlyphInverse(name[1]);
    } else if name[0] == '十' && 1 <= DigitValue(name[1]) <= 9 {
      DigitGlyphInverse(name[1]);
      assert UnitGlyph(day - 10) == NumStr[DigitValue(name[1])];
    } else if name[0] == '廿' && 1 <= DigitValue(name[1]) <= 9 {
      DigitGlyphInverse(name[1]);
      assert UnitGlyph(day - 20) == NumStr[DigitValue(name[1])];
    }
  }

  /** Every day name has two glyphs and reads back as its day, so the thirty names are distinct. */
  lemma DayNameRoundTrip(day: int)
    requires 1 <= day <= 30
    ensures |DayName(day)| == 2 && DayNumber(DayName(day)) == day
  {
    if day <= 10 {
      UnitGlyphValue(day);
    } else if day < 20 {
      UnitGlyphValue(day - 10);
    } else if 20 < day < 30 {
      UnitGlyphValue(day - 20);
    }
  }

  /** Each unit glyph is one character and reads back as its value; only 10 is written 十. */
  lemma UnitGlyphValue(n: int)
    requires 1 <= n <= 10
    ensures |UnitGlyph(n)| == 1 && UnitValue(UnitGlyph(n)[0]) == n
    ensures UnitGlyph(n)[0] == '十' <==> n == 10
  {
  }

  /** The tens glyph getChinaDay writes for tens digit 0-3, nothing for any other. */
  function TensPrefix(tens: int): string
  {
    if tens == 0 then "初" else if tens == 1 then "十" else if tens == 2 then "廿" else if tens == 3 then "三" else ""
  }

  /** The units glyph getChinaDay appends for units digit 1-9, nothing for any other. */
  function UnitSuffix(units: int): string
  {
    match units
    case 1 => "一"
    case 2 => "二"
    case 3 => "三"
    case 4 => "四"
    case 5 => "五"
    case 6 => "六"
    case 7 => "七"
    case 8 => "八"
    case 9 => "九"
    case _ => ""
  }

  /** Away from 10, 20 and 30, a day's name is its tens glyph followed by its units glyph. */
  lemma DayNameByDigits(day: int)
    requires 1 <= day <= 30 && day % 10 != 0
    ensures DayName(day) == TensPrefix(day / 10) + UnitSuffix(day % 10)
  {
    if day < 10 {
      assert day / 10 == 0 && day % 10 == day;
    } else if day < 20 {
      assert day / 10 == 1 && day % 10 == day - 10;
    } else {
      assert day / 10 == 2 && day % 10 == day - 20;
    }
    UnitGlyphs(day % 10);
  }

  /** getChinaDay's units glyphs are the unit glyphs of the day names. */
  lemma UnitGlyphs(n: int)
    requires 1 <= n <= 9
    ensures UnitSuffix(n) == UnitGlyph(n)
  {
  }

  /**
   * `getChinaDay(day)`: 初十, 二十 and 三十 are returned whole; otherwise the
   * tens glyph (初, 十, 廿 or 三 for tens digit 0-3) is followed by the units
   * glyph, with nothing for a units digit of 0. Both digits are taken with
   * Java's truncating `/` and `%`.
   */
  method GetChinaDay(day: int) returns (a: string)
    ensures 1 <= day <= 30 ==> a == DayName(day)
    ensures |a| <= 2
  {
    a := "";
    if day == 10 {
      return "初十";
    }
    if day == 20 {
      return "二十";
    }
    if day == 30 {
      return "三十";
    }
    var two := JavaDiv(day, 10);
    if two == 0 {
      a := "初";
    }
    if two == 1 {
      a := "十";
    }
    if two == 2 {
      a := "廿";
    }
    if two == 3 {
      a := "三";
    }
    assert a == TensPrefix(two) && |a| <= 1;
    ghost var prefix := a;
    var one := JavaRem(day, 10);
    match one {
      case 1 => a := a + "一";
      case 2 => a := a + "二";
      case 3 => a := a + "三";
      case 4 => a := a + "四";
      case 5 => a := a + "五";
      case 6 => a := a + "六";
      case 7 => a := a + "七";
      case 8 => a := a + "八";
      case 9 => a := a + "九";
      case _ => a := a + "";
    }
    assert a == prefix + UnitSuffix(one) && |a| <= 2;
    if 1 <= day <= 30 {
      DayNameByDigits(day);
    }
  }

  /** Reads the last glyph of a weekday name back as its ISO number: 一 .. 六 as 1 .. 6, 日 as 7; -1 for any other character. */
  function WeekdayNumber(glyph: char): (w: int)
    ensures -1 <= w <= 7
  {
    if glyph == '日' then 7
    else if 1 <= DigitValue(glyph) <= 6 then DigitValue(glyph)
    else -1
  }

  /**
   * `getWeekCn(week)`: ISO weekday 1 (Monday) .. 7 (Sunday) to 星期 followed
   * by its glyph, anything else to "".
   */
  function GetWeekCn(week: int): (name: string)
    ensures 1 <= week <= 7 ==> |name| == 3 && name[..2] == "星期" && WeekdayNumber(name[2]) == week
    ensures !(1 <= week <= 7) ==> name == ""
  {
    match week
    case 1 => "星期一"
    case 2 => "星期二"
    case 3 => "星期三"
    case 4 => "星期四"
    case 5 => "星期五"
    case 6 => "星期六"
    case 7 => "星期日"
    case _ => ""
  }

  /** The seven weekday names are distinct. */
  lemma WeekNamesDistinct(a: int, b: int)
    requires 1 <= a <= 7 && 1 <= b <= 7
    ensures GetWeekCn(a) == GetWeekCn(b) <==> a == b
  {
    if a != b {
      assert GetWeekCn(a)[2] != GetWeekCn(b)[2];
    }
  }
}
