# LunarDate in Dafny

A verified model of the `LunarDate` class of xk-time
(`src/main/java/com/xkzhangsan/time/LunarDate.java`). The class turns a
Gregorian date between 1900-01-31 and the last day of lunar year 2049 into
a traditional Chinese lunisolar date. It then writes that date out in
Chinese, for example `庚子鼠年 一九〇〇年正月初一 星期三`.

The model follows the class in six modules:

- `LunarTable` (`lunar_table.dfy`) holds the packed year table `lunarInfo` and its decoders:
  - `leapMonth` gives bits 0-3.
  - `monthDays` gives bit 16 - m.
  - `leapMonthDays` gives bit 16, or 0 when there is no leap month.
  - `lunarYearDays` is a method with the bit-scanning loop of the source. It is proved equal to the sum of the month lengths.
- `Gregorian` (`gregorian.dfy`) is a proleptic Gregorian day count from the anchor 1900-01-31, and the ISO weekday derived from it. It stands in for the Java date library calls of `calElement` and `initialize`.
- `DateMapper` (`date_mapper.dfy`) models `calElement` as a method:
  - it writes its seven-element `nongDate` array in place;
  - the year loop is `WalkYears`, and the month loop with its corrections is `WalkMonths`.

  It is proved against a pure specification: `DayOffset` adds up the lengths of the lunar years and months before a lunar date. In a year, the leap month comes right after month `leap`. `DayOffsetInjective` shows that the date found is the only one.
- `Sexagenary` (`sexagenary.dfy`) models `cyclicalm`, `cyclical` and `animalsYear`, with their periods (60 and 12 years, and no shorter).
- `TextRenderer` (`text_renderer.dfy`) models `getChinaYear`, `getChinaDay` (a method building the string step by step, as the source does) and `getWeekCn`. Each rendering has a reader that gives the number back: `YearNumber`, `MonthNumber`, `DayNumber` and `WeekdayNumber`. Each reader returns -1 for anything that is not a numeral. The year and day readers are proved to accept exactly the strings the renderers write.
- `LunarDates` (`lunar_date.dfy`) models the class `LunarDate`:
  - its fields;
  - the constructor;
  - `initialize`, which fills in every field in the source's order;
  - `format`.

  The object invariant `Valid` says that the lunar date falls on `localDate` and that every text field spells out the matching value. `Format` is proved to place each part at a fixed position, where it reads back as the field it came from.

The cycle name and the animal are keyed to the Gregorian year, as in the source. The numerals are keyed to the lunar year. The month name carries no leap marker, because `initialize` drops `l[6]`.

## Model

| member | source | states |
|---|---|---|
| LunarTable.LeapMonth | src/main/java/com/xkzhangsan/time/LunarDate.java:221-223 | the leap index of a table year is a 4-bit value (0 = no leap month) |
| LunarTable.MonthDays | src/main/java/com/xkzhangsan/time/LunarDate.java:231-236 | every ordinary month has 29 or 30 days |
| LunarTable.LeapMonthDays | src/main/java/com/xkzhangsan/time/LunarDate.java:204-213 | the leap month's length is 0 exactly when the year has no leap month, and 29 or 30 otherwise |
| LunarTable.MonthsBefore | src/main/java/com/xkzhangsan/time/LunarDate.java:189-194 | the first month - 1 ordinary months take between 29 and 30 days each |
| LunarTable.YearDays | src/main/java/com/xkzhangsan/time/LunarDate.java:189-196 | a lunar year (twelve months plus the leap month) has 348 to 390 days |
| LunarTable.LunarYearDays | src/main/java/com/xkzhangsan/time/LunarDate.java:189-196 | the bit-scanning loop (348 plus one per set bit 4-15 plus the leap month) returns exactly the sum of the twelve month lengths and the leap month length |
| LunarTable.MaskShift | src/main/java/com/xkzhangsan/time/LunarDate.java:191 | the loop mask starts at 0x8000 for month 1, halves each step, and drops to 0x8 exactly after month 12 |
| LunarTable.BitByDivision | src/main/java/com/xkzhangsan/time/LunarDate.java:192 | testing a record against the one-bit mask 2^k reads bit k of the record |
| LunarTable.HalveThenDivide | src/main/java/com/xkzhangsan/time/LunarDate.java:191 | shifting right by one and then by k places is shifting by k + 1 places |
| LunarTable.TableSize150 | src/main/java/com/xkzhangsan/time/LunarDate.java:23-35 | the table holds exactly 150 records, one per year 1900-2049 |
| LunarTable.LeapMonthBelowTwelve | src/main/java/com/xkzhangsan/time/LunarDate.java:23-35 | every leap index in the table is below 12, so the month loop (`i < 13`) always reaches the leap month |
| DateMapper.YearsBefore | src/main/java/com/xkzhangsan/time/LunarDate.java:287-291 | the years before a table year take at least 348 days each |
| DateMapper.YearsBeforeMono | src/main/java/com/xkzhangsan/time/LunarDate.java:287-296 | lunar years are laid end to end: a year ends no later than any later year begins |
| DateMapper.MonthsBeforeMono | src/main/java/com/xkzhangsan/time/LunarDate.java:301-316 | a later ordinary month starts no earlier |
| DateMapper.MonthOrder | src/main/java/com/xkzhangsan/time/LunarDate.java:301-316 | in the order 1 .. leap, leap month, leap + 1 .. 12, each month ends no later than any later month begins |
| DateMapper.MonthWithinYear | src/main/java/com/xkzhangsan/time/LunarDate.java:301-316 | every month, the leap month included, ends within its year |
| DateMapper.DayOffsetRange | src/main/java/com/xkzhangsan/time/LunarDate.java:281-291 | every lunar date of the table lies between the anchor and the end of lunar year 2049 |
| DateMapper.DayOffsetInjective | src/main/java/com/xkzhangsan/time/LunarDate.java:278-334 | distinct lunar dates have distinct day offsets, so the date calElement returns is the only one for its offset |
| DateMapper.InRangeYear | src/main/java/com/xkzhangsan/time/LunarDate.java:281-287 | every date calElement can resolve lies in Gregorian year 1900 or later |
| DateMapper.AnchorIsNewYear1900 | src/main/java/com/xkzhangsan/time/LunarDate.java:281 | the anchor 1900-01-31 is day offset 0, lunar 1900 month 1 day 1 |
| DateMapper.AnchorLunarDate | src/main/java/com/xkzhangsan/time/LunarDate.java:281-332 | offset 0 resolves to 1900, month 1, day 1, not leap, and to nothing else |
| DateMapper.CalElement | src/main/java/com/xkzhangsan/time/LunarDate.java:278-334 | returns a valid lunar date (month 1-12, leap flag only on the year's leap month, day within the month's real length) whose day offset is the input's offset; nongDate[3] is year - 1864, nongDate[4] and nongDate[5] are the month and day cycle counters |
| DateMapper.WalkYears | src/main/java/com/xkzhangsan/time/LunarDate.java:285-298 | after the year loop and its back-off: 1900 <= year <= 2049, 0 <= rest < the year's length, and the start offset is the sum of all earlier years plus the rest |
| DateMapper.WalkMonths | src/main/java/com/xkzhangsan/time/LunarDate.java:299-332 | the month loop, the leap-slot correction for an exact zero, and the back-off leave a valid (month, leap flag, day) with the rest offset equal to the days of all preceding months in year order plus day - 1 |
| Gregorian.NextDayCounts | src/main/java/com/xkzhangsan/time/LunarDate.java:281-284 | the day count from the anchor steps by one from each calendar day to the next, across month and year ends |
| Gregorian.DayOfWeek | src/main/java/com/xkzhangsan/time/LunarDate.java:143 | the weekday passed to getWeekCn is 1 (Monday) .. 7 (Sunday) |
| Gregorian.AnchorIsWednesday | src/main/java/com/xkzhangsan/time/LunarDate.java:143 | 1900-01-31 is day 0 and a Wednesday (3) |
| Gregorian.WeekdayAdvances | src/main/java/com/xkzhangsan/time/LunarDate.java:143 | the weekday of the next day is one more, Sunday wrapping to Monday |
| Gregorian.BeforeAnchorYear | src/main/java/com/xkzhangsan/time/LunarDate.java:281-284 | a date in a year before 1900 has a negative offset |
| Sexagenary.CyclicalM | src/main/java/com/xkzhangsan/time/LunarDate.java:254-256 | the name is two glyphs, stem num mod 10 then branch num mod 12 |
| Sexagenary.Cyclical | src/main/java/com/xkzhangsan/time/LunarDate.java:264-267 | the year's name depends only on its place (year - 1864) mod 60 in the sixty-year cycle, and the first year of each cycle (1864, 1924, 1984, ...) is 甲子 |
| Sexagenary.CycleIndexMod60 | src/main/java/com/xkzhangsan/time/LunarDate.java:254-256 | a cycle index and its remainder mod 60 have the same name |
| Sexagenary.AnimalsYear | src/main/java/com/xkzhangsan/time/LunarDate.java:244-246 | the animal is one glyph |
| Sexagenary.StemsDistinct | src/main/java/com/xkzhangsan/time/LunarDate.java:45 | the ten stems are distinct glyphs |
| Sexagenary.BranchesDistinct | src/main/java/com/xkzhangsan/time/LunarDate.java:50 | the twelve branches are distinct glyphs |
| Sexagenary.AnimalsDistinct | src/main/java/com/xkzhangsan/time/LunarDate.java:55 | the twelve animals are distinct |
| Sexagenary.CyclicalMNamesRepeatEvery60 | src/main/java/com/xkzhangsan/time/LunarDate.java:254-256 | two cycle indices share a name if and only if they differ by a multiple of 60 |
| Sexagenary.CyclicalPeriod | src/main/java/com/xkzhangsan/time/LunarDate.java:264-267 | two years (from 1864) share a cycle name if and only if they differ by a multiple of 60 |
| Sexagenary.AnimalsPeriod | src/main/java/com/xkzhangsan/time/LunarDate.java:244-246 | two years (from 4) share an animal if and only if they differ by a multiple of 12 |
| Sexagenary.AnimalMatchesBranch | src/main/java/com/xkzhangsan/time/LunarDate.java:244-267 | a year's animal is the animal of the branch in its cycle name |
| Sexagenary.Examples | src/main/java/com/xkzhangsan/time/LunarDate.java:244-267 | 1900 and 2020 are both 庚子 years of the rat |
| TextRenderer.MonthNameRoundTrip | src/main/java/com/xkzhangsan/time/LunarDate.java:40-41 | each month name is one glyph that reads back as its month, so the twelve names are distinct |
| TextRenderer.GetChinaYear | src/main/java/com/xkzhangsan/time/LunarDate.java:341-347 | the year is written as four glyphs |
| TextRenderer.DigitGlyphs | src/main/java/com/xkzhangsan/time/LunarDate.java:60 | each digit glyph is one character and reads back as its digit |
| TextRenderer.DigitGlyphInverse | src/main/java/com/xkzhangsan/time/LunarDate.java:60 | a character that reads as digit d is the digit glyph of d and nothing else |
| TextRenderer.DigitsOf | src/main/java/com/xkzhangsan/time/LunarDate.java:342-345 | the four digits picked by `% 10`, `/ 10 % 10`, `/ 100 % 10`, `/ 1000 % 10` from 1000a + 100b + 10c + d are d, c, b and a |
| TextRenderer.YearNumberExact | src/main/java/com/xkzhangsan/time/LunarDate.java:341-347 | the year reader accepts only year numerals: any four glyphs it reads as n are exactly the numeral getChinaYear writes for n |
| TextRenderer.DigitSum | src/main/java/com/xkzhangsan/time/LunarDate.java:342-345 | the four digits picked by `% 10`, `/ 10 % 10`, `/ 100 % 10`, `/ 1000 % 10`, weighted back, give the year mod 10000 |
| TextRenderer.ChinaYearRoundTrip | src/main/java/com/xkzhangsan/time/LunarDate.java:341-347 | each of the four glyphs is a digit glyph, and together they read back as the year mod 10000 (no zero suppression) |
| TextRenderer.ChinaYearReadsBack | src/main/java/com/xkzhangsan/time/LunarDate.java:341-347 | a year below 10000 reads back unchanged, so such years get distinct numerals |
| TextRenderer.ChinaYearExamples | src/main/java/com/xkzhangsan/time/LunarDate.java:341-347 | 1900 is 一九〇〇 and 2019 is 二〇一九 |
| TextRenderer.JavaDiv | src/main/java/com/xkzhangsan/time/LunarDate.java:361 | Java's int `/` truncates toward zero: the quotient times b is the multiple of b next to a on the side of zero (b * q <= a < b * q + b for a >= 0, b * q - b < a <= b * q for a < 0) |
| TextRenderer.JavaRem | src/main/java/com/xkzhangsan/time/LunarDate.java:370 | Java's int `%` satisfies a == b * (a / b) + a % b and takes the sign of a |
| TextRenderer.DayNameRoundTrip | src/main/java/com/xkzhangsan/time/LunarDate.java:353-403 | every day name 1-30 is two glyphs and reads back as its day, so the thirty names are distinct |
| TextRenderer.UnitGlyphInverse | src/main/java/com/xkzhangsan/time/LunarDate.java:353-403 | a character that reads as unit n (1-10) is the unit glyph of n and nothing else |
| TextRenderer.DayNumberExact | src/main/java/com/xkzhangsan/time/LunarDate.java:353-403 | the day reader accepts only day names: any two glyphs it reads as a day are exactly that day's name |
| TextRenderer.UnitGlyphValue | src/main/java/com/xkzhangsan/time/LunarDate.java:371-402 | each unit glyph reads back as its value, and only 10 is written 十 |
| TextRenderer.DayNameByDigits | src/main/java/com/xkzhangsan/time/LunarDate.java:361-402 | off 10, 20 and 30, a day's name is the tens glyph (初, 十, 廿) followed by the units glyph |
| TextRenderer.UnitGlyphs | src/main/java/com/xkzhangsan/time/LunarDate.java:371-398 | the switch's units glyphs are the unit glyphs of the day names |
| TextRenderer.GetChinaDay | src/main/java/com/xkzhangsan/time/LunarDate.java:353-403 | for every day 1-30 the string built is the day's traditional name (初十, 二十, 三十 whole, otherwise tens glyph then units glyph); for any day at most two glyphs |
| TextRenderer.GetWeekCn | src/main/java/com/xkzhangsan/time/LunarDate.java:411-440 | 1..7 give the three-glyph names 星期一 .. 星期六, 星期日, whose last glyph reads back as the weekday; any other value gives "" |
| TextRenderer.WeekNamesDistinct | src/main/java/com/xkzhangsan/time/LunarDate.java:411-440 | two weekdays 1..7 get the same name if and only if they are equal |
| LunarDates.LunarDate.constructor | src/main/java/com/xkzhangsan/time/LunarDate.java:117-121 | stores the date and leaves the object valid |
| LunarDates.LunarDate.Initialize | src/main/java/com/xkzhangsan/time/LunarDate.java:126-145 | establishes the object invariant: lunar date on localDate, cycle name and animal of the Gregorian year, and every text field |
| LunarDates.LunarDate.ResolveDate | src/main/java/com/xkzhangsan/time/LunarDate.java:127-137 | after calElement, lYear/lMonth/lDay (with the dropped leap flag) are the lunar date of localDate, and suiCi/lAnimal name its Gregorian year |
| LunarDates.LunarDate.RenderText | src/main/java/com/xkzhangsan/time/LunarDate.java:139-144 | the year, month and day text, the weekday name and lDateCn spell out the stored numbers |
| LunarDates.LunarDate.Format | src/main/java/com/xkzhangsan/time/LunarDate.java:506-508 | the display string has 18 glyphs: cycle name at 0-1, animal at 2, lunar year numerals at 5-8, exactly getChinaYear(lYear) and reading back as lYear, month glyph at 10 reading back as lMonth, day name at 12-13, exactly the name of lDay and reading back as lDay, weekday name at 15-17, and the separators "年 " at 3-4, 年 at 9, 月 at 11 and a space at 14 |
| LunarDates.DisplayLayout | src/main/java/com/xkzhangsan/time/LunarDate.java:507 | the positions of the parts and of the separators in the concatenated display string |
| LunarDates.AnchorFields | src/main/java/com/xkzhangsan/time/LunarDate.java:126-143 | the object built for 1900-01-31 holds lunar 1900, month 1, day 1, not leap, on a Wednesday |
| LunarDates.AnchorFieldsText | src/main/java/com/xkzhangsan/time/LunarDate.java:132-144 | the fields of that object are 庚子, 鼠, 一九〇〇年正月初一 and 星期三 |
| LunarDates.AnchorFormat | src/main/java/com/xkzhangsan/time/LunarDate.java:503-508 | the anchor formats as 庚子鼠年 一九〇〇年正月初一 星期三 |

## Left out

- `from(LocalDateTime)`, `from(LocalDate)`, `from(Instant)`, `from(Date)` (lines 152-181), `now()` (446-449) and `main` (511-515): time-zone conversion, the system clock and console output.
- Getters and `toString` (lines 451-500): boilerplate with nothing to prove.
- The epoch-millisecond offset of `calElement` (lines 281-284) goes through `DateTimeConverterUtil`, which is not part of this model. It is replaced by an exact proleptic Gregorian day count from 1900-01-31, `Gregorian.DaysSinceAnchor`. That count assumes the millisecond difference is a whole number of days. If the conversion used a zone whose offset changes between the two dates (daylight saving, a zone rule change), the truncating `/ 86400000L` of the source could come out one day low. That case is not modelled.
- `LocalDate.getDayOfWeek()` (line 143) is a library call. It is replaced by `Gregorian.DayOfWeek`, computed from the same day count with the anchor a Wednesday.
- `LocalDate.of` validation and the `LocalDate` type: a date is a `Gregorian.Date` with the `Gregorian.Valid` predicate.
- DateMapper.CalElement: requires the date to lie between 1900-01-31 and the end of lunar year 2049 (`InRange`). The source never checks this: outside the range it indexes `lunarInfo` out of bounds (offset below 0 reaches year 1899, offset at or past the table total reaches year 2050) and throws. The exception is not modelled.
- LunarDates.LunarDate.Initialize: is split into ResolveDate (calElement, cycle name, animal, lunar numbers) and RenderText (text fields), called in the source's order. This is a proof structure only.
- DateMapper.CalElement: is split into WalkYears and WalkMonths, following the two loops of the source. The year loop's index is returned rather than shared, and the loop variable `leap` of the month phase stays local to WalkMonths.
- The `long` and `int` widths: every value stays far below 2^31 (offsets below 55000, records below 2^17), so Dafny's unbounded `int` computes the same results.
- The bitwise `&` of the table decoders is modelled by division and remainder. BitByDivision connects the loop's mask test to bit k.
- The table is written as fifteen decades of ten records, flattened into one sequence of 150. The values are the source's, in order.
- The month name has no leap marker. `initialize` drops `l[6]` and indexes `lunarMonth[lMonth]` directly, and the model keeps that. The object records the leap flag only as a ghost field, so that its invariant can name the exact lunar date.
- TextRenderer.GetChinaDay: outside days 1-30 the contract bounds only the length of the result. calElement never produces such a day.
- TextRenderer.GetChinaYear: requires a non-negative year. For a negative year Java's `%` gives a negative remainder and indexing `numStr` throws, except at negative multiples of 10000, where every digit index is 0 and the result is 〇〇〇〇. The exception and those inputs are not modelled; `initialize` only passes years 1900-2049.
- Sexagenary.Cyclical, Sexagenary.AnimalsYear, Sexagenary.CyclicalM: require years from 1864, years from 4 and non-negative indices. Below those bounds Java's `%` goes negative and the array access throws, except at negative multiples of 60 (cycle index) or 12 (animal index), where the remainders are 0 and Java returns the index-0 name, 甲子 or 鼠. Near `Integer.MIN_VALUE`, the subtractions `year - 1900 + 36` (line 265) and `year - 4` (line 245) overflow and wrap to large positive indices. There Java returns a name without throwing: `cyclical(Integer.MIN_VALUE)` is 戊辰 and `animalsYear(Integer.MIN_VALUE)` is 龙. None of these behaviours (the exception, the negative multiples, the overflow) is modelled; `initialize` only passes years 1900-2049.
- The documented output for 2020-01-01 (`庚子鼠年 二〇一九年腊月初七 星期三`, line 503) is not proved as a concrete example. It would need the sum of 119 table years. The keying it shows (cycle name and animal from the Gregorian year, numerals from the lunar year) is stated by the object invariant and by LunarDates.LunarDate.Format.
