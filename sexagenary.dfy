/**
 * The sexagenary cycle names of `LunarDate`: `cyclicalm`, `cyclical` and
 * `animalsYear`. A cycle index n is named by heavenly stem n mod 10 and
 * earthly branch n mod 12; index 0 is 甲子. The sixty names repeat with
 * period 60, the twelve animals with period 12.
 */
module Sexagenary {

  /** `tianGan`: the ten heavenly stems. */
  const TianGan: seq<string> := ["甲", "乙", "丙", "丁", "戊", "己", "庚", "辛", "壬", "癸"]

  /** `diZhi`: the twelve earthly branches. */
  const DiZhi: seq<string> := ["子", "丑", "寅", "卯", "辰", "巳", "午", "未", "申", "酉", "戌", "亥"]

  /** `animals`: the zodiac animal of each branch, in branch order. */
  const Animals: seq<string> := ["鼠", "牛", "虎", "兔", "龙", "蛇", "马", "羊", "猴", "鸡", "狗", "猪"]

  /**
   * `cyclicalm(num)`: stem num % 10 followed by branch num % 12. Java's `%`
   * is negative for a negative num and the array access then throws, so the
   * index must be non-negative.
   */
  function CyclicalM(num: int): (name: string)
    requires num >= 0
    ensures |name| == 2
    ensures name[0] == TianGan[num % 10][0] && name[1] == DiZhi[num % 12][0]
  {
    TianGan[num % 10] + DiZhi[num % 12]
  }

  /**
   * `cyclical(year)`: the cycle name of a year. Only the year's place in the
   * current sixty-year cycle counted from 1864 matters, and the years at the
   * start of a cycle (1864, 1924, 1984, ...) are 甲子 years.
   */
  function Cyclical(year: int): (name: string)
    requires year >= 1864
    ensures name == CyclicalM((year - 1864) % 60)
    ensures (year - 1864) % 60 == 0 ==> name == "甲子"
  {
    var num := year - 1900 + 36;
    CycleIndexMod60(num);
    CyclicalM(num)
  }

  /** A cycle index and its remainder mod 60 have the same name. */
  lemma CycleIndexMod60(a: int)
    requires a >= 0
    ensures CyclicalM(a) == CyclicalM(a % 60)
  {
    assert a - a % 60 == 60 * (a / 60);
    ResiduesFromPeriod(a, a % 60);
  }

  /** `animalsYear(year)`: the zodiac animal, counted from year 4, a year of the rat. */
  function AnimalsYear(year: int): (animal: string)
    requires year >= 4
    ensures |animal| == 1
  {
    Animals[(year - 4) % 12]
  }

  /** Two cycle indices share a name exactly when they are 60 apart, or a multiple of that. */
  lemma CyclicalMNamesRepeatEvery60(a: int, b: int)
    requires a >= 0 && b >= 0
    ensures CyclicalM(a) == CyclicalM(b) <==> (a - b) % 60 == 0
  {
    if CyclicalM(a) == CyclicalM(b) {
      NameDeterminesResidues(a, b);
      CommonMultiple(a, b);
    } else if (a - b) % 60 == 0 {
      ResiduesFromPeriod(a, b);
      assert false;
    }
  }

  /** Equal names have equal stems and equal branches, so the indices agree mod 10 and mod 12. */
  lemma NameDeterminesResidues(a: int, b: int)
    requires a >= 0 && b >= 0 && CyclicalM(a) == CyclicalM(b)
    ensures a % 10 == b % 10 && a % 12 == b % 12
  {
    assert CyclicalM(a)[0] == CyclicalM(b)[0] && CyclicalM(a)[1] == CyclicalM(b)[1];
    StemsDistinct(a % 10, b % 10);
    BranchesDistinct(a % 12, b % 12);
  }

  /** Indices a multiple of 60 apart agree mod 10 and mod 12. */
  lemma ResiduesFromPeriod(a: int, b: int)
    requires (a - b) % 60 == 0
    ensures a % 10 == b % 10 && a % 12 == b % 12
  {
    var k := (a - b) / 60;
    var q10, q12 := b / 10, b / 12;
    assert a == 10 * (q10 + 6 * k) + b % 10;
    assert 10 * (a / 10 - q10 - 6 * k) == b % 10 - a % 10;
    assert a == 12 * (q12 + 5 * k) + b % 12;
    assert 12 * (a / 12 - q12 - 5 * k) == b % 12 - a % 12;
  }

  lemma StemsDistinct(i: int, j: int)
    requires 0 <= i < 10 && 0 <= j < 10 && TianGan[i][0] == TianGan[j][0]
    ensures i == j
  {
  }

  lemma BranchesDistinct(i: int, j: int)
    requires 0 <= i < 12 && 0 <= j < 12 && DiZhi[i][0] == DiZhi[j][0]
    ensures i == j
  {
  }

  lemma AnimalsDistinct(i: int, j: int)
    requires 0 <= i < 12 && 0 <= j < 12 && Animals[i] == Animals[j]
    ensures i == j
  {
  }

  /** Indices that agree mod 10 and mod 12 agree mod 60. */
  lemma CommonMultiple(a: int, b: int)
    requires a % 10 == b % 10 && a % 12 == b % 12
    ensures (a - b) % 60 == 0
  {
    var d := a - b;
    var m, n := a / 10 - b / 10, a / 12 - b / 12;
    assert d == 10 * m;
    assert d == 12 * n;
    var q := d / 60;
    var t := m - 6 * q;
    assert d == 60 * q + 10 * t && 0 <= 10 * t < 60;
    assert 10 * t == 12 * (n - 5 * q);
    assert t == 0;
  }

  /** Two numbers agree mod 12 exactly when their difference is a multiple of 12. */
  lemma SameResidue12(a: int, b: int)
    ensures a % 12 == b % 12 <==> (a - b) % 12 == 0
  {
    var qa, qb := a / 12, b / 12;
    assert a - b == 12 * (qa - qb) + (a % 12 - b % 12);
    if (a - b) % 12 == 0 {
      var k := (a - b) / 12;
      assert 12 * (k - qa + qb) == a % 12 - b % 12;
    }
  }

  /** `cyclical` repeats every sixty years and at no shorter distance. */
  lemma CyclicalPeriod(y1: int, y2: int)
    requires y1 >= 1864 && y2 >= 1864
    ensures Cyclical(y1) == Cyclical(y2) <==> (y1 - y2) % 60 == 0
  {
    CyclicalMNamesRepeatEvery60(y1 - 1864, y2 - 1864);
  }

  /** `animalsYear` repeats every twelve years and at no shorter distance. */
  lemma AnimalsPeriod(y1: int, y2: int)
    requires y1 >= 4 && y2 >= 4
    ensures AnimalsYear(y1) == AnimalsYear(y2) <==> (y1 - y2) % 12 == 0
  {
    if AnimalsYear(y1) == AnimalsYear(y2) {
      AnimalsDistinct((y1 - 4) % 12, (y2 - 4) % 12);
    }
    SameResidue12(y1 - 4, y2 - 4);
  }

  /** The animal of a year is the animal of the branch in its cycle name. */
  lemma AnimalMatchesBranch(year: int)
    requires year >= 1864
    ensures exists k :: 0 <= k < 12 && Cyclical(year)[1] == DiZhi[k][0] && AnimalsYear(year) == Animals[k]
  {
    var k := (year - 1864) % 12;
    ResiduesFromPeriod(year - 4, year - 1864);
    assert Cyclical(year)[1] == DiZhi[k][0] && AnimalsYear(year) == Animals[k];
  }

  /** 1900 and 2020, two cycles apart, are both 庚子 years of the rat. */
  lemma Examples()
    ensures Cyclical(1900) == "庚子" && AnimalsYear(1900) == "鼠"
    ensures Cyclical(2020) == "庚子" && AnimalsYear(2020) == "鼠"
  {
  }
}
