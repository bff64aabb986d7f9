/**
 * UTC calendar arithmetic of ECMAScript time values (section 21.4.1 of
 * ECMA-262: Day, DaysInYear, DayFromYear, YearFromTime, MonthFromTime,
 * DateFromTime, TimeClip) and the `YYYY-MM-DD` day key built from it.
 */
module Calendar {
  import opened Text

  const MsPerDay: int := 86400000

  /** TimeClip: a time value further than this from the epoch is NaN. */
  const MaxTimeValue: int := 8640000000000000

  predicate IsTimeValue(t: int) {
    -MaxTimeValue <= t <= MaxTimeValue
  }

  /** Day(t) = floor(t / msPerDay); Dafny's `/` by a positive divisor is floor division. */
  function Day(t: int): int {
    t / MsPerDay
  }

  function DaysInYear(y: int): int {
    if y % 4 != 0 then 365
    else if y % 100 != 0 then 366
    else if y % 400 != 0 then 365
    else 366
  }

  /** 1 in a leap year, 0 otherwise (InLeapYear). */
  function LeapDays(y: int): (r: int)
    ensures r == 0 || r == 1
  {
    DaysInYear(y) - 365
  }

  /** Day number of 1 January of year `y`. */
  function DayFromYear(y: int): int {
    365 * (y - 1970) + (y - 1969) / 4 - (y - 1901) / 100 + (y - 1601) / 400
  }

  /** Stepping the numerator by one moves a floor quotient by 4, 100 or 400 up by at most one. */
  lemma FloorStep(a: int, c: int)
    requires c == 4 || c == 100 || c == 400
    ensures (a + 1) / c - a / c == if (a + 1) % c == 0 then 1 else 0
  {
    if c == 4 {
      assert (a + 1) / 4 - a / 4 == if (a + 1) % 4 == 0 then 1 else 0;
    } else if c == 100 {
      assert (a + 1) / 100 - a / 100 == if (a + 1) % 100 == 0 then 1 else 0;
    } else {
      assert (a + 1) / 400 - a / 400 == if (a + 1) % 400 == 0 then 1 else 0;
    }
  }

  /** The leap-day terms of `DayFromYear` step by one exactly at multiples of 4, 100 and 400. */
  lemma LeapTermSteps(y: int)
    ensures (y - 1968) / 4 - (y - 1969) / 4 == if y % 4 == 0 then 1 else 0
    ensures (y - 1900) / 100 - (y - 1901) / 100 == if y % 100 == 0 then 1 else 0
    ensures (y - 1600) / 400 - (y - 1601) / 400 == if y % 400 == 0 then 1 else 0
  {
    FloorStep(y - 1969, 4);
    assert (y - 1968) % 4 == y % 4;
    FloorStep(y - 1901, 100);
    assert (y - 1900) % 100 == y % 100;
    FloorStep(y - 1601, 400);
    assert (y - 1600) % 400 == y % 400;
  }

  /** A multiple of 400 is one of 100, and a multiple of 100 is one of 4. */
  lemma DivisibilityChain(y: int)
    ensures y % 400 == 0 ==> y % 100 == 0
    ensures y % 100 == 0 ==> y % 4 == 0
  {
    if y % 400 == 0 {
      Multiple400(y);
    }
    if y % 100 == 0 {
      Multiple100(y);
    }
  }

  lemma Multiple400(y: int)
    requires y % 400 == 0
    ensures y % 100 == 0
  {
    var q := y / 400;
    assert y == 100 * (4 * q);
    assert y / 100 == 4 * q;
  }

  lemma Multiple100(y: int)
    requires y % 100 == 0
    ensures y % 4 == 0
  {
    var q := y / 100;
    assert y == 4 * (25 * q);
    assert y / 4 == 25 * q;
  }

  /** Consecutive year starts are one year length apart. */
  lemma YearLength(y: int)
    ensures DayFromYear(y + 1) - DayFromYear(y) == DaysInYear(y)
  {
    LeapTermSteps(y);
    DivisibilityChain(y);
    assert DayFromYear(y + 1) - DayFromYear(y)
        == 365 + ((y - 1968) / 4 - (y - 1969) / 4) - ((y - 1900) / 100 - (y - 1901) / 100)
           + ((y - 1600) / 400 - (y - 1601) / 400);
  }

  lemma {:induction false} DayFromYearIncreasing(a: int, b: int)
    requires a < b
    ensures DayFromYear(a) < DayFromYear(b)
    decreases b - a
  {
    YearLength(a);
    if a + 1 < b {
      DayFromYearIncreasing(a + 1, b);
    }
  }

  function YearUp(d: int, y: int): (r: int)
    requires DayFromYear(y) <= d
    ensures DayFromYear(r) <= d < DayFromYear(r + 1)
    decreases d - DayFromYear(y)
  {
    YearLength(y);
    if DayFromYear(y + 1) <= d then YearUp(d, y + 1) else y
  }

  function YearDown(d: int, y: int): (r: int)
    requires d < DayFromYear(y + 1)
    ensures DayFromYear(r) <= d < DayFromYear(r + 1)
    decreases DayFromYear(y) - d
  {
    YearLength(y - 1);
    if d < DayFromYear(y) then YearDown(d, y - 1) else y
  }

  /** The year that contains day number `d`. */
  function YearFromDay(d: int): (y: int)
    ensures DayFromYear(y) <= d < DayFromYear(y + 1)
  {
    if d >= 0 then YearUp(d, 1970) else YearDown(d, 1969)
  }

  /**
   * YearFromTime(t) is the largest y with TimeFromYear(y) <= t, where
   * TimeFromYear(y) = msPerDay * DayFromYear(y).
   */
  lemma YearFromDayIsLargest(t: int, y: int)
    requires MsPerDay * DayFromYear(y) <= t
    ensures y <= YearFromDay(Day(t))
    ensures MsPerDay * DayFromYear(YearFromDay(Day(t))) <= t
  {
    var r := YearFromDay(Day(t));
    DayBounds(t, DayFromYear(y));
    DayBounds(t, DayFromYear(r));
    YearStartsOrdered(r, y);
  }

  /** A day starts no later than `t` exactly when it is no later than the day of `t`. */
  lemma DayBounds(t: int, k: int)
    ensures MsPerDay * k <= t <==> k <= Day(t)
  {
    var q := t / 86400000;
    assert t == 86400000 * q + t % 86400000;
    if k <= q {
      assert 86400000 * k <= 86400000 * q;
    } else {
      assert 86400000 * k >= 86400000 * (q + 1);
    }
  }

  /** First day within the year of month `m` (0-based; 12 gives the year length). */
  function MonthStart(m: int, leap: int): int
    requires 0 <= m <= 12
  {
    (if m >= 2 then leap else 0) + [0, 31, 59, 90, 120, 151, 181, 212, 243, 273, 304, 334, 365][m]
  }

  /** MonthFromTime, given DayWithinYear and InLeapYear. */
  function MonthFromDayWithinYear(dwy: int, leap: int): (m: int)
    requires leap == 0 || leap == 1
    requires 0 <= dwy < 365 + leap
    ensures 0 <= m <= 11
    ensures MonthStart(m, leap) <= dwy < MonthStart(m + 1, leap)
  {
    if dwy < 31 then 0
    else if dwy < 59 + leap then 1
    else if dwy < 90 + leap then 2
    else if dwy < 120 + leap then 3
    else if dwy < 151 + leap then 4
    else if dwy < 181 + leap then 5
    else if dwy < 212 + leap then 6
    else if dwy < 243 + leap then 7
    else if dwy < 273 + leap then 8
    else if dwy < 304 + leap then 9
    else if dwy < 334 + leap then 10
    else 11
  }

  /** A UTC calendar date: `month` is 1..12 (getUTCMonth() + 1), `day` is getUTCDate(). */
  datatype CivilDate = CivilDate(year: int, month: int, day: int)

  function DaysInMonth(y: int, month: int): int
    requires 1 <= month <= 12
  {
    MonthStart(month, LeapDays(y)) - MonthStart(month - 1, LeapDays(y))
  }

  predicate ValidDate(c: CivilDate) {
    1 <= c.month <= 12 && 1 <= c.day <= DaysInMonth(c.year, c.month)
  }

  /** Day number of a calendar date (MakeDay for a valid date). */
  function DayFromCivil(c: CivilDate): int
    requires 1 <= c.month <= 12
  {
    DayFromYear(c.year) + MonthStart(c.month - 1, LeapDays(c.year)) + c.day - 1
  }

  /** MonthFromTime + 1 and DateFromTime of the day `dwy` within year `y`. */
  function CivilInYear(y: int, dwy: int): (c: CivilDate)
    requires 0 <= dwy < 365 + LeapDays(y)
    ensures c.year == y && ValidDate(c)
    ensures MonthStart(c.month - 1, LeapDays(y)) + c.day - 1 == dwy
  {
    var leap := LeapDays(y);
    var m := MonthFromDayWithinYear(dwy, leap);
    CivilDate(y, m + 1, dwy - MonthStart(m, leap) + 1)
  }

  /** YearFromTime, MonthFromTime + 1 and DateFromTime of day number `d`. */
  function CivilFromDay(d: int): (c: CivilDate)
    ensures ValidDate(c)
    ensures DayFromCivil(c) == d
  {
    var y := YearFromDay(d);
    YearLength(y);
    CivilInYear(y, d - DayFromYear(y))
  }

  /** Year ranges do not overlap: a day lies in exactly one year. */
  lemma YearFromDayUnique(d: int, y: int)
    requires DayFromYear(y) <= d < DayFromYear(y + 1)
    ensures YearFromDay(d) == y
  {
    var r := YearFromDay(d);
    YearStartsOrdered(r, y);
    YearStartsOrdered(y, r);
  }

  /** A later year starts no earlier than the year after an earlier one. */
  lemma YearStartsOrdered(a: int, b: int)
    ensures a < b ==> DayFromYear(a + 1) <= DayFromYear(b)
  {
    if a + 1 < b {
      DayFromYearIncreasing(a + 1, b);
    }
  }

  /** Month ranges do not overlap: a day within the year lies in exactly one month. */
  lemma MonthFromDayWithinYearUnique(dwy: int, leap: int, m: int)
    requires leap == 0 || leap == 1
    requires 0 <= m <= 11
    requires MonthStart(m, leap) <= dwy < MonthStart(m + 1, leap)
    ensures 0 <= dwy < 365 + leap
    ensures MonthFromDayWithinYear(dwy, leap) == m
  {
    MonthStartIncreasing(m + 1, 12, leap);
    var r := MonthFromDayWithinYear(dwy, leap);
    if r < m {
      MonthStartIncreasing(r + 1, m, leap);
    } else if r > m {
      MonthStartIncreasing(m + 1, r, leap);
    }
  }

  /** Within a year, a valid date is recovered from its day within the year. */
  lemma CivilInYearRoundTrip(c: CivilDate)
    requires ValidDate(c)
    ensures 0 <= MonthStart(c.month - 1, LeapDays(c.year)) + c.day - 1 < 365 + LeapDays(c.year)
    ensures CivilInYear(c.year, MonthStart(c.month - 1, LeapDays(c.year)) + c.day - 1) == c
  {
    var leap := LeapDays(c.year);
    var dwy := MonthStart(c.month - 1, leap) + c.day - 1;
    MonthFromDayWithinYearUnique(dwy, leap, c.month - 1);
  }

  /** Every valid calendar date is the date of exactly its own day number. */
  lemma CivilRoundTrip(c: CivilDate)
    requires ValidDate(c)
    ensures CivilFromDay(DayFromCivil(c)) == c
  {
    var d := DayFromCivil(c);
    CivilInYearRoundTrip(c);
    YearLength(c.year);
    YearFromDayUnique(d, c.year);
  }

  lemma MonthStartIncreasing(a: int, b: int, leap: int)
    requires 0 <= a <= b <= 12
    requires leap == 0 || leap == 1
    ensures MonthStart(a, leap) <= MonthStart(b, leap)
  {
  }

  // ---------------------------------------------------------------------------
  // toDateKey

  /** `${year}-${MM}-${DD}`: the year as JavaScript prints it, month and day padded to two digits. */
  function KeyOf(c: CivilDate): (k: string)
    requires ValidDate(c)
    ensures |k| == |IntToString(c.year)| + 6
  {
    IntToString(c.year) + "-" + Pad2(c.month) + "-" + Pad2(c.day)
  }

  /** What `toDateKey` produces for an invalid Date (every getter returns NaN). */
  const InvalidKey: string := "NaN-NaN-NaN"

  /** The UTC `YYYY-MM-DD` key of a timestamp in milliseconds. */
  function ToDateKey(t: int): string {
    if IsTimeValue(t) then KeyOf(CivilFromDay(Day(t))) else InvalidKey
  }

  /** The fields of a `year-MM-DD` text sit at fixed distances from its end. */
  lemma KeyParts(year: string, mm: string, dd: string)
    requires |mm| == 2 && |dd| == 2
    ensures var k := year + "-" + mm + "-" + dd;
      && |k| == |year| + 6
      && k[..|k| - 6] == year && k[|k| - 6] == '-'
      && k[|k| - 5..|k| - 3] == mm && k[|k| - 3] == '-'
      && k[|k| - 2..] == dd
  {
    var k := year + "-" + mm + "-" + dd;
    assert k[..|k| - 6] == year;
    assert k[|k| - 5..|k| - 3] == mm;
    assert k[|k| - 2..] == dd;
  }

  lemma KeyOfInjective(a: CivilDate, b: CivilDate)
    requires ValidDate(a) && ValidDate(b)
    requires KeyOf(a) == KeyOf(b)
    ensures a == b
  {
    KeyParts(IntToString(a.year), Pad2(a.month), Pad2(a.day));
    KeyParts(IntToString(b.year), Pad2(b.month), Pad2(b.day));
    IntToStringInjective(a.year, b.year);
    Pad2Injective(a.month, b.month);
    Pad2Injective(a.day, b.day);
  }

  /** Two valid timestamps get the same key exactly when they fall on the same UTC day. */
  lemma DateKeySameDay(t1: int, t2: int)
    requires IsTimeValue(t1) && IsTimeValue(t2)
    ensures ToDateKey(t1) == ToDateKey(t2) <==> Day(t1) == Day(t2)
  {
    if ToDateKey(t1) == ToDateKey(t2) {
      KeyOfInjective(CivilFromDay(Day(t1)), CivilFromDay(Day(t2)));
    }
  }

  /** A valid timestamp never produces the invalid-date key. */
  lemma ValidKeyIsNotInvalid(t: int)
    requires IsTimeValue(t)
    ensures ToDateKey(t) != InvalidKey
  {
    var k := ToDateKey(t);
    var y := CivilFromDay(Day(t)).year;
    assert k[0] == IntToString(y)[0];
    if y >= 0 {
      assert IsDigit(NatToString(y)[0]);
    }
  }

  /** A key reads back as its date: the year before the second-to-last '-', then two-digit month and day. */
  lemma KeyOfFields(c: CivilDate)
    requires ValidDate(c)
    ensures var k := KeyOf(c);
      && |k| >= 7
      && k[|k| - 6] == '-' && k[|k| - 3] == '-'
      && AllDigits(k[|k| - 5..|k| - 3]) && AllDigits(k[|k| - 2..])
      && ParseDigits(k[|k| - 5..|k| - 3]) == c.month
      && ParseDigits(k[|k| - 2..]) == c.day
      && IsIntText(k[..|k| - 6]) && ParseInt(k[..|k| - 6]) == c.year
  {
    ParseIntToString(c.year);
    KeyFieldsRead(IntToString(c.year), Pad2(c.month), Pad2(c.day), c.year, c.month, c.day);
  }

  lemma KeyFieldsRead(year: string, mm: string, dd: string, y: int, m: nat, d: nat)
    requires |mm| == 2 && |dd| == 2 && AllDigits(mm) && AllDigits(dd)
    requires ParseDigits(mm) == m && ParseDigits(dd) == d
    requires IsIntText(year) && ParseInt(year) == y
    ensures var k := year + "-" + mm + "-" + dd;
      && |k| >= 7
      && k[|k| - 6] == '-' && k[|k| - 3] == '-'
      && AllDigits(k[|k| - 5..|k| - 3]) && AllDigits(k[|k| - 2..])
      && ParseDigits(k[|k| - 5..|k| - 3]) == m
      && ParseDigits(k[|k| - 2..]) == d
      && IsIntText(k[..|k| - 6]) && ParseInt(k[..|k| - 6]) == y
  {
    KeyParts(year, mm, dd);
  }

  /**
   * The key of a valid timestamp reads back as its UTC date, and that date
   * is the day of `t`.
   */
  lemma DateKeyFields(t: int)
    requires IsTimeValue(t)
    ensures var k := ToDateKey(t);
      var c := CivilFromDay(Day(t));
      && |k| >= 7
      && k[|k| - 6] == '-' && k[|k| - 3] == '-'
      && AllDigits(k[|k| - 5..|k| - 3]) && AllDigits(k[|k| - 2..])
      && ParseDigits(k[|k| - 5..|k| - 3]) == c.month
      && ParseDigits(k[|k| - 2..]) == c.day
      && IsIntText(k[..|k| - 6]) && ParseInt(k[..|k| - 6]) == c.year
      && ValidDate(c)
      && DayFromCivil(c) == Day(t)
  {
    var c := CivilFromDay(Day(t));
    assert ToDateKey(t) == KeyOf(c);
    KeyOfFields(c);
  }
}
