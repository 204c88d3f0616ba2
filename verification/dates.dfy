/**
 * The date arithmetic `DataCache.getDailyData` relies on: splitting an
 * ECMAScript time value (milliseconds since 1970-01-01T00:00:00Z) into its
 * UTC year, month and day, and printing the result as the `date_from` cutoff
 * string `${year}-${MM}-${DD}`.
 */
module Dates {
  import opened StringOrder

  /** Milliseconds in one day (ECMAScript `msPerDay`). */
  const MsPerDay: int := 86400000

  /** Largest magnitude of a time value a `Date` can hold (10^8 days). */
  const MaxTimeValue: int := 8640000000000000

  /** What `new Date(t)` yields an Invalid Date for: a time value out of range. */
  predicate IsTimeValue(t: int)
  {
    -MaxTimeValue <= t <= MaxTimeValue
  }

  /** A proleptic Gregorian calendar date in UTC, month and day counted from 1. */
  datatype CivilDate = CivilDate(year: int, month: int, day: int)

  /** `d1` lies strictly before `d2` in the calendar. */
  predicate Before(d1: CivilDate, d2: CivilDate)
  {
    d1.year < d2.year
    || (d1.year == d2.year && (d1.month < d2.month || (d1.month == d2.month && d1.day < d2.day)))
  }

  /** The Gregorian leap year rule, for astronomical year numbers (year 0 is 1 BC). */
  predicate IsLeapYear(y: int)
  {
    y % 4 == 0 && (y % 100 != 0 || y % 400 == 0)
  }

  /** The length of month `month` (1 = January) in a leap or a common year. */
  function MonthLength(month: int, leap: bool): int
  {
    if month == 2 then (if leap then 29 else 28)
    else if month == 4 || month == 6 || month == 9 || month == 11 then 30
    else 31
  }

  /** A date that exists in the proleptic Gregorian calendar. */
  predicate ValidDate(d: CivilDate)
  {
    1 <= d.month <= 12 && 1 <= d.day <= MonthLength(d.month, IsLeapYear(d.year))
  }

  // ---------------------------------------------------------------------
  // From days since the epoch to a calendar date and back.
  // ---------------------------------------------------------------------

  /** Day of the era on which year `yoe` of a March-based 400-year era begins. */
  function StartOfYearOfEra(yoe: int): int
  {
    365 * yoe + yoe / 4 - yoe / 100
  }

  /**
   * Splits a day of a 400-year era into its year of era and its day of that
   * year: centuries of 36524 days (the era's last day belongs to the fourth),
   * four-year cycles of 1461 days, and years of 365 days (a cycle's last day
   * belongs to its fourth year).
   */
  /**
   * The length of year `yoe` of an era. A March-based year holds the February
   * of the following calendar year, so it is a leap year when that one is.
   */
  function MarchYearLength(yoe: int): int
  {
    if IsLeapYear(yoe + 1) then 366 else 365
  }

  function YearOfEra(doe: int): (yd: (int, int))
    requires 0 <= doe < 146097
    ensures 0 <= yd.0 < 400 && 0 <= yd.1 < MarchYearLength(yd.0)
    ensures StartOfYearOfEra(yd.0) + yd.1 == doe
  {
    var cent := if doe == 146096 then 3 else doe / 36524;
    var inCent := doe - 36524 * cent;
    var quad := inCent / 1461;
    var inQuad := inCent - 1461 * quad;
    var yr := if inQuad == 1460 then 3 else inQuad / 365;
    assert (100 * cent + 4 * quad + yr) / 4 == 25 * cent + quad;
    assert (100 * cent + 4 * quad + yr) / 100 == cent;
    (100 * cent + 4 * quad + yr, inQuad - 365 * yr)
  }

  /** The day of a March-based year on which day `day` of month `month` falls. */
  function DayOfMarchYear(month: int, day: int): int
  {
    var mp := if month > 2 then month - 3 else month + 9;   // months counted from March
    (153 * mp + 2) / 5 + day - 1
  }

  /**
   * The month (1 = January) and day of month of day `doy` of a March-based
   * year. February comes last, so its 29th is day 365, which only a leap
   * year has.
   */
  function MonthDay(doy: int): (md: (int, int))
    requires 0 <= doy <= 365
    ensures 1 <= md.0 <= 12 && 1 <= md.1 <= MonthLength(md.0, doy == 365)
    ensures DayOfMarchYear(md.0, md.1) == doy
  {
    var mp := (5 * doy + 2) / 153;
    (if mp < 10 then mp + 3 else mp - 9, doy - (153 * mp + 2) / 5 + 1)
  }

  /**
   * The UTC calendar date of day number `z` (day 0 is 1970-01-01), as
   * `getUTCFullYear`, `getUTCMonth() + 1` and `getUTCDate` report it.
   * The computation works in 400-year eras of 146097 days whose years begin
   * on the 1st of March, so that the leap day is the last day of a year.
   * Dafny's division by a positive constant rounds toward minus infinity,
   * which is the floor the era computation needs for dates before 0000-03-01.
   */
  function CivilFromDays(z: int): (d: CivilDate)
    ensures ValidDate(d)
  {
    var shifted := z + 719468;                 // day number counted from 0000-03-01
    CivilOfEraDay(shifted / 146097, shifted % 146097)
  }

  /** The date on day `doe` of era `era`. */
  function CivilOfEraDay(era: int, doe: int): (d: CivilDate)
    requires 0 <= doe < 146097
    ensures ValidDate(d)
  {
    var (yoe, doy) := YearOfEra(doe);
    var (month, day) := MonthDay(doy);
    LeapYearOfEra(yoe, era);
    CivilDate(yoe + era * 400 + (if month <= 2 then 1 else 0), month, day)
  }

  /** Whole eras of 400 years do not change whether a year is a leap year. */
  lemma LeapYearOfEra(yoe: int, era: int)
    ensures IsLeapYear(yoe + 1 + era * 400) <==> IsLeapYear(yoe + 1)
  {
    var y := yoe + 1 + era * 400;
    assert y / 4 == (yoe + 1) / 4 + 100 * era;
    assert y / 100 == (yoe + 1) / 100 + 4 * era;
    assert y / 400 == (yoe + 1) / 400 + era;
  }

  /** The day number of a calendar date: days before its era, its year and its month, then its day. */
  function DaysFromCivil(d: CivilDate): int
  {
    var y := d.year - (if d.month <= 2 then 1 else 0);   // the March-based year
    var era := y / 400;
    era * 146097 + StartOfYearOfEra(y - era * 400) + DayOfMarchYear(d.month, d.day) - 719468
  }

  /** The day number of a date, given the era and year of era it falls in. */
  lemma DaysFromCivilParts(yoe: int, era: int, month: int, day: int)
    requires 0 <= yoe < 400 && 1 <= month <= 12
    ensures DaysFromCivil(CivilDate(yoe + era * 400 + (if month <= 2 then 1 else 0), month, day))
         == era * 146097 + StartOfYearOfEra(yoe) + DayOfMarchYear(month, day) - 719468
  {
    var y := yoe + era * 400;
    assert y / 400 == era;
  }

  /** The date of day `doe` of an era lies on that day of the era. */
  lemma CivilOfEraDayRoundTrip(era: int, doe: int)
    requires 0 <= doe < 146097
    ensures DaysFromCivil(CivilOfEraDay(era, doe)) == era * 146097 + doe - 719468
  {
    var (yoe, doy) := YearOfEra(doe);
    var (month, day) := MonthDay(doy);
    DaysFromCivilParts(yoe, era, month, day);
  }

  /** Decomposing a day number loses nothing: distinct days get distinct dates. */
  lemma CivilFromDaysRoundTrip(z: int)
    ensures DaysFromCivil(CivilFromDays(z)) == z
  {
    var shifted := z + 719468;
    var era, doe := shifted / 146097, shifted % 146097;
    assert era * 146097 + doe == shifted;
    CivilOfEraDayRoundTrip(era, doe);
  }

  /** A day of year `yoe` of an era is split back into that year and that day. */
  lemma YearOfEraOf(yoe: int, doy: int)
    requires 0 <= yoe < 400 && 0 <= doy < MarchYearLength(yoe)
    ensures 0 <= StartOfYearOfEra(yoe) + doy < 146097
    ensures YearOfEra(StartOfYearOfEra(yoe) + doy) == (yoe, doy)
  {
    var c, q, r := yoe / 100, (yoe % 100) / 4, yoe % 4;
    StartOfYearParts(yoe);
    if doy == 365 {
      LeapYearParts(c, q, r);
    }
    YearOfEraParts(c, q, r, doy);
  }

  /** Year `yoe` of an era is year `r` of cycle `q` of century `c`, and starts after their days. */
  lemma StartOfYearParts(yoe: int)
    requires 0 <= yoe < 400
    ensures var c, q, r := yoe / 100, (yoe % 100) / 4, yoe % 4;
      && 0 <= c < 4 && 0 <= q < 25 && 0 <= r < 4 && yoe == 100 * c + 4 * q + r
      && StartOfYearOfEra(yoe) == 36524 * c + 1461 * q + 365 * r
  {
    var c, q, r := yoe / 100, (yoe % 100) / 4, yoe % 4;
    assert yoe == 100 * c + 4 * q + r;
    assert yoe / 4 == 25 * c + q;
  }

  /** A leap March-based year is the last of its cycle, and the last of its century only in the fourth. */
  lemma LeapYearParts(c: int, q: int, r: int)
    requires 0 <= c < 4 && 0 <= q < 25 && 0 <= r < 4
    requires IsLeapYear(100 * c + 4 * q + r + 1)
    ensures r == 3 && (q == 24 ==> c == 3)
  {
  }

  /** The century, four-year cycle and year of a day of an era, as `YearOfEra` computes them. */
  lemma YearOfEraParts(c: int, q: int, r: int, doy: int)
    requires 0 <= c < 4 && 0 <= q < 25 && 0 <= r < 4 && 0 <= doy <= 365
    requires doy == 365 ==> r == 3 && (q == 24 ==> c == 3)
    ensures var doe := 36524 * c + 1461 * q + 365 * r + doy;
      0 <= doe < 146097 && YearOfEra(doe) == (100 * c + 4 * q + r, doy)
  {
    var doe := 36524 * c + 1461 * q + 365 * r + doy;
    var inCent := 1461 * q + 365 * r + doy;
    var inQuad := 365 * r + doy;
    assert inCent / 1461 == q by {
      assert inQuad < 1461;
    }
    if doe == 146096 {
      assert c == 3 && inCent == 36524;
    } else {
      assert doe / 36524 == c by {
        assert inCent < 36524;
      }
      assert inQuad != 1460 ==> inQuad / 365 == r;
    }
  }

  /** A day of a month is split back into that month and that day. */
  lemma MonthDayOf(month: int, day: int, leap: bool)
    requires 1 <= month <= 12 && 1 <= day <= MonthLength(month, leap)
    ensures 0 <= DayOfMarchYear(month, day) <= 364 || (leap && month == 2 && day == 29)
    ensures DayOfMarchYear(month, day) == 365 <==> month == 2 && day == 29
    ensures 0 <= DayOfMarchYear(month, day) <= 365 ==> MonthDay(DayOfMarchYear(month, day)) == (month, day)
  {
  }

  /**
   * Every date of the calendar is the date of its own day number, so
   * `CivilFromDays` and `DaysFromCivil` are inverse bijections between day
   * numbers and valid dates.
   */
  lemma DaysFromCivilRoundTrip(d: CivilDate)
    requires ValidDate(d)
    ensures CivilFromDays(DaysFromCivil(d)) == d
  {
    var y := d.year - (if d.month <= 2 then 1 else 0);
    var era := y / 400;
    var yoe := y - era * 400;
    var doy := DayOfMarchYear(d.month, d.day);
    assert 0 <= yoe < 400 && 0 <= doy <= 365 && MonthDay(doy) == (d.month, d.day) by {
      MonthDayOf(d.month, d.day, IsLeapYear(d.year));
    }
    assert doy < MarchYearLength(yoe) by {
      MonthDayOf(d.month, d.day, IsLeapYear(d.year));
      LeapYearOfEra(yoe, era);
    }
    var doe := StartOfYearOfEra(yoe) + doy;
    assert 0 <= doe < 146097 && YearOfEra(doe) == (yoe, doy) by {
      YearOfEraOf(yoe, doy);
    }
    var z := DaysFromCivil(d);
    assert (z + 719468) / 146097 == era && (z + 719468) % 146097 == doe by {
      DaysFromCivilParts(yoe, era, d.month, d.day);
      EraSplit(era, doe);
    }
    assert d.year == yoe + era * 400 + (if d.month <= 2 then 1 else 0);
    CivilFromDaysOf(z, era, doe, yoe, doy, d);
  }

  /** The date of day number `z`, from the era, the year and the day within the year it falls on. */
  lemma CivilFromDaysOf(z: int, era: int, doe: int, yoe: int, doy: int, d: CivilDate)
    requires 0 <= doe < 146097 && (z + 719468) / 146097 == era && (z + 719468) % 146097 == doe
    requires YearOfEra(doe) == (yoe, doy)
    requires 0 <= doy <= 365 && MonthDay(doy) == (d.month, d.day)
    requires d.year == yoe + era * 400 + (if d.month <= 2 then 1 else 0)
    ensures CivilFromDays(z) == d
  {
    CivilOfEraDayOf(era, doe, yoe, doy, d.month, d.day);
  }

  /** Day `doe` of era `era` lies in that era. */
  lemma EraSplit(era: int, doe: int)
    requires 0 <= doe < 146097
    ensures (era * 146097 + doe) / 146097 == era && (era * 146097 + doe) % 146097 == doe
  {
  }

  /** The date on a day of an era, from the year and the day within the year it falls on. */
  lemma CivilOfEraDayOf(era: int, doe: int, yoe: int, doy: int, month: int, day: int)
    requires 0 <= doe < 146097 && YearOfEra(doe) == (yoe, doy)
    requires 0 <= doy <= 365 && MonthDay(doy) == (month, day)
    ensures CivilOfEraDay(era, doe) == CivilDate(yoe + era * 400 + (if month <= 2 then 1 else 0), month, day)
  {
  }

  /** The UTC date of time value `t`; `t / MsPerDay` is the floor `Day(t)`. */
  function UtcDateOf(t: int): (d: CivilDate)
    ensures ValidDate(d)
    ensures DaysFromCivil(d) == t / MsPerDay
  {
    CivilFromDaysRoundTrip(t / MsPerDay);
    CivilFromDays(t / MsPerDay)
  }

  /** Moving a time value back by whole days moves its day number back by as many. */
  lemma {:induction false} DayOfShift(t: int, days: int)
    ensures (t - days * MsPerDay) / MsPerDay == t / MsPerDay - days
  {
    var q := t / MsPerDay;
    var r := t % MsPerDay;
    assert t - days * MsPerDay == (q - days) * MsPerDay + r;
  }

  // ---------------------------------------------------------------------
  // Printing numbers the way a template literal prints an integral number.
  // ---------------------------------------------------------------------

  function Digit(n: int): (c: char)
    requires 0 <= n < 10
    ensures '0' <= c <= '9' && c as int - '0' as int == n
  {
    (('0' as int) + n) as char
  }

  predicate IsDigitString(s: string)
  {
    forall i :: 0 <= i < |s| ==> '0' <= s[i] <= '9'
  }

  /** The number a string of decimal digits denotes. */
  function DigitsValue(s: string): (n: nat)
    requires IsDigitString(s)
  {
    if s == [] then 0 else DigitsValue(s[..|s| - 1]) * 10 + (s[|s| - 1] as int - '0' as int)
  }

  /** `String(n)` for a non-negative integer: its decimal digits, no leading zero. */
  function NatToString(n: nat): (s: string)
    ensures 1 <= |s| && IsDigitString(s)
    ensures |s| > 1 ==> s[0] != '0'
  {
    if n < 10 then [Digit(n)] else NatToString(n / 10) + [Digit(n % 10)]
  }

  /** Printing a number and reading its digits back gives the number. */
  lemma {:induction false} NatToStringRoundTrip(n: nat)
    ensures DigitsValue(NatToString(n)) == n
  {
    if n >= 10 {
      var s := NatToString(n);
      assert s[..|s| - 1] == NatToString(n / 10);
      NatToStringRoundTrip(n / 10);
    }
  }

  /**
   * `String(y)` for an integer: a minus sign exactly when the number is
   * negative, then the decimal digits of its magnitude with no leading zero.
   */
  function IntToString(y: int): (s: string)
    ensures |s| >= 1 && (s[0] == '-' <==> y < 0)
    ensures var digits := if y < 0 then s[1..] else s;
      && 1 <= |digits| && IsDigitString(digits) && (|digits| > 1 ==> digits[0] != '0')
      && DigitsValue(digits) == if y < 0 then -y else y
  {
    var n: nat := if y < 0 then -y else y;
    NatToStringRoundTrip(n);
    if y < 0 then
      var s := "-" + NatToString(n);
      assert s[1..] == NatToString(n);
      s
    else NatToString(n)
  }

  /** `${n >= 10 ? '' : 0}${n}`: a month or day printed with at least two digits. */
  function Pad2(n: nat): (s: string)
    ensures |s| >= 2 && IsDigitString(s)
  {
    (if n >= 10 then "" else "0") + NatToString(n)
  }

  /** The cutoff string of `getDailyData` for a calendar date. */
  function FormatDate(d: CivilDate): string
    requires 1 <= d.month && 1 <= d.day
  {
    IntToString(d.year) + "-" + Pad2(d.month) + "-" + Pad2(d.day)
  }

  /** What the template literal prints for an Invalid Date, whose fields are all NaN. */
  const InvalidDateFrom: string := "NaN-0NaN-0NaN"

  /** `date_from` for the time value `t` that `new Date(t)` receives. */
  function DateFrom(t: int): (s: string)
    ensures IsTimeValue(t) ==>
      var d := UtcDateOf(t);
      && ValidDate(d) && DaysFromCivil(d) == t / MsPerDay
      && s == IntToString(d.year) + "-" + Fixed(d.month, 2) + "-" + Fixed(d.day, 2)
      && IsDigitString(Fixed(d.month, 2)) && DigitsValue(Fixed(d.month, 2)) == d.month
      && IsDigitString(Fixed(d.day, 2)) && DigitsValue(Fixed(d.day, 2)) == d.day
    ensures !IsTimeValue(t) ==> s == InvalidDateFrom
  {
    if IsTimeValue(t) then
      FormatDateFields(UtcDateOf(t));
      FormatDate(UtcDateOf(t))
    else InvalidDateFrom
  }

  // ---------------------------------------------------------------------
  // Fixed-width digit strings: string order agrees with numeric order.
  // ---------------------------------------------------------------------

  function Pow10(w: nat): (p: nat)
    ensures p >= 1
  {
    if w == 0 then 1 else 10 * Pow10(w - 1)
  }

  /** The last `w` decimal digits of `n`, zero-padded to exactly `w` characters. */
  function Fixed(n: nat, w: nat): (s: string)
    ensures |s| == w
  {
    if w == 0 then [] else Fixed(n / 10, w - 1) + [Digit(n % 10)]
  }

  /** Among numbers below 10^w, comparing their w-digit strings compares the numbers. */
  lemma {:induction false} FixedOrder(n: nat, m: nat, w: nat)
    requires n < Pow10(w) && m < Pow10(w)
    ensures Less(Fixed(n, w), Fixed(m, w)) <==> n < m
    ensures Fixed(n, w) == Fixed(m, w) <==> n == m
  {
    if w == 0 {
    } else {
      FixedOrder(n / 10, m / 10, w - 1);
      LessBlock(Fixed(n / 10, w - 1), [Digit(n % 10)], Fixed(m / 10, w - 1), [Digit(m % 10)]);
      assert Less([Digit(n % 10)], [Digit(m % 10)]) <==> n % 10 < m % 10;
      assert n == n / 10 * 10 + n % 10 && m == m / 10 * 10 + m % 10;
    }
  }

  /** A number with exactly `w` digits prints as its `w`-digit string. */
  lemma {:induction false} NatToStringIsFixed(n: nat, w: nat)
    requires 1 <= w && Pow10(w - 1) <= n < Pow10(w)
    ensures NatToString(n) == Fixed(n, w)
  {
    if w > 1 {
      assert 10 * Pow10(w - 2) <= n < 10 * Pow10(w - 1);
      NatToStringIsFixed(n / 10, w - 1);
    }
  }

  /** Below 100, the padded month or day is exactly two digits denoting the number. */
  lemma Pad2IsFixed(n: nat)
    requires n < 100
    ensures Pad2(n) == Fixed(n, 2)
    ensures |Pad2(n)| == 2 && IsDigitString(Pad2(n)) && DigitsValue(Pad2(n)) == n
  {
    var s := Pad2(n);
    if n >= 10 {
      NatToStringIsFixed(n, 2);
      assert s == [Digit(n / 10), Digit(n % 10)];
    } else {
      assert s == [Digit(0), Digit(n)];
    }
    assert s[..1] == [s[0]];
    assert DigitsValue(s) == DigitsValue([s[0]]) * 10 + (s[1] as int - '0' as int);
  }

  /**
   * The cutoff string of any date is its year as `String` prints it, a dash,
   * the month as exactly two digits, a dash and the day as exactly two digits.
   */
  lemma FormatDateFields(d: CivilDate)
    requires 1 <= d.month <= 12 && 1 <= d.day <= 31
    ensures FormatDate(d) == IntToString(d.year) + "-" + Fixed(d.month, 2) + "-" + Fixed(d.day, 2)
    ensures IsDigitString(Fixed(d.month, 2)) && DigitsValue(Fixed(d.month, 2)) == d.month
    ensures IsDigitString(Fixed(d.day, 2)) && DigitsValue(Fixed(d.day, 2)) == d.day
  {
    Pad2IsFixed(d.month);
    Pad2IsFixed(d.day);
  }

  lemma YearIsFixed(y: nat)
    requires 1000 <= y < 10000
    ensures NatToString(y) == Fixed(y, 4)
  {
    assert Pow10(3) == 1000 && Pow10(4) == 10000;
    NatToStringIsFixed(y, 4);
  }

  /** A calendar date whose cutoff string has the ISO `YYYY-MM-DD` shape. */
  predicate FourDigitYear(d: CivilDate)
  {
    1000 <= d.year < 10000 && 1 <= d.month < 100 && 1 <= d.day < 100
  }

  /** With a four-digit year the cutoff string is `YYYY-MM-DD`: ten characters. */
  lemma FormatDateShape(d: CivilDate)
    requires FourDigitYear(d)
    ensures FormatDate(d) == Fixed(d.year, 4) + "-" + Fixed(d.month, 2) + "-" + Fixed(d.day, 2)
    ensures |FormatDate(d)| == 10 && FormatDate(d)[4] == '-' && FormatDate(d)[7] == '-'
  {
    var y, m, a := Fixed(d.year, 4), Fixed(d.month, 2), Fixed(d.day, 2);
    assert FormatDate(d) == y + "-" + m + "-" + a by {
      assert IntToString(d.year) == NatToString(d.year);
      YearIsFixed(d.year);
      Pad2IsFixed(d.month);
      Pad2IsFixed(d.day);
    }
    var s := y + "-" + m + "-" + a;
    assert |s| == 10;
    assert s[4] == "-"[0] && s[7] == "-"[0];
  }

  /** Two `${y}-${m}-${d}` strings whose year and month fields have equal widths compare field by field. */
  lemma {:induction false} JoinOrder(y1: string, m1: string, a1: string, y2: string, m2: string, a2: string)
    requires |y1| == |y2| && |m1| == |m2|
    ensures Less(y1 + "-" + m1 + "-" + a1, y2 + "-" + m2 + "-" + a2)
      <==> Less(y1, y2) || (y1 == y2 && (Less(m1, m2) || (m1 == m2 && Less(a1, a2))))
    ensures y1 + "-" + m1 + "-" + a1 == y2 + "-" + m2 + "-" + a2 <==> y1 == y2 && m1 == m2 && a1 == a2
  {
    var t1, t2 := "-" + a1, "-" + a2;
    var u1, u2 := m1 + t1, m2 + t2;
    var v1, v2 := "-" + u1, "-" + u2;
    assert y1 + "-" + m1 + "-" + a1 == y1 + v1;
    assert y2 + "-" + m2 + "-" + a2 == y2 + v2;
    LessIrreflexive("-");
    LessBlock("-", a1, "-", a2);
    LessBlock(m1, t1, m2, t2);
    LessBlock("-", u1, "-", u2);
    LessBlock(y1, v1, y2, v2);
  }

  /**
   * For dates with four-digit years, the string comparison the cache filter
   * performs is the calendar order: one cutoff string is below another exactly
   * when its date comes first, and equal exactly when the dates are equal.
   */
  lemma FormatDateOrder(d1: CivilDate, d2: CivilDate)
    requires FourDigitYear(d1) && FourDigitYear(d2)
    ensures Less(FormatDate(d1), FormatDate(d2)) <==> Before(d1, d2)
    ensures FormatDate(d1) == FormatDate(d2) <==> d1 == d2
  {
    FormatDateShape(d1);
    FormatDateShape(d2);
    FixedOrder(d1.year, d2.year, 4);
    FixedOrder(d1.month, d2.month, 2);
    FixedOrder(d1.day, d2.day, 2);
    JoinOrder(Fixed(d1.year, 4), Fixed(d1.month, 2), Fixed(d1.day, 2),
              Fixed(d2.year, 4), Fixed(d2.month, 2), Fixed(d2.day, 2));
  }
}
