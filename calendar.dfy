/**
 * The part of JavaScript's `Date` the availability handler relies on, on
 * the proleptic Gregorian calendar in UTC: the multi-argument constructor
 * `new Date(year, monthIndex, day)` for day 1 and day 0 (with its two-digit
 * year rule and month overflow), the limit on representable time values,
 * and the date part of `toISOString()`.
 */
module Calendar {
  import opened Js

  /** A calendar date; `month` is 1-based. */
  datatype Date = Date(year: int, month: int, day: int)

  predicate IsLeapYear(y: int) {
    y % 4 == 0 && (y % 100 != 0 || y % 400 == 0)
  }

  function DaysInMonth(y: int, m: int): (n: int)
    requires 1 <= m <= 12
    ensures 28 <= n <= 31
    ensures n == 29 <==> m == 2 && IsLeapYear(y)
  {
    if m == 2 then (if IsLeapYear(y) then 29 else 28)
    else if m == 4 || m == 6 || m == 9 || m == 11 then 30
    else 31
  }

  predicate ValidDate(d: Date) {
    1 <= d.month <= 12 && 1 <= d.day <= DaysInMonth(d.year, d.month)
  }

  /** The constructor's year rule: a year from 0 to 99 means 1900 to 1999. */
  function FullYear(year: int): int {
    if 0 <= year <= 99 then 1900 + year else year
  }

  /** `new Date(year, monthIndex, 1)`: the zero-based month index carries
      into the year in both directions. */
  function FirstOfMonth(year: int, monthIndex: int): (d: Date)
    ensures ValidDate(d) && d.day == 1
    ensures d.year * 12 + (d.month - 1) == FullYear(year) * 12 + monthIndex
  {
    var total := FullYear(year) * 12 + monthIndex;
    Date(total / 12, total % 12 + 1, 1)
  }

  /** The calendar day before a date. */
  function PreviousDay(d: Date): (p: Date)
    requires ValidDate(d)
    ensures ValidDate(p)
    ensures DaysFromCivil(p) == DaysFromCivil(d) - 1
  {
    if d.day > 1 then Date(d.year, d.month, d.day - 1)
    else if d.month == 3 then
      MarchFollowsFebruary(d.year);
      Date(d.year, 2, DaysInMonth(d.year, 2))
    else if d.month > 1 then
      MonthBoundary(d.year, d.month);
      Date(d.year, d.month - 1, DaysInMonth(d.year, d.month - 1))
    else Date(d.year - 1, 12, 31)
  }

  /** `new Date(year, monthIndex, 0)`: day 0 is the day before day 1. */
  function DayZero(year: int, monthIndex: int): Date {
    PreviousDay(FirstOfMonth(year, monthIndex))
  }

  /** The handler's `new Date(year, month - 1, 1)` and `new Date(year, month, 0)`. */
  function MonthRange(year: int, month: int): (Date, Date) {
    (FirstOfMonth(year, month - 1), DayZero(year, month))
  }

  /** The decomposition of a month count into a year and a month. */
  lemma MonthCount(total: int)
    ensures var next := total + 1;
      if total % 12 == 11 then next / 12 == total / 12 + 1 && next % 12 == 0
      else next / 12 == total / 12 && next % 12 == total % 12 + 1
  {
    var q, r := total / 12, total % 12;
    assert total == 12 * q + r;
    if r == 11 {
      assert total + 1 == 12 * (q + 1) + 0;
    } else {
      assert total + 1 == 12 * q + (r + 1);
    }
  }

  /** The day before the first of a month is the last day of the month before. */
  lemma BeforeTheFirst(d: Date)
    requires ValidDate(d) && d.day == 1
    ensures PreviousDay(d) == if d.month > 1 then Date(d.year, d.month - 1, DaysInMonth(d.year, d.month - 1))
                              else Date(d.year - 1, 12, 31)
  {
  }

  /** The range is one whole month: from its first day to its last day. For
      a month from 1 to 12 it is that month of that year, read as 1900 to
      1999 for a year from 0 to 99; other months carry into the year. */
  lemma MonthRangeIsWholeMonth(year: int, month: int)
    ensures ValidDate(MonthRange(year, month).0) && ValidDate(MonthRange(year, month).1)
    ensures var (start, end) := MonthRange(year, month);
      start.day == 1 && end.year == start.year && end.month == start.month
      && end.day == DaysInMonth(start.year, start.month)
    ensures 1 <= month <= 12 ==> MonthRange(year, month).0 == Date(FullYear(year), month, 1)
  {
    var total := FullYear(year) * 12 + (month - 1);
    MonthCount(total);
    var start := FirstOfMonth(year, month - 1);
    var first := FirstOfMonth(year, month);
    assert first == Date((total + 1) / 12, (total + 1) % 12 + 1, 1);
    BeforeTheFirst(first);
    if 1 <= month <= 12 {
      assert total == FullYear(year) * 12 + (month - 1);
      assert total / 12 == FullYear(year) && total % 12 == month - 1;
    }
  }

  /** The year a date is counted in when counted years start on March 1,
      so that a leap day falls at the end of its counted year. */
  function CountYear(d: Date): int {
    if d.month <= 2 then d.year - 1 else d.year
  }

  /** Days from March 1 to the first of month `m` of the same counted year. */
  function MonthOffset(m: int): int
    requires 1 <= m <= 12
  {
    var mp := if m > 2 then m - 3 else m + 9;
    (153 * mp + 2) / 5
  }

  /** Days from the start of a 400-year era to March 1 of its year `yoe`. */
  function YearOffset(yoe: int): int {
    yoe * 365 + yoe / 4 - yoe / 100
  }

  /** Days since 1970-01-01 of a date (the inverse direction of the usual
      civil-from-days computation, in 400-year eras of 146097 days). */
  function DaysFromCivil(d: Date): int
    requires ValidDate(d)
  {
    var y := CountYear(d);
    (y / 400) * 146097 + YearOffset(y % 400) + MonthOffset(d.month) + d.day - 1 - 719468
  }

  /** Within a counted year, each month starts right after the month before it ends. */
  lemma MonthBoundary(y: int, m: int)
    requires 2 <= m <= 12 && m != 3
    ensures DaysFromCivil(Date(y, m, 1)) == DaysFromCivil(Date(y, m - 1, DaysInMonth(y, m - 1))) + 1
  {
  }

  /** A counted year has 365 days, and 366 when it ends with a leap day. */
  lemma YearOffsetStep(k: int)
    requires 1 <= k < 400
    ensures YearOffset(k) == YearOffset(k - 1) + 365 + (if k % 4 == 0 && k % 100 != 0 then 1 else 0)
  {
    assert (k - 1) / 4 == k / 4 - (if k % 4 == 0 then 1 else 0);
    assert (k - 1) / 100 == k / 100 - (if k % 100 == 0 then 1 else 0);
    assert k % 100 == 0 ==> k % 4 == 0;
  }

  /** The Gregorian leap rule read on the position of a year in its era. */
  lemma LeapInEra(y: int)
    ensures var k := y % 400; IsLeapYear(y) <==> k == 0 || (k % 4 == 0 && k % 100 != 0)
  {
    var k := y % 400;
    var era := y / 400;
    assert y == 4 * (100 * era) + k;
    assert y == 100 * (4 * era) + k;
    assert y % 4 == k % 4;
    assert y % 100 == k % 100;
  }

  /** The year before `y` in terms of eras. */
  lemma EraStep(y: int)
    ensures y % 400 == 0 ==> (y - 1) / 400 == y / 400 - 1 && (y - 1) % 400 == 399
    ensures y % 400 != 0 ==> (y - 1) / 400 == y / 400 && (y - 1) % 400 == y % 400 - 1
  {
  }

  /** March 1 follows the last day of February, in leap and common years
      alike: it is the first day of a new counted year, and of a new era
      every 400 years. */
  lemma MarchFollowsFebruary(y: int)
    ensures DaysFromCivil(Date(y, 3, 1)) == DaysFromCivil(Date(y, 2, DaysInMonth(y, 2))) + 1
  {
    LeapInEra(y);
    EraStep(y);
    if y % 400 == 0 {
      assert YearOffset(399) == 145731;
    } else {
      YearOffsetStep(y % 400);
    }
  }

  /** Midnight of the date is a time value `Date` can hold: at most 10^8 days
      (8.64 * 10^15 ms) either side of the epoch; otherwise the date is
      invalid and `toISOString()` throws a RangeError. */
  predicate Representable(d: Date)
    requires ValidDate(d)
  {
    -100000000 <= DaysFromCivil(d) <= 100000000
  }

  /** A date's day count lies within the era of its counted year. */
  lemma DaysWithinEra(d: Date)
    requires ValidDate(d)
    ensures var era := CountYear(d) / 400;
      era * 146097 - 719468 <= DaysFromCivil(d) <= era * 146097 + 150000 - 719468
  {
    var k := CountYear(d) % 400;
    assert 0 <= k / 4 <= 99 && 0 <= k / 100 <= 3;
    assert 0 <= YearOffset(k) <= 399 * 365 + 99;
    assert 0 <= MonthOffset(d.month) <= 337;
  }

  /** Every representable date has a year below 10^6 in magnitude. */
  lemma RepresentableYears(d: Date)
    requires ValidDate(d) && Representable(d)
    ensures -1000000 < d.year < 1000000
  {
    DaysWithinEra(d);
    var era := CountYear(d) / 400;
    assert d.year >= 1000000 ==> era >= 2499;
    assert d.year <= -1000000 ==> era <= -2500;
  }

  /** The day count starts at the epoch. */
  lemma EpochIsDayZero()
    ensures DaysFromCivil(Date(1970, 1, 1)) == 0
  {
    assert 1969 / 400 == 4 && (153 * 10 + 2) / 5 == 306;
    assert 369 * 365 + 369 / 4 - 369 / 100 + 306 == 135080;
  }

  /** The last day of the time-value range of ECMA-262 (section 21.4.1) is 10^8 days after the epoch. */
  lemma LastRepresentableDay()
    ensures DaysFromCivil(Date(275760, 9, 13)) == 100000000
  {
    assert 275760 / 400 == 689 && (153 * 6 + 2) / 5 == 184;
    assert 160 * 365 + 160 / 4 - 160 / 100 + 196 == 58635;
    assert 689 * 146097 == 100660833;
  }

  /** The first day of that range is 10^8 days before the epoch. */
  lemma FirstRepresentableDay()
    ensures DaysFromCivil(Date(-271821, 4, 20)) == -100000000
  {
    assert -271821 / 400 == -680 && (153 * 1 + 2) / 5 == 31;
    assert 179 * 365 + 179 / 4 - 179 / 100 + 50 == 65428;
    assert -680 * 146097 == -99345960;
  }

  /** The year part of `toISOString()`: four digits from 0 to 9999, otherwise
      a sign and six digits. */
  function IsoYear(y: int): (r: string)
    ensures 0 <= y <= 9999 ==> |r| >= 4 && AllDigits(r)
    ensures !(0 <= y <= 9999) ==> |r| >= 7 && r[0] == (if y < 0 then '-' else '+') && AllDigits(r[1..])
  {
    if 0 <= y <= 9999 then PadDecimal(y, 4)
    else if y < 0 then "-" + PadDecimal(-y, 6)
    else "+" + PadDecimal(y, 6)
  }

  /** Every year below 10^6 in magnitude takes exactly four or seven characters. */
  lemma IsoYearWidth(y: int)
    requires -1000000 < y < 1000000
    ensures |IsoYear(y)| == if 0 <= y <= 9999 then 4 else 7
  {
    Pow10Widths();
    if 0 <= y <= 9999 {
      PadDecimalLength(y, 4);
    } else {
      var a: nat := if y < 0 then -y else y;
      PadDecimalLength(a, 6);
    }
  }

  /** `date.toISOString().split('T')[0]`. */
  function IsoDate(d: Date): string
    requires ValidDate(d)
  {
    IsoYear(d.year) + "-" + PadDecimal(d.month, 2) + "-" + PadDecimal(d.day, 2)
  }

  /** Reads a `YYYY-MM-DD` or `±YYYYYY-MM-DD` date. */
  function ParseIsoDate(s: string): Option<Date> {
    if |s| == 10 then ParseShortIsoDate(s)
    else if |s| == 13 then ParseLongIsoDate(s)
    else None
  }

  function ParseShortIsoDate(s: string): Option<Date>
    requires |s| == 10
  {
    if AllDigits(s[..4]) && s[4] == '-' && AllDigits(s[5..7]) && s[7] == '-' && AllDigits(s[8..]) then
      Some(Date(ParseDecimal(s[..4]), ParseDecimal(s[5..7]), ParseDecimal(s[8..])))
    else None
  }

  function ParseLongIsoDate(s: string): Option<Date>
    requires |s| == 13
  {
    if (s[0] == '+' || s[0] == '-') && AllDigits(s[1..7]) && s[7] == '-' && AllDigits(s[8..10])
       && s[10] == '-' && AllDigits(s[11..]) then
      var y: int := ParseDecimal(s[1..7]);
      Some(Date(if s[0] == '-' then -y else y, ParseDecimal(s[8..10]), ParseDecimal(s[11..])))
    else None
  }

  lemma TwoDigits(n: nat)
    requires n < 100
    ensures |PadDecimal(n, 2)| == 2 && ParseDecimal(PadDecimal(n, 2)) == n
  {
    assert Pow10(2) == 100 by {
      assert Pow10(1) == 10;
    }
    PadDecimalLength(n, 2);
    ParsePadDecimal(n, 2);
  }

  lemma Pow10Widths()
    ensures Pow10(4) == 10000 && Pow10(6) == 1000000
  {
    assert Pow10(2) == 100 by {
      assert Pow10(1) == 10;
    }
  }

  /** A year from 0 to 9999 is printed with four digits and read back. */
  lemma ShortYearRoundTrip(d: Date)
    requires ValidDate(d) && 0 <= d.year <= 9999
    ensures ParseIsoDate(IsoDate(d)) == Some(d)
  {
    var y := PadDecimal(d.year, 4);
    var m := PadDecimal(d.month, 2);
    var dd := PadDecimal(d.day, 2);
    TwoDigits(d.month);
    TwoDigits(d.day);
    Pow10Widths();
    PadDecimalLength(d.year, 4);
    ParsePadDecimal(d.year, 4);
    var s := IsoDate(d);
    assert s == y + "-" + m + "-" + dd;
    assert s[..4] == y && s[5..7] == m && s[8..] == dd;
  }

  /** Where the fields of a signed six-digit date string lie. */
  lemma LongLayout(sign: char, digits: string, m: string, dd: string)
    requires |digits| == 6 && |m| == 2 && |dd| == 2
    ensures var s := [sign] + digits + "-" + m + "-" + dd;
      |s| == 13 && s[0] == sign && s[7] == '-' && s[10] == '-'
      && s[1..7] == digits && s[8..10] == m && s[11..] == dd
  {
    var s := [sign] + digits + "-" + m + "-" + dd;
    assert s[1..7] == digits;
    assert s[8..10] == m;
    assert s[11..] == dd;
  }

  /** A signed six-digit date string is read field by field. */
  lemma ParseLongSlices(s: string)
    requires |s| == 13 && (s[0] == '-' || s[0] == '+') && s[7] == '-' && s[10] == '-'
    requires AllDigits(s[1..7]) && AllDigits(s[8..10]) && AllDigits(s[11..])
    ensures var y: int := ParseDecimal(s[1..7]);
      ParseIsoDate(s) == Some(Date(if s[0] == '-' then -y else y, ParseDecimal(s[8..10]), ParseDecimal(s[11..])))
  {
  }

  /** Any other year below 10^6 in magnitude is printed with a sign and six
      digits and read back. */
  lemma LongYearRoundTrip(d: Date)
    requires ValidDate(d) && -1000000 < d.year < 1000000 && !(0 <= d.year <= 9999)
    ensures ParseIsoDate(IsoDate(d)) == Some(d)
  {
    var a: nat := if d.year < 0 then -d.year else d.year;
    var sign := if d.year < 0 then '-' else '+';
    var digits := PadDecimal(a, 6);
    TwoDigits(d.month);
    TwoDigits(d.day);
    Pow10Widths();
    PadDecimalLength(a, 6);
    ParsePadDecimal(a, 6);
    var m, dd := PadDecimal(d.month, 2), PadDecimal(d.day, 2);
    assert IsoYear(d.year) == [sign] + digits;
    var s := [sign] + digits + "-" + m + "-" + dd;
    assert IsoDate(d) == s;
    LongLayout(sign, digits, m, dd);
    ParseLongSlices(s);
  }

  /** The date string names the date: reading it back gives the date, for
      every year `toISOString()` can print. */
  lemma IsoDateRoundTrip(d: Date)
    requires ValidDate(d) && -1000000 < d.year < 1000000
    ensures ParseIsoDate(IsoDate(d)) == Some(d)
  {
    if 0 <= d.year <= 9999 {
      ShortYearRoundTrip(d);
    } else {
      LongYearRoundTrip(d);
    }
  }
}
