/** Which day a printed date is, by closed formulas for the proleptic Gregorian calendar
    that do not go through the month table, and exactly which texts are dates
    (storage/types.go with Go's layouts "2006-01-02" and "2006-01-02-15").
 */
module Gregorian {
  import opened Options
  import opened Calendar
  import opened Identifiers

  // ------------------------------------------------------------ closed formulas

  /** Days from the start of year 0 to the start of year y: 365 a year, and one more for
      every fourth year, but not for every hundredth, but for every four hundredth. */
  function YearStart(y: int): int {
    365 * y + (y + 3) / 4 - (y + 99) / 100 + (y + 399) / 400
  }

  predicate LongYear(y: int) {
    YearStart(y + 1) - YearStart(y) == 366
  }

  /** Days from the start of a year to the start of month m, 13 being the next January. */
  function MonthStartIn(long: bool, m: int): int {
    (367 * m - 362) / 12 - if m <= 2 then 0 else if long then 1 else 2
  }

  function MonthStart(y: int, m: int): int {
    MonthStartIn(LongYear(y), m)
  }

  function DayCount(y: int, m: int, d: int): int {
    YearStart(y) + MonthStart(y, m) + d - 1
  }

  predicate RealDay(y: int, m: int, d: int) {
    1 <= m <= 12 && 1 <= d && MonthStart(y, m) + d - 1 < MonthStart(y, m + 1)
  }

  lemma LongYearsAreLeap(y: nat)
    ensures LongYear(y) <==> IsLeap(y)
    ensures YearStart(y + 1) == YearStart(y) + YearLength(y)
  {
    assert (y + 4) / 4 == (y + 3) / 4 + if y % 4 == 0 then 1 else 0;
    assert (y + 100) / 100 == (y + 99) / 100 + if y % 100 == 0 then 1 else 0;
    assert (y + 400) / 400 == (y + 399) / 400 + if y % 400 == 0 then 1 else 0;
    assert y % 400 == 0 ==> y % 100 == 0;
    assert y % 100 == 0 ==> y % 4 == 0;
  }

  /** The numbering counts the days of the years as the closed formula does. */
  lemma {:induction false} YearsAreCounted(y: nat)
    ensures DaysBeforeYear(y) == YearStart(y)
  {
    if y == 0 {
    } else {
      YearsAreCounted(y - 1);
      LongYearsAreLeap(y - 1);
    }
  }

  lemma MonthsAdvance(long: bool, y: int, m: int)
    requires 1 <= m <= 12 && (long <==> IsLeap(y))
    ensures MonthStartIn(long, m + 1) == MonthStartIn(long, m) + MonthLength(y, m)
  {
  }

  /** And those of the months. */
  lemma {:induction false} MonthsAreCounted(y: nat, m: int)
    requires 1 <= m <= 13
    ensures DaysBeforeMonth(y, m) == MonthStart(y, m)
    decreases m
  {
    if m == 1 {
    } else {
      LongYearsAreLeap(y);
      MonthsAreCounted(y, m - 1);
      MonthsAdvance(LongYear(y), y, m - 1);
    }
  }

  lemma RealDaysAreValid(d: Date)
    requires d.year >= 0
    ensures ValidDate(d) <==> RealDay(d.year, d.month, d.day)
    ensures ValidDate(d) ==> DayNumber(d) == DayCount(d.year, d.month, d.day)
  {
    YearsAreCounted(d.year);
    if 1 <= d.month <= 12 {
      MonthsAreCounted(d.year, d.month);
      MonthsAreCounted(d.year, d.month + 1);
    }
  }

  // --------------------------------------------------------------- printed dates

  predicate Numeral(c: char) {
    48 <= c as int <= 57
  }

  /** The number that two digits write. */
  function Number(s: string, i: nat): int
    requires i + 1 < |s|
  {
    (s[i] as int - 48) * 10 + (s[i + 1] as int - 48)
  }

  /** Four digits, a dash, two digits, a dash, two digits. */
  predicate DateShape(s: string) {
    && |s| >= 10 && s[4] == '-' && s[7] == '-'
    && Numeral(s[0]) && Numeral(s[1]) && Numeral(s[2]) && Numeral(s[3])
    && Numeral(s[5]) && Numeral(s[6]) && Numeral(s[8]) && Numeral(s[9])
  }

  /** The text begins with the date of an existing day: year, month and day in order. */
  predicate ShowsDay(s: string) {
    DateShape(s) && RealDay(Number(s, 0) * 100 + Number(s, 2), Number(s, 5), Number(s, 8))
  }

  function DayShown(s: string): int
    requires DateShape(s)
  {
    DayCount(Number(s, 0) * 100 + Number(s, 2), Number(s, 5), Number(s, 8))
  }

  lemma SameShape(s: string)
    requires |s| == 10
    ensures TenShape(s) <==> DateShape(s)
  {
    if DateShape(s) {
      assert forall i | 0 <= i < 10 && i != 4 && i != 7 :: IsDigit(s[i]);
    }
  }

  lemma SameNumbers(s: string)
    requires TenShape(s)
    ensures Two(s, 0) == Number(s, 0) && Two(s, 2) == Number(s, 2)
    ensures Two(s, 5) == Number(s, 5) && Two(s, 8) == Number(s, 8)
  {
  }

  /** Exactly the texts of ten characters that show an existing day parse as days, and
      give its first hour. */
  lemma ParsesDaysExactly(s: string)
    ensures ParseDay(s).Ok? <==> |s| == 10 && ShowsDay(s)
    ensures ParseDay(s).Ok? ==> ParseDay(s).value == 24 * DayShown(s)
  {
    if |s| == 10 {
      SameShape(s);
      if TenShape(s) {
        SameNumbers(s);
        RealDaysAreValid(Date(Two(s, 0) * 100 + Two(s, 2), Two(s, 5), Two(s, 8)));
      }
    }
  }

  /** A printed day shows the day that holds the hour. */
  lemma PrintedDayIsShown(h: int)
    requires InRange(h)
    ensures |FormatDay(h)| == 10 && ShowsDay(FormatDay(h)) && DayShown(FormatDay(h)) == h / 24
  {
    ParseUndoesFormatDay(h);
    ParsesDaysExactly(FormatDay(h));
  }

  /** A day, a dash, and an hour below 24 in one digit or two. */
  predicate ShowsHour(s: string) {
    && (|s| == 12 || |s| == 13) && ShowsDay(s[..10]) && s[10] == '-'
    && Numeral(s[11]) && (|s| == 13 ==> Numeral(s[12]) && Number(s, 11) < 24)
  }

  function HourShown(s: string): int
    requires |s| == 12 || |s| == 13
  {
    if |s| == 13 then Number(s, 11) else s[11] as int - 48
  }

  /** Exactly these texts parse as hours. */
  lemma ParsesHoursExactly(s: string)
    ensures ParseHour(s).Ok? <==> ShowsHour(s)
    ensures ParseHour(s).Ok? ==> ParseHour(s).value == 24 * DayShown(s[..10]) + HourShown(s)
  {
    if |s| >= 12 {
      ParsesDaysExactly(s[..10]);
    }
  }

  /** A printed hour is the printed day, a dash and the hour of the day in two digits. */
  lemma PrintedHourIsShown(h: int)
    requires InRange(h)
    ensures var s := FormatHour(h);
            && |s| == 13 && ShowsHour(s) && s[..10] == FormatDay(h)
            && DayShown(s[..10]) == h / 24 && HourShown(s) == h % 24
  {
    ParseUndoesFormatHour(h);
    PrintedDayIsShown(h);
    HourSuffix(FormatDay(h), Pad2(h % 24));
    ParsesHoursExactly(FormatHour(h));
  }

  // --------------------------------------------------------------------- ExpDate

  /** The ID printed for an instant shows the day and the hour that hold it. */
  lemma InstantIsShown(t: int)
    requires t >= 0 && InRange(t / HOUR)
    ensures var e := NewExpDateFromTime(t);
            Regular(e) &&
            var s := DateId(e);
            && |s| == 13 && ShowsHour(s)
            && t / HOUR == 24 * DayShown(s[..10]) + HourShown(s)
  {
    DateFromTimeRoundTrip(t);
    assert NewExpDateFromTime(t).date / HOUR == t / HOUR;
    PrintedHourIsShown(t / HOUR);
  }

  /** Exactly the texts that show a day or an hour parse, and give the start of it. */
  lemma ParsesExactly(s: string)
    ensures NewExpDate(s).Ok? <==> (|s| == 10 && ShowsDay(s)) || ShowsHour(s)
    ensures NewExpDate(s).Ok? ==>
              var e := NewExpDate(s).value;
              && e.hourResolution == (|s| > 10)
              && e.date == if |s| == 10 then 24 * DayShown(s) * HOUR
                           else if ShowsHour(s) then (24 * DayShown(s[..10]) + HourShown(s)) * HOUR else 0
  {
    ParsesDaysExactly(s);
    ParsesHoursExactly(s);
  }

  /** The days that months have, as everyone knows them. */
  function LastDay(long: bool, m: int): int
    requires 1 <= m <= 12
  {
    if m == 2 && long then 29 else [31, 28, 31, 30, 31, 30, 31, 31, 30, 31, 30, 31][m - 1]
  }

  lemma MonthsHaveTheirDays(long: bool, m: int)
    requires 1 <= m <= 12
    ensures MonthStartIn(long, m + 1) - MonthStartIn(long, m) == LastDay(long, m)
  {
  }

  /** So a text of the right shape is a day exactly if its month has that day. */
  lemma DaysOfMonths(s: string)
    requires |s| == 10 && DateShape(s)
    ensures var m, d := Number(s, 5), Number(s, 8);
            ParseDay(s).Ok? <==>
              1 <= m <= 12 && 1 <= d <= LastDay(LongYear(Number(s, 0) * 100 + Number(s, 2)), m)
  {
    ParsesDaysExactly(s);
    if 1 <= Number(s, 5) <= 12 {
      MonthsHaveTheirDays(LongYear(Number(s, 0) * 100 + Number(s, 2)), Number(s, 5));
    }
  }
}
