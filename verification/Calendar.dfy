/** UTC time as storage/types.go uses it: the proleptic Gregorian calendar, and Go's
    formatting and parsing of the two layouts "2006-01-02" and "2006-01-02-15". Both
    layouts see whole hours only, counted here from the start of year 0.
 */
module Calendar {
  import opened Options

  // ------------------------------------------------------------------ calendar

  predicate IsLeap(y: int) {
    y % 4 == 0 && (y % 100 != 0 || y % 400 == 0)
  }

  function YearLength(y: int): int {
    if IsLeap(y) then 366 else 365
  }

  function MonthLength(y: int, m: int): int {
    if m == 2 then (if IsLeap(y) then 29 else 28)
    else if m == 4 || m == 6 || m == 9 || m == 11 then 30
    else 31
  }

  datatype Date = Date(year: int, month: int, day: int)

  predicate ValidDate(d: Date) {
    d.year >= 0 && 1 <= d.month <= 12 && 1 <= d.day <= MonthLength(d.year, d.month)
  }

  /** Days from the start of year 0 to the start of year y. */
  function DaysBeforeYear(y: nat): (n: nat)
    ensures n >= y
  {
    if y == 0 then 0 else DaysBeforeYear(y - 1) + YearLength(y - 1)
  }

  /** Days from the start of year y to the start of month m. */
  function DaysBeforeMonth(y: int, m: int): (n: nat)
    requires 1 <= m
    ensures m == 1 ==> n == 0
    decreases m
  {
    if m == 1 then 0 else DaysBeforeMonth(y, m - 1) + MonthLength(y, m - 1)
  }

  function DayNumber(d: Date): nat
    requires ValidDate(d)
  {
    DaysBeforeYear(d.year) + DaysBeforeMonth(d.year, d.month) + d.day - 1
  }

  /** The year that holds day n, searching from year y. */
  function YearOf(n: nat, y: nat): (r: nat)
    requires DaysBeforeYear(y) <= n
    ensures DaysBeforeYear(r) <= n < DaysBeforeYear(r + 1)
    decreases n - DaysBeforeYear(y)
  {
    if n < DaysBeforeYear(y + 1) then y else YearOf(n, y + 1)
  }

  /** The month of year y that holds its day n, searching from month m. */
  function MonthOf(n: nat, y: int, m: int): (r: int)
    requires 1 <= m <= 12 && DaysBeforeMonth(y, m) <= n < DaysBeforeMonth(y, 13)
    ensures 1 <= r <= 12 && DaysBeforeMonth(y, r) <= n < DaysBeforeMonth(y, r + 1)
    decreases 12 - m
  {
    if n < DaysBeforeMonth(y, m + 1) then m else MonthOf(n, y, m + 1)
  }

  lemma MonthsFillYear(y: int)
    ensures DaysBeforeMonth(y, 13) == YearLength(y)
  {
    assert DaysBeforeMonth(y, 4) == 31 + MonthLength(y, 2) + 31;
    assert DaysBeforeMonth(y, 7) == DaysBeforeMonth(y, 4) + 91;
    assert DaysBeforeMonth(y, 10) == DaysBeforeMonth(y, 7) + 92;
    assert DaysBeforeMonth(y, 13) == DaysBeforeMonth(y, 10) + 92;
  }

  /** The date of day n. */
  function DateOf(n: nat): (d: Date)
    ensures ValidDate(d) && DayNumber(d) == n
  {
    var y := YearOf(n, 0);
    MonthsFillYear(y);
    var m := MonthOf(n - DaysBeforeYear(y), y, 1);
    Date(y, m, n - DaysBeforeYear(y) - DaysBeforeMonth(y, m) + 1)
  }

  lemma {:induction false} YearsAscend(a: nat, b: nat)
    requires a <= b
    ensures DaysBeforeYear(a) + (b - a) <= DaysBeforeYear(b)
    decreases b
  {
    if a == b {
    } else {
      YearsAscend(a, b - 1);
    }
  }

  lemma {:induction false} MonthsAscend(y: int, a: int, b: int)
    requires 1 <= a <= b
    ensures DaysBeforeMonth(y, a) + (b - a) <= DaysBeforeMonth(y, b)
    decreases b
  {
    if a == b {
    } else {
      MonthsAscend(y, a, b - 1);
    }
  }

  lemma DateFitsYear(d: Date)
    requires ValidDate(d)
    ensures DaysBeforeYear(d.year) <= DayNumber(d) < DaysBeforeYear(d.year + 1)
  {
    MonthsFillYear(d.year);
    MonthsAscend(d.year, d.month + 1, 13);
  }

  lemma OneYear(n: nat, a: nat, b: nat)
    requires DaysBeforeYear(a) <= n < DaysBeforeYear(a + 1)
    requires DaysBeforeYear(b) <= n < DaysBeforeYear(b + 1)
    ensures a == b
  {
    if a < b { YearsAscend(a + 1, b); }
    if b < a { YearsAscend(b + 1, a); }
  }

  lemma OneMonth(n: int, y: int, a: int, b: int)
    requires 1 <= a && 1 <= b
    requires DaysBeforeMonth(y, a) <= n < DaysBeforeMonth(y, a + 1)
    requires DaysBeforeMonth(y, b) <= n < DaysBeforeMonth(y, b + 1)
    ensures a == b
  {
    if a < b { MonthsAscend(y, a + 1, b); }
    if b < a { MonthsAscend(y, b + 1, a); }
  }

  /** A day has one date: numbering and dating undo each other. */
  lemma DateOfDayNumber(d: Date)
    requires ValidDate(d)
    ensures DateOf(DayNumber(d)) == d
  {
    var e := DateOf(DayNumber(d));
    DateFitsYear(d);
    DateFitsYear(e);
    OneYear(DayNumber(d), d.year, e.year);
    OneMonth(DayNumber(d) - DaysBeforeYear(d.year), d.year, d.month, e.month);
  }

  // ------------------------------------------------------------------- layouts

  function Digit(n: int): char
    requires 0 <= n < 10
  {
    '0' + n as char
  }

  function Pad2(n: int): string
    requires 0 <= n < 100
  {
    [Digit(n / 10), Digit(n % 10)]
  }

  function Pad4(n: int): string
    requires 0 <= n < 10000
  {
    Pad2(n / 100) + Pad2(n % 100)
  }

  predicate IsDigit(c: char) {
    '0' <= c <= '9'
  }

  function DigitValue(c: char): int {
    c as int - '0' as int
  }

  /** Hours whose year has four digits. */
  predicate InRange(h: int) {
    h >= 0 && h / 24 < DaysBeforeYear(10000)
  }

  lemma RangeGivesYear(n: nat)
    requires n < DaysBeforeYear(10000)
    ensures DateOf(n).year < 10000
  {
    var d := DateOf(n);
    DateFitsYear(d);
    if d.year >= 10000 {
      YearsAscend(10000, d.year);
    }
  }

  function PrintDate(d: Date): string
    requires ValidDate(d) && d.year < 10000
  {
    Pad4(d.year) + "-" + Pad2(d.month) + "-" + Pad2(d.day)
  }

  /** `Format("2006-01-02")` */
  function FormatDay(h: int): string
    requires InRange(h)
  {
    RangeGivesYear(h / 24);
    PrintDate(DateOf(h / 24))
  }

  /** `Format("2006-01-02-15")` */
  function FormatHour(h: int): string
    requires InRange(h)
  {
    FormatDay(h) + "-" + Pad2(h % 24)
  }

  predicate TenShape(s: string) {
    |s| == 10 && s[4] == '-' && s[7] == '-' && forall i | 0 <= i < 10 && i != 4 && i != 7 :: IsDigit(s[i])
  }

  /** Four digits, a dash, two digits, a dash, two digits, naming a day that exists;
      the result is its first hour. */
  function ParseDate(s: string): Result<Date> {
    if !TenShape(s) then Err
    else
      var d := Date(Two(s, 0) * 100 + Two(s, 2), Two(s, 5), Two(s, 8));
      if ValidDate(d) then Ok(d) else Err
  }

  /** Two decimal digits. */
  function Two(s: string, i: nat): (n: int)
    requires i + 1 < |s| && IsDigit(s[i]) && IsDigit(s[i + 1])
    ensures 0 <= n < 100
  {
    DigitValue(s[i]) * 10 + DigitValue(s[i + 1])
  }

  /** `time.Parse("2006-01-02", s)` */
  function ParseDay(s: string): Result<int> {
    match ParseDate(s)
    case Err => Err
    case Ok(d) => Ok(DayNumber(d) * 24)
  }

  /** `time.Parse("2006-01-02-15", s)`, which takes an hour of one digit too. */
  function ParseHour(s: string): Result<int> {
    if |s| < 12 || s[10] != '-' || !IsDigit(s[11]) then Err
    else
      var twoDigits := |s| > 12 && IsDigit(s[12]);
      var hour := if twoDigits then Two(s, 11) else DigitValue(s[11]);
      if |s| != (if twoDigits then 13 else 12) || hour >= 24 then Err
      else match ParseDay(s[..10])
        case Err => Err
        case Ok(day) => Ok(day + hour)
  }

  lemma PadTwo(n: int)
    requires 0 <= n < 100
    ensures IsDigit(Pad2(n)[0]) && IsDigit(Pad2(n)[1]) && Two(Pad2(n), 0) == n
  {
  }

  lemma TwoIsLocal(s: string, i: nat, p: string)
    requires i + 1 < |s| && |p| == 2 && s[i] == p[0] && s[i + 1] == p[1] && IsDigit(p[0]) && IsDigit(p[1])
    ensures Two(s, i) == Two(p, 0)
  {
  }

  lemma TenCharacters(c: string, y: string, m: string, e: string)
    requires |c| == |y| == |m| == |e| == 2
    ensures c + y + "-" + m + "-" + e == [c[0], c[1], y[0], y[1], '-', m[0], m[1], '-', e[0], e[1]]
  {
  }

  lemma ParseUndoesPrintDate(d: Date)
    requires ValidDate(d) && d.year < 10000
    ensures |PrintDate(d)| == 10 && ParseDate(PrintDate(d)) == Ok(d)
  {
    var s := PrintDate(d);
    var c, y, m, e := Pad2(d.year / 100), Pad2(d.year % 100), Pad2(d.month), Pad2(d.day);
    PadTwo(d.year / 100);
    PadTwo(d.year % 100);
    PadTwo(d.month);
    PadTwo(d.day);
    TenCharacters(c, y, m, e);
    TwoIsLocal(s, 0, c);
    TwoIsLocal(s, 2, y);
    TwoIsLocal(s, 5, m);
    TwoIsLocal(s, 8, e);
  }

  /** Printing to the day and parsing back gives the first hour of the day. */
  lemma ParseUndoesFormatDay(h: int)
    requires InRange(h)
    ensures |FormatDay(h)| == 10 && ParseDay(FormatDay(h)) == Ok(h / 24 * 24)
  {
    RangeGivesYear(h / 24);
    ParseUndoesPrintDate(DateOf(h / 24));
  }

  lemma HourSuffix(ten: string, p: string)
    requires |ten| == 10 && |p| == 2
    ensures |ten + "-" + p| == 13 && (ten + "-" + p)[..10] == ten
    ensures (ten + "-" + p)[10] == '-' && (ten + "-" + p)[11] == p[0] && (ten + "-" + p)[12] == p[1]
  {
  }

  lemma ParseUndoesSuffix(ten: string, hour: int)
    requires |ten| == 10 && ParseDay(ten).Ok? && 0 <= hour < 24
    ensures ParseHour(ten + "-" + Pad2(hour)) == Ok(ParseDay(ten).value + hour)
  {
    var s := ten + "-" + Pad2(hour);
    HourSuffix(ten, Pad2(hour));
    PadTwo(hour);
    TwoIsLocal(s, 11, Pad2(hour));
  }

  /** Printing to the hour and parsing back gives the hour. */
  lemma ParseUndoesFormatHour(h: int)
    requires InRange(h)
    ensures |FormatHour(h)| == 13 && ParseHour(FormatHour(h)) == Ok(h)
  {
    ParseUndoesFormatDay(h);
    SuffixUndone(FormatHour(h), FormatDay(h), h);
  }

  lemma SuffixUndone(s: string, ten: string, h: nat)
    requires |ten| == 10 && ParseDay(ten) == Ok(h / 24 * 24) && s == ten + "-" + Pad2(h % 24)
    ensures |s| == 13 && ParseHour(s) == Ok(h)
  {
    HourSuffix(ten, Pad2(h % 24));
    ParseUndoesSuffix(ten, h % 24);
  }

  /** What parses lies in range, and a day at its first hour. */
  lemma ParsedDayIsInRange(s: string)
    requires ParseDay(s).Ok?
    ensures InRange(ParseDay(s).value) && ParseDay(s).value % 24 == 0
  {
    var d := ParseDate(s).value;
    ParsedDateIsValid(s);
    DateFitsYear(d);
    YearsAscend(d.year + 1, 10000);
    WholeDays(DayNumber(d));
  }

  lemma ParsedDateIsValid(s: string)
    requires ParseDate(s).Ok?
    ensures ValidDate(ParseDate(s).value) && ParseDate(s).value.year < 10000
  {
  }

  lemma WholeDays(n: nat)
    ensures n * 24 / 24 == n && n * 24 % 24 == 0
  {
  }

  lemma ParsedHourIsInRange(s: string)
    requires ParseHour(s).Ok?
    ensures InRange(ParseHour(s).value)
  {
    ParsedDayIsInRange(s[..10]);
  }

  predicate DateChar(c: char) {
    IsDigit(c) || c == '-'
  }

  /** Printed dates are made of digits and dashes. */
  lemma PrintedDateForm(h: int)
    requires InRange(h)
    ensures forall c <- FormatDay(h) :: DateChar(c)
    ensures forall c <- FormatHour(h) :: DateChar(c)
  {
    ParseUndoesFormatDay(h);
    var s := FormatDay(h);
    forall i | 0 <= i < |s| ensures DateChar(s[i]) {
      assert TenShape(s);
    }
    PadTwo(h % 24);
    HourSuffix(s, Pad2(h % 24));
  }
}
