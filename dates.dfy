/**
 * Calendar dates as `java.time.LocalDate` holds them: a proleptic Gregorian
 * year, month and day with no time component. Only years 0 to 9999 are in the
 * model; for them `toString()` and `LocalDate.parse` use the ten-character
 * form yyyy-MM-dd, the `full-date` of section 5.6 of RFC 3339.
 */
module Dates {
  import opened Wrappers

  datatype YearMonthDay = YearMonthDay(year: int, month: int, day: int)

  predicate IsLeapYear(year: int) {
    year % 4 == 0 && (year % 100 != 0 || year % 400 == 0)
  }

  function DaysInMonth(year: int, month: int): (n: int)
    requires 1 <= month <= 12
    ensures 28 <= n <= 31
    ensures n == 29 <==> month == 2 && IsLeapYear(year)
  {
    if month == 2 then (if IsLeapYear(year) then 29 else 28)
    else if month == 4 || month == 6 || month == 9 || month == 11 then 30
    else 31
  }

  predicate IsValidDate(d: YearMonthDay) {
    && 0 <= d.year <= 9999
    && 1 <= d.month <= 12
    && 1 <= d.day <= DaysInMonth(d.year, d.month)
  }

  /** A date that exists in the calendar, with a four-digit year. */
  type LocalDate = d: YearMonthDay | IsValidDate(d) witness YearMonthDay(1970, 1, 1)

  /** 1970-01-01, `LocalDate.EPOCH`. */
  const Epoch: LocalDate := YearMonthDay(1970, 1, 1)

  /** The date as the number yyyyMMdd (the `BASIC_ISO_DATE` digits). */
  function BasicIsoNumber(d: LocalDate): int {
    10000 * d.year + 100 * d.month + d.day
  }

  /** `a.isBefore(b)`: `a` is strictly earlier than `b`, so its yyyyMMdd number is smaller. */
  function IsBefore(a: LocalDate, b: LocalDate): (before: bool)
    ensures before <==> BasicIsoNumber(a) < BasicIsoNumber(b)
  {
    || a.year < b.year
    || (a.year == b.year && a.month < b.month)
    || (a.year == b.year && a.month == b.month && a.day < b.day)
  }

  /** `isBefore` is a strict total order: no date is before itself, and of two distinct dates exactly one is before the other. */
  lemma IsBeforeStrictTotal(a: LocalDate, b: LocalDate, c: LocalDate)
    ensures !IsBefore(a, a)
    ensures a != b ==> (IsBefore(a, b) <==> !IsBefore(b, a))
    ensures IsBefore(a, b) && IsBefore(b, c) ==> IsBefore(a, c)
  {
  }

  predicate IsDigit(c: char) {
    '0' <= c <= '9'
  }

  function DigitChar(n: int): (c: char)
    requires 0 <= n <= 9
    ensures IsDigit(c)
  {
    ('0' as int + n) as char
  }

  function DigitValue(c: char): (n: int)
    requires IsDigit(c)
    ensures 0 <= n <= 9
  {
    c as int - '0' as int
  }

  /** Zero-padded two-digit decimal form. */
  function Pad2(n: int): string
    requires 0 <= n <= 99
  {
    [DigitChar(n / 10), DigitChar(n % 10)]
  }

  /** Zero-padded four-digit decimal form. */
  function Pad4(n: int): string
    requires 0 <= n <= 9999
  {
    [DigitChar(n / 1000), DigitChar(n / 100 % 10), DigitChar(n / 10 % 10), DigitChar(n % 10)]
  }

  /** Four digits, a dash, two digits, a dash, two digits. */
  predicate IsDateShape(s: string) {
    && |s| == 10
    && s[4] == '-'
    && s[7] == '-'
    && forall i :: 0 <= i < 10 && i != 4 && i != 7 ==> IsDigit(s[i])
  }

  /** `LocalDate.toString()`. */
  function Format(d: LocalDate): (s: string)
    ensures IsDateShape(s)
  {
    Pad4(d.year) + "-" + Pad2(d.month) + "-" + Pad2(d.day)
  }

  function Number2(s: string, i: nat): int
    requires i + 2 <= |s| && IsDigit(s[i]) && IsDigit(s[i + 1])
  {
    10 * DigitValue(s[i]) + DigitValue(s[i + 1])
  }

  function Number4(s: string): int
    requires 4 <= |s| && IsDigit(s[0]) && IsDigit(s[1]) && IsDigit(s[2]) && IsDigit(s[3])
  {
    1000 * DigitValue(s[0]) + 100 * DigitValue(s[1]) + 10 * DigitValue(s[2]) + DigitValue(s[3])
  }

  /**
   * `LocalDate.parse(text)` as a partial decoder: the strict ISO local-date
   * form, rejecting any other text and any month or day that does not exist.
   */
  function Parse(text: string): (r: Option<LocalDate>)
    ensures r.Some? ==> IsDateShape(text)
  {
    if !IsDateShape(text) then None
    else
      var year, month, day := Number4(text), Number2(text, 5), Number2(text, 8);
      if 1 <= month <= 12 && 1 <= day <= DaysInMonth(year, month)
      then Some(YearMonthDay(year, month, day))
      else None
  }

  /** The digits of a number below 10000, each recovered by division. */
  lemma FourDigits(a: int, b: int, c: int, e: int)
    requires 0 <= a <= 9 && 0 <= b <= 9 && 0 <= c <= 9 && 0 <= e <= 9
    ensures var n := 1000 * a + 100 * b + 10 * c + e;
      n / 1000 == a && n / 100 % 10 == b && n / 10 % 10 == c && n % 10 == e
  {
    var n := 1000 * a + 100 * b + 10 * c + e;
    assert n / 10 == 100 * a + 10 * b + c;
    assert n / 100 == 10 * a + b;
  }

  lemma SplitFour(n: int)
    requires 0 <= n <= 9999
    ensures 1000 * (n / 1000) + 100 * (n / 100 % 10) + 10 * (n / 10 % 10) + n % 10 == n
  {
    assert n / 100 == 10 * (n / 1000) + n / 100 % 10;
    assert n / 10 == 10 * (n / 100) + n / 10 % 10;
  }

  /** Every rendered date parses back to itself. */
  lemma ParseFormat(d: LocalDate)
    ensures Parse(Format(d)) == Some(d)
  {
    var s := Format(d);
    SplitFour(d.year);
    assert Number4(s) == d.year;
    assert Number2(s, 5) == d.month;
    assert Number2(s, 8) == d.day;
  }

  /** Parsing accepts only the canonical rendering of the date it returns. */
  lemma FormatParse(text: string)
    requires Parse(text).Some?
    ensures Format(Parse(text).value) == text
  {
    var d := Parse(text).value;
    FourDigits(DigitValue(text[0]), DigitValue(text[1]), DigitValue(text[2]), DigitValue(text[3]));
    var s := Format(d);
    assert forall i | 0 <= i < 10 :: s[i] == text[i];
  }

  /** A string that is not ten characters long never denotes a date. */
  lemma ParseRejectsLength(text: string)
    requires |text| != 10
    ensures Parse(text) == None
  {
  }
}
