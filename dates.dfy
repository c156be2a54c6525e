/**
 * The date check of an entry: `datetime.strptime(text, "%Y-%m-%d")` succeeds.
 *
 * strptime turns the format into a regular expression whose directives are
 *   %Y = four digits,
 *   %m = `1[0-2]` or `0[1-9]` or `[1-9]`,
 *   %d = `3[01]` or `[12]\d` or `0[1-9]` or `[1-9]` or a space and `[1-9]`,
 * each alternative tried in that order; the expression is matched from the start,
 * and text after the match is refused ("unconverted data remains"). The fields
 * found must then form a real date of the Gregorian calendar with a year of at least 1.
 */
module Dates {
  import opened Wrappers
  import opened Numbers

  datatype CalendarDate = CalendarDate(year: int, month: int, day: int)

  /** A directive matched at some index: the number it denotes and the index after it. */
  datatype Span = Span(value: nat, next: nat)

  predicate DigitAt(s: string, i: nat) {
    i < |s| && IsDigit(s[i])
  }

  predicate InRange(c: char, lo: char, hi: char) {
    lo <= c <= hi
  }

  /** %Y at the start of the text. */
  function MatchYear(s: string): (r: Option<Span>)
    ensures r.Some? ==> r.value.next == 4 <= |s| && r.value.value <= 9999
    ensures r.Some? <==> forall i :: 0 <= i < 4 ==> DigitAt(s, i)
  {
    if DigitAt(s, 0) && DigitAt(s, 1) && DigitAt(s, 2) && DigitAt(s, 3) then
      Some(Span(1000 * DigitValue(s[0]) + 100 * DigitValue(s[1]) + 10 * DigitValue(s[2]) + DigitValue(s[3]), 4))
    else None
  }

  /** %m at index i. */
  function MatchMonth(s: string, i: nat): (r: Option<Span>)
    ensures r.Some? ==> 1 <= r.value.value <= 12 && i < r.value.next <= i + 2 && r.value.next <= |s|
  {
    if i + 1 < |s| && s[i] == '1' && InRange(s[i + 1], '0', '2') then Some(Span(10 + DigitValue(s[i + 1]), i + 2))
    else if i + 1 < |s| && s[i] == '0' && InRange(s[i + 1], '1', '9') then Some(Span(DigitValue(s[i + 1]), i + 2))
    else if i < |s| && InRange(s[i], '1', '9') then Some(Span(DigitValue(s[i]), i + 1))
    else None
  }

  /** %d at index i. */
  function MatchDay(s: string, i: nat): (r: Option<Span>)
    ensures r.Some? ==> 1 <= r.value.value <= 31 && i < r.value.next <= i + 2 && r.value.next <= |s|
  {
    if i + 1 < |s| && s[i] == '3' && InRange(s[i + 1], '0', '1') then Some(Span(30 + DigitValue(s[i + 1]), i + 2))
    else if i + 1 < |s| && InRange(s[i], '1', '2') && IsDigit(s[i + 1]) then
      Some(Span(10 * DigitValue(s[i]) + DigitValue(s[i + 1]), i + 2))
    else if i + 1 < |s| && s[i] == '0' && InRange(s[i + 1], '1', '9') then Some(Span(DigitValue(s[i + 1]), i + 2))
    else if i < |s| && InRange(s[i], '1', '9') then Some(Span(DigitValue(s[i]), i + 1))
    else if i + 1 < |s| && s[i] == ' ' && InRange(s[i + 1], '1', '9') then Some(Span(DigitValue(s[i + 1]), i + 2))
    else None
  }

  /** The fields that `%Y-%m-%d` reads from the whole text, if it matches. */
  function ParseDate(s: string): (r: Option<CalendarDate>)
    ensures r.Some? ==> 8 <= |s| <= 10 && s[4] == '-'
    ensures r.Some? ==> 0 <= r.value.year <= 9999 && 1 <= r.value.month <= 12 && 1 <= r.value.day <= 31
  {
    match MatchYear(s)
    case None => None
    case Some(y) =>
      if !(4 < |s| && s[4] == '-') then None
      else match MatchMonth(s, 5)
        case None => None
        case Some(m) =>
          if !(m.next < |s| && s[m.next] == '-') then None
          else match MatchDay(s, m.next + 1)
            case None => None
            case Some(d) =>
              if d.next != |s| then None
              else Some(CalendarDate(y.value, m.value, d.value))
  }

  predicate IsLeapYear(y: int) {
    y % 4 == 0 && (y % 100 != 0 || y % 400 == 0)
  }

  function DaysInMonth(y: int, m: int): (n: int)
    requires 1 <= m <= 12
    ensures 28 <= n <= 31
  {
    if m == 2 then (if IsLeapYear(y) then 29 else 28)
    else if m == 4 || m == 6 || m == 9 || m == 11 then 30
    else 31
  }

  /** A day that exists in the proleptic Gregorian calendar of Python's `datetime`. */
  predicate IsCalendarDate(d: CalendarDate) {
    1 <= d.year && 1 <= d.month <= 12 && 1 <= d.day <= DaysInMonth(d.year, d.month)
  }

  /** `strptime(s, "%Y-%m-%d")` does not raise. */
  predicate ValidDate(s: string)
    ensures ValidDate(s) ==> 8 <= |s| <= 10 && s[4] == '-' && forall i :: 0 <= i < 4 ==> IsDigit(s[i])
  {
    ParseDate(s).Some? && IsCalendarDate(ParseDate(s).value)
  }

  function Pad2(n: nat): (s: string)
    requires n < 100
    ensures |s| == 2 && AllDigits(s)
  {
    [DigitChar(n / 10), DigitChar(n % 10)]
  }

  /** The canonical text `YYYY-MM-DD` of a date with a four-digit year. */
  function FormatDate(d: CalendarDate): (s: string)
    requires 0 <= d.year <= 9999 && 1 <= d.month <= 12 && 1 <= d.day <= 31
    ensures |s| == 10
  {
    Pad2(d.year / 100) + Pad2(d.year % 100) + "-" + Pad2(d.month) + "-" + Pad2(d.day)
  }

  /** Every real date written as `YYYY-MM-DD` passes the check and reads back as itself. */
  lemma ParseFormatDate(d: CalendarDate)
    requires IsCalendarDate(d) && d.year <= 9999
    ensures ParseDate(FormatDate(d)) == Some(d)
    ensures ValidDate(FormatDate(d))
  {
    var s := FormatDate(d);
    assert s[0] == DigitChar(d.year / 100 / 10) && s[1] == DigitChar(d.year / 100 % 10);
    assert s[2] == DigitChar(d.year % 100 / 10) && s[3] == DigitChar(d.year % 100 % 10);
    assert s[4] == '-' && s[7] == '-';
    assert s[5] == DigitChar(d.month / 10) && s[6] == DigitChar(d.month % 10);
    assert s[8] == DigitChar(d.day / 10) && s[9] == DigitChar(d.day % 10);
    assert MatchYear(s) == Some(Span(d.year, 4));
    assert MatchMonth(s, 5) == Some(Span(d.month, 7));
    assert MatchDay(s, 8) == Some(Span(d.day, 10));
  }

  /** Text of ten characters without a space that passes the check is the canonical text of its date. */
  lemma FormatParseDate(s: string)
    requires ParseDate(s).Some? && |s| == 10 && s[8] != ' '
    ensures FormatDate(ParseDate(s).value) == s
  {
    var d := ParseDate(s).value;
    TenCharacterFields(s);
    var hi := 10 * DigitValue(s[0]) + DigitValue(s[1]);
    var lo := 10 * DigitValue(s[2]) + DigitValue(s[3]);
    DivMod100(hi, lo);
    Pad2Digits(s[0], s[1]);
    Pad2Digits(s[2], s[3]);
    Pad2Digits(s[5], s[6]);
    Pad2Digits(s[8], s[9]);
    assert FormatDate(d) == [s[0], s[1]] + [s[2], s[3]] + "-" + [s[5], s[6]] + "-" + [s[8], s[9]];
    assert s == [s[0], s[1]] + [s[2], s[3]] + "-" + [s[5], s[6]] + "-" + [s[8], s[9]];
  }

  /** In text of ten characters the month and the day take two characters each. */
  lemma TenCharacterFields(s: string)
    requires ParseDate(s).Some? && |s| == 10 && s[8] != ' '
    ensures forall i :: 0 <= i < 10 && i != 4 && i != 7 ==> IsDigit(s[i])
    ensures s[4] == '-' && s[7] == '-'
    ensures ParseDate(s).value == CalendarDate(
      100 * (10 * DigitValue(s[0]) + DigitValue(s[1])) + 10 * DigitValue(s[2]) + DigitValue(s[3]),
      10 * DigitValue(s[5]) + DigitValue(s[6]),
      10 * DigitValue(s[8]) + DigitValue(s[9]))
  {
    var m := MatchMonth(s, 5).value;
    var d := MatchDay(s, m.next + 1).value;
    assert m.next == 7;
    assert d.next == 10;
  }

  lemma DivMod100(hi: nat, lo: nat)
    requires lo < 100
    ensures (100 * hi + lo) / 100 == hi && (100 * hi + lo) % 100 == lo
  {
  }

  /** Two digit characters are the two-digit text of the number they denote. */
  lemma Pad2Digits(a: char, b: char)
    requires IsDigit(a) && IsDigit(b)
    ensures Pad2(10 * DigitValue(a) + DigitValue(b)) == [a, b]
  {
    var n := 10 * DigitValue(a) + DigitValue(b);
    assert n / 10 == DigitValue(a) && n % 10 == DigitValue(b);
  }

  /** Forms strptime admits besides `YYYY-MM-DD`: one-digit months and days, and a day after a space. */
  lemma ShortFormsAccepted()
    ensures ValidDate("2024-5-1") && ValidDate("2024-05- 1")
  {
  }

  /** The calendar is checked after the text: February 29th exists only in leap years. */
  lemma LeapDayChecked()
    ensures ValidDate("2024-02-29") && !ValidDate("2023-02-29")
  {
  }

  /** There is no year 0. */
  lemma YearZeroRefused()
    ensures !ValidDate("0000-01-01")
  {
  }

  /** Out-of-range fields, trailing text and other orders are refused. */
  lemma MalformedRefused()
    ensures !ValidDate("2024-13-01") && !ValidDate("2024-01-32") && !ValidDate("2024-01-01 ") && !ValidDate("01-01-2024")
  {
  }
}
