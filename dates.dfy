/** Calendar dates as `datetime.strptime(s, '%Y-%m-%d')` produces them (midnight of
    a proleptic Gregorian day), their day ordinal as `date.toordinal` computes it,
    and the `'%Y-%m-%d'` text form. */
module Dates {
  import opened Results

  datatype Date = Date(year: int, month: int, day: int)

  const MicrosPerDay: int := 86_400_000_000

  predicate IsLeap(y: int) {
    y % 4 == 0 && (y % 100 != 0 || y % 400 == 0)
  }

  function DaysInMonth(y: int, m: int): int {
    if m == 2 then (if IsLeap(y) then 29 else 28)
    else if m == 4 || m == 6 || m == 9 || m == 11 then 30
    else 31
  }

  function DaysInYear(y: int): int {
    if IsLeap(y) then 366 else 365
  }

  /** The dates `datetime` can represent: years 1 to 9999 and real days of the month. */
  predicate ValidDate(d: Date) {
    1 <= d.year <= 9999 && 1 <= d.month <= 12 && 1 <= d.day <= DaysInMonth(d.year, d.month)
  }

  /** Days in the years before `y`, counted from year 1. */
  function DaysBeforeYear(y: int): int {
    var p := y - 1;
    p * 365 + p / 4 - p / 100 + p / 400
  }

  /** Days in the months of year `y` before month `m`. */
  function DaysBeforeMonth(y: int, m: int): int
    requires 1 <= m <= 12
  {
    [0, 31, 59, 90, 120, 151, 181, 212, 243, 273, 304, 334][m - 1]
      + (if m > 2 && IsLeap(y) then 1 else 0)
  }

  /** Day number of `d`, with 0001-01-01 as day 1. */
  function Ordinal(d: Date): int
    requires 1 <= d.month <= 12
  {
    DaysBeforeYear(d.year) + DaysBeforeMonth(d.year, d.month) + d.day
  }

  /** Chronological order of datetimes, which compares year, then month, then day. */
  predicate NotAfter(a: Date, b: Date) {
    a.year < b.year ||
    (a.year == b.year && (a.month < b.month || (a.month == b.month && a.day <= b.day)))
  }

  lemma DaysBeforeYearStep(y: int)
    ensures DaysBeforeYear(y + 1) == DaysBeforeYear(y) + DaysInYear(y)
  {
    var p := y - 1;
    assert y / 4 - p / 4 == (if y % 4 == 0 then 1 else 0);
    assert y / 100 - p / 100 == (if y % 100 == 0 then 1 else 0);
    assert y / 400 - p / 400 == (if y % 400 == 0 then 1 else 0);
  }

  /** The last day of a year is one day before the first day of the next. */
  lemma YearEnds(y: int)
    ensures Ordinal(Date(y, 12, 31)) + 1 == Ordinal(Date(y + 1, 1, 1))
  {
    DaysBeforeYearStep(y);
  }

  lemma {:induction false} DaysBeforeYearMonotone(y1: int, y2: int)
    requires y1 <= y2
    ensures DaysBeforeYear(y1) + DaysInYear(y1) <= DaysBeforeYear(y2) || y1 == y2
    decreases y2 - y1
  {
    if y1 < y2 {
      DaysBeforeYearStep(y1);
      if y1 + 1 < y2 {
        DaysBeforeYearMonotone(y1 + 1, y2);
        DaysBeforeYearStep(y1 + 1);
      }
    }
  }

  /** The ordinal of a valid date lies inside its year. */
  lemma OrdinalWithinYear(d: Date)
    requires ValidDate(d)
    ensures DaysBeforeYear(d.year) < Ordinal(d) <= DaysBeforeYear(d.year) + DaysInYear(d.year)
  {
  }

  /** The ordinal of a valid date lies inside its month. */
  lemma OrdinalWithinMonth(d: Date, m: int)
    requires ValidDate(d) && d.month < m <= 12
    ensures Ordinal(d) <= DaysBeforeYear(d.year) + DaysBeforeMonth(d.year, m)
  {
  }

  /** Ordinals order valid dates exactly as datetime comparison does. */
  lemma OrdinalOrder(a: Date, b: Date)
    requires ValidDate(a) && ValidDate(b)
    ensures NotAfter(a, b) <==> Ordinal(a) <= Ordinal(b)
    ensures a == b <==> Ordinal(a) == Ordinal(b)
  {
    OrdinalWithinYear(a);
    OrdinalWithinYear(b);
    if a.year < b.year {
      DaysBeforeYearMonotone(a.year, b.year);
    } else if b.year < a.year {
      DaysBeforeYearMonotone(b.year, a.year);
    } else if a.month < b.month {
      OrdinalWithinMonth(a, b.month);
    } else if b.month < a.month {
      OrdinalWithinMonth(b, a.month);
    }
  }

  // ---- The '%Y-%m-%d' text form ----

  predicate IsDigit(c: char) {
    '0' <= c <= '9'
  }

  function DigitValue(c: char): int {
    c as int - '0' as int
  }

  function DigitChar(v: int): char
    requires 0 <= v <= 9
  {
    ('0' as int + v) as char
  }

  /** The value of the two decimal digits starting at `s[i]`. */
  function Digits2(s: string, i: nat): int
    requires i + 2 <= |s|
  {
    10 * DigitValue(s[i]) + DigitValue(s[i + 1])
  }

  /** The value of the four decimal digits starting at `s[i]`. */
  function Digits4(s: string, i: nat): int
    requires i + 4 <= |s|
  {
    100 * Digits2(s, i) + Digits2(s, i + 2)
  }

  /** `v` written with two digits, zero-padded on the left. */
  function Pad2(v: int): string
    requires 0 <= v < 100
  {
    [DigitChar(v / 10), DigitChar(v % 10)]
  }

  /** `v` written with four digits, zero-padded on the left. */
  function Pad4(v: int): string
    requires 0 <= v < 10000
  {
    Pad2(v / 100) + Pad2(v % 100)
  }

  /** `datetime.strftime(d, '%Y-%m-%d')`. */
  function FormatDate(d: Date): (r: string)
    requires ValidDate(d)
    ensures |r| == 10
  {
    Pad4(d.year) + "-" + Pad2(d.month) + "-" + Pad2(d.day)
  }

  /** `datetime.strptime(s, '%Y-%m-%d')` restricted to zero-padded fields: a ValueError
      for any other text and for a date the calendar does not have. */
  function ParseDate(s: string): (r: Result<Date>)
    ensures r.Ok? ==> ValidDate(r.value)
    ensures r.Err? ==> r.error == DateFormatError(s)
  {
    if |s| == 10 && s[4] == '-' && s[7] == '-'
       && (forall i :: 0 <= i < 10 && i != 4 && i != 7 ==> IsDigit(s[i]))
    then
      var d := Date(Digits4(s, 0), Digits2(s, 5), Digits2(s, 8));
      if ValidDate(d) then Ok(d) else Err(DateFormatError(s))
    else Err(DateFormatError(s))
  }

  lemma Pad2Digits(v: int)
    requires 0 <= v < 100
    ensures IsDigit(Pad2(v)[0]) && IsDigit(Pad2(v)[1]) && Digits2(Pad2(v), 0) == v
  {
  }

  lemma Digits2Pad(s: string, i: nat)
    requires i + 2 <= |s| && IsDigit(s[i]) && IsDigit(s[i + 1])
    ensures 0 <= Digits2(s, i) < 100 && Pad2(Digits2(s, i)) == s[i..i + 2]
  {
  }

  /** Formatting a valid date and parsing the text back gives the date again. */
  lemma ParseFormat(d: Date)
    requires ValidDate(d)
    ensures ParseDate(FormatDate(d)) == Ok(d)
  {
    var s := FormatDate(d);
    var y := d.year;
    Pad2Digits(y / 100);
    Pad2Digits(y % 100);
    Pad2Digits(d.month);
    Pad2Digits(d.day);
    assert s[..2] == Pad2(y / 100) && s[2..4] == Pad2(y % 100);
    assert s[5..7] == Pad2(d.month) && s[8..] == Pad2(d.day);
    assert Digits2(s, 0) == y / 100 && Digits2(s, 2) == y % 100;
    assert Digits2(s, 5) == d.month && Digits2(s, 8) == d.day;
  }

  /** Text the parser accepts is exactly the formatted form of the date it denotes. */
  lemma FormatParse(s: string)
    requires ParseDate(s).Ok?
    ensures FormatDate(ParseDate(s).value) == s
  {
    var d := ParseDate(s).value;
    Digits2Pad(s, 0);
    Digits2Pad(s, 2);
    Digits2Pad(s, 5);
    Digits2Pad(s, 8);
    assert d.year / 100 == Digits2(s, 0) && d.year % 100 == Digits2(s, 2);
    assert s == s[0..2] + s[2..4] + "-" + s[5..7] + "-" + s[8..10];
  }
}
