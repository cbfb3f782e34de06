/**
 * Proleptic Gregorian calendar dates with day granularity, as the client
 * gets them from `datetime.strptime(s, "%Y-%m-%d")`: the day arithmetic of
 * `get_previous_day_from_datetime` and the rendering of a day in the
 * extended complete calendar-date form of ISO 8601 (section 4.1.2.2 of
 * ISO 8601:2004), `YYYY-MM-DD`.
 */
module Calendar {
  import opened Wrappers

  /** The range of years a calendar date may carry. */
  const MinYear: int := 1
  const MaxYear: int := 9999

  datatype Date = Date(year: int, month: int, day: int)

  /** The earliest representable day; the day before it cannot be formed. */
  const FirstDate: Date := Date(MinYear, 1, 1)

  predicate IsLeapYear(y: int) {
    y % 4 == 0 && (y % 100 != 0 || y % 400 == 0)
  }

  function DaysInMonth(y: int, m: int): (n: int)
    requires 1 <= m <= 12
    ensures 28 <= n <= 31
    ensures m == 2 ==> (n == 29 <==> IsLeapYear(y))
  {
    if m == 2 then (if IsLeapYear(y) then 29 else 28)
    else if m == 4 || m == 6 || m == 9 || m == 11 then 30
    else 31
  }

  function DaysInYear(y: int): int {
    if IsLeapYear(y) then 366 else 365
  }

  predicate ValidDate(d: Date) {
    MinYear <= d.year <= MaxYear &&
    1 <= d.month <= 12 &&
    1 <= d.day <= DaysInMonth(d.year, d.month)
  }

  /** Calendar order: by year, then month, then day. */
  predicate Before(a: Date, b: Date) {
    a.year < b.year ||
    (a.year == b.year && a.month < b.month) ||
    (a.year == b.year && a.month == b.month && a.day < b.day)
  }

  /** Number of days in the years 1 .. y-1. */
  function DaysBeforeYear(y: int): int
    requires y >= MinYear
  {
    var p := y - 1;
    p * 365 + p / 4 - p / 100 + p / 400
  }

  /** Number of days in the months 1 .. m-1 of year y. */
  function DaysBeforeMonth(y: int, m: int): int
    requires 1 <= m <= 12
  {
    var common := [0, 31, 59, 90, 120, 151, 181, 212, 243, 273, 304, 334][m - 1];
    if m > 2 && IsLeapYear(y) then common + 1 else common
  }

  /** The proleptic Gregorian ordinal of a day: 0001-01-01 is day 1. */
  function DayNumber(d: Date): int
    requires ValidDate(d)
  {
    DaysBeforeYear(d.year) + DaysBeforeMonth(d.year, d.month) + d.day
  }

  /** The calendar day immediately before `d`; None for the first representable day. */
  function PreviousDay(d: Date): (r: Option<Date>)
    requires ValidDate(d)
    ensures r.None? <==> d == FirstDate
    ensures r.Some? ==> ValidDate(r.value)
  {
    if d.day > 1 then Some(Date(d.year, d.month, d.day - 1))
    else if d.month > 1 then Some(Date(d.year, d.month - 1, DaysInMonth(d.year, d.month - 1)))
    else if d.year > MinYear then Some(Date(d.year - 1, 12, 31))
    else None
  }

  // ---------------------------------------------------------------------
  // Day numbers

  /** Going from y - 1 to y, a quotient grows by one exactly when the divisor divides y. */
  lemma QuotientStep(y: int)
    requires y >= 1
    ensures y / 4 == (y - 1) / 4 + (if y % 4 == 0 then 1 else 0)
    ensures y / 100 == (y - 1) / 100 + (if y % 100 == 0 then 1 else 0)
    ensures y / 400 == (y - 1) / 400 + (if y % 400 == 0 then 1 else 0)
  {
    assert y / 4 == (y - 1) / 4 + (if y % 4 == 0 then 1 else 0);
    assert y / 100 == (y - 1) / 100 + (if y % 100 == 0 then 1 else 0);
  }

  /** The days before the next year are those before this one plus this year's. */
  lemma DaysBeforeYearStep(y: int)
    requires y >= MinYear
    ensures DaysBeforeYear(y + 1) == DaysBeforeYear(y) + DaysInYear(y)
  {
    QuotientStep(y);
  }

  lemma {:induction false} DaysBeforeYearMonotone(x: int, y: int)
    requires MinYear <= x <= y
    ensures DaysBeforeYear(x) + 365 * (y - x) <= DaysBeforeYear(y)
    decreases y - x
  {
    if x < y {
      DaysBeforeYearMonotone(x, y - 1);
      DaysBeforeYearStep(y - 1);
    }
  }

  /** The days of a month follow the days before it without a gap. */
  lemma DaysBeforeMonthStep(y: int, m: int)
    requires 1 <= m <= 12
    ensures m < 12 ==> DaysBeforeMonth(y, m + 1) == DaysBeforeMonth(y, m) + DaysInMonth(y, m)
    ensures m == 12 ==> DaysBeforeMonth(y, m) + DaysInMonth(y, m) == DaysInYear(y)
  {
  }

  lemma DaysBeforeMonthMonotone(y: int, m: int, n: int)
    requires 1 <= m < n <= 12
    ensures DaysBeforeMonth(y, m) + DaysInMonth(y, m) <= DaysBeforeMonth(y, n)
  {
  }

  /** A valid day lies strictly after the days before its year and within its year. */
  lemma DayNumberWithinYear(d: Date)
    requires ValidDate(d)
    ensures DaysBeforeYear(d.year) < DayNumber(d) <= DaysBeforeYear(d.year + 1)
  {
    DaysBeforeYearStep(d.year);
    if d.month < 12 {
      DaysBeforeMonthMonotone(d.year, d.month, 12);
    }
    DaysBeforeMonthStep(d.year, 12);
  }

  /** Calendar order and day-number order agree. */
  lemma DayNumberMonotone(a: Date, b: Date)
    requires ValidDate(a) && ValidDate(b)
    requires Before(a, b)
    ensures DayNumber(a) < DayNumber(b)
  {
    if a.year < b.year {
      DayNumberWithinYear(a);
      DayNumberWithinYear(b);
      DaysBeforeYearMonotone(a.year + 1, b.year);
    } else if a.month < b.month {
      DaysBeforeMonthMonotone(a.year, a.month, b.month);
    }
  }

  /** Valid days are equal exactly when their day numbers are. */
  lemma DayNumberInjective(a: Date, b: Date)
    requires ValidDate(a) && ValidDate(b)
    ensures DayNumber(a) == DayNumber(b) <==> a == b
  {
    if Before(a, b) {
      DayNumberMonotone(a, b);
    } else if Before(b, a) {
      DayNumberMonotone(b, a);
    }
  }

  /** `Before` is exactly "has a smaller day number", in both directions. */
  lemma BeforeIffSmallerDayNumber(a: Date, b: Date)
    requires ValidDate(a) && ValidDate(b)
    ensures Before(a, b) <==> DayNumber(a) < DayNumber(b)
  {
    if Before(a, b) {
      DayNumberMonotone(a, b);
    } else if Before(b, a) {
      DayNumberMonotone(b, a);
    } else {
      assert a == b;
    }
  }

  lemma FirstDateNumber()
    ensures ValidDate(FirstDate) && DayNumber(FirstDate) == 1
  {
  }

  lemma DayNumberPositive(d: Date)
    requires ValidDate(d)
    ensures DayNumber(d) >= 1
  {
    DayNumberWithinYear(d);
    DaysBeforeYearMonotone(MinYear, d.year);
  }

  /** A day with a larger day number than some valid day is not the first day. */
  lemma LaterIsNotFirst(d: Date, e: Date)
    requires ValidDate(d) && ValidDate(e)
    requires DayNumber(e) < DayNumber(d)
    ensures d != FirstDate
  {
    DayNumberPositive(e);
    FirstDateNumber();
  }

  /**
   * The previous day is the calendar day immediately before `d`: it is valid,
   * strictly earlier, and its day number is exactly one less, across month,
   * year and 29 February boundaries alike.
   */
  lemma PreviousDayIsDayBefore(d: Date)
    requires ValidDate(d) && d != FirstDate
    ensures PreviousDay(d).Some?
    ensures Before(PreviousDay(d).value, d)
    ensures DayNumber(PreviousDay(d).value) == DayNumber(d) - 1
  {
    var p := PreviousDay(d).value;
    if d.day > 1 {
      assert p == Date(d.year, d.month, d.day - 1);
    } else if d.month > 1 {
      assert p == Date(d.year, d.month - 1, DaysInMonth(d.year, d.month - 1));
      DaysBeforeMonthStep(d.year, d.month - 1);
    } else {
      assert p == Date(d.year - 1, 12, 31);
      DaysBeforeYearStep(d.year - 1);
      DaysBeforeMonthStep(d.year - 1, 12);
      assert DayNumber(p) == DaysBeforeYear(d.year - 1) + DaysInYear(d.year - 1);
      assert DayNumber(d) == DaysBeforeYear(d.year) + 1;
    }
  }

  /** A valid day whose day number is one less than that of `d` is the day before `d`. */
  lemma PreviousDayByNumber(d: Date, e: Date)
    requires ValidDate(d) && ValidDate(e)
    requires DayNumber(e) == DayNumber(d) - 1
    ensures d != FirstDate && PreviousDay(d) == Some(e)
  {
    LaterIsNotFirst(d, e);
    PreviousDayIsDayBefore(d);
    DayNumberInjective(PreviousDay(d).value, e);
  }

  /** No valid day lies strictly between the previous day and `d`. */
  lemma PreviousDayIsAdjacent(d: Date, e: Date)
    requires ValidDate(d) && d != FirstDate && ValidDate(e)
    ensures !(Before(PreviousDay(d).value, e) && Before(e, d))
  {
    PreviousDayIsDayBefore(d);
    BeforeIffSmallerDayNumber(PreviousDay(d).value, e);
    BeforeIffSmallerDayNumber(e, d);
  }

  lemma PreviousDayExamples()
    ensures PreviousDay(Date(2020, 10, 20)) == Some(Date(2020, 10, 19))
    ensures PreviousDay(Date(2019, 12, 8)) == Some(Date(2019, 12, 7))
    ensures PreviousDay(Date(2020, 3, 1)) == Some(Date(2020, 2, 29))
    ensures PreviousDay(Date(1900, 3, 1)) == Some(Date(1900, 2, 28))
    ensures PreviousDay(Date(2000, 3, 1)) == Some(Date(2000, 2, 29))
    ensures PreviousDay(Date(2020, 1, 1)) == Some(Date(2019, 12, 31))
  {
  }

  // ---------------------------------------------------------------------
  // ISO 8601 calendar-date text, YYYY-MM-DD

  predicate IsDigit(c: char) {
    '0' <= c <= '9'
  }

  function DigitChar(n: int): (c: char)
    requires 0 <= n <= 9
    ensures IsDigit(c)
  {
    ('0' as int + n) as char
  }

  function DigitValue(c: char): (n: int)
    requires IsDigit(c)
    ensures 0 <= n <= 9
  {
    c as int - '0' as int
  }

  /** Two decimal digits, zero-padded. */
  function Pad2(n: int): string
    requires 0 <= n < 100
  {
    [DigitChar(n / 10), DigitChar(n % 10)]
  }

  /** Four decimal digits, zero-padded. */
  function Pad4(n: int): string
    requires 0 <= n < 10000
  {
    Pad2(n / 100) + Pad2(n % 100)
  }

  /** The value of a string of two decimal digits. */
  function Value2(s: string): int
    requires |s| == 2 && IsDigit(s[0]) && IsDigit(s[1])
  {
    10 * DigitValue(s[0]) + DigitValue(s[1])
  }

  /** The value of a string of four decimal digits. */
  function Value4(s: string): int
    requires |s| == 4 && forall i :: 0 <= i < 4 ==> IsDigit(s[i])
  {
    100 * Value2(s[..2]) + Value2(s[2..])
  }

  /** `d` in the form YYYY-MM-DD, as `datetime.date.isoformat` writes it. */
  function Iso(d: Date): (s: string)
    requires ValidDate(d)
    ensures |s| == 10 && s[4] == '-' && s[7] == '-'
  {
    Pad4(d.year) + "-" + Pad2(d.month) + "-" + Pad2(d.day)
  }

  /** Whether `s` has the shape DDDD-DD-DD (D a decimal digit). */
  predicate HasIsoShape(s: string) {
    |s| == 10 && s[4] == '-' && s[7] == '-' &&
    forall i :: 0 <= i < 10 && i != 4 && i != 7 ==> IsDigit(s[i])
  }

  /** Reads a YYYY-MM-DD string as a calendar date; None if the shape or the date is wrong. */
  function ParseDate(s: string): (r: Option<Date>)
    ensures r.Some? ==> ValidDate(r.value)
  {
    if !HasIsoShape(s) then None
    else
      var d := Date(Value4(s[..4]), Value2(s[5..7]), Value2(s[8..]));
      if ValidDate(d) then Some(d) else None
  }

  lemma Pad2Value(n: int)
    requires 0 <= n < 100
    ensures Value2(Pad2(n)) == n
  {
  }

  lemma Value2Pad(s: string)
    requires |s| == 2 && IsDigit(s[0]) && IsDigit(s[1])
    ensures Pad2(Value2(s)) == s
  {
    var a, b := DigitValue(s[0]), DigitValue(s[1]);
    assert (10 * a + b) / 10 == a;
    assert (10 * a + b) % 10 == b;
  }

  /** Rendering a valid day and reading it back gives the same day. */
  lemma ParseIso(d: Date)
    requires ValidDate(d)
    ensures ParseDate(Iso(d)) == Some(d)
  {
    var s := Iso(d);
    Pad2Value(d.year / 100);
    Pad2Value(d.year % 100);
    Pad2Value(d.month);
    Pad2Value(d.day);
    assert s[..4] == Pad4(d.year);
    assert s[..4][..2] == Pad2(d.year / 100);
    assert s[..4][2..] == Pad2(d.year % 100);
    assert s[5..7] == Pad2(d.month);
    assert s[8..] == Pad2(d.day);
  }

  /** A string that reads as a date is exactly that date's rendering. */
  lemma IsoOfParse(s: string)
    requires ParseDate(s).Some?
    ensures Iso(ParseDate(s).value) == s
  {
    var d := ParseDate(s).value;
    var y := s[..4];
    Value2Pad(y[..2]);
    Value2Pad(y[2..]);
    Value2Pad(s[5..7]);
    Value2Pad(s[8..]);
    var hi, lo := Value2(y[..2]), Value2(y[2..]);
    assert (100 * hi + lo) / 100 == hi;
    assert (100 * hi + lo) % 100 == lo;
    assert Pad4(d.year) == y;
  }

  lemma IsoExamples()
    ensures Iso(Date(2019, 12, 8)) == "2019-12-08"
    ensures Iso(Date(2019, 12, 7)) == "2019-12-07"
    ensures Iso(Date(33, 1, 9)) == "0033-01-09"
  {
  }
}
