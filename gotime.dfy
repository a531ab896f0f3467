/** The parts of Go's `time` package the decoders use: `time.Date` with a
    zero clock in UTC, `time.Parse` for the layouts "01", "01/02" and
    "2006/1/02", and `Format("01/02")`. */
module GoTime {
  import opened Wrappers
  import opened GoStrconv

  /** The arguments of a `time.Date(year, month, day, 0, 0, 0, 0, time.UTC)`
      call. Go normalises out-of-range months and days; the model keeps the
      arguments as they are. */
  datatype Date = Date(year: int, month: int, day: int)

  /** `time.Time{}`, the zero time: January 1 of year 1. */
  const ZeroTime := Date(1, 1, 1)

  /** Go's `isLeap` on the proleptic Gregorian calendar. */
  predicate IsLeap(year: int) {
    year % 4 == 0 && (year % 100 != 0 || year % 400 == 0)
  }

  /** Go's `daysIn(month, year)`. */
  function DaysIn(month: int, year: int): (n: int)
    requires 1 <= month <= 12
    ensures 28 <= n <= 31
  {
    if month == 2 then (if IsLeap(year) then 29 else 28)
    else if month == 4 || month == 6 || month == 9 || month == 11 then 30
    else 31
  }

  /** A day that exists in the calendar. */
  predicate IsCalendarDate(d: Date) {
    1 <= d.month <= 12 && 1 <= d.day <= DaysIn(d.month, d.year)
  }

  /** `time.Parse("01", s)`: exactly two digits naming a month. */
  function ParseMonth(s: string): (r: Option<int>)
    ensures r.Some? ==> 1 <= r.value <= 12
  {
    if |s| == 2 && AllDigits(s) && 1 <= DigitsValue(s) <= 12 then Some(DigitsValue(s)) else None
  }

  /** `time.Parse("01/02", s)`: two-digit month, '/', two-digit day, and
      nothing more. With no year in the layout Parse checks the day against
      year 0, a leap year, and reports year 0. */
  function ParseMonthDay(s: string): (r: Option<Date>)
    ensures r.Some? ==> r.value.year == 0 && IsCalendarDate(r.value)
  {
    if |s| == 5 && AllDigits(s[..2]) && s[2] == '/' && AllDigits(s[3..]) then
      var month := DigitsValue(s[..2]);
      var day := DigitsValue(s[3..]);
      if 1 <= month <= 12 && 1 <= day <= DaysIn(month, 0) then Some(Date(0, month, day)) else None
    else None
  }

  /** `time.Parse("2006/1/02", s)`: four digits of year (the first a digit),
      '/', a month of one or two digits, '/', a two-digit day, and nothing
      more; the day must exist in that month of that year. */
  function ParseYearMonthDay(s: string): (r: Option<Date>)
    ensures r.Some? ==> 0 <= r.value.year <= 9999 && IsCalendarDate(r.value)
  {
    if |s| >= 5 && AllDigits(s[..4]) && s[4] == '/' then
      var year := DigitsValue(s[..4]);
      assert year <= 9999 by { FourDigitsBound(s[..4]); }
      var md := ParseNumMonthZeroDay(s[5..]);
      if md.Some? && 1 <= md.value.1 <= DaysIn(md.value.0, year) then
        Some(Date(year, md.value.0, md.value.1))
      else None
    else None
  }

  /** The "1/02" tail of that layout: a month 1..12 of one or two digits,
      '/', and exactly two digits of day. */
  function ParseNumMonthZeroDay(s: string): (r: Option<(int, int)>)
    ensures r.Some? ==> 1 <= r.value.0 <= 12
  {
    if |s| >= 1 && IsDigit(s[0]) then
      var width := if |s| >= 2 && IsDigit(s[1]) then 2 else 1;
      var month := DigitsValue(s[..width]);
      var rest := s[width..];
      if 1 <= month <= 12 && |rest| == 3 && rest[0] == '/' && AllDigits(rest[1..]) then
        Some((month, DigitsValue(rest[1..])))
      else None
    else None
  }

  /** `date.Format("01/02")`. */
  function FormatMonthDay(month: int, day: int): string
  {
    Format02(month) + "/" + Format02(day)
  }

  // ---------------------------------------------------------------------
  // Properties

  lemma {:induction false} FourDigitsBound(s: string)
    requires |s| == 4 && AllDigits(s)
    ensures DigitsValue(s) <= 9999
  {
    var a, b, c := s[..1], s[..2], s[..3];
    assert c[..2] == b && b[..1] == a && a[..0] == [];
    assert DigitsValue(a) <= 9;
    assert DigitsValue(b) <= 99;
    assert DigitsValue(c) <= 999;
  }

  /** The number of digits of `n` places it between powers of ten. */
  lemma {:induction false} ItoaLength(n: nat)
    ensures n < 1000 <==> |Itoa(n)| <= 3
    ensures n >= 10000 <==> |Itoa(n)| >= 5
  {
    if n >= 10 { ItoaLength(n / 10); }
  }

  /** Year 0 is a leap year, so no month has more days in any other year. */
  lemma DaysInYearZero(month: int, year: int)
    requires 1 <= month <= 12
    ensures DaysIn(month, year) <= DaysIn(month, 0)
  {
    assert IsLeap(0);
  }

  /** `Format("01/02")` is read back by `Parse("01/02")`, for every day of
      the calendar (year 0 is a leap year, so February 29 included). */
  lemma {:induction false} ParseFormatMonthDay(month: int, day: int)
    requires 1 <= month <= 12 && 1 <= day <= DaysIn(month, 0)
    ensures ParseMonthDay(FormatMonthDay(month, day)) == Some(Date(0, month, day))
  {
    var s := FormatMonthDay(month, day);
    assert s[..2] == Format02(month);
    assert s[3..] == Format02(day);
  }

  /** `Parse("01")` of `%02d` accepts exactly the months 1 to 12 and gives
      the month back. */
  lemma {:induction false} ParseMonthOfFormat02(n: int)
    ensures ParseMonth(Format02(n)).Some? <==> 1 <= n <= 12
    ensures 1 <= n <= 12 ==> ParseMonth(Format02(n)) == Some(n)
  {
    if n < 0 {
      assert Format02(n)[0] == '-';
    } else if n >= 100 {
      ItoaLength(n);
    }
  }

  /** A year of four digits followed by a month without leading zero and a
      two-digit day is read as that day, when the day exists. */
  lemma {:induction false} ParseYearMonthDayOfFormat(year: int, month: int, day: int)
    requires 1000 <= year <= 9999
    requires IsCalendarDate(Date(year, month, day))
    ensures ParseYearMonthDay(FormatInt(year) + "/" + FormatInt(month) + "/" + Format02(day))
         == Some(Date(year, month, day))
  {
    var y, m, d := FormatInt(year), FormatInt(month), Format02(day);
    ItoaLength(year);
    assert |y| == 4;
    var s := y + "/" + m + "/" + d;
    assert s == y + ("/" + m + "/" + d);
    assert s[..4] == y;
    assert s[5..] == m + "/" + d;
    NumMonthZeroDay(month, day);
  }

  lemma {:induction false} NumMonthZeroDay(month: int, day: int)
    requires 1 <= month <= 12 && 1 <= day <= 31
    ensures ParseNumMonthZeroDay(FormatInt(month) + "/" + Format02(day)) == Some((month, day))
  {
    var m := FormatInt(month);
    if month < 10 {
      assert m == [DigitChar(month)];
    } else {
      assert m == Itoa(month / 10) + [DigitChar(month % 10)];
      assert Itoa(month / 10) == [DigitChar(1)];
      assert m == [DigitChar(1), DigitChar(month % 10)];
    }
    MonthThenDay(m, month, Format02(day), day);
  }

  /** The "1/02" tail read from its pieces: a month of one or two digits,
      '/', and a two-digit day. */
  lemma {:induction false} MonthThenDay(m: string, month: int, d: string, day: int)
    requires 1 <= |m| <= 2 && AllDigits(m) && DigitsValue(m) == month && 1 <= month <= 12
    requires |d| == 2 && AllDigits(d) && DigitsValue(d) == day
    ensures ParseNumMonthZeroDay(m + "/" + d) == Some((month, day))
  {
    var s := m + "/" + d;
    assert s[0] == m[0];
    assert s[|m|] == '/';
    if |m| == 2 {
      assert s[1] == m[1];
    }
    assert s[..|m|] == m;
    var rest := s[|m|..];
    assert rest == "/" + d;
    assert rest[1..] == d;
  }

  /** A Gregorian year that `%d` does not print as four digits is rejected
      by the "2006/1/02" layout, whatever follows it. */
  lemma {:induction false} ParseYearMonthDayNeedsFourDigits(year: int, rest: string)
    requires !(1000 <= year <= 9999)
    ensures ParseYearMonthDay(FormatInt(year) + "/" + rest).None?
  {
    var s := FormatInt(year) + "/" + rest;
    if year < 0 {
      assert s[0] == '-';
    } else {
      ItoaLength(year);
      var y := Itoa(year);
      if year < 1000 {
        if |s| >= 5 {
          assert s[..4][|y|] == '/';
          assert !IsDigit('/');
        }
      } else {
        assert s[4] == y[4];
      }
    }
  }
}
