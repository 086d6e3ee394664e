/** Python `datetime.date` values and their `strftime("%Y-%m-%d")` form:
    the complete calendar date in extended format of section 5.2.1.1 of
    ISO 8601:2004 (four-digit year, two-digit month, two-digit day, each
    zero-padded, separated by hyphens). */
module CalendarDates {
  import opened Results

  /** Leap years of the proleptic Gregorian calendar that `date` uses. */
  predicate IsLeapYear(y: int) {
    y % 4 == 0 && (y % 100 != 0 || y % 400 == 0)
  }

  function DaysInMonth(y: int, m: int): int
    requires 1 <= m <= 12
  {
    if m == 2 then (if IsLeapYear(y) then 29 else 28)
    else if m == 4 || m == 6 || m == 9 || m == 11 then 30
    else 31
  }

  datatype Date = Date(year: int, month: int, day: int)

  /** A date Python can represent: years `MINYEAR` (1) to `MAXYEAR` (9999),
      months 1 to 12, and a day that exists in that month. */
  predicate IsValidDate(d: Date) {
    1 <= d.year <= 9999 && 1 <= d.month <= 12 && 1 <= d.day <= DaysInMonth(d.year, d.month)
  }

  type CalendarDate = d: Date | IsValidDate(d) witness Date(1, 1, 1)

  predicate IsDigit(c: char) {
    '0' <= c <= '9'
  }

  predicate AllDigits(s: string) {
    forall i :: 0 <= i < |s| ==> IsDigit(s[i])
  }

  function Digit(n: int): (c: char)
    requires 0 <= n < 10
    ensures IsDigit(c)
  {
    ('0' as int + n) as char
  }

  function Pow10(width: nat): (p: nat)
    ensures p >= 1
  {
    if width == 0 then 1 else 10 * Pow10(width - 1)
  }

  /** The number a string of decimal digits denotes. */
  function DecimalValue(s: string): (n: nat)
    requires AllDigits(s)
    ensures n < Pow10(|s|)
  {
    if s == [] then 0
    else 10 * DecimalValue(s[..|s| - 1]) + (s[|s| - 1] as int - '0' as int)
  }

  /** `n` in exactly `width` decimal digits, zero-padded on the left. */
  function PadDigits(n: nat, width: nat): (s: string)
    requires n < Pow10(width)
    ensures |s| == width && AllDigits(s)
    ensures DecimalValue(s) == n
  {
    if width == 0 then ""
    else
      var s := PadDigits(n / 10, width - 1) + [Digit(n % 10)];
      assert s[..width - 1] == PadDigits(n / 10, width - 1);
      assert s[width - 1] as int - '0' as int == n % 10;
      assert 10 * (n / 10) + n % 10 == n;
      s
  }

  /** Zero-padding a digit string to its own width gives it back. */
  lemma {:induction false} PadDecimalValue(s: string)
    requires AllDigits(s)
    ensures PadDigits(DecimalValue(s), |s|) == s
  {
    if s != [] {
      var init := s[..|s| - 1];
      var d := s[|s| - 1] as int - '0' as int;
      var v := DecimalValue(init);
      assert 0 <= d < 10;
      assert DecimalValue(s) == 10 * v + d;
      DivModDigit(v, d);
      PadDecimalValue(init);
      assert Digit(d) == s[|s| - 1];
      assert PadDigits(DecimalValue(s), |s|) == PadDigits(v, |s| - 1) + [Digit(d)];
      assert s == init + [s[|s| - 1]];
    }
  }

  /** Appending a digit `d` to the number `v` is undone by `/ 10` and `% 10`. */
  lemma DivModDigit(v: nat, d: int)
    requires 0 <= d < 10
    ensures (10 * v + d) / 10 == v && (10 * v + d) % 10 == d
  {
  }

  /** `YYYY-MM-DD`: ten characters, digits everywhere but positions 4 and 7,
      which hold hyphens. */
  predicate IsIsoDateShape(s: string) {
    |s| == 10 && s[4] == '-' && s[7] == '-' &&
    AllDigits(s[..4]) && AllDigits(s[5..7]) && AllDigits(s[8..])
  }

  /** `d.strftime("%Y-%m-%d")`. */
  function FormatIsoDate(d: CalendarDate): (s: string)
    ensures IsIsoDateShape(s)
    ensures s[..4] == PadDigits(d.year, 4) && s[5..7] == PadDigits(d.month, 2) &&
            s[8..] == PadDigits(d.day, 2)
  {
    PadDigits(d.year, 4) + "-" + PadDigits(d.month, 2) + "-" + PadDigits(d.day, 2)
  }

  /** The date a `YYYY-MM-DD` string names, if it names one. */
  function ParseIsoDate(s: string): (r: Option<CalendarDate>)
    ensures r.Some? ==> IsIsoDateShape(s)
  {
    if !IsIsoDateShape(s) then None
    else
      var d := Date(DecimalValue(s[..4]), DecimalValue(s[5..7]), DecimalValue(s[8..]));
      if IsValidDate(d) then Some(d) else None
  }

  /** Formatting loses nothing: the string names the date it came from. */
  lemma ParseFormatted(d: CalendarDate)
    ensures ParseIsoDate(FormatIsoDate(d)) == Some(d)
  {
  }

  /** Every string that names a date is that date's formatted form, so
      `FormatIsoDate` is a bijection between the dates and the well-formed
      `YYYY-MM-DD` strings of existing dates. */
  lemma FormatParsed(s: string)
    requires ParseIsoDate(s).Some?
    ensures FormatIsoDate(ParseIsoDate(s).value) == s
  {
    var d := ParseIsoDate(s).value;
    assert d.year == DecimalValue(s[..4]) && d.month == DecimalValue(s[5..7]) &&
           d.day == DecimalValue(s[8..]);
    PadDecimalValue(s[..4]);
    PadDecimalValue(s[5..7]);
    PadDecimalValue(s[8..]);
    SamePieces(FormatIsoDate(d), s);
  }

  /** Two `YYYY-MM-DD` strings with the same three fields are equal. */
  lemma SamePieces(t: string, s: string)
    requires IsIsoDateShape(t) && IsIsoDateShape(s)
    requires t[..4] == s[..4] && t[5..7] == s[5..7] && t[8..] == s[8..]
    ensures t == s
  {
    forall k | 0 <= k < 10 ensures t[k] == s[k] {
      if k < 4 {
        assert t[k] == t[..4][k] && s[k] == s[..4][k];
      } else if 5 <= k < 7 {
        assert t[k] == t[5..7][k - 5] && s[k] == s[5..7][k - 5];
      } else if 8 <= k {
        assert t[k] == t[8..][k - 8] && s[k] == s[8..][k - 8];
      }
    }
  }

  /** Different dates never format alike. */
  lemma FormatInjective(d: CalendarDate, e: CalendarDate)
    requires FormatIsoDate(d) == FormatIsoDate(e)
    ensures d == e
  {
    ParseFormatted(d);
    ParseFormatted(e);
  }
}
