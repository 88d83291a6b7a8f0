/**
 * The date stamp of a backup run: `date.today().strftime("%Y-%m-%d")`
 * (backup_to_s3.py, line 10), with the clock replaced by a `Date` argument.
 *
 * The stamp is the `full-date` production of section 5.6 of RFC 3339
 * ("YYYY-MM-DD"); `ParseFullDate` reads that production back, with the
 * month and day limits of section 5.7 of RFC 3339, and is the partner
 * against which the formatter is proved.
 */
module DateStamp {
  import opened Wrappers

  /** A calendar date, as a Python `datetime.date` holds it. */
  datatype Date = Date(year: int, month: int, day: int)

  /** The Gregorian leap-year rule, which `datetime.date` follows. */
  predicate IsLeapYear(y: int) {
    y % 4 == 0 && (y % 100 != 0 || y % 400 == 0)
  }

  function DaysInMonth(y: int, m: int): (n: int)
    requires 1 <= m <= 12
    ensures 28 <= n <= 31
  {
    if m == 2 then (if IsLeapYear(y) then 29 else 28)
    else if m == 4 || m == 6 || m == 9 || m == 11 then 30
    else 31
  }

  /**
   * A date that `datetime.date` accepts, restricted to the four-digit years
   * for which `%Y` yields exactly four digits on every platform.
   */
  predicate ValidDate(d: Date) {
    1000 <= d.year <= 9999 && 1 <= d.month <= 12 && 1 <= d.day <= DaysInMonth(d.year, d.month)
  }

  predicate IsDigit(c: char) {
    '0' <= c <= '9'
  }

  function DigitChar(n: int): (c: char)
    requires 0 <= n < 10
    ensures IsDigit(c)
  {
    ('0' as int + n) as char
  }

  function DigitValue(c: char): (n: int)
    requires IsDigit(c)
    ensures 0 <= n < 10 && DigitChar(n) == c
  {
    c as int - '0' as int
  }

  /** `%m` and `%d`: two decimal digits, zero-padded. */
  function Pad2(n: int): (s: string)
    requires 0 <= n < 100
  {
    [DigitChar(n / 10), DigitChar(n % 10)]
  }

  /** `%Y` for a four-digit year. */
  function Pad4(n: int): (s: string)
    requires 0 <= n < 10000
  {
    [DigitChar(n / 1000), DigitChar(n / 100 % 10), DigitChar(n / 10 % 10), DigitChar(n % 10)]
  }

  /** Every character of `s[lo..hi]` is a decimal digit. */
  predicate DigitsAt(s: string, lo: int, hi: int)
    requires 0 <= lo <= hi <= |s|
  {
    forall i :: lo <= i < hi ==> IsDigit(s[i])
  }

  function Value2(s: string): (n: int)
    requires |s| == 2 && DigitsAt(s, 0, 2)
    ensures 0 <= n < 100
  {
    10 * DigitValue(s[0]) + DigitValue(s[1])
  }

  function Value4(s: string): (n: int)
    requires |s| == 4 && DigitsAt(s, 0, 4)
    ensures 0 <= n < 10000
  {
    1000 * DigitValue(s[0]) + 100 * DigitValue(s[1]) + 10 * DigitValue(s[2]) + DigitValue(s[3])
  }

  /**
   * The stamp `TODAY.strftime("%Y-%m-%d")`: ten characters, digits everywhere
   * except the two hyphens at indices 4 and 7.
   */
  function FormatDate(d: Date): (s: string)
    requires ValidDate(d)
    ensures |s| == 10 && s[4] == '-' && s[7] == '-'
    ensures DigitsAt(s, 0, 4) && DigitsAt(s, 5, 7) && DigitsAt(s, 8, 10)
  {
    Pad4(d.year) + "-" + Pad2(d.month) + "-" + Pad2(d.day)
  }

  /**
   * The `full-date` production of section 5.6 of RFC 3339, restricted to
   * years from 1000 to 9999, read back into a date; `None` for any other
   * string, for a year below 1000, and for a month or day outside the limits
   * of section 5.7 of RFC 3339.
   */
  function ParseFullDate(s: string): (r: Option<Date>)
    ensures r.Some? ==> ValidDate(r.value)
  {
    if |s| == 10 && s[4] == '-' && s[7] == '-'
       && DigitsAt(s, 0, 4) && DigitsAt(s, 5, 7) && DigitsAt(s, 8, 10)
    then
      var d := Date(Value4(s[0..4]), Value2(s[5..7]), Value2(s[8..10]));
      if ValidDate(d) then Some(d) else None
    else
      None
  }

  lemma Pad2RoundTrip(n: int)
    requires 0 <= n < 100
    ensures Value2(Pad2(n)) == n
  {
  }

  lemma Pad4RoundTrip(n: int)
    requires 0 <= n < 10000
    ensures Value4(Pad4(n)) == n
  {
    var a, b, c, e := n / 1000, n / 100 % 10, n / 10 % 10, n % 10;
    assert n / 10 == 10 * (n / 100) + c;
    assert n / 100 == 10 * a + b;
    assert n == 1000 * a + 100 * b + 10 * c + e;
    var s := Pad4(n);
    assert DigitValue(s[0]) == a && DigitValue(s[1]) == b;
    assert DigitValue(s[2]) == c && DigitValue(s[3]) == e;
  }

  /** Reading the stamp back gives the date it was made from. */
  lemma ParseFormat(d: Date)
    requires ValidDate(d)
    ensures ParseFullDate(FormatDate(d)) == Some(d)
  {
    var s := FormatDate(d);
    assert s[0..4] == Pad4(d.year);
    assert s[5..7] == Pad2(d.month);
    assert s[8..10] == Pad2(d.day);
    Pad4RoundTrip(d.year);
    Pad2RoundTrip(d.month);
    Pad2RoundTrip(d.day);
  }

  lemma Pad2OfValue(s: string)
    requires |s| == 2 && DigitsAt(s, 0, 2)
    ensures Pad2(Value2(s)) == s
  {
    var a, b := DigitValue(s[0]), DigitValue(s[1]);
    assert (10 * a + b) / 10 == a && (10 * a + b) % 10 == b;
  }

  lemma Pad4OfValue(s: string)
    requires |s| == 4 && DigitsAt(s, 0, 4)
    ensures Pad4(Value4(s)) == s
  {
    var a, b, c, e := DigitValue(s[0]), DigitValue(s[1]), DigitValue(s[2]), DigitValue(s[3]);
    var n := 1000 * a + 100 * b + 10 * c + e;
    assert n / 1000 == a;
    assert n / 100 == 10 * a + b;
    assert n / 100 % 10 == b;
    assert n / 10 == 100 * a + 10 * b + c;
    assert n / 10 % 10 == c;
    assert n % 10 == e;
  }

  /** Every well-formed `full-date` string is the stamp of the date it denotes. */
  lemma FormatParse(s: string)
    requires ParseFullDate(s).Some?
    ensures FormatDate(ParseFullDate(s).value) == s
  {
    Pad4OfValue(s[0..4]);
    Pad2OfValue(s[5..7]);
    Pad2OfValue(s[8..10]);
    assert s == s[0..4] + "-" + s[5..7] + "-" + s[8..10];
  }

  /** Different days get different stamps, so one day's backups never match another's stamp exactly. */
  lemma FormatInjective(d1: Date, d2: Date)
    requires ValidDate(d1) && ValidDate(d2) && d1 != d2
    ensures FormatDate(d1) != FormatDate(d2)
  {
    ParseFormat(d1);
    ParseFormat(d2);
  }

}
