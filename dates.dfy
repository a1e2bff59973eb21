/**
 * Calendar dates and timestamps as the pipeline uses them: `YYYY-MM-DD` text
 * (the OAI-PMH `from` argument, the snapshot's `update_date`), stepping back a
 * number of days (`now - timedelta(days=7)`) and the latest of a set of
 * timestamps (Cypher `MAX`).
 */
module Dates {
  import opened Common

  datatype Date = Date(year: int, month: int, day: int)

  /** A timestamp: a date and the second within that day. */
  datatype DateTime = DateTime(date: Date, second: int)

  predicate IsLeap(y: int) {
    y % 4 == 0 && (y % 100 != 0 || y % 400 == 0)
  }

  function DaysInMonth(y: int, m: int): int {
    if m == 2 then (if IsLeap(y) then 29 else 28)
    else if m == 4 || m == 6 || m == 9 || m == 11 then 30
    else 31
  }

  /** The dates Python's `datetime.date` can represent. */
  predicate ValidDate(d: Date) {
    1 <= d.year <= 9999 && 1 <= d.month <= 12 && 1 <= d.day <= DaysInMonth(d.year, d.month)
  }

  predicate ValidDateTime(t: DateTime) {
    ValidDate(t.date) && 0 <= t.second < 86400
  }

  /** Midnight of a day, as `strptime(s, '%Y-%m-%d')` yields it. */
  function Midnight(d: Date): DateTime {
    DateTime(d, 0)
  }

  // ---------------------------------------------------------------- order

  predicate DateBefore(a: Date, b: Date) {
    a.year < b.year
    || (a.year == b.year && (a.month < b.month || (a.month == b.month && a.day < b.day)))
  }

  /** `a <= b` on timestamps. */
  predicate NotAfter(a: DateTime, b: DateTime) {
    DateBefore(a.date, b.date) || (a.date == b.date && a.second <= b.second)
  }

  lemma NotAfterTotal(a: DateTime, b: DateTime)
    ensures NotAfter(a, b) || NotAfter(b, a)
  {
  }

  lemma LatestExists(s: set<DateTime>)
    requires s != {}
    ensures exists m :: m in s && forall t :: t in s ==> NotAfter(t, m)
    decreases |s|
  {
    var x :| x in s;
    if s == {x} {
      assert forall t :: t in s ==> NotAfter(t, x);
    } else {
      var rest := s - {x};
      LatestExists(rest);
      var m :| m in rest && forall t :: t in rest ==> NotAfter(t, m);
      if NotAfter(x, m) {
        assert forall t :: t in s ==> NotAfter(t, m);
      } else {
        forall t | t in s ensures NotAfter(t, x) {
          if t != x { assert NotAfter(t, m); }
        }
      }
    }
  }

  /** Cypher `MAX` over a set of timestamps: `None` for the empty set. */
  function Latest(s: set<DateTime>): (r: Option<DateTime>)
    ensures r.None? <==> s == {}
    ensures r.Some? ==> r.value in s && forall t :: t in s ==> NotAfter(t, r.value)
  {
    if s == {} then None
    else
      LatestExists(s);
      var m :| m in s && forall t :: t in s ==> NotAfter(t, m);
      Some(m)
  }

  // ---------------------------------------------------------------- text

  function Digit(n: int): char
    requires 0 <= n < 10
  {
    ('0' as int + n) as char
  }

  predicate IsDigit(c: char) {
    '0' <= c <= '9'
  }

  function DigitValue(c: char): int
    requires IsDigit(c)
  {
    c as int - '0' as int
  }

  function Format2(n: int): string
    requires 0 <= n < 100
  {
    [Digit(n / 10), Digit(n % 10)]
  }

  function Format4(n: int): string
    requires 0 <= n < 10000
  {
    [Digit(n / 10 / 10 / 10), Digit(n / 10 / 10 % 10), Digit(n / 10 % 10), Digit(n % 10)]
  }

  /** `d.strftime('%Y-%m-%d')`: four digit year, two digit month and day. */
  function FormatYmd(d: Date): (s: string)
    requires ValidDate(d)
    ensures |s| == 10 && s[4] == '-' && s[7] == '-'
  {
    Format4(d.year) + "-" + Format2(d.month) + "-" + Format2(d.day)
  }

  predicate DigitsAt(s: string, lo: int, hi: int)
    requires 0 <= lo <= hi <= |s|
  {
    forall i :: lo <= i < hi ==> IsDigit(s[i])
  }

  predicate IsNonZeroDigit(c: char) {
    '1' <= c <= '9'
  }

  /**
   * The `%m` group of `strptime` on the text after the year's `-`: the first
   * of `1[0-2]`, `0[1-9]` and `[1-9]` that is followed by the next `-`, as
   * its value and its length.
   */
  function MonthField(r: string): (f: Option<(int, nat)>)
    ensures f.Some? ==> 1 <= f.value.0 <= 12 && 1 <= f.value.1 <= 2 && f.value.1 < |r| && r[f.value.1] == '-'
    ensures f.Some? && f.value.1 == 2 ==> IsDigit(r[0]) && IsDigit(r[1]) && f.value.0 == 10 * DigitValue(r[0]) + DigitValue(r[1])
  {
    if |r| >= 3 && r[0] == '1' && '0' <= r[1] <= '2' && r[2] == '-' then Some((10 + DigitValue(r[1]), 2))
    else if |r| >= 3 && r[0] == '0' && IsNonZeroDigit(r[1]) && r[2] == '-' then Some((DigitValue(r[1]), 2))
    else if |r| >= 2 && IsNonZeroDigit(r[0]) && r[1] == '-' then Some((DigitValue(r[0]), 1))
    else None
  }

  /**
   * The `%d` group on the text after the month's `-`: the first of `3[01]`,
   * `[12]\d`, `0[1-9]`, `[1-9]` and ` [1-9]` that matches at its start, as its
   * value and its length. Nothing after it is read.
   */
  function DayField(r: string): (f: Option<(int, nat)>)
    ensures f.Some? ==> 1 <= f.value.0 <= 31 && 1 <= f.value.1 <= 2 && f.value.1 <= |r|
    ensures f.Some? && f.value.1 == 2 && r[0] != ' ' ==>
              IsDigit(r[0]) && IsDigit(r[1]) && f.value.0 == 10 * DigitValue(r[0]) + DigitValue(r[1])
  {
    if |r| >= 2 && r[0] == '3' && (r[1] == '0' || r[1] == '1') then Some((30 + DigitValue(r[1]), 2))
    else if |r| >= 2 && (r[0] == '1' || r[0] == '2') && IsDigit(r[1]) then Some((10 * DigitValue(r[0]) + DigitValue(r[1]), 2))
    else if |r| >= 2 && r[0] == '0' && IsNonZeroDigit(r[1]) then Some((DigitValue(r[1]), 2))
    else if |r| >= 1 && IsNonZeroDigit(r[0]) then Some((DigitValue(r[0]), 1))
    else if |r| >= 2 && r[0] == ' ' && IsNonZeroDigit(r[1]) then Some((DigitValue(r[1]), 2))
    else None
  }

  function Year4(s: string): int
    requires |s| >= 4 && DigitsAt(s, 0, 4)
  {
    1000 * DigitValue(s[0]) + 100 * DigitValue(s[1]) + 10 * DigitValue(s[2]) + DigitValue(s[3])
  }

  /**
   * `datetime.strptime(s, '%Y-%m-%d')`; `None` where Python raises
   * `ValueError`: four year digits, `-`, the month group, `-`, the day group,
   * then nothing left over, and a date the calendar has.
   */
  function ParseYmd(s: string): (r: Option<Date>)
    ensures r.Some? ==> ValidDate(r.value)
    ensures r.Some? ==> 8 <= |s| <= 10 && DigitsAt(s, 0, 4) && s[4] == '-' && r.value.year == Year4(s)
  {
    if |s| >= 5 && DigitsAt(s, 0, 4) && s[4] == '-' then
      match MonthField(s[5..])
      case None => None
      case Some((m, ml)) =>
        var rest := s[5 + ml + 1..];
        match DayField(rest)
        case None => None
        case Some((d, dl)) =>
          if dl == |rest| && ValidDate(Date(Year4(s), m, d)) then Some(Date(Year4(s), m, d)) else None
    else None
  }

  /** Division by ten is determined by quotient and remainder. */
  lemma DivMod10(n: int, q: int, r: int)
    requires 0 <= r < 10 && n == 10 * q + r
    ensures n / 10 == q && n % 10 == r
  {
  }

  lemma Format4Digits(n: int)
    requires 0 <= n < 10000
    ensures var s := Format4(n);
      IsDigit(s[0]) && IsDigit(s[1]) && IsDigit(s[2]) && IsDigit(s[3])
      && 1000 * DigitValue(s[0]) + 100 * DigitValue(s[1]) + 10 * DigitValue(s[2]) + DigitValue(s[3]) == n
  {
    DivMod10(n, n / 10, n % 10);
    DivMod10(n / 10, n / 10 / 10, n / 10 % 10);
    DivMod10(n / 10 / 10, n / 10 / 10 / 10, n / 10 / 10 % 10);
  }

  lemma Digits4(a: int, b: int, c: int, d: int)
    requires 0 <= a < 10 && 0 <= b < 10 && 0 <= c < 10 && 0 <= d < 10
    ensures Format4(1000 * a + 100 * b + 10 * c + d) == [Digit(a), Digit(b), Digit(c), Digit(d)]
  {
    var n := 1000 * a + 100 * b + 10 * c + d;
    DivMod10(n, 100 * a + 10 * b + c, d);
    DivMod10(100 * a + 10 * b + c, 10 * a + b, c);
    DivMod10(10 * a + b, a, b);
    DivMod10(a, 0, a);
  }

  lemma Digits2(a: int, b: int)
    requires 0 <= a < 10 && 0 <= b < 10
    ensures Format2(10 * a + b) == [Digit(a), Digit(b)]
  {
    DivMod10(10 * a + b, a, b);
  }

  /** A two-digit month, as `strftime` writes it, is read back whole by the month group. */
  lemma MonthFieldFormatted(m: int, rest: string)
    requires 1 <= m <= 12
    ensures MonthField(Format2(m) + "-" + rest) == Some((m, 2))
  {
    var r := Format2(m) + "-" + rest;
    DivMod10(m, m / 10, m % 10);
    assert r[0] == Digit(m / 10) && r[1] == Digit(m % 10) && r[2] == '-';
  }

  /** A two-digit day, as `strftime` writes it, is read back whole by the day group. */
  lemma DayFieldFormatted(d: int)
    requires 1 <= d <= 31
    ensures DayField(Format2(d)) == Some((d, 2))
  {
    DivMod10(d, d / 10, d % 10);
  }

  /** Formatting a valid date and parsing the text gives the date back. */
  lemma ParseFormatYmd(d: Date)
    requires ValidDate(d)
    ensures ParseYmd(FormatYmd(d)) == Some(d)
  {
    var s := FormatYmd(d);
    Format4Digits(d.year);
    assert s[..4] == Format4(d.year);
    assert s[5..] == Format2(d.month) + "-" + Format2(d.day);
    MonthFieldFormatted(d.month, Format2(d.day));
    assert s[8..] == Format2(d.day);
    DayFieldFormatted(d.day);
  }

  lemma DigitRoundTrip(c: char)
    requires IsDigit(c)
    ensures Digit(DigitValue(c)) == c
  {
  }

  /**
   * The parser normalises: what it accepts is eight to ten characters, the
   * formatting of the date it yields parses to that date again, and a
   * ten-character text without a space-padded day is exactly that formatting.
   * Shorter texts are the one-digit months and days `strptime` also takes.
   */
  lemma FormatParseYmd(s: string)
    requires ParseYmd(s).Some?
    ensures 8 <= |s| <= 10
    ensures ParseYmd(FormatYmd(ParseYmd(s).value)) == ParseYmd(s)
    ensures |s| == 10 && s[8] != ' ' ==> FormatYmd(ParseYmd(s).value) == s
  {
    var d := ParseYmd(s).value;
    ParseFormatYmd(d);
    if |s| == 10 && s[8] != ' ' {
      TenCharacterFields(s);
      FormatTenCharacters(s, d);
    }
  }

  /** A ten-character text without a space-padded day holds two-digit month and day fields. */
  lemma TenCharacterFields(s: string)
    requires ParseYmd(s).Some? && |s| == 10 && s[8] != ' '
    ensures s[7] == '-' && IsDigit(s[5]) && IsDigit(s[6]) && IsDigit(s[8]) && IsDigit(s[9])
    ensures ParseYmd(s).value.month == 10 * DigitValue(s[5]) + DigitValue(s[6])
    ensures ParseYmd(s).value.day == 10 * DigitValue(s[8]) + DigitValue(s[9])
  {
    var (m, ml) := MonthField(s[5..]).value;
    var rest := s[5 + ml + 1..];
    assert ml == 2 && |rest| == 2;
    assert s[5..][0] == s[5] && s[5..][1] == s[6] && s[5..][2] == s[7];
    assert rest[0] == s[8] && rest[1] == s[9];
  }

  /** Formatting the fields of such a text writes the text back. */
  lemma FormatTenCharacters(s: string, d: Date)
    requires |s| == 10 && DigitsAt(s, 0, 4) && s[4] == '-' && s[7] == '-'
    requires IsDigit(s[5]) && IsDigit(s[6]) && IsDigit(s[8]) && IsDigit(s[9])
    requires ValidDate(d) && d.year == Year4(s)
    requires d.month == 10 * DigitValue(s[5]) + DigitValue(s[6])
    requires d.day == 10 * DigitValue(s[8]) + DigitValue(s[9])
    ensures FormatYmd(d) == s
  {
    var f := FormatYmd(d);
    Digits4(DigitValue(s[0]), DigitValue(s[1]), DigitValue(s[2]), DigitValue(s[3]));
    Digits2(DigitValue(s[5]), DigitValue(s[6]));
    Digits2(DigitValue(s[8]), DigitValue(s[9]));
    DigitRoundTrip(s[0]); DigitRoundTrip(s[1]); DigitRoundTrip(s[2]); DigitRoundTrip(s[3]);
    DigitRoundTrip(s[5]); DigitRoundTrip(s[6]); DigitRoundTrip(s[8]); DigitRoundTrip(s[9]);
    assert f[0] == s[0] && f[1] == s[1] && f[2] == s[2] && f[3] == s[3];
    assert f[5] == s[5] && f[6] == s[6] && f[8] == s[8] && f[9] == s[9];
    assert f == s;
  }

  /** The year field of the texts below. */
  lemma Year2020(s: string)
    requires |s| >= 4 && s[..4] == "2020"
    ensures DigitsAt(s, 0, 4) && Year4(s) == 2020
  {
    assert s[0] == '2' && s[1] == '0' && s[2] == '2' && s[3] == '0';
  }

  /** One-digit month and day: `strptime` takes `2020-1-5` for 5 January 2020. */
  lemma UnpaddedYmd()
    ensures ParseYmd("2020-1-5") == Some(Date(2020, 1, 5))
  {
    var s := "2020-1-5";
    Year2020(s);
    assert s[5..] == "1-5";
    assert MonthField(s[5..]) == Some((1, 1));
    assert s[7..] == "5";
    assert DayField(s[7..]) == Some((5, 1));
  }

  /** A space-padded day: `strptime` takes `2020-01- 5` for 5 January 2020. */
  lemma SpacePaddedYmd()
    ensures ParseYmd("2020-01- 5") == Some(Date(2020, 1, 5))
  {
    var s := "2020-01- 5";
    Year2020(s);
    assert s[5..] == "01- 5";
    assert MonthField(s[5..]) == Some((1, 2));
    assert s[8..] == " 5";
    assert DayField(s[8..]) == Some((5, 2));
  }

  /** A thirteenth month does not parse. */
  lemma MonthOutOfRange()
    ensures ParseYmd("2020-13-01").None?
  {
    var s := "2020-13-01";
    Year2020(s);
    assert s[5..] == "13-01";
    assert MonthField(s[5..]).None?;
  }

  /** A day `32` leaves `2` unread, which raises. */
  lemma DayOutOfRange()
    ensures ParseYmd("2020-01-32").None?
  {
    var s := "2020-01-32";
    Year2020(s);
    assert s[5..] == "01-32";
    assert MonthField(s[5..]) == Some((1, 2));
    assert s[8..] == "32";
    assert DayField(s[8..]) == Some((3, 1));
  }

  // ---------------------------------------------------------------- arithmetic

  function PrevDay(d: Date): (r: Option<Date>)
    requires ValidDate(d)
    ensures r.Some? ==> ValidDate(r.value) && DateBefore(r.value, d)
    ensures r.None? <==> d == Date(1, 1, 1)
  {
    if d.day > 1 then Some(Date(d.year, d.month, d.day - 1))
    else if d.month > 1 then Some(Date(d.year, d.month - 1, DaysInMonth(d.year, d.month - 1)))
    else if d.year > 1 then Some(Date(d.year - 1, 12, 31))
    else None
  }

  function NextDay(d: Date): (r: Option<Date>)
    requires ValidDate(d)
    ensures r.Some? ==> ValidDate(r.value) && DateBefore(d, r.value)
  {
    if d.day < DaysInMonth(d.year, d.month) then Some(Date(d.year, d.month, d.day + 1))
    else if d.month < 12 then Some(Date(d.year, d.month + 1, 1))
    else if d.year < 9999 then Some(Date(d.year + 1, 1, 1))
    else None
  }

  /** Stepping back one day and forward one day returns to the same day. */
  lemma NextOfPrevDay(d: Date)
    requires ValidDate(d) && d != Date(1, 1, 1)
    ensures NextDay(PrevDay(d).value) == Some(d)
  {
  }

  /** `t - timedelta(days=n)`; `None` where Python raises `OverflowError`. */
  function MinusDays(t: DateTime, n: nat): (r: Option<DateTime>)
    requires ValidDateTime(t)
    ensures r.Some? ==> ValidDateTime(r.value) && r.value.second == t.second
    ensures r.Some? && n > 0 ==> DateBefore(r.value.date, t.date)
    decreases n
  {
    if n == 0 then Some(t)
    else
      match PrevDay(t.date)
      case None => None
      case Some(p) =>
        var r := MinusDays(DateTime(p, t.second), n - 1);
        if r.Some? && n - 1 > 0 then
          assert DateBefore(r.value.date, p);
          r
        else r
  }
}
