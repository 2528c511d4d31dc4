/**
 * Calendar dates and timestamps as Python's `datetime` and pandas' `Timestamp`
 * hold them: the Gregorian calendar between years 1 and 9999, times to the second.
 * Also the `strftime` renderings `%Y-%m-%d` and `%Y-%m-%d %H:%M:%S` that the chart
 * labels use.
 */
module Timestamps {

  /** The fields of a calendar date, not yet checked against the calendar. */
  datatype Date = Date(year: int, month: int, day: int)

  /** The fields of a point in time to the second, not yet checked. */
  datatype DateTime = DateTime(year: int, month: int, day: int, hour: int, minute: int, second: int)

  predicate IsLeapYear(y: int) {
    y % 4 == 0 && (y % 100 != 0 || y % 400 == 0)
  }

  /** Length of month `m` of year `y` in the Gregorian calendar. */
  function DaysInMonth(y: int, m: int): (n: int)
    requires 1 <= m <= 12
    ensures 28 <= n <= 31
    ensures n == 29 <==> m == 2 && IsLeapYear(y)
    ensures n == 28 <==> m == 2 && !IsLeapYear(y)
  {
    if m == 2 then (if IsLeapYear(y) then 29 else 28)
    else if m == 4 || m == 6 || m == 9 || m == 11 then 30
    else 31
  }

  /** What `datetime.date(year, month, day)` accepts (MINYEAR is 1, MAXYEAR is 9999). */
  predicate ValidDate(d: Date) {
    1 <= d.year <= 9999 && 1 <= d.month <= 12 && 1 <= d.day <= DaysInMonth(d.year, d.month)
  }

  predicate ValidDateTime(t: DateTime) {
    ValidDate(DateOf(t)) && 0 <= t.hour < 24 && 0 <= t.minute < 60 && 0 <= t.second < 60
  }

  type CalendarDate = d: Date | ValidDate(d) witness Date(1970, 1, 1)

  /** A timestamp of the series' index. */
  type Timestamp = t: DateTime | ValidDateTime(t) witness DateTime(1970, 1, 1, 0, 0, 0)

  function DateOf(t: DateTime): Date {
    Date(t.year, t.month, t.day)
  }

  /** `pd.to_datetime` of a date string: midnight of that date. */
  function Midnight(d: CalendarDate): (t: Timestamp)
    ensures DateOf(t) == d
    ensures t.hour == 0 && t.minute == 0 && t.second == 0
  {
    DateTime(d.year, d.month, d.day, 0, 0, 0)
  }

  /** Chronological order of dates: lexicographic on (year, month, day). */
  predicate DateBefore(a: Date, b: Date) {
    a.year < b.year
    || (a.year == b.year && a.month < b.month)
    || (a.year == b.year && a.month == b.month && a.day < b.day)
  }

  /** Chronological order of timestamps: lexicographic on the six fields. */
  predicate Before(a: DateTime, b: DateTime) {
    DateBefore(DateOf(a), DateOf(b))
    || (DateOf(a) == DateOf(b) &&
        (a.hour < b.hour
         || (a.hour == b.hour && a.minute < b.minute)
         || (a.hour == b.hour && a.minute == b.minute && a.second < b.second)))
  }

  predicate NotAfter(a: DateTime, b: DateTime) {
    Before(a, b) || a == b
  }

  /** `Before` is a strict total order, so `NotAfter` is a total order. */
  lemma OrderIsTotal(a: DateTime, b: DateTime, c: DateTime)
    ensures !Before(a, a)
    ensures Before(a, b) || a == b || Before(b, a)
    ensures Before(a, b) && Before(b, c) ==> Before(a, c)
    ensures NotAfter(a, b) && NotAfter(b, c) ==> NotAfter(a, c)
    ensures NotAfter(a, b) && NotAfter(b, a) ==> a == b
  {
  }

  /** Comparing two midnights is comparing their dates. */
  lemma MidnightOrder(a: CalendarDate, b: CalendarDate)
    ensures Before(Midnight(a), Midnight(b)) <==> DateBefore(a, b)
    ensures NotAfter(Midnight(a), Midnight(b)) <==> !DateBefore(b, a)
  {
  }

  // ---- strftime rendering -------------------------------------------------

  function DigitChar(n: int): (c: char)
    requires 0 <= n < 10
    ensures '0' <= c <= '9'
  {
    ('0' as int + n) as char
  }

  predicate IsDigit(c: char) {
    '0' <= c <= '9'
  }

  function DigitValue(c: char): (n: int)
    requires IsDigit(c)
    ensures 0 <= n < 10 && DigitChar(n) == c
  {
    c as int - '0' as int
  }

  /** The number two decimal digits write. */
  function TwoDigits(hi: char, lo: char): (n: int)
    requires IsDigit(hi) && IsDigit(lo)
    ensures 0 <= n < 100
  {
    10 * DigitValue(hi) + DigitValue(lo)
  }

  /** `%m`, `%d`, `%H`, `%M`, `%S`: two digits, zero-padded. */
  function Pad2(n: int): (s: string)
    requires 0 <= n < 100
    ensures |s| == 2 && IsDigit(s[0]) && IsDigit(s[1])
  {
    [DigitChar(n / 10), DigitChar(n % 10)]
  }

  /** `%Y`: four digits, zero-padded. */
  function Pad4(n: int): (s: string)
    requires 0 <= n < 10000
    ensures |s| == 4 && forall i :: 0 <= i < 4 ==> IsDigit(s[i])
  {
    Pad2(n / 100) + Pad2(n % 100)
  }

  /** Reading back two padded digits gives the number written. */
  lemma Pad2Inverse(n: int)
    requires 0 <= n < 100
    ensures TwoDigits(Pad2(n)[0], Pad2(n)[1]) == n
  {
  }

  /** Writing the number two digits denote gives those digits back. */
  lemma TwoDigitsInverse(hi: char, lo: char)
    requires IsDigit(hi) && IsDigit(lo)
    ensures Pad2(TwoDigits(hi, lo)) == [hi, lo]
  {
    var a, b := DigitValue(hi), DigitValue(lo);
    var n := 10 * a + b;
    assert n / 10 == a && n % 10 == b;
  }

  /** Splitting a four-digit number into its hundreds and its last two digits. */
  lemma HundredsSplit(hi: int, lo: int)
    requires 0 <= hi < 100 && 0 <= lo < 100
    ensures (100 * hi + lo) / 100 == hi && (100 * hi + lo) % 100 == lo
  {
  }

  /** `t.strftime('%Y-%m-%d')`. */
  function DateLabel(t: Timestamp): (s: string)
    ensures |s| == 10 && s[4] == '-' && s[7] == '-'
    ensures forall i :: 0 <= i < 10 && i != 4 && i != 7 ==> IsDigit(s[i])
  {
    Pad4(t.year) + "-" + Pad2(t.month) + "-" + Pad2(t.day)
  }

  /** Characters 11 to 18 of `s` are `HH:MM:SS` and read back as the time of day of `t`. */
  predicate ShowsTimeOfDay(s: string, t: DateTime) {
    |s| == 19 && s[13] == ':' && s[16] == ':'
    && IsDigit(s[11]) && IsDigit(s[12]) && TwoDigits(s[11], s[12]) == t.hour
    && IsDigit(s[14]) && IsDigit(s[15]) && TwoDigits(s[14], s[15]) == t.minute
    && IsDigit(s[17]) && IsDigit(s[18]) && TwoDigits(s[17], s[18]) == t.second
  }

  /** `t.strftime('%Y-%m-%d %H:%M:%S')`: the date label, a space, then the time of day. */
  function DateTimeLabel(t: Timestamp): (s: string)
    ensures |s| == 19 && s[..10] == DateLabel(t) && s[10] == ' ' && s[13] == ':' && s[16] == ':'
    ensures IsDigit(s[11]) && IsDigit(s[12]) && TwoDigits(s[11], s[12]) == t.hour
    ensures IsDigit(s[14]) && IsDigit(s[15]) && TwoDigits(s[14], s[15]) == t.minute
    ensures IsDigit(s[17]) && IsDigit(s[18]) && TwoDigits(s[17], s[18]) == t.second
  {
    Pad2Inverse(t.hour);
    Pad2Inverse(t.minute);
    Pad2Inverse(t.second);
    DateLabel(t) + " " + Pad2(t.hour) + ":" + Pad2(t.minute) + ":" + Pad2(t.second)
  }
}
