/**
 * Proleptic Gregorian dates and times of day as Python's `datetime` module has them:
 * the calendar checks `datetime(year, month, day)` makes, date order, `timedelta` addition,
 * the `%Y%m%dT%H%M%S` rendering and the `%H:%M` format of `strptime`.
 */
module Calendar {
  import opened Wrappers
  import opened Text

  /** `datetime.MAXYEAR`; `datetime.MINYEAR` is 1. */
  const MaxYear := 9999
  const MinutesPerDay := 1440

  predicate IsLeap(y: int) {
    y % 4 == 0 && (y % 100 != 0 || y % 400 == 0)
  }

  function DaysInMonth(y: int, m: int): (n: int)
    requires 1 <= m <= 12
    ensures 28 <= n <= 31
    ensures m == 2 ==> (n == 29 <==> IsLeap(y))
  {
    if m == 2 then (if IsLeap(y) then 29 else 28)
    else if m == 4 || m == 6 || m == 9 || m == 11 then 30
    else 31
  }

  datatype Date = Date(year: int, month: int, day: int)

  /** The dates `datetime(year, month, day)` accepts without raising ValueError. */
  predicate ValidDate(d: Date) {
    1 <= d.year <= MaxYear && 1 <= d.month <= 12 && 1 <= d.day <= DaysInMonth(d.year, d.month)
  }

  /** `a < b` on `date` objects. */
  predicate Before(a: Date, b: Date) {
    || a.year < b.year
    || (a.year == b.year && (a.month < b.month || (a.month == b.month && a.day < b.day)))
  }

  function YearLength(y: int): int {
    if IsLeap(y) then 366 else 365
  }

  function DaysBeforeYear(y: int): nat
    requires y >= 1
  {
    if y == 1 then 0 else DaysBeforeYear(y - 1) + YearLength(y - 1)
  }

  function DaysBeforeMonth(y: int, m: int): nat
    requires 1 <= m <= 12
  {
    [0, 31, 59, 90, 120, 151, 181, 212, 243, 273, 304, 334][m - 1] + (if m > 2 && IsLeap(y) then 1 else 0)
  }

  /** Days since 0001-01-01: `d.toordinal() - 1`. */
  function DayNumber(d: Date): nat
    requires ValidDate(d)
  {
    DaysBeforeYear(d.year) + DaysBeforeMonth(d.year, d.month) + d.day - 1
  }

  /** `d + timedelta(days=1)`; None where Python raises OverflowError. */
  function NextDay(d: Date): (r: Option<Date>)
    requires ValidDate(d)
    ensures r.None? <==> d == Date(MaxYear, 12, 31)
    ensures r.Some? ==> ValidDate(r.value) && Before(d, r.value)
    ensures r.Some? ==> DayNumber(r.value) == DayNumber(d) + 1
  {
    if d.day < DaysInMonth(d.year, d.month) then Some(Date(d.year, d.month, d.day + 1))
    else if d.month < 12 then
      MonthStep(d.year, d.month);
      Some(Date(d.year, d.month + 1, 1))
    else if d.year < MaxYear then
      YearStep(d);
      Some(Date(d.year + 1, 1, 1))
    else None
  }

  /** 31 December is followed by 1 January, one day number on. */
  lemma YearStep(d: Date)
    requires ValidDate(d) && d.month == 12 && d.day == 31 && d.year < MaxYear
    ensures ValidDate(Date(d.year + 1, 1, 1))
    ensures DayNumber(Date(d.year + 1, 1, 1)) == DayNumber(d) + 1
  {
    assert DaysBeforeYear(d.year + 1) == DaysBeforeYear(d.year) + YearLength(d.year);
    assert DaysBeforeMonth(d.year, 12) + 31 == YearLength(d.year);
  }

  /** The days before the next month are those before this one plus this month's length. */
  lemma MonthStep(y: int, m: int)
    requires 1 <= m < 12
    ensures DaysBeforeMonth(y, m + 1) == DaysBeforeMonth(y, m) + DaysInMonth(y, m)
  {
    var table := [0, 31, 59, 90, 120, 151, 181, 212, 243, 273, 304, 334];
    assert table[m] == table[m - 1] + (if m == 2 then 28 else DaysInMonth(y, m));
  }

  /** `d + timedelta(days=n)`; None where Python raises OverflowError. */
  function AddDays(d: Date, n: nat): (r: Option<Date>)
    requires ValidDate(d)
    ensures r.Some? ==> ValidDate(r.value) && DayNumber(r.value) == DayNumber(d) + n
    ensures n == 0 ==> r == Some(d)
    ensures n == 1 ==> r == NextDay(d)
    decreases n
  {
    if n == 0 then Some(d)
    else
      match NextDay(d)
      case None => None
      case Some(e) => AddDays(e, n - 1)
  }

  // ---------------------------------------------------------------- times of day

  /** A `datetime.time`: hour, minute, second and microsecond. */
  datatype Time = Time(hour: int, minute: int, second: int, micro: int)

  predicate ValidTime(t: Time) {
    0 <= t.hour < 24 && 0 <= t.minute < 60 && 0 <= t.second < 60 && 0 <= t.micro < 1000000
  }

  /** `a <= b` on `time` objects. */
  predicate TimeAtMost(a: Time, b: Time) {
    || a.hour < b.hour
    || (a.hour == b.hour && (a.minute < b.minute || (a.minute == b.minute
        && (a.second < b.second || (a.second == b.second && a.micro <= b.micro)))))
  }

  datatype DateTime = DateTime(date: Date, time: Time)

  predicate ValidDateTime(dt: DateTime) {
    ValidDate(dt.date) && ValidTime(dt.time)
  }

  /** Minutes since 0001-01-01 00:00, ignoring seconds. */
  function MinuteNumber(dt: DateTime): int
    requires ValidDate(dt.date)
  {
    DayNumber(dt.date) * MinutesPerDay + dt.time.hour * 60 + dt.time.minute
  }

  /** `dt + timedelta(minutes=n)`; None where Python raises OverflowError. */
  function AddMinutes(dt: DateTime, n: nat): (r: Option<DateTime>)
    requires ValidDateTime(dt)
    ensures r.Some? ==> ValidDateTime(r.value) && MinuteNumber(r.value) == MinuteNumber(dt) + n
    ensures r.Some? ==> r.value.time.second == dt.time.second && r.value.time.micro == dt.time.micro
    ensures dt.date != Date(MaxYear, 12, 31) && n <= MinutesPerDay ==> r.Some?
  {
    var total := dt.time.hour * 60 + dt.time.minute + n;
    var days := total / MinutesPerDay;
    var rest := total % MinutesPerDay;
    assert n <= MinutesPerDay ==> days <= 1;
    match AddDays(dt.date, days)
    case None => None
    case Some(d) =>
      var t := Time(rest / 60, rest % 60, dt.time.second, dt.time.micro);
      assert rest / 60 * 60 + rest % 60 == rest;
      assert days * MinutesPerDay + rest == total;
      Some(DateTime(d, t))
  }

  // ---------------------------------------------------------------- renderings

  /** `strftime("%Y%m%dT%H%M%S")`. */
  function CompactText(dt: DateTime): (s: string)
    requires ValidDateTime(dt)
    ensures |s| == 15 && s[8] == 'T'
  {
    ZeroPad(dt.date.year, 4) + ZeroPad(dt.date.month, 2) + ZeroPad(dt.date.day, 2) + "T"
    + ZeroPad(dt.time.hour, 2) + ZeroPad(dt.time.minute, 2) + ZeroPad(dt.time.second, 2)
  }

  /**
   * Eight date digits, a `T` and six time digits, each field zero-padded, so every field reads
   * back as the value it was written from.
   */
  lemma CompactTextFields(dt: DateTime)
    requires ValidDateTime(dt)
    ensures var s := CompactText(dt);
      && AllDigits(s[..8]) && AllDigits(s[9..])
      && DigitsValue(s[..4]) == dt.date.year && DigitsValue(s[4..6]) == dt.date.month
      && DigitsValue(s[6..8]) == dt.date.day
      && DigitsValue(s[9..11]) == dt.time.hour && DigitsValue(s[11..13]) == dt.time.minute
      && DigitsValue(s[13..]) == dt.time.second
  {
    var year, month, day := ZeroPad(dt.date.year, 4), ZeroPad(dt.date.month, 2), ZeroPad(dt.date.day, 2);
    var hour, minute, second := ZeroPad(dt.time.hour, 2), ZeroPad(dt.time.minute, 2), ZeroPad(dt.time.second, 2);
    var s := CompactText(dt);
    assert s == year + month + day + "T" + hour + minute + second;
    assert s[..4] == year && s[4..6] == month && s[6..8] == day;
    assert s[9..11] == hour && s[11..13] == minute && s[13..] == second;
    assert s[..8] == year + month + day && s[9..] == hour + minute + second;
  }

  // ---------------------------------------------------------------- strptime("%H:%M")

  /** What `%H` matches: `2[0-3]|[0-1]\d|\d`. */
  predicate HourField(s: string) {
    || (|s| == 1 && IsDigit(s[0]))
    || (|s| == 2 && (('0' <= s[0] <= '1' && IsDigit(s[1])) || (s[0] == '2' && '0' <= s[1] <= '3')))
  }

  /** What `%M` matches: `[0-5]\d|\d`. */
  predicate MinuteField(s: string) {
    || (|s| == 1 && IsDigit(s[0]))
    || (|s| == 2 && '0' <= s[0] <= '5' && IsDigit(s[1]))
  }

  /**
   * `datetime.strptime(t, "%H:%M").time()`: one or two digits for the hour and for the minute,
   * nothing else; None stands for ValueError.
   */
  function ParseHourMinute(t: string): (r: Option<Time>)
    ensures r.Some? ==> ValidTime(r.value) && r.value.second == 0 && r.value.micro == 0
  {
    var parts := Split(t, ':');
    if |parts| == 2 && HourField(parts[0]) && MinuteField(parts[1]) then
      assert AllDigits(parts[0]) && AllDigits(parts[1]);
      var h := DigitsValue(parts[0]);
      var m := DigitsValue(parts[1]);
      ShortDigitsValue(parts[0]);
      ShortDigitsValue(parts[1]);
      Some(Time(h, m, 0, 0))
    else None
  }

  /** The value of a one- or two-digit field. */
  lemma ShortDigitsValue(s: string)
    requires 1 <= |s| <= 2 && AllDigits(s)
    ensures |s| == 1 ==> DigitsValue(s) == DigitValue(s[0])
    ensures |s| == 2 ==> DigitsValue(s) == DigitValue(s[0]) * 10 + DigitValue(s[1])
  {
    assert s[..1][..0] == [];
    if |s| == 2 {
      assert s[..|s| - 1] == s[..1];
    }
  }

  /** `strftime("%H:%M")` of a time parses back to the same hour and minute. */
  lemma ParseHourMinuteRoundTrip(h: nat, m: nat)
    requires h < 24 && m < 60
    ensures ParseHourMinute(ZeroPad(h, 2) + ":" + ZeroPad(m, 2)) == Some(Time(h, m, 0, 0))
  {
    var hs, ms := ZeroPad(h, 2), ZeroPad(m, 2);
    assert hs == [DigitChar(h / 10), DigitChar(h % 10)] by {
      assert ZeroPad(h / 10, 1) == [DigitChar(h / 10)];
    }
    assert ms == [DigitChar(m / 10), DigitChar(m % 10)] by {
      assert ZeroPad(m / 10, 1) == [DigitChar(m / 10)];
    }
    assert ':' !in hs && ':' !in ms;
    SplitJoin([hs, ms], ':');
    assert Join([hs, ms], ':') == hs + ":" + ms;
  }
}
