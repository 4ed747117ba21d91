/**
 * Python `datetime` values and the two renderings and one parse the core
 * applies to them: `strftime('%Y%m%d%H%M%S')`, `strftime("%H:%M")` and
 * `datetime.strptime(s, "%H:%M")`. The clock itself is not modelled: every
 * reading of it is a `DateTime` parameter.
 */
module Clock {
  import opened Wrappers
  import opened Text

  predicate IsLeapYear(year: int)
  {
    year % 4 == 0 && (year % 100 != 0 || year % 400 == 0)
  }

  function DaysInMonth(year: int, month: int): (n: int)
    requires 1 <= month <= 12
    ensures 28 <= n <= 31
  {
    if month == 2 then (if IsLeapYear(year) then 29 else 28)
    else if month in {4, 6, 9, 11} then 30
    else 31
  }

  /** The fields of a naive `datetime`. */
  datatype DateTimeFields = DateTimeFields(
    year: int, month: int, day: int,
    hour: int, minute: int, second: int, microsecond: int)
  {
    /** The range checks `datetime`'s constructor performs. */
    predicate IsValid()
    {
      && 1 <= year <= 9999
      && 1 <= month <= 12
      && 1 <= day <= DaysInMonth(year, month)
      && 0 <= hour <= 23
      && 0 <= minute <= 59
      && 0 <= second <= 59
      && 0 <= microsecond <= 999999
    }
  }

  /** A `datetime` object: Python never builds one with out-of-range fields. */
  type DateTime = d: DateTimeFields | d.IsValid()
    witness DateTimeFields(1900, 1, 1, 0, 0, 0, 0)

  /** Two readings of the clock that fall in the same second. */
  predicate SameSecond(a: DateTime, b: DateTime)
  {
    && a.year == b.year && a.month == b.month && a.day == b.day
    && a.hour == b.hour && a.minute == b.minute && a.second == b.second
  }

  /**
   * `t.strftime('%Y%m%d%H%M%S')`: fourteen digits, read from the left as the
   * year, month, day, hour, minute and second.
   */
  function CompactStamp(t: DateTime): (s: string)
    ensures |s| == 14 && forall i :: 0 <= i < 14 ==> IsDigit(s[i])
    ensures Value4(s[..4]) == t.year && Value2(s[4..6]) == t.month && Value2(s[6..8]) == t.day
    ensures Value2(s[8..10]) == t.hour && Value2(s[10..12]) == t.minute && Value2(s[12..]) == t.second
  {
    var y, mo, d, h, mi, se := Pad4(t.year), Pad2(t.month), Pad2(t.day), Pad2(t.hour), Pad2(t.minute), Pad2(t.second);
    var s := y + mo + d + h + mi + se;
    assert s[..4] == y;
    assert s[4..6] == mo;
    assert s[6..8] == d;
    assert s[8..10] == h;
    assert s[10..12] == mi;
    assert s[12..] == se;
    Pad4RoundTrip(t.year);
    Pad2RoundTrip(t.month);
    Pad2RoundTrip(t.day);
    Pad2RoundTrip(t.hour);
    Pad2RoundTrip(t.minute);
    Pad2RoundTrip(t.second);
    s
  }

  /** The stamp determines the reading up to the second, and nothing finer. */
  lemma CompactStampInjective(a: DateTime, b: DateTime)
    ensures CompactStamp(a) == CompactStamp(b) <==> SameSecond(a, b)
  {
  }


  /** `t.strftime("%H:%M")`. */
  function HourMinute(t: DateTime): (s: string)
    ensures |s| == 5 && s[2] == ':'
    ensures IsDigit(s[0]) && IsDigit(s[1]) && IsDigit(s[3]) && IsDigit(s[4])
    ensures Value2(s[..2]) == t.hour && Value2(s[3..]) == t.minute
  {
    var s := Pad2(t.hour) + ":" + Pad2(t.minute);
    assert s[..2] == Pad2(t.hour) && s[3..] == Pad2(t.minute);
    Pad2RoundTrip(t.hour);
    Pad2RoundTrip(t.minute);
    s
  }

  /** A time of day as read by `strptime`. */
  datatype TimeOfDay = TimeOfDay(hour: int, minute: int)

  /** The `%H` field: `2[0-3]`, `[0-1]\d` or a single digit. */
  function HourField(h: string): (r: Option<int>)
    ensures r.Some? ==> 0 <= r.value <= 23
  {
    if |h| == 1 && IsDigit(h[0]) then Some(DigitValue(h[0]))
    else if |h| == 2 && IsDigit(h[0]) && IsDigit(h[1]) && Value2(h) <= 23 then Some(Value2(h))
    else None
  }

  /** The `%M` field: `[0-5]\d` or a single digit. */
  function MinuteField(m: string): (r: Option<int>)
    ensures r.Some? ==> 0 <= r.value <= 59
  {
    if |m| == 1 && IsDigit(m[0]) then Some(DigitValue(m[0]))
    else if |m| == 2 && '0' <= m[0] <= '5' && IsDigit(m[1]) then Some(Value2(m))
    else None
  }

  /**
   * `datetime.strptime(s, "%H:%M")`: the hour and minute when the whole of
   * `s` is an hour field, a colon and a minute field, and `None` where it
   * raises `ValueError`. An hour field is at most two characters long, so
   * the colon sits at index 1 or 2.
   */
  function ParseHourMinute(s: string): (r: Option<TimeOfDay>)
    ensures r.Some? ==> 0 <= r.value.hour <= 23 && 0 <= r.value.minute <= 59
  {
    var k := if |s| >= 2 && s[1] == ':' then 1 else 2;
    if |s| > k && s[k] == ':' && HourField(s[..k]).Some? && MinuteField(s[k + 1..]).Some? then
      Some(TimeOfDay(HourField(s[..k]).value, MinuteField(s[k + 1..]).value))
    else None
  }

  /** The `datetime` that `strptime` builds from a time of day: the date part is 1900-01-01. */
  function OnDefaultDate(t: TimeOfDay): (d: DateTime)
    requires 0 <= t.hour <= 23 && 0 <= t.minute <= 59
    ensures d.hour == t.hour && d.minute == t.minute && d.second == 0 && d.microsecond == 0
    ensures d.year == 1900 && d.month == 1 && d.day == 1
  {
    DateTimeFields(1900, 1, 1, t.hour, t.minute, 0, 0)
  }

  /** Parsing what `strftime("%H:%M")` wrote gives back the hour and minute. */
  lemma ParseHourMinuteOfRendering(t: DateTime)
    ensures ParseHourMinute(HourMinute(t)) == Some(TimeOfDay(t.hour, t.minute))
  {
    var s := HourMinute(t);
    assert s[..2] == Pad2(t.hour) && s[3..] == Pad2(t.minute);
    Pad2RoundTrip(t.hour);
    Pad2RoundTrip(t.minute);
  }

}
