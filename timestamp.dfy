/** The Timestamp class: conversion between a DateTime and Unix time.

    A DateTime is its tick count (units of 100 ns since 0001-01-01 00:00:00), read as UTC.
    The conversion to and from local time done by ToUniversalTime/ToLocalTime is not part of
    this model. */
module Timestamp {
  import opened Text

  const TicksPerSecond: int := 10_000_000
  const SecondsPerDay: int := 86_400
  /** DateTime.MaxValue.Ticks: 9999-12-31 23:59:59.9999999. */
  const MaxTicks: int := 3_155_378_975_999_999_999
  /** The ticks of 1970-01-01 00:00:00. */
  const EpochTicks: int := 621_355_968_000_000_000

  const Int32Min: int := -0x8000_0000
  const Int32Max: int := 0x7FFF_FFFF

  predicate IsInt32(n: int) { Int32Min <= n <= Int32Max }

  predicate IsTicks(t: int) { 0 <= t <= MaxTicks }

  /** Division rounding toward zero, as C#'s `/` on integers and Math.Truncate do. */
  function TruncDiv(a: int, b: int): (q: int)
    requires b > 0
    ensures a >= 0 ==> 0 <= a - q * b < b
    ensures a < 0 ==> -b < a - q * b <= 0
  {
    if a >= 0 then a / b else -((-a) / b)
  }

  /** The `(int)` cast of a double: exact within the Int32 range; outside it the x86/x64
      conversion yields the "integer indefinite" value 0x80000000. */
  function CastToInt32(x: int): (r: int)
    ensures IsInt32(r)
    ensures IsInt32(x) ==> r == x
  {
    if IsInt32(x) then x else Int32Min
  }

  /** The whole seconds from 1970-01-01 to `ticks`, truncated toward zero: the value of
      Math.Truncate(datetime.Subtract(new DateTime(1970, 1, 1)).TotalSeconds). */
  function UnixSeconds(ticks: int): int
  {
    TruncDiv(ticks - EpochTicks, TicksPerSecond)
  }

  /** Timestamp.UnixTimeFromDateTime. */
  function UnixTimeFromDateTime(ticks: int): (r: int)
    ensures IsInt32(r)
    ensures IsInt32(UnixSeconds(ticks)) ==> r == UnixSeconds(ticks)
  {
    CastToInt32(UnixSeconds(ticks))
  }

  /** Timestamp.DateTimeFromUnixTime: 1970-01-01 UTC plus `unixtime` seconds. */
  function DateTimeFromUnixTime(unixtime: int): (ticks: int)
    requires IsInt32(unixtime)
    ensures IsTicks(ticks)
  {
    EpochTicks + unixtime * TicksPerSecond
  }

  /** Converting seconds to a DateTime and back gives the same seconds. */
  lemma UnixTimeRoundTrip(u: int)
    requires IsInt32(u)
    ensures UnixTimeFromDateTime(DateTimeFromUnixTime(u)) == u
  {
    var d := DateTimeFromUnixTime(u) - EpochTicks;
    assert d == u * TicksPerSecond;
    if d >= 0 {
      assert d / TicksPerSecond == u;
    } else {
      assert (-d) / TicksPerSecond == -u;
    }
  }

  /** Converting a DateTime to seconds and back drops its sub-second part: the result is
      the same instant moved toward 1970-01-01 by less than one second, and it lies on a
      whole second. */
  lemma DateTimeRoundTrip(ticks: int)
    requires IsTicks(ticks) && IsInt32(UnixSeconds(ticks))
    ensures var back := DateTimeFromUnixTime(UnixTimeFromDateTime(ticks));
      && (back - EpochTicks) % TicksPerSecond == 0
      && (ticks >= EpochTicks ==> back <= ticks < back + TicksPerSecond)
      && (ticks < EpochTicks ==> back - TicksPerSecond < ticks <= back)
  {
    var u := UnixSeconds(ticks);
    assert DateTimeFromUnixTime(u) - EpochTicks == u * TicksPerSecond;
  }

  predicate IsLeapYear(y: int) { y % 4 == 0 && (y % 100 != 0 || y % 400 == 0) }

  function DaysInMonth(y: int, m: int): int
    requires 1 <= m <= 12
  {
    if m == 2 then (if IsLeapYear(y) then 29 else 28)
    else if m == 4 || m == 6 || m == 9 || m == 11 then 30
    else 31
  }

  /** The arguments `new DateTime(year, month, day, hour, minute, second)` accepts. */
  predicate ValidDateTime(y: int, mo: int, d: int, h: int, mi: int, s: int)
  {
    1 <= y <= 9999 && 1 <= mo <= 12 && 1 <= d <= DaysInMonth(y, mo)
    && 0 <= h < 24 && 0 <= mi < 60 && 0 <= s < 60
  }

  function DaysBeforeYear(y: int): int
  {
    var p := y - 1;
    365 * p + p / 4 - p / 100 + p / 400
  }

  function DaysBeforeMonth(y: int, m: int): int
    requires 1 <= m <= 12
  {
    [0, 31, 59, 90, 120, 151, 181, 212, 243, 273, 304, 334][m - 1]
    + (if IsLeapYear(y) && m > 2 then 1 else 0)
  }

  /** The ticks of `new DateTime(y, mo, d, h, mi, s)` (proleptic Gregorian calendar). */
  function DateTicks(y: int, mo: int, d: int, h: int, mi: int, s: int): int
    requires ValidDateTime(y, mo, d, h, mi, s)
  {
    ((DaysBeforeYear(y) + DaysBeforeMonth(y, mo) + d - 1) * SecondsPerDay
     + h * 3600 + mi * 60 + s) * TicksPerSecond
  }

  lemma EpochIsNewYear1970()
    ensures DateTicks(1970, 1, 1, 0, 0, 0) == EpochTicks
  {
  }

  /** 2012-12-21 12:12:12 UTC is Unix time 1356091932, and it converts back exactly. */
  lemma DoomsdayExample()
    ensures UnixTimeFromDateTime(DateTicks(2012, 12, 21, 12, 12, 12)) == 1356091932
    ensures DateTimeFromUnixTime(1356091932) == DateTicks(2012, 12, 21, 12, 12, 12)
  {
  }

  /** The calendar date of a day count since 0001-01-01, as (year, month, day). */
  function CivilFromDays(days: nat): (int, int, int)
  {
    var z := days + 306;
    var era := z / 146097;
    var doe := z - era * 146097;
    var yoe := (doe - doe / 1460 + doe / 36524 - doe / 146096) / 365;
    var doy := doe - (365 * yoe + yoe / 4 - yoe / 100);
    var mp := (5 * doy + 2) / 153;
    var d := doy - (153 * mp + 2) / 5 + 1;
    var m := if mp < 10 then mp + 3 else mp - 9;
    var y := yoe + era * 400 + (if m <= 2 then 1 else 0);
    (y, m, d)
  }

  /** DateTime.ToString() in the invariant culture: "MM/dd/yyyy HH:mm:ss". */
  function DateTimeText(ticks: int): string
    requires IsTicks(ticks)
  {
    var secs := ticks / TicksPerSecond;
    var (y, m, d) := CivilFromDays(secs / SecondsPerDay);
    var sod := secs % SecondsPerDay;
    Padded(if m < 0 then 0 else m, 2) + "/" + Padded(if d < 0 then 0 else d, 2) + "/"
    + Padded(if y < 0 then 0 else y, 4) + " "
    + Padded(sod / 3600, 2) + ":" + Padded(sod / 60 % 60, 2) + ":" + Padded(sod % 60, 2)
  }
}
