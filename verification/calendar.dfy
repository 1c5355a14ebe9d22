/** The calendar fields of a timestamp, as pandas' datetime accessors give them
    for `pd.to_datetime(ts, unit='ms', origin='unix')`: proleptic Gregorian
    calendar, UTC, hour 0..23, day of month 1..31, ISO-8601 week 1..53, month
    1..12, weekday with Monday = 0. Division on `int` is floor division for a
    positive divisor, so timestamps before 1970 are decomposed as pandas does. */
module Calendar {
  import opened Rows

  const MsPerHour: int := 3_600_000
  const MsPerDay: int := 86_400_000
  /** Days from 0000-01-01 to 1970-01-01. */
  const DaysBeforeEpoch: int := 719_528
  /** Days in a 400-year Gregorian cycle. */
  const DaysPerCycle: int := 146_097

  predicate IsLeap(y: int) { y % 4 == 0 && (y % 100 != 0 || y % 400 == 0) }

  function YearLength(y: int): int { if IsLeap(y) then 366 else 365 }

  /** Days of the year before the first of month `m` (m == 13: the whole year). */
  function DaysBeforeMonth(m: int, leap: bool): (d: int)
    requires 1 <= m <= 13
    ensures 0 <= d <= 366
  {
    var common := match m
      case 1 => 0   case 2 => 31  case 3 => 59  case 4 => 90
      case 5 => 120 case 6 => 151 case 7 => 181 case 8 => 212
      case 9 => 243 case 10 => 273 case 11 => 304 case 12 => 334
      case _ => 365;
    if leap && m > 2 then common + 1 else common
  }

  /** Splits a day count from the first of January of year `y` into a year and
      a zero-based day of that year. */
  function YearAndDay(day: nat, y: int): (r: (int, nat))
    ensures r.1 < YearLength(r.0)
    decreases day
  {
    if day < YearLength(y) then (y, day) else YearAndDay(day - YearLength(y), y + 1)
  }

  /** The month, from `m` on, that contains zero-based day `doy` of the year. */
  function MonthOf(doy: nat, leap: bool, m: int): (r: int)
    requires 1 <= m <= 12 && DaysBeforeMonth(m, leap) <= doy < DaysBeforeMonth(13, leap)
    ensures 1 <= r <= 12 && DaysBeforeMonth(r, leap) <= doy < DaysBeforeMonth(r + 1, leap)
    decreases 12 - m
  {
    if m == 12 || doy < DaysBeforeMonth(m + 1, leap) then m else MonthOf(doy, leap, m + 1)
  }

  /** Weekday (Monday = 0) of a day counted from 1970-01-01, a Thursday. */
  function WeekdayOfDay(days: int): (wd: int)
    ensures 0 <= wd <= 6
  {
    (days + 3) % 7
  }

  /** Number of ISO weeks in year `y`, given the weekday of its first of January. */
  function IsoWeeksInYear(y: int, jan1: int): (n: int)
    ensures n == 52 || n == 53
  {
    if jan1 == 3 || (IsLeap(y) && jan1 == 2) then 53 else 52
  }

  /** ISO week of the day with zero-based day-of-year `doy` and weekday `wd` in year `y`. */
  function IsoWeek(y: int, doy: nat, wd: int): (w: int)
    requires 0 <= wd <= 6
    ensures 1 <= w <= 53
  {
    var jan1 := (wd - doy) % 7;
    var w := (doy + 1 - (wd + 1) + 10) / 7;
    if w < 1 then IsoWeeksInYear(y - 1, (jan1 - YearLength(y - 1)) % 7)
    else if w > IsoWeeksInYear(y, jan1) then 1
    else w
  }

  /** Length of month `m`. */
  function MonthLength(m: int, leap: bool): (n: int)
    requires 1 <= m <= 12
    ensures 28 <= n <= 31
  {
    DaysBeforeMonth(m + 1, leap) - DaysBeforeMonth(m, leap)
  }

  /** Year and zero-based day of the year of a day counted from 1970-01-01. */
  function CivilDay(days: int): (r: (int, nat))
    ensures r.1 < YearLength(r.0)
  {
    var z := days + DaysBeforeEpoch;
    YearAndDay(z % DaysPerCycle, (z / DaysPerCycle) * 400)
  }

  /** Month and one-based day of the month of zero-based day `doy` of a year. */
  function MonthAndDay(doy: nat, leap: bool): (r: (int, int))
    requires doy < DaysBeforeMonth(13, leap)
    ensures 1 <= r.0 <= 12 && 1 <= r.1 <= MonthLength(r.0, leap)
  {
    var month := MonthOf(doy, leap, 1);
    (month, doy - DaysBeforeMonth(month, leap) + 1)
  }

  /** The row of the time table for a timestamp. */
  function TimeRowOf(ts: Timestamp): (r: TimeRow)
    ensures 0 <= r.hour <= 23 && 1 <= r.day <= 31 && 1 <= r.week <= 53
    ensures 1 <= r.month <= 12 && 0 <= r.weekday <= 6
    ensures r.day <= MonthLength(r.month, IsLeap(r.year))
  {
    var days := ts / MsPerDay;
    var yd := CivilDay(days);
    var leap := IsLeap(yd.0);
    var md := MonthAndDay(yd.1, leap);
    var weekday := WeekdayOfDay(days);
    TimeRow((ts / MsPerHour) % 24, md.1, IsoWeek(yd.0, yd.1, weekday), md.0, yd.0, weekday)
  }
}
