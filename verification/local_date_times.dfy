/** A value model of `java.time.LocalDateTime`: a calendar date in the
    proleptic ISO calendar together with a time of day, without a zone. */
module LocalDateTimes {
  import opened Wrappers

  /** The year range `LocalDateTime` accepts. */
  const MinYear := -999_999_999
  const MaxYear := 999_999_999

  datatype DateTime = DateTime(
    year: int, month: int, day: int,
    hour: int, minute: int, second: int, nano: int)

  /** The ISO leap-year rule. A remainder is zero under Euclidean division
      exactly when it is zero under Java's truncating division, so `%`
      here agrees with the source for negative years too. */
  predicate IsLeapYear(y: int) {
    y % 4 == 0 && (y % 100 != 0 || y % 400 == 0)
  }

  function DaysInMonth(y: int, m: int): (n: int)
    requires 1 <= m <= 12
    ensures 28 <= n <= 31
  {
    if m == 2 then (if IsLeapYear(y) then 29 else 28)
    else if m == 4 || m == 6 || m == 9 || m == 11 then 30
    else 31
  }

  /** The field ranges every `LocalDateTime` satisfies. */
  predicate Valid(t: DateTime) {
    && MinYear <= t.year <= MaxYear
    && 1 <= t.month <= 12
    && 1 <= t.day <= DaysInMonth(t.year, t.month)
    && 0 <= t.hour < 24
    && 0 <= t.minute < 60
    && 0 <= t.second < 60
    && 0 <= t.nano < 1_000_000_000
  }

  /** `LocalDateTime.of(year, month, day, hour, minute)`: seconds and
      nanoseconds are zero, and out-of-range fields throw
      `DateTimeException`, modelled as `None`. */
  function Of(year: int, month: int, day: int, hour: int, minute: int): (r: Option<DateTime>)
    ensures r.Some? ==> Valid(r.value)
  {
    var t := DateTime(year, month, day, hour, minute, 0, 0);
    if Valid(t) then Some(t) else None
  }

  predicate SameDate(a: DateTime, b: DateTime) {
    a.year == b.year && a.month == b.month && a.day == b.day
  }

  /** Calendar date of `a` strictly earlier than that of `b`. */
  predicate DateBefore(a: DateTime, b: DateTime) {
    || a.year < b.year
    || (a.year == b.year && a.month < b.month)
    || (a.year == b.year && a.month == b.month && a.day < b.day)
  }

  /** Time of day of `a` strictly earlier than that of `b`. */
  predicate TimeBefore(a: DateTime, b: DateTime) {
    || a.hour < b.hour
    || (a.hour == b.hour && a.minute < b.minute)
    || (a.hour == b.hour && a.minute == b.minute && a.second < b.second)
    || (a.hour == b.hour && a.minute == b.minute && a.second == b.second && a.nano < b.nano)
  }

  /** `a.isBefore(b)`: date first, then time of day. */
  predicate Before(a: DateTime, b: DateTime) {
    DateBefore(a, b) || (SameDate(a, b) && TimeBefore(a, b))
  }
}
