/** Calendar arithmetic. Instants and naive wall-clock readings are counts of microseconds
    since 1970-01-01 00:00, in UTC or in the organization's zone respectively; dates are day
    numbers. Microseconds are the resolution of the datetimes the services use. */
module Clock {

  const MINUTE: int := 60_000_000

  const DAY: int := 1440 * MINUTE

  /** What a `time` object holds, seconds and microseconds included. */
  type TimeOfDay = t: int | 0 <= t < DAY

  /** The naive datetime of a date and a time counted from its midnight. */
  function Combine(date: int, t: int): int { date * DAY + t }

  /** The naive datetime m minutes into a date. */
  function WallStart(date: int, m: int): int { Combine(date, m * MINUTE) }

  /** The date part of a naive datetime (division by a positive number rounds down). */
  function DateOf(wall: int): int { wall / DAY }

  /** hour * 60 + minute of a time of day: seconds are dropped. */
  function MinuteOf(t: TimeOfDay): int { t / MINUTE }

  function MinuteOfDay(wall: int): int { MinuteOf(wall % DAY) }

  /** The time of day with these hour and minute fields, which must be in range. */
  function TimeOf(hour: int, minute: int): TimeOfDay
    requires 0 <= hour <= 23 && 0 <= minute <= 59
  {
    (hour * 60 + minute) * MINUTE
  }

  /** 0 is Monday; day 0 was a Thursday. */
  function Weekday(date: int): int { (date + 3) % 7 }

  predicate WholeMinute(wall: int) { wall % MINUTE == 0 }

  /** A Monday. */
  const MONDAY: int := 4

  predicate InWeek(date: int, dayOfWeek: int, week: int) { date == MONDAY + dayOfWeek + 7 * week }

  /** The date is this day of the week, counted from Monday: a whole number of weeks from the first such day. */
  ghost predicate FallsOn(date: int, dayOfWeek: int) {
    0 <= dayOfWeek < 7 && exists week :: InWeek(date, dayOfWeek, week)
  }

  lemma WeekdayIsExact(date: int, dayOfWeek: int)
    ensures Weekday(date) == dayOfWeek <==> FallsOn(date, dayOfWeek)
  {
    if Weekday(date) == dayOfWeek {
      assert InWeek(date, dayOfWeek, (date + 3) / 7 - 1);
    }
  }
}
