/**
 * Calendar arithmetic on instants written as whole minutes since
 * 1970-01-01T00:00Z, the only time zone the segment generator uses.
 */
module Clock {

  const MinutesPerDay: int := 1440

  /** The UTC calendar day (days since the epoch) an instant falls on. */
  function DayOf(t: int): (d: int)
    ensures d * MinutesPerDay <= t < (d + 1) * MinutesPerDay
  {
    t / MinutesPerDay
  }

  /** Midnight UTC of the day `t` falls on (dayjs `startOf('day')`). */
  function StartOfDay(t: int): (m: int)
    ensures m <= t < m + MinutesPerDay
    ensures m % MinutesPerDay == 0
  {
    DayOf(t) * MinutesPerDay
  }

  /** Minutes elapsed since midnight UTC. */
  function TimeOfDay(t: int): (m: int)
    ensures 0 <= m < MinutesPerDay
    ensures t == StartOfDay(t) + m
  {
    t - StartOfDay(t)
  }

  /**
   * ISO 8601 weekday (Monday = 1 ... Sunday = 7) of an epoch day;
   * 1970-01-01 was a Thursday.
   */
  function IsoWeekday(epochDay: int): (w: int)
    ensures 1 <= w <= 7
  {
    (epochDay + 3) % 7 + 1
  }

  /** Consecutive days have consecutive weekdays, Sunday wrapping to Monday. */
  lemma IsoWeekdayNext(e: int)
    ensures IsoWeekday(e + 1) == if IsoWeekday(e) == 7 then 1 else IsoWeekday(e) + 1
  {
  }

  /** Weekdays repeat every seven days. */
  lemma IsoWeekdayPeriodic(e: int, weeks: int)
    ensures IsoWeekday(e + 7 * weeks) == IsoWeekday(e)
  {
  }

  /** Shifting an instant by whole days shifts its calendar day and keeps its time of day. */
  lemma ShiftByDays(t: int, days: int)
    ensures DayOf(t + days * MinutesPerDay) == DayOf(t) + days
    ensures TimeOfDay(t + days * MinutesPerDay) == TimeOfDay(t)
  {
    var d := DayOf(t);
    assert d * MinutesPerDay <= t < (d + 1) * MinutesPerDay;
    assert (d + days) * MinutesPerDay <= t + days * MinutesPerDay < (d + days + 1) * MinutesPerDay;
    UniqueDay(t + days * MinutesPerDay, d + days);
  }

  /** The calendar day of an instant is the only day whose span contains it. */
  lemma UniqueDay(t: int, d: int)
    requires d * MinutesPerDay <= t < (d + 1) * MinutesPerDay
    ensures DayOf(t) == d
  {
  }
}
