/** Calendar arithmetic on timestamps. A timestamp is a count of milliseconds
    since the Unix epoch (UTC); `offset` is the local zone's distance from
    UTC in milliseconds, so local wall-clock time is `t + offset`. */
module Time {

  const MsPerHour: int := 3_600_000
  const MsPerDay: int := 86_400_000

  /** The local calendar day of `t`, as a day number (the `yyyy-MM-dd` key). */
  function DayOf(t: int, offset: int): int
  {
    (t + offset) / MsPerDay
  }

  /** `getHours()`: the local hour of the day. */
  function HourOf(t: int, offset: int): (h: int)
    ensures 0 <= h < 24
  {
    ((t + offset) % MsPerDay) / MsPerHour
  }

  /** The first millisecond of local day `day`. */
  function StartOfDay(day: int, offset: int): int
  {
    day * MsPerDay - offset
  }

  /** The last millisecond (`23:59:59.999`) of local day `day`. */
  function EndOfDay(day: int, offset: int): int
  {
    (day + 1) * MsPerDay - 1 - offset
  }

  /** `differenceInCalendarDays(later, earlier)`. */
  function CalendarDayDiff(later: int, earlier: int, offset: int): int
  {
    DayOf(later, offset) - DayOf(earlier, offset)
  }

  /** A time is at or after the start of a day exactly when its day is that day or later. */
  lemma AtOrAfterStartOfDay(t: int, day: int, offset: int)
    ensures t >= StartOfDay(day, offset) <==> DayOf(t, offset) >= day
  {
    var x := t + offset;
    assert x == (x / MsPerDay) * MsPerDay + x % MsPerDay;
  }

  /** A time is at or before the end of a day exactly when its day is that day or earlier. */
  lemma AtOrBeforeEndOfDay(t: int, day: int, offset: int)
    ensures t <= EndOfDay(day, offset) <==> DayOf(t, offset) <= day
  {
    var x := t + offset;
    assert x == (x / MsPerDay) * MsPerDay + x % MsPerDay;
  }

  /** Later times never fall on earlier days. */
  lemma DayOfMonotone(t1: int, t2: int, offset: int)
    requires t1 <= t2
    ensures DayOf(t1, offset) <= DayOf(t2, offset)
  {
    AtOrAfterStartOfDay(t2, DayOf(t1, offset), offset);
    AtOrAfterStartOfDay(t1, DayOf(t1, offset), offset);
  }
}
