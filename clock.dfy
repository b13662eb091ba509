/** Time of day as whole seconds since midnight, and its split into hour,
    minute and second. */
module Clock {

  const SecondsPerDay: int := 24 * 60 * 60

  /** An hour, minute and second, as handed to a daily time-change registration. */
  datatype HourMinuteSecond = HourMinuteSecond(hour: int, minute: int, second: int)

  predicate ValidClockTime(c: HourMinuteSecond) {
    0 <= c.hour < 24 && 0 <= c.minute < 60 && 0 <= c.second < 60
  }

  /** `timedelta(hours=h, minutes=m, seconds=s)` in whole seconds. */
  function TimeOfDay(c: HourMinuteSecond): (t: int)
    ensures ValidClockTime(c) ==> 0 <= t < SecondsPerDay
  {
    c.hour * 3600 + c.minute * 60 + c.second
  }

  /** `timedelta.seconds`: the seconds part of a duration, whole days removed
      (floor semantics, so it is never negative). */
  function DaySeconds(t: int): (s: int)
    ensures 0 <= s < SecondsPerDay
    ensures 0 <= t < SecondsPerDay ==> s == t
  {
    t % SecondsPerDay
  }

  /** The split `hour = s // 3600`, `minute = s // 60 % 60`, `second = s % 60`
      of the seconds part of `t`; it is a valid clock time that adds back up to it. */
  function Split(t: int): (c: HourMinuteSecond)
    ensures ValidClockTime(c)
    ensures TimeOfDay(c) == DaySeconds(t)
  {
    var s := DaySeconds(t);
    HourMinuteSecond(s / 3600, s / 60 % 60, s % 60)
  }

  /** Splitting a time of day built from a valid clock time gives that clock time back. */
  lemma SplitTimeOfDay(c: HourMinuteSecond)
    requires ValidClockTime(c)
    ensures Split(TimeOfDay(c)) == c
  {
    assert DaySeconds(TimeOfDay(c)) == TimeOfDay(c);
  }
}
