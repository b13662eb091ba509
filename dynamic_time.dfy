/** Resolution of a schedule entry's time when the entry names another entity
    (an input_datetime) whose state holds the time, plus a signed offset.
    The snapshot's schedule entry holds only a fixed duration; this module
    states the behaviour the repository's tests expect of the dynamic variant. */
module DynamicTime {
  import opened Common
  import opened Clock

  /** An entry's time: a fixed duration since midnight, or an entity whose state holds the time. */
  datatype TimeSpec = Fixed(seconds: int) | FromEntity(entityId: string)

  /** `is_dynamic`: the entry names an entity rather than a fixed duration. Only a
      dynamic entry depends on the host's states: a fixed one always resolves, and
      a dynamic one does not resolve while its entity has no state. */
  predicate IsDynamic(spec: TimeSpec): (b: bool)
    ensures !b ==> forall offset, states :: ResolveTime(spec, offset, states).Some?
    ensures b ==> forall offset :: ResolveTime(spec, offset, map[]) == None
  {
    spec.FromEntity?
  }

  predicate IsDigit(c: char) {
    '0' <= c <= '9'
  }

  function DigitValue(c: char): (d: int)
    requires IsDigit(c)
    ensures 0 <= d < 10
  {
    c as int - '0' as int
  }

  function DigitChar(d: int): (c: char)
    requires 0 <= d < 10
    ensures IsDigit(c) && DigitValue(c) == d
  {
    (d + '0' as int) as char
  }

  /** The two-digit number written at `s[i]`, `s[i + 1]`. */
  function TwoDigits(s: string, i: nat): (n: int)
    requires i + 1 < |s| && IsDigit(s[i]) && IsDigit(s[i + 1])
    ensures 0 <= n < 100
  {
    DigitValue(s[i]) * 10 + DigitValue(s[i + 1])
  }

  /** The text `HH:MM:SS` is well shaped: eight characters, digits around two colons. */
  predicate HmsShape(s: string) {
    && |s| == 8
    && s[2] == ':' && s[5] == ':'
    && IsDigit(s[0]) && IsDigit(s[1])
    && IsDigit(s[3]) && IsDigit(s[4])
    && IsDigit(s[6]) && IsDigit(s[7])
  }

  /** Parses an entity state `HH:MM:SS` into seconds since midnight; any other
      text, or an hour, minute or second out of range, gives `None`. */
  function ParseHms(s: string): (r: Option<int>)
    ensures r.Some? <==> HmsShape(s) && ValidClockTime(HourMinuteSecond(TwoDigits(s, 0), TwoDigits(s, 3), TwoDigits(s, 6)))
    ensures r.Some? ==> 0 <= r.value < SecondsPerDay
    ensures r.Some? ==> r.value == TimeOfDay(HourMinuteSecond(TwoDigits(s, 0), TwoDigits(s, 3), TwoDigits(s, 6)))
  {
    if !HmsShape(s) then None
    else
      var c := HourMinuteSecond(TwoDigits(s, 0), TwoDigits(s, 3), TwoDigits(s, 6));
      if ValidClockTime(c) then Some(TimeOfDay(c)) else None
  }

  function TwoDigitText(n: int): (s: string)
    requires 0 <= n < 100
    ensures |s| == 2 && IsDigit(s[0]) && IsDigit(s[1]) && TwoDigits(s, 0) == n
  {
    [DigitChar(n / 10), DigitChar(n % 10)]
  }

  /** Writes a time of day as an entity state `HH:MM:SS`. */
  function FormatHms(t: int): (s: string)
    requires 0 <= t < SecondsPerDay
    ensures HmsShape(s)
  {
    var c := Split(t);
    TwoDigitText(c.hour) + ":" + TwoDigitText(c.minute) + ":" + TwoDigitText(c.second)
  }

  /** Parsing what `FormatHms` writes gives the time of day back. */
  lemma ParseFormatHms(t: int)
    requires 0 <= t < SecondsPerDay
    ensures ParseHms(FormatHms(t)) == Some(t)
  {
    var c := Split(t);
    var s := FormatHms(t);
    var hh, mm, ss := TwoDigitText(c.hour), TwoDigitText(c.minute), TwoDigitText(c.second);
    assert s == hh + ":" + mm + ":" + ss;
    assert s[0] == hh[0] && s[1] == hh[1];
    assert s[3] == mm[0] && s[4] == mm[1];
    assert s[6] == ss[0] && s[7] == ss[1];
    assert TwoDigits(s, 0) == c.hour && TwoDigits(s, 3) == c.minute && TwoDigits(s, 6) == c.second;
  }

  /** `resolve_time`: the entry's time of day after the offset, taken modulo 24 hours.
      A fixed entry starts from its duration; a dynamic entry starts from the state of
      its entity, and resolves to `None` when the entity is unknown or its state does
      not parse as `HH:MM:SS`. `states` stands for the host's state machine. */
  function ResolveTime(spec: TimeSpec, offset: int, states: map<string, string>): (r: Option<int>)
    ensures r.Some? ==> 0 <= r.value < SecondsPerDay
    ensures spec.Fixed? ==> r == Some((spec.seconds + offset) % SecondsPerDay)
    ensures spec.FromEntity? && spec.entityId !in states ==> r == None
    ensures spec.FromEntity? && spec.entityId in states ==>
              (r.Some? <==> ParseHms(states[spec.entityId]).Some?)
  {
    match spec
    case Fixed(seconds) => Some((seconds + offset) % SecondsPerDay)
    case FromEntity(entityId) =>
      if entityId !in states then None
      else
        match ParseHms(states[entityId])
        case None => None
        case Some(base) => Some((base + offset) % SecondsPerDay)
  }

  /** A fixed entry without offset resolves to its configured time. */
  lemma ResolveFixedUnchanged(seconds: int, states: map<string, string>)
    requires 0 <= seconds < SecondsPerDay
    ensures ResolveTime(Fixed(seconds), 0, states) == Some(seconds)
  {
  }

  /** A dynamic entry whose entity holds the time of day `base` resolves to `base`
      plus the offset, wrapped into the day: a negative offset reaching before
      midnight lands at the end of the previous day, and one reaching past
      midnight lands at the start of the next. */
  lemma ResolveEntityWithOffset(entityId: string, base: int, offset: int, states: map<string, string>)
    requires 0 <= base < SecondsPerDay && -SecondsPerDay <= offset <= SecondsPerDay
    requires entityId in states && states[entityId] == FormatHms(base)
    ensures ResolveTime(FromEntity(entityId), offset, states) ==
              Some(if base + offset < 0 then base + offset + SecondsPerDay
                   else if base + offset >= SecondsPerDay then base + offset - SecondsPerDay
                   else base + offset)
  {
    ParseFormatHms(base);
    WrapIntoDay(base + offset);
  }

  /** Taking a value within one day either side of the day modulo 24 hours
      moves it by at most one day. */
  lemma WrapIntoDay(x: int)
    requires -SecondsPerDay <= x < 2 * SecondsPerDay
    ensures x % SecondsPerDay == if x < 0 then x + SecondsPerDay
                                 else if x >= SecondsPerDay then x - SecondsPerDay
                                 else x
  {
  }

  /** The repository's examples: an entity at 10:30:00 without offset gives 10:30. */
  lemma ResolveExampleEntity()
    ensures ResolveTime(FromEntity("input_datetime.test"), 0,
                        map["input_datetime.test" := "10:30:00"]) == Some(10 * 3600 + 30 * 60)
  {
    assert FormatHms(10 * 3600 + 30 * 60) == "10:30:00";
    ResolveEntityWithOffset("input_datetime.test", 10 * 3600 + 30 * 60, 0,
                            map["input_datetime.test" := "10:30:00"]);
  }

  /** The repository's examples: 10:00 with -30 min gives 09:30. */
  lemma ResolveExampleEarlier()
    ensures ResolveTime(FromEntity("input_datetime.test"), -30 * 60,
                        map["input_datetime.test" := "10:00:00"]) == Some(9 * 3600 + 30 * 60)
  {
    ResolveEntityWithOffset("input_datetime.test", 10 * 3600, -30 * 60,
                            map["input_datetime.test" := "10:00:00"]);
  }

  /** The repository's examples: 00:10 with -20 min wraps to 23:50 of the previous day. */
  lemma ResolveExampleWraps()
    ensures ResolveTime(FromEntity("input_datetime.test"), -20 * 60,
                        map["input_datetime.test" := "00:10:00"]) == Some(23 * 3600 + 50 * 60)
  {
    ResolveEntityWithOffset("input_datetime.test", 10 * 60, -20 * 60,
                            map["input_datetime.test" := "00:10:00"]);
  }

  /** The repository's examples: a missing entity or the state "invalid" resolve to `None`. */
  lemma ResolveExamplesMissing()
    ensures ResolveTime(FromEntity("input_datetime.missing"), 0, map[]) == None
    ensures ResolveTime(FromEntity("input_datetime.invalid"), 0,
                        map["input_datetime.invalid" := "invalid"]) == None
  {
  }
}
