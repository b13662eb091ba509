/** Configuration validators. Each one returns its input unchanged or raises
    (here: returns `Failure`). Durations arrive already parsed into whole seconds. */
module Validation {
  import opened Common
  import opened Clock
  import opened DynamicTime
  import opened Schedules
  import opened Profiles

  /** `valid_time_or_entity`: the value's reading as a non-negative time period when
      it has one; only otherwise its reading as an entity id. The two readings stand
      for the configuration library's own validators; `None` means they raise. */
  function ValidTimeOrEntity<V>(value: V, positiveTimePeriod: V -> Option<int>,
                                entityId: V -> Option<string>): (r: Result<TimeSpec>)
    ensures positiveTimePeriod(value).Some? ==> r == Success(Fixed(positiveTimePeriod(value).value))
    ensures positiveTimePeriod(value).None? && entityId(value).Some? ==> r == Success(FromEntity(entityId(value).value))
    ensures r.Failure? <==> positiveTimePeriod(value).None? && entityId(value).None?
  {
    match positiveTimePeriod(value)
    case Some(seconds) => Success(Fixed(seconds))
    case None =>
      match entityId(value)
      case Some(id) => Success(FromEntity(id))
      case None => Failure("invalid entity id")
  }

  /** `valid_offset`: accepts an offset of at most 24 hours either way (24 hours
      itself included) and returns it unchanged. */
  function ValidOffset(offset: int): (r: Result<int>)
    ensures r.Success? <==> -SecondsPerDay <= offset <= SecondsPerDay
    ensures r.Success? ==> r.value == offset
  {
    if (if offset < 0 then -offset else offset) > SecondsPerDay then Failure("Offset cannot exceed 24 hours")
    else Success(offset)
  }

  /** `less_than_24h`: accepts a duration strictly under 24 hours (24 hours itself
      is rejected) and returns it unchanged. */
  function LessThan24h(delta: int): (r: Result<int>)
    ensures r.Success? <==> delta < SecondsPerDay
    ensures r.Success? ==> r.value == delta
  {
    if delta >= SecondsPerDay then Failure("Schedule time must be less than 24h") else Success(delta)
  }

  /** The distinct elements of a sequence (Python's `set(...)`). */
  function Elements<T>(s: seq<T>): set<T> {
    set x | x in s
  }

  predicate Distinct<T(==)>(s: seq<T>) {
    forall i, j :: 0 <= i < j < |s| ==> s[i] != s[j]
  }

  /** `len(s) != len(set(s))` holds exactly when two positions of `s` hold the same value. */
  lemma {:induction false} DistinctIffNoShrink<T>(s: seq<T>)
    ensures |Elements(s)| <= |s|
    ensures |Elements(s)| == |s| <==> Distinct(s)
    decreases |s|
  {
    if s != [] {
      var init, last := s[..|s| - 1], s[|s| - 1];
      DistinctIffNoShrink(init);
      assert s == init + [last];
      assert Elements(s) == Elements(init) + {last};
      if last in Elements(init) {
        var i :| 0 <= i < |init| && init[i] == last;
        assert s[i] == s[|s| - 1];
      } else {
        assert |Elements(s)| == |Elements(init)| + 1;
        if Distinct(init) {
          forall i, j | 0 <= i < j < |s| ensures s[i] != s[j] {
            if j == |s| - 1 {
              assert s[i] == init[i];
            } else {
              assert s[i] == init[i] && s[j] == init[j];
            }
          }
        } else {
          var i, j :| 0 <= i < j < |init| && init[i] == init[j];
          assert s[i] == s[j];
        }
      }
    }
  }

  /** `[c.get(key) for c in configs]`. */
  function KeyValues(configs: seq<Config>, key: string): (r: seq<Option<ConfigValue>>)
    ensures |r| == |configs|
    ensures forall i :: 0 <= i < |configs| ==> r[i] == Get(configs[i], key)
  {
    seq(|configs|, i requires 0 <= i < |configs| => Get(configs[i], key))
  }

  /** Two of the configurations agree on `key` (both lacking it counts as agreeing). */
  predicate SharedValue(configs: seq<Config>, key: string) {
    exists i, j :: 0 <= i < j < |configs| && Get(configs[i], key) == Get(configs[j], key)
  }

  function UniqueBy(configs: seq<Config>, key: string, message: string): (r: Result<seq<Config>>)
    ensures r.Failure? <==> SharedValue(configs, key)
    ensures r.Success? ==> r.value == configs
  {
    var values := KeyValues(configs, key);
    DistinctIffNoShrink(values);
    if |values| != |Elements(values)| then Failure(message) else Success(configs)
  }

  /** `unique_profiles`: raises exactly when two profiles share an id; otherwise
      returns the profiles unchanged. */
  function UniqueProfiles(profiles: seq<Config>): (r: Result<seq<Config>>)
    ensures r.Failure? <==> SharedValue(profiles, ProfileIdKey)
    ensures r.Success? ==> r.value == profiles
  {
    UniqueBy(profiles, ProfileIdKey, "Profile names must be unique within scheduler")
  }

  /** `unique_schedule_times`: raises exactly when two entries share a configured
      time value; otherwise returns the entries unchanged. */
  function UniqueScheduleTimes(schedules: seq<Config>): (r: Result<seq<Config>>)
    ensures r.Failure? <==> SharedValue(schedules, ScheduleTimeKey)
    ensures r.Success? ==> r.value == schedules
  {
    UniqueBy(schedules, ScheduleTimeKey, "Schedule times must be unique within a profile")
  }

  /** Each validator is the identity on what it accepts, so validating an accepted
      value again accepts it again, unchanged. */
  lemma ValidatorsIdempotent(delta: int, offset: int, profiles: seq<Config>, schedules: seq<Config>)
    ensures LessThan24h(delta).Success? ==> LessThan24h(LessThan24h(delta).value) == LessThan24h(delta)
    ensures ValidOffset(offset).Success? ==> ValidOffset(ValidOffset(offset).value) == ValidOffset(offset)
    ensures UniqueProfiles(profiles).Success? ==>
              UniqueProfiles(UniqueProfiles(profiles).value) == UniqueProfiles(profiles)
    ensures UniqueScheduleTimes(schedules).Success? ==>
              UniqueScheduleTimes(UniqueScheduleTimes(schedules).value) == UniqueScheduleTimes(schedules)
  {
  }
}
