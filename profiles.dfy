/** A climate profile: default settings plus a day schedule sorted by time, and
    the selection of the schedule entry active at a time of day. */
module Profiles {
  import opened Common
  import opened Schedules

  const ProfileIdKey := "id"
  const ProfileScheduleKey := "schedule"
  const ProfileDefaultHvacKey := "default_hvac_mode"
  const ProfileDefaultFanModeKey := "default_fan_mode"
  const ProfileDefaultSwingModeKey := "default_swing_mode"
  const ProfileDefaultMinTempKey := "default_min_temp"
  const ProfileDefaultMaxTempKey := "default_max_temp"

  // ---------------------------------------------------------------------------
  // Sorting the schedule by time (Python's stable `list.sort(key=time)`)
  // ---------------------------------------------------------------------------

  predicate SortedByTime(s: seq<Schedule>) {
    forall i, j :: 0 <= i < j < |s| ==> s[i].time <= s[j].time
  }

  /** The entries of `s` whose time is `k`, in their order in `s`. */
  function WithTime(s: seq<Schedule>, k: int): seq<Schedule> {
    if s == [] then []
    else WithTime(s[..|s| - 1], k) + (if s[|s| - 1].time == k then [s[|s| - 1]] else [])
  }

  /** The times of the entries, in order. */
  function Times(s: seq<Schedule>): seq<int> {
    seq(|s|, i requires 0 <= i < |s| => s[i].time)
  }

  /** Places `x` after every entry of the sorted `s` whose time is at most `x.time`. */
  function Insert(x: Schedule, s: seq<Schedule>): (r: seq<Schedule>)
    ensures |r| == |s| + 1
  {
    if s == [] then [x]
    else if x.time < s[0].time then [x] + s
    else [s[0]] + Insert(x, s[1..])
  }

  /** Stable insertion sort by time: the reference for the profile's sort. */
  function SortByTime(s: seq<Schedule>): (r: seq<Schedule>)
    ensures |r| == |s|
    ensures multiset(r) == multiset(s)
  {
    if s == [] then []
    else
      assert s == s[..|s| - 1] + [s[|s| - 1]];
      InsertPermutes(s[|s| - 1], SortByTime(s[..|s| - 1]));
      Insert(s[|s| - 1], SortByTime(s[..|s| - 1]))
  }

  lemma {:induction false} WithTimeAppend(a: seq<Schedule>, b: seq<Schedule>, k: int)
    ensures WithTime(a + b, k) == WithTime(a, k) + WithTime(b, k)
    decreases |b|
  {
    if b == [] {
      assert a + b == a;
    } else {
      var b' := b[..|b| - 1];
      assert (a + b)[..|a + b| - 1] == a + b';
      WithTimeAppend(a, b', k);
    }
  }

  lemma {:induction false} WithTimeAbsent(s: seq<Schedule>, k: int)
    requires forall i :: 0 <= i < |s| ==> s[i].time != k
    ensures WithTime(s, k) == []
    decreases |s|
  {
    if s != [] {
      WithTimeAbsent(s[..|s| - 1], k);
    }
  }

  lemma {:induction false} InsertPermutes(x: Schedule, s: seq<Schedule>)
    ensures multiset(Insert(x, s)) == multiset(s) + multiset{x}
    ensures |Insert(x, s)| == |s| + 1
    ensures Insert(x, s)[0] == if s == [] || x.time < s[0].time then x else s[0]
    decreases |s|
  {
    if s != [] && x.time >= s[0].time {
      InsertPermutes(x, s[1..]);
      assert s == [s[0]] + s[1..];
    }
  }

  lemma {:induction false} InsertSorted(x: Schedule, s: seq<Schedule>)
    requires SortedByTime(s)
    ensures SortedByTime(Insert(x, s))
    decreases |s|
  {
    if s != [] && x.time >= s[0].time {
      var rest := Insert(x, s[1..]);
      InsertSorted(x, s[1..]);
      InsertPermutes(x, s[1..]);
      ConsSorted(s[0], rest);
    }
  }

  /** Putting an entry no later than the head in front of a sorted sequence keeps it sorted. */
  lemma ConsSorted(e: Schedule, s: seq<Schedule>)
    requires SortedByTime(s) && s != [] && e.time <= s[0].time
    ensures SortedByTime([e] + s)
  {
    var r := [e] + s;
    forall i, j | 0 <= i < j < |r| ensures r[i].time <= r[j].time {
      assert r[j] == s[j - 1];
      if i > 0 {
        assert r[i] == s[i - 1];
      }
    }
  }

  /** Inserting `x` keeps the order among the entries of every time and puts `x`
      last among the entries of its own time. */
  lemma {:induction false} InsertStable(x: Schedule, s: seq<Schedule>, k: int)
    requires SortedByTime(s)
    ensures WithTime(Insert(x, s), k) == WithTime(s, k) + (if x.time == k then [x] else [])
    decreases |s|
  {
    if s == [] {
      assert Insert(x, s) == [] + [x];
    } else if x.time < s[0].time {
      InsertFrontStable(x, s, k);
    } else {
      InsertStable(x, s[1..], k);
      WithTimeAppend([s[0]], Insert(x, s[1..]), k);
      WithTimeAppend([s[0]], s[1..], k);
      assert [s[0]] + s[1..] == s;
    }
  }

  lemma InsertFrontStable(x: Schedule, s: seq<Schedule>, k: int)
    requires SortedByTime(s) && s != [] && x.time < s[0].time
    ensures WithTime([x] + s, k) == WithTime(s, k) + (if x.time == k then [x] else [])
  {
    WithTimeAppend([x], s, k);
    assert [x] == [] + [x];
    if x.time == k {
      WithTimeAbsent(s, k);
    }
  }

  /** The sort yields a sorted permutation of its input. */
  lemma {:induction false} SortByTimeSorted(s: seq<Schedule>)
    ensures SortedByTime(SortByTime(s))
    ensures multiset(SortByTime(s)) == multiset(s)
    ensures |SortByTime(s)| == |s|
  {
    SortByTimeOrdered(s);
  }

  /** The sortedness half of `SortByTimeSorted`, by induction on the entries. */
  lemma {:induction false} SortByTimeOrdered(s: seq<Schedule>)
    ensures SortedByTime(SortByTime(s))
    decreases |s|
  {
    if s != [] {
      var init := s[..|s| - 1];
      SortByTimeOrdered(init);
      InsertSorted(s[|s| - 1], SortByTime(init));
    }
  }

  /** The sort is stable: entries with equal times keep their configured order. */
  lemma {:induction false} SortByTimeStable(s: seq<Schedule>, k: int)
    ensures WithTime(SortByTime(s), k) == WithTime(s, k)
    decreases |s|
  {
    if s != [] {
      var init := s[..|s| - 1];
      SortByTimeStable(init, k);
      SortByTimeSorted(init);
      InsertStable(s[|s| - 1], SortByTime(init), k);
    }
  }

  /** How often a time occurs among the entries' times is the number of entries with that time. */
  lemma {:induction false} TimesCount(s: seq<Schedule>, k: int)
    ensures multiset(Times(s))[k] == |WithTime(s, k)|
    decreases |s|
  {
    if s != [] {
      var init := s[..|s| - 1];
      TimesCount(init, k);
      assert Times(s) == Times(init) + [s[|s| - 1].time];
    }
  }

  /** The trigger times of a built profile: its configured entry times, sorted
      ascending, each time as often as it was configured. */
  lemma TriggerTimesSortedPermutation(entries: seq<Schedule>)
    ensures |Times(SortByTime(entries))| == |entries|
    ensures forall i, j :: 0 <= i < j < |entries| ==> Times(SortByTime(entries))[i] <= Times(SortByTime(entries))[j]
    ensures multiset(Times(SortByTime(entries))) == multiset(Times(entries))
  {
    SortByTimeSorted(entries);
    forall k
      ensures multiset(Times(SortByTime(entries)))[k] == multiset(Times(entries))[k]
    {
      TimesCount(SortByTime(entries), k);
      TimesCount(entries, k);
      SortByTimeStable(entries, k);
    }
  }

  // ---------------------------------------------------------------------------
  // Selecting the active entry (reference definition of `_find_schedule`)
  // ---------------------------------------------------------------------------

  /** The last entry whose time is at most `t`, found by scanning from the end. */
  function LastAtOrBefore(s: seq<Schedule>, t: int): (i: nat)
    requires |s| > 0 && s[0].time <= t
    ensures i < |s| && s[i].time <= t
    ensures forall j :: i < j < |s| ==> t < s[j].time
    decreases |s|
  {
    if s[|s| - 1].time <= t then |s| - 1 else LastAtOrBefore(s[..|s| - 1], t)
  }

  /** The position of the active entry: none without entries, the only entry when
      there is one, the last entry when `t` is before the first (the previous day's
      last entry still holds), and otherwise the last entry starting at or before `t`. */
  function ActiveIndex(s: seq<Schedule>, t: int): (r: Option<nat>)
    ensures r.None? <==> s == []
    ensures r.Some? ==> r.value < |s|
  {
    if |s| == 0 then None
    else if |s| == 1 then Some(0)
    else if t < s[0].time then Some(|s| - 1)
    else Some(LastAtOrBefore(s, t))
  }

  function ActiveEntry(s: seq<Schedule>, t: int): Option<Schedule> {
    match ActiveIndex(s, t)
    case None => None
    case Some(i) => Some(s[i])
  }

  /** In a sorted schedule, when `t` is at or after the first entry, the active entry
      starts at the greatest entry time not after `t`, and it is the last entry with
      that time. */
  lemma ActiveIsGreatestAtOrBefore(s: seq<Schedule>, t: int)
    requires SortedByTime(s) && |s| >= 2 && s[0].time <= t
    ensures ActiveIndex(s, t).Some?
    ensures var i := ActiveIndex(s, t).value;
      && s[i].time <= t
      && (forall j :: 0 <= j < |s| && s[j].time <= t ==> s[j].time <= s[i].time)
      && (forall j :: i < j < |s| ==> s[j].time != s[i].time)
  {
  }

  /** The bound is inclusive: at exactly the time of an entry that is the last with
      its time, that entry is active. */
  lemma ActiveAtEntryTime(s: seq<Schedule>, i: nat)
    requires SortedByTime(s) && i < |s|
    requires forall j :: i < j < |s| ==> s[j].time != s[i].time
    ensures ActiveIndex(s, s[i].time) == Some(i)
  {
  }

  /** The last entry of a sequence whose entries with time `k` end at position `i`. */
  lemma {:induction false} WithTimeEndsAt(s: seq<Schedule>, i: nat)
    requires i < |s|
    requires forall j :: i < j < |s| ==> s[j].time != s[i].time
    ensures WithTime(s, s[i].time) != []
    ensures WithTime(s, s[i].time)[|WithTime(s, s[i].time)| - 1] == s[i]
  {
    var k := s[i].time;
    assert s == s[..i + 1] + s[i + 1..];
    WithTimeAppend(s[..i + 1], s[i + 1..], k);
    WithTimeAbsent(s[i + 1..], k);
    assert s[..i + 1][..i] == s[..i];
  }

  /** Collision tie-break: among configured entries that share the active entry's
      time, the one configured last is active. */
  lemma ActiveIsLastConfigured(entries: seq<Schedule>, t: int)
    requires |entries| > 0
    ensures ActiveEntry(SortByTime(entries), t).Some?
    ensures var e := ActiveEntry(SortByTime(entries), t).value;
      && WithTime(entries, e.time) != []
      && e == WithTime(entries, e.time)[|WithTime(entries, e.time)| - 1]
  {
    var s := SortByTime(entries);
    SortByTimeSorted(entries);
    var i := ActiveIndex(s, t).value;
    if |s| == 1 || t < s[0].time {
      assert i == |s| - 1;
    } else {
      ActiveIsGreatestAtOrBefore(s, t);
    }
    WithTimeEndsAt(s, i);
    SortByTimeStable(entries, s[i].time);
  }

  // ---------------------------------------------------------------------------
  // Falling back to the profile defaults
  // ---------------------------------------------------------------------------

  /** No setting of the entry is truthy. */
  predicate SetsNothing(e: Schedule) {
    && !TruthyText(e.hvacMode) && !TruthyText(e.fanMode) && !TruthyText(e.swingMode)
    && !TruthyNumber(e.minTemp) && !TruthyNumber(e.maxTemp)
  }

  /** The entry's own settings where they are truthy, the defaults elsewhere: an
      entry field that is `None`, empty or zero yields the default. */
  function Merge(e: Schedule, defaults: ComputedClimateData): (r: ComputedClimateData)
    ensures TruthyText(e.hvacMode) ==> r.hvacMode == e.hvacMode
    ensures TruthyText(e.fanMode) ==> r.fanMode == e.fanMode
    ensures TruthyText(e.swingMode) ==> r.swingMode == e.swingMode
    ensures TruthyNumber(e.minTemp) ==> r.minTemp == e.minTemp
    ensures TruthyNumber(e.maxTemp) ==> r.maxTemp == e.maxTemp
    ensures !TruthyText(e.hvacMode) ==> r.hvacMode == defaults.hvacMode
    ensures !TruthyText(e.fanMode) ==> r.fanMode == defaults.fanMode
    ensures !TruthyText(e.swingMode) ==> r.swingMode == defaults.swingMode
    ensures !TruthyNumber(e.minTemp) ==> r.minTemp == defaults.minTemp
    ensures !TruthyNumber(e.maxTemp) ==> r.maxTemp == defaults.maxTemp
  {
    ComputedClimateData(
      if TruthyText(e.hvacMode) then e.hvacMode else defaults.hvacMode,
      if TruthyText(e.fanMode) then e.fanMode else defaults.fanMode,
      if TruthyText(e.swingMode) then e.swingMode else defaults.swingMode,
      if TruthyNumber(e.minTemp) then e.minTemp else defaults.minTemp,
      if TruthyNumber(e.maxTemp) then e.maxTemp else defaults.maxTemp)
  }

  // ---------------------------------------------------------------------------
  // The profile
  // ---------------------------------------------------------------------------

  /** What the profile schema guarantees of one profile's configuration. */
  predicate WellFormedProfileConfig(config: Config) {
    && ProfileIdKey in config && config[ProfileIdKey].Text?
    && ProfileScheduleKey in config && config[ProfileScheduleKey].Items?
    && (forall c :: c in config[ProfileScheduleKey].items ==> WellFormedScheduleConfig(c))
    && TextOrAbsent(config, ProfileDefaultHvacKey)
    && TextOrAbsent(config, ProfileDefaultFanModeKey)
    && TextOrAbsent(config, ProfileDefaultSwingModeKey)
    && NumberOrAbsent(config, ProfileDefaultMinTempKey)
    && NumberOrAbsent(config, ProfileDefaultMaxTempKey)
  }

  /** `[ClimateSchedulerSchedule(c) for c in config.get("schedule")]`. */
  function BuildSchedules(configs: seq<Config>): (r: seq<Schedule>)
    requires forall i :: 0 <= i < |configs| ==> WellFormedScheduleConfig(configs[i])
    ensures |r| == |configs|
    ensures forall i :: 0 <= i < |configs| ==> r[i] == FromConfig(configs[i])
    ensures forall i :: 0 <= i < |configs| ==> Get(configs[i], ScheduleTimeKey) == Some(Duration(r[i].time))
  {
    var built := seq(|configs|, i requires 0 <= i < |configs| => FromConfig(configs[i]));
    assert forall i :: 0 <= i < |configs| ==>
             WellFormedScheduleConfig(configs[i]) && built[i] == FromConfig(configs[i]);
    built
  }

  /** `p` is the profile built from `config`: its id and defaults are the configured
      ones and its entries are the configured entries, stably sorted by time. */
  predicate BuiltFrom(p: ClimateSchedulerProfile, config: Config)
    requires WellFormedProfileConfig(config)
  {
    && config[ProfileIdKey] == Text(p.id)
    && p.defaultHvacMode == GetText(config, ProfileDefaultHvacKey)
    && p.defaultFanMode == GetText(config, ProfileDefaultFanModeKey)
    && p.defaultSwingMode == GetText(config, ProfileDefaultSwingModeKey)
    && p.defaultMinTemp == GetNumber(config, ProfileDefaultMinTempKey)
    && p.defaultMaxTemp == GetNumber(config, ProfileDefaultMaxTempKey)
    && p.schedules == SortByTime(BuildSchedules(config[ProfileScheduleKey].items))
  }

  class ClimateSchedulerProfile {
    const id: string
    const defaultHvacMode: Option<string>
    const defaultFanMode: Option<string>
    const defaultSwingMode: Option<string>
    const defaultMinTemp: Option<real>
    const defaultMaxTemp: Option<real>
    /** The schedule entries, sorted by time when the profile is built. */
    const schedules: seq<Schedule>

    predicate Valid() {
      SortedByTime(schedules)
    }

    /** Builds the entries from the configuration and sorts them by time (stably). */
    constructor (config: Config)
      requires WellFormedProfileConfig(config)
      ensures Valid()
      ensures config[ProfileIdKey] == Text(id)
      ensures defaultHvacMode == GetText(config, ProfileDefaultHvacKey)
      ensures defaultFanMode == GetText(config, ProfileDefaultFanModeKey)
      ensures defaultSwingMode == GetText(config, ProfileDefaultSwingModeKey)
      ensures defaultMinTemp == GetNumber(config, ProfileDefaultMinTempKey)
      ensures defaultMaxTemp == GetNumber(config, ProfileDefaultMaxTempKey)
      ensures schedules == SortByTime(BuildSchedules(config[ProfileScheduleKey].items))
      ensures BuiltFrom(this, config)
    {
      id := config[ProfileIdKey].text;
      defaultHvacMode := GetText(config, ProfileDefaultHvacKey);
      defaultFanMode := GetText(config, ProfileDefaultFanModeKey);
      defaultSwingMode := GetText(config, ProfileDefaultSwingModeKey);
      defaultMinTemp := GetNumber(config, ProfileDefaultMinTempKey);
      defaultMaxTemp := GetNumber(config, ProfileDefaultMaxTempKey);
      var built := BuildSchedules(config[ProfileScheduleKey].items);
      SortByTimeSorted(built);
      schedules := SortByTime(built);
    }

    /** The defaults as computed climate; an entry without any truthy setting
        computes exactly these. */
    function Defaults(): (r: ComputedClimateData)
      ensures r.hvacMode == defaultHvacMode && r.fanMode == defaultFanMode && r.swingMode == defaultSwingMode
      ensures r.minTemp == defaultMinTemp && r.maxTemp == defaultMaxTemp
      ensures forall e :: SetsNothing(e) ==> Merge(e, r) == r
    {
      ComputedClimateData(defaultHvacMode, defaultFanMode, defaultSwingMode, defaultMinTemp, defaultMaxTemp)
    }

    /** `get_trigger_times`: the times of the sorted entries, one per entry. */
    function TriggerTimes(): (r: seq<int>)
      requires Valid()
      ensures |r| == |schedules|
      ensures forall i, j :: 0 <= i < j < |r| ==> r[i] <= r[j]
      ensures forall i :: 0 <= i < |r| ==> r[i] == schedules[i].time
    {
      Times(schedules)
    }

    /** `_find_schedule`: scans the sorted entries for one starting at or before
        `timeOfDay` whose successor starts after it, after the cases of no entry,
        one entry and a time before the first entry. */
    method FindSchedule(timeOfDay: int) returns (r: Option<Schedule>)
      requires Valid()
      ensures r == ActiveEntry(schedules, timeOfDay)
    {
      var n := |schedules|;
      if n == 0 {
        return None;
      }
      if n == 1 {
        return Some(schedules[0]);
      }
      if timeOfDay < schedules[0].time {
        return Some(schedules[n - 1]);
      }
      ghost var target := LastAtOrBefore(schedules, timeOfDay);
      for index := 0 to n
        invariant index <= target
      {
        var next: Option<Schedule> := None;
        if index < n - 1 {
          next := Some(schedules[index + 1]);
        }
        if timeOfDay >= schedules[index].time && (next.None? || timeOfDay < next.value.time) {
          return Some(schedules[index]);
        }
      }
      // The scan always returns at `target`: the trailing `return None` of the
      // source is unreachable for a sorted schedule.
      assert false;
    }

    /** `compute_climate`: the defaults when no entry is active, otherwise the
        active entry's truthy settings over the defaults. */
    function ComputeClimate(timeOfDay: int): (r: ComputedClimateData)
      ensures schedules == [] ==> r == Defaults()
      ensures schedules != [] ==> exists e :: e in schedules && r == Merge(e, Defaults())
    {
      match ActiveEntry(schedules, timeOfDay)
      case None => Defaults()
      case Some(e) => Merge(e, Defaults())
    }
  }

  // ---------------------------------------------------------------------------
  // What `compute_climate` promises
  // ---------------------------------------------------------------------------

  /** Without entries, every time of day gets exactly the profile defaults. */
  lemma NoScheduleUsesDefaults(p: ClimateSchedulerProfile, t: int)
    requires p.schedules == []
    ensures p.ComputeClimate(t) == p.Defaults()
  {
  }

  /** With one entry, that entry governs the whole day, before and after its time. */
  lemma SingleScheduleGovernsDay(p: ClimateSchedulerProfile, t1: int, t2: int)
    requires |p.schedules| == 1
    ensures p.ComputeClimate(t1) == p.ComputeClimate(t2) == Merge(p.schedules[0], p.Defaults())
  {
  }

  /** Before the first entry of a multi-entry profile, the last entry is active. */
  lemma ComputeClimateWrapsAround(p: ClimateSchedulerProfile, t: int)
    requires |p.schedules| >= 2 && t < p.schedules[0].time
    ensures p.ComputeClimate(t) == Merge(p.schedules[|p.schedules| - 1], p.Defaults())
  {
  }

  /** At or after the first entry, the settings come from an entry starting at the
      greatest entry time not after `t`. */
  lemma ComputeClimateUsesLatestStarted(p: ClimateSchedulerProfile, t: int)
    requires p.Valid() && |p.schedules| >= 2 && p.schedules[0].time <= t
    ensures exists i ::
      && 0 <= i < |p.schedules|
      && p.schedules[i].time <= t
      && (forall j :: 0 <= j < |p.schedules| && p.schedules[j].time <= t ==> p.schedules[j].time <= p.schedules[i].time)
      && p.ComputeClimate(t) == Merge(p.schedules[i], p.Defaults())
  {
    ActiveIsGreatestAtOrBefore(p.schedules, t);
    var i := ActiveIndex(p.schedules, t).value;
    assert p.ComputeClimate(t) == Merge(p.schedules[i], p.Defaults());
  }

  /** At exactly the time of an entry (the last one with that time), that entry is active. */
  lemma ComputeClimateAtEntryTime(p: ClimateSchedulerProfile, i: nat)
    requires p.Valid() && i < |p.schedules|
    requires forall j :: i < j < |p.schedules| ==> p.schedules[j].time != p.schedules[i].time
    ensures p.ComputeClimate(p.schedules[i].time) == Merge(p.schedules[i], p.Defaults())
  {
    ActiveAtEntryTime(p.schedules, i);
  }
}
