/** The climate scheduler switch: it holds the profiles, the selected profile,
    the on/off state and the daily time-change registrations of the selected
    profile, and turns the computed climate into climate service calls. */
module Switch {
  import opened Common
  import opened Clock
  import opened Profiles
  import opened Validation

  datatype OnOff = On | Off

  /** The validated platform configuration of one switch. */
  datatype SwitchConfig = SwitchConfig(
    name: string,
    climateEntities: seq<string>,
    defaultState: bool,
    defaultProfile: Option<string>,
    profiles: seq<Config>)

  /** The temperature fields of a `climate.set_temperature` call. */
  datatype TemperatureData =
    | EntityOnly
    | SingleTemperature(temperature: Option<real>)
    | TemperatureRange(minTemp: Option<real>, maxTemp: Option<real>)

  /** A climate service call addressed to one climate entity. */
  datatype ServiceCall =
    | SetHvacMode(entity: string, hvacMode: string)
    | SetFanMode(entity: string, fanMode: string)
    | SetSwingMode(entity: string, swingMode: string)
    | SetTemperature(entity: string, data: TemperatureData)

  /** `_async_set_climate_temperature`: no call without an hvac mode or without any
      temperature; `heat` sets the temperature from the minimum, `cool` from the
      maximum, `heat_cool` sets both bounds, and any other mode sends the entity alone. */
  function TemperatureCall(entity: string, hvacMode: Option<string>,
                           minTemp: Option<real>, maxTemp: Option<real>): (r: Option<ServiceCall>)
    ensures r.None? <==> hvacMode.None? || (minTemp.None? && maxTemp.None?)
    ensures r.Some? ==> r.value.SetTemperature? && r.value.entity == entity
    ensures r.Some? && hvacMode.value == "heat" ==> r.value.data == SingleTemperature(minTemp)
    ensures r.Some? && hvacMode.value == "cool" ==> r.value.data == SingleTemperature(maxTemp)
    ensures r.Some? && hvacMode.value == "heat_cool" ==> r.value.data == TemperatureRange(minTemp, maxTemp)
    ensures r.Some? && hvacMode.value != "heat" && hvacMode.value != "cool" && hvacMode.value != "heat_cool" ==>
              r.value.data == EntityOnly
  {
    if hvacMode.None? then None
    else if minTemp.None? && maxTemp.None? then None
    else if hvacMode.value == "heat" then Some(SetTemperature(entity, SingleTemperature(minTemp)))
    else if hvacMode.value == "cool" then Some(SetTemperature(entity, SingleTemperature(maxTemp)))
    else if hvacMode.value == "heat_cool" then Some(SetTemperature(entity, TemperatureRange(minTemp, maxTemp)))
    else Some(SetTemperature(entity, EntityOnly))
  }

  function OptionalCall(c: Option<ServiceCall>): seq<ServiceCall> {
    match c
    case None => []
    case Some(call) => [call]
  }

  /** The position of a call's kind in the per-entity sequence of calls. */
  function CallRank(c: ServiceCall): nat {
    match c
    case SetHvacMode(_, _) => 0
    case SetFanMode(_, _) => 1
    case SetSwingMode(_, _) => 2
    case SetTemperature(_, _) => 3
  }

  /** How many calls one entity receives for `data`: one per set hvac, fan and swing
      mode, and one temperature call; the same for every entity. */
  function CallsPerEntity(data: ComputedClimateData): nat {
    (if data.hvacMode.Some? then 1 else 0)
    + (if data.fanMode.Some? then 1 else 0)
    + (if data.swingMode.Some? then 1 else 0)
    + (if data.hvacMode.Some? && (data.minTemp.Some? || data.maxTemp.Some?) then 1 else 0)
  }

  /** `_async_update_climate_entity`: the hvac mode, fan mode, swing mode and
      temperature calls for one entity, in that order, each skipped when its
      setting is `None`. */
  function EntityCalls(entity: string, data: ComputedClimateData): (r: seq<ServiceCall>)
    ensures |r| == CallsPerEntity(data)
    ensures forall j :: 0 <= j < |r| ==> r[j].entity == entity
  {
    OptionalCall(if data.hvacMode.Some? then Some(SetHvacMode(entity, data.hvacMode.value)) else None)
    + OptionalCall(if data.fanMode.Some? then Some(SetFanMode(entity, data.fanMode.value)) else None)
    + OptionalCall(if data.swingMode.Some? then Some(SetSwingMode(entity, data.swingMode.value)) else None)
    + OptionalCall(TemperatureCall(entity, data.hvacMode, data.minTemp, data.maxTemp))
  }

  /** Each call carries its setting: there is an hvac mode, fan mode or swing mode
      call exactly when that setting is set, and it carries the set value; there is a
      temperature call exactly when `TemperatureCall` makes one, and it is that call. */
  lemma EntityCallsCarry(entity: string, data: ComputedClimateData)
    ensures var r := EntityCalls(entity, data);
      && (forall c :: c in r && c.SetHvacMode? ==> data.hvacMode == Some(c.hvacMode))
      && (forall c :: c in r && c.SetFanMode? ==> data.fanMode == Some(c.fanMode))
      && (forall c :: c in r && c.SetSwingMode? ==> data.swingMode == Some(c.swingMode))
      && (forall c :: c in r && c.SetTemperature? ==>
            TemperatureCall(entity, data.hvacMode, data.minTemp, data.maxTemp) == Some(c))
      && (data.hvacMode.Some? ==> SetHvacMode(entity, data.hvacMode.value) in r)
      && (data.fanMode.Some? ==> SetFanMode(entity, data.fanMode.value) in r)
      && (data.swingMode.Some? ==> SetSwingMode(entity, data.swingMode.value) in r)
      && (TemperatureCall(entity, data.hvacMode, data.minTemp, data.maxTemp).Some? ==>
            TemperatureCall(entity, data.hvacMode, data.minTemp, data.maxTemp).value in r)
  {
  }

  /** The calls are ordered by their kind's rank, so each kind occurs at most once. */
  predicate Ranked(calls: seq<ServiceCall>) {
    forall i, j :: 0 <= i < j < |calls| ==> CallRank(calls[i]) < CallRank(calls[j])
  }

  lemma ConsRanked(x: Option<ServiceCall>, rest: seq<ServiceCall>)
    requires Ranked(rest)
    requires x.Some? ==> forall c :: c in rest ==> CallRank(x.value) < CallRank(c)
    ensures Ranked(OptionalCall(x) + rest)
  {
    if x.Some? {
      var r := OptionalCall(x) + rest;
      forall i, j | 0 <= i < j < |r| ensures CallRank(r[i]) < CallRank(r[j]) {
        assert r[j] == rest[j - 1];
        if i > 0 {
          assert r[i] == rest[i - 1];
        }
      }
    } else {
      assert OptionalCall(x) + rest == rest;
    }
  }

  /** One entity's calls come in the order hvac mode, fan mode, swing mode,
      temperature, with at most one call of each kind. */
  lemma EntityCallsOrdered(entity: string, data: ComputedClimateData)
    ensures Ranked(EntityCalls(entity, data))
  {
    var hvac := if data.hvacMode.Some? then Some(SetHvacMode(entity, data.hvacMode.value)) else None;
    var fan := if data.fanMode.Some? then Some(SetFanMode(entity, data.fanMode.value)) else None;
    var swing := if data.swingMode.Some? then Some(SetSwingMode(entity, data.swingMode.value)) else None;
    var t := OptionalCall(TemperatureCall(entity, data.hvacMode, data.minTemp, data.maxTemp));
    var sw := OptionalCall(swing) + t;
    var f := OptionalCall(fan) + sw;
    assert EntityCalls(entity, data) == OptionalCall(hvac) + f;
    ConsRanked(swing, t);
    ConsRanked(fan, sw);
    ConsRanked(hvac, f);
  }

  /** The calls for every controlled entity, entity by entity. */
  function ClimateCalls(entities: seq<string>, data: ComputedClimateData): (r: seq<ServiceCall>)
    ensures |r| == |entities| * CallsPerEntity(data)
  {
    if entities == [] then []
    else
      var n := CallsPerEntity(data);
      assert |entities| * n == n + |entities[1..]| * n;
      EntityCalls(entities[0], data) + ClimateCalls(entities[1..], data)
  }

  /** Every call goes to one of the controlled entities. */
  lemma {:induction false} ClimateCallsTargets(entities: seq<string>, data: ComputedClimateData)
    ensures forall j :: 0 <= j < |ClimateCalls(entities, data)| ==> ClimateCalls(entities, data)[j].entity in entities
    decreases |entities|
  {
    if entities != [] {
      var rest := entities[1..];
      ClimateCallsTargets(rest, data);
      var front, back := EntityCalls(entities[0], data), ClimateCalls(rest, data);
      var r := ClimateCalls(entities, data);
      assert r == front + back;
      forall j | 0 <= j < |r|
        ensures r[j].entity in entities
      {
        if j < |front| {
          assert r[j] == front[j];
        } else {
          assert r[j] == back[j - |front|];
          assert back[j - |front|].entity in rest;
        }
      }
    }
  }

  /** Updating two lists of entities one after the other issues the calls of the
      first list, then those of the second. */
  lemma {:induction false} ClimateCallsAppend(a: seq<string>, b: seq<string>, data: ComputedClimateData)
    ensures ClimateCalls(a + b, data) == ClimateCalls(a, data) + ClimateCalls(b, data)
    decreases |a|
  {
    if a == [] {
      assert a + b == b;
    } else {
      assert (a + b)[0] == a[0];
      assert (a + b)[1..] == a[1..] + b;
      ClimateCallsAppend(a[1..], b, data);
    }
  }

  /** Adding one entity at the end adds its calls at the end. */
  lemma ClimateCallsSnoc(entities: seq<string>, entity: string, data: ComputedClimateData)
    ensures ClimateCalls(entities + [entity], data) == ClimateCalls(entities, data) + EntityCalls(entity, data)
  {
    ClimateCallsAppend(entities, [entity], data);
    assert [entity][1..] == [];
  }

  /** Every controlled entity receives exactly its own calls, as one block between
      the calls of the entities before it and those of the entities after it. */
  lemma ClimateCallsSplit(entities: seq<string>, data: ComputedClimateData, i: nat)
    requires i < |entities|
    ensures ClimateCalls(entities, data) ==
              ClimateCalls(entities[..i], data) + EntityCalls(entities[i], data) + ClimateCalls(entities[i + 1..], data)
  {
    assert entities == entities[..i] + [entities[i]] + entities[i + 1..];
    ClimateCallsAppend(entities[..i] + [entities[i]], entities[i + 1..], data);
    ClimateCallsAppend(entities[..i], [entities[i]], data);
    assert [entities[i]][..0] == [];
  }

  /** The daily registrations for a list of trigger times, in order: one per time,
      at the hour, minute and second of the time's seconds part. */
  function Trackers(times: seq<int>): (r: seq<HourMinuteSecond>)
    ensures |r| == |times|
    ensures forall i :: 0 <= i < |times| ==> ValidClockTime(r[i]) && TimeOfDay(r[i]) == DaySeconds(times[i])
  {
    seq(|times|, i requires 0 <= i < |times| => Split(times[i]))
  }

  /** Cancels each registration in `trackers`, one at a time: what stays alive in
      the host is exactly what was alive minus those registrations. */
  method CancelTrackers(host: multiset<HourMinuteSecond>, trackers: seq<HourMinuteSecond>)
    returns (live: multiset<HourMinuteSecond>)
    ensures live == host - multiset(trackers)
  {
    live := host;
    for i := 0 to |trackers|
      invariant live == host - multiset(trackers[..i])
    {
      assert trackers[..i + 1] == trackers[..i] + [trackers[i]];
      live := live - multiset{trackers[i]};
    }
    assert trackers[..|trackers|] == trackers;
  }

  /** Registers one daily tracker per trigger time, in order, at the hour, minute
      and second of the time: the new registrations are `Trackers(times)` and the
      host holds them in addition to what it held. */
  method RegisterTrackers(host: multiset<HourMinuteSecond>, times: seq<int>)
    returns (trackers: seq<HourMinuteSecond>, live: multiset<HourMinuteSecond>)
    ensures trackers == Trackers(times)
    ensures live == host + multiset(trackers)
  {
    trackers, live := [], host;
    for i := 0 to |times|
      invariant trackers == Trackers(times[..i])
      invariant live == host + multiset(trackers)
    {
      var tracker := Split(times[i]);
      trackers := trackers + [tracker];
      live := live + multiset{tracker};
    }
    assert times[..|times|] == times;
  }

  /** The default profile id that is kept (one naming a built profile), the
      profile `current_profile_id` resolves to while no profile is selected (the
      default profile when it is set and non-empty, otherwise the first one), and
      the first registration of that profile's trigger times in an empty host. */
  method InitialProfile(ids: seq<string>, built: map<string, ClimateSchedulerProfile>, requested: Option<string>)
    returns (defaultId: Option<string>, initial: ClimateSchedulerProfile,
             trackers: seq<HourMinuteSecond>, live: multiset<HourMinuteSecond>)
    requires |ids| > 0
    requires forall k :: k in built <==> k in ids
    requires forall k :: k in built ==> built[k].Valid() && built[k].id == k
    ensures defaultId == if requested.Some? && requested.value in built then requested else None
    ensures initial.id == if defaultId.Some? && defaultId.value != "" then defaultId.value else ids[0]
    ensures initial.id in built && built[initial.id] == initial && initial.Valid()
    ensures trackers == Trackers(initial.TriggerTimes()) && live == multiset(trackers)
  {
    defaultId := if requested.Some? && requested.value in built then requested else None;
    var initialId := if defaultId.Some? && defaultId.value != "" then defaultId.value else ids[0];
    initial := built[initialId];
    // The first registration: there are no earlier registrations to cancel.
    trackers, live := RegisterTrackers(multiset{}, initial.TriggerTimes());
    assert multiset{} + multiset(trackers) == multiset(trackers);
  }

  /** The profile dictionary comprehension: one profile per configuration, keyed by
      its id, with the ids in configuration order. With unique ids no profile is
      overwritten, so the profile under each id is the one built from the
      configuration carrying that id. */
  method BuildProfiles(configs: seq<Config>) returns (ids: seq<string>, built: map<string, ClimateSchedulerProfile>)
    requires forall i :: 0 <= i < |configs| ==> WellFormedProfileConfig(configs[i])
    requires !SharedValue(configs, ProfileIdKey)
    ensures |ids| == |configs| && Distinct(ids)
    ensures forall i :: 0 <= i < |ids| ==> Get(configs[i], ProfileIdKey) == Some(Text(ids[i]))
    ensures forall k :: k in built <==> k in ids
    ensures forall k :: k in built ==> built[k].Valid() && built[k].id == k
    ensures forall i :: 0 <= i < |ids| ==> BuiltFrom(built[ids[i]], configs[i])
  {
    ids, built := [], map[];
    for i := 0 to |configs|
      invariant |ids| == i && Distinct(ids)
      invariant forall j :: 0 <= j < i ==> Get(configs[j], ProfileIdKey) == Some(Text(ids[j]))
      invariant forall k :: k in built <==> k in ids
      invariant forall k :: k in built ==> built[k].Valid() && built[k].id == k
      invariant forall j :: 0 <= j < i ==> ids[j] in built && BuiltFrom(built[ids[j]], configs[j])
    {
      ids, built := AddProfile(configs, i, ids, built);
    }
  }

  /** One step of the comprehension: builds the profile of `configs[i]` and enters
      it under its id, which none of the earlier configurations carries. */
  method AddProfile(configs: seq<Config>, i: nat, ids: seq<string>, built: map<string, ClimateSchedulerProfile>)
    returns (ids': seq<string>, built': map<string, ClimateSchedulerProfile>)
    requires i < |configs| && WellFormedProfileConfig(configs[i])
    requires forall j :: 0 <= j < i ==> WellFormedProfileConfig(configs[j])
    requires !SharedValue(configs, ProfileIdKey)
    requires |ids| == i && Distinct(ids)
    requires forall j :: 0 <= j < i ==> Get(configs[j], ProfileIdKey) == Some(Text(ids[j]))
    requires forall k :: k in built <==> k in ids
    requires forall k :: k in built ==> built[k].Valid() && built[k].id == k
    requires forall j :: 0 <= j < i ==> ids[j] in built && BuiltFrom(built[ids[j]], configs[j])
    ensures |ids'| == i + 1 && ids' == ids + [ids'[i]] && Distinct(ids')
    ensures Get(configs[i], ProfileIdKey) == Some(Text(ids'[i]))
    ensures forall k :: k in built' <==> k in ids'
    ensures forall k :: k in built' ==> built'[k].Valid() && built'[k].id == k
    ensures forall j :: 0 <= j <= i ==> ids'[j] in built' && BuiltFrom(built'[ids'[j]], configs[j])
  {
    var p := new ClimateSchedulerProfile(configs[i]);
    forall j | 0 <= j < i ensures ids[j] != p.id {
      assert Get(configs[j], ProfileIdKey) != Get(configs[i], ProfileIdKey);
    }
    ids' := ids + [p.id];
    built' := built[p.id := p];
  }

  class ClimateSchedulerSwitch {
    const name: string
    const climateEntities: seq<string>
    const defaultState: OnOff
    /** The profile ids in configuration order (the keys of the profile dictionary). */
    const profileIds: seq<string>
    const profiles: map<string, ClimateSchedulerProfile>
    /** The configured default profile id, kept only when it names a known profile. */
    const defaultProfileId: Option<string>

    var state: Option<OnOff>
    var currentProfile: ClimateSchedulerProfile?
    /** The registrations this switch holds for the selected profile's trigger times. */
    var scheduleTrackers: seq<HourMinuteSecond>
    /** The daily registrations alive in the host's time tracking. */
    var hostTrackers: multiset<HourMinuteSecond>

    ghost predicate Valid()
      reads this
    {
      && |profileIds| > 0
      && Distinct(profileIds)
      && (forall k :: k in profiles <==> k in profileIds)
      && (forall k :: k in profiles ==> profiles[k].Valid() && profiles[k].id == k)
      && (defaultProfileId.Some? ==> defaultProfileId.value in profiles)
      && (currentProfile != null ==> currentProfile.id in profiles && profiles[currentProfile.id] == currentProfile)
      && multiset(scheduleTrackers) <= hostTrackers
    }

    /** `is_on`: the stored state is ON; the default state alone never makes it hold. */
    function IsOn(): (b: bool)
      reads this
      ensures b ==> state.Some?
      ensures !b ==> state != Some(On)
    {
      state == Some(On)
    }

    /** `state`: the stored state, or the default state while none is stored. So
        `is_on` implies the state reads ON, and the converse fails exactly before the
        first turn on or off of a switch whose default state is ON: it reports ON while
        `is_on` is false, and no climate update runs until it is turned on. */
    function State(): (r: OnOff)
      reads this
      ensures state.Some? ==> r == state.value
      ensures IsOn() ==> r == On
      ensures (r == On && !IsOn()) <==> (state.None? && defaultState == On)
    {
      if state.None? then defaultState else state.value
    }

    /** `current_profile_id`: the selected profile's id; with no profile selected, the
        default profile id when it is set and non-empty, else the first profile id. */
    function CurrentProfileId(): (r: string)
      reads this
      requires Valid()
      ensures r in profiles
      ensures currentProfile != null ==> r == currentProfile.id
      ensures currentProfile == null && defaultProfileId.Some? && defaultProfileId.value != "" ==>
                r == defaultProfileId.value
      ensures currentProfile == null && !(defaultProfileId.Some? && defaultProfileId.value != "") ==>
                r == profileIds[0]
    {
      if currentProfile != null then currentProfile.id
      else if defaultProfileId.Some? && defaultProfileId.value != "" then defaultProfileId.value
      else profileIds[0]
    }

    /** Builds one profile per configuration, drops a default profile id that names
        no profile, selects the profile `current_profile_id` resolves to and
        registers its trigger times. */
    constructor (config: SwitchConfig)
      requires |config.profiles| > 0
      requires forall i :: 0 <= i < |config.profiles| ==> WellFormedProfileConfig(config.profiles[i])
      requires !SharedValue(config.profiles, ProfileIdKey)
      ensures Valid()
      ensures name == config.name && climateEntities == config.climateEntities
      ensures defaultState == (if config.defaultState then On else Off)
      ensures state == None
      ensures |profileIds| == |config.profiles|
      ensures forall i :: 0 <= i < |profileIds| ==> Get(config.profiles[i], ProfileIdKey) == Some(Text(profileIds[i]))
      ensures forall i :: 0 <= i < |profileIds| ==> BuiltFrom(profiles[profileIds[i]], config.profiles[i])
      ensures defaultProfileId ==
                if config.defaultProfile.Some? && config.defaultProfile.value in profiles then config.defaultProfile
                else None
      ensures currentProfile != null
      ensures currentProfile.id ==
                if defaultProfileId.Some? && defaultProfileId.value != "" then defaultProfileId.value
                else profileIds[0]
      ensures scheduleTrackers == Trackers(currentProfile.TriggerTimes())
      ensures hostTrackers == multiset(scheduleTrackers)
    {
      var ids, built := BuildProfiles(config.profiles);
      var defaultId, initial, trackers, live := InitialProfile(ids, built, config.defaultProfile);
      name := config.name;
      climateEntities := config.climateEntities;
      defaultState := if config.defaultState then On else Off;
      profileIds := ids;
      profiles := built;
      defaultProfileId := defaultId;
      state := None;
      currentProfile := initial;
      scheduleTrackers := trackers;
      hostTrackers := live;
    }

    /** `_update_schedule_trackers`: without a selected profile nothing happens;
        otherwise every previous registration is removed from the host and one
        registration per trigger time of the selected profile is made, in order. */
    method UpdateScheduleTrackers()
      requires Valid()
      modifies this
      ensures Valid()
      ensures state == old(state) && currentProfile == old(currentProfile)
      ensures old(currentProfile) == null ==>
                scheduleTrackers == old(scheduleTrackers) && hostTrackers == old(hostTrackers)
      ensures old(currentProfile) != null ==>
                && scheduleTrackers == Trackers(currentProfile.TriggerTimes())
                && hostTrackers == old(hostTrackers) - multiset(old(scheduleTrackers)) + multiset(scheduleTrackers)
    {
      if currentProfile == null {
        return;
      }
      var live := CancelTrackers(hostTrackers, scheduleTrackers);
      var times := currentProfile.TriggerTimes();
      var trackers, registered := RegisterTrackers(live, times);
      scheduleTrackers, hostTrackers := trackers, registered;
    }

    /** `async_update_climate` at the wall-clock time `now`: no calls while the switch
        is off or no profile is selected; otherwise the calls for every controlled
        entity of the selected profile's climate at that time of day. */
    method UpdateClimate(now: HourMinuteSecond) returns (calls: seq<ServiceCall>)
      requires Valid()
      ensures !IsOn() ==> calls == []
      ensures currentProfile == null ==> calls == []
      ensures IsOn() && currentProfile != null ==>
                calls == ClimateCalls(climateEntities, currentProfile.ComputeClimate(TimeOfDay(now)))
    {
      if !IsOn() {
        return [];
      }
      if currentProfile == null {
        return [];
      }
      var data := currentProfile.ComputeClimate(TimeOfDay(now));
      calls := [];
      for i := 0 to |climateEntities|
        invariant calls == ClimateCalls(climateEntities[..i], data)
      {
        assert climateEntities[..i + 1] == climateEntities[..i] + [climateEntities[i]];
        ClimateCallsSnoc(climateEntities[..i], climateEntities[i], data);
        calls := calls + EntityCalls(climateEntities[i], data);
      }
      assert climateEntities[..|climateEntities|] == climateEntities;
    }

    /** `_async_update_profile`: an unknown id changes nothing; a known id selects
        that profile, re-registers its trigger times and updates the climate. */
    method UpdateProfile(newProfileId: string, now: HourMinuteSecond) returns (calls: seq<ServiceCall>)
      requires Valid()
      modifies this
      ensures Valid()
      ensures state == old(state)
      ensures newProfileId !in profiles ==>
                && currentProfile == old(currentProfile)
                && scheduleTrackers == old(scheduleTrackers) && hostTrackers == old(hostTrackers)
                && calls == []
      ensures newProfileId in profiles ==>
                && currentProfile == profiles[newProfileId]
                && CurrentProfileId() == newProfileId
                && scheduleTrackers == Trackers(currentProfile.TriggerTimes())
                && hostTrackers == old(hostTrackers) - multiset(old(scheduleTrackers)) + multiset(scheduleTrackers)
                && calls == if IsOn() then ClimateCalls(climateEntities, currentProfile.ComputeClimate(TimeOfDay(now)))
                            else []
    {
      if newProfileId !in profiles {
        return [];
      }
      currentProfile := profiles[newProfileId];
      UpdateScheduleTrackers();
      calls := UpdateClimate(now);
    }

    /** `async_turn_on`: stores ON and updates the climate at once. */
    method TurnOn(now: HourMinuteSecond) returns (calls: seq<ServiceCall>)
      requires Valid()
      modifies this
      ensures Valid() && state == Some(On) && IsOn() && State() == On
      ensures currentProfile == old(currentProfile)
      ensures scheduleTrackers == old(scheduleTrackers) && hostTrackers == old(hostTrackers)
      ensures calls == if currentProfile == null then []
                       else ClimateCalls(climateEntities, currentProfile.ComputeClimate(TimeOfDay(now)))
    {
      state := Some(On);
      calls := UpdateClimate(now);
    }

    /** `async_turn_off`: stores OFF; no further calls until turned on again. */
    method TurnOff()
      requires Valid()
      modifies this
      ensures Valid() && state == Some(Off) && !IsOn() && State() == Off
      ensures currentProfile == old(currentProfile)
      ensures scheduleTrackers == old(scheduleTrackers) && hostTrackers == old(hostTrackers)
    {
      state := Some(Off);
    }
  }
}
