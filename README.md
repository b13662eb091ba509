# Climate scheduler — a verified model

A Dafny model of the core of the Home Assistant "climate scheduler" custom
component. A scheduler switch holds one or more **profiles**. Each profile is
a list of **schedule entries**, and each entry starts at a time of day and
carries optional climate settings: hvac mode, fan mode, swing mode, minimum
and maximum temperature. The profile also has default settings.

At any moment the selected profile's active entry is the latest entry that
has already started. Before the first entry of the day, the last entry of the
previous day is still active. The entry's settings are merged with the
profile defaults. While the switch is on, the result is sent to every
controlled climate entity as climate service calls. The switch registers one
daily time trigger per entry, so the climate is updated when an entry starts.

Modules, one per source concern:

- `Common` (`common.dfy`): `Option`/`Result`, the computed climate record,
  configuration dictionaries as maps, and Python truthiness of an optional
  text or number.
- `Clock` (`clock.dfy`): times of day in whole seconds. It converts between
  hour/minute/second and seconds, and reduces a duration to its seconds
  within a day the way Python's `timedelta.seconds` does (floor modulo 86400).
- `Schedules` (`schedules.dfy`): the schedule entry record and its
  construction from configuration.
- `DynamicTime` (`dynamic_time.dfy`): entries whose time comes from another
  entity's `HH:MM:SS` state plus a signed offset, wrapped into the day. This
  is the behaviour the repository's tests expect of `resolve_time`.
- `Profiles` (`profiles.dfy`):
  - the profile class;
  - its stable sort of the entries by time;
  - the active-entry rule as a function, and the search loop proved against it;
  - the merge with the defaults.
- `Validation` (`validation.dfy`): the configuration validators.
- `Switch` (`switch.dfy`):
  - the switch class, with its profile registry, on/off state and current profile;
  - the registrations of its daily triggers;
  - the service calls that one climate update issues.

## Model

| member | source | states |
|---|---|---|
| Clock.TimeOfDay | custom_components/climate_scheduler/switch.py:496-497 | an hour, minute and second in range give a time of day within 0 .. 86399 seconds |
| Clock.DaySeconds | custom_components/climate_scheduler/switch.py:462-464 | the seconds part of a duration lies within one day, and a time already within the day is unchanged |
| Clock.Split | custom_components/climate_scheduler/switch.py:462-464 | the hour = s // 3600, minute = s // 60 % 60, second = s % 60 split of a duration's seconds part is a valid clock time that denotes exactly that seconds part |
| Clock.SplitTimeOfDay | custom_components/climate_scheduler/switch.py:462-464 | splitting the time of day of a valid clock time gives that clock time back (split and recombination are inverse) |
| Schedules.FromConfig | custom_components/climate_scheduler/schedule.py:18-55 | each accessor returns the configured value unchanged; an optional key missing from the configuration reads as None and a present key never does |
| DynamicTime.ParseHms | tests/test_schedule.py:31-40 | a text parses exactly when it is shaped HH:MM:SS with hour below 24 and minute and second below 60; the result is hours*3600 + minutes*60 + seconds of its digits, a time within the day |
| DynamicTime.ParseFormatHms | tests/test_schedule.py:31-40 | parsing the HH:MM:SS text of any time of day gives that time back |
| DynamicTime.ResolveTime | tests/test_schedule.py:22-81 | the result lies within the day; a fixed time resolves to (time + offset) mod 24 h; a missing entity resolves to None; an existing entity resolves exactly when its state parses |
| DynamicTime.IsDynamic | tests/test_schedule.py:22-40 | a fixed time is not dynamic and always resolves; an entity time is dynamic and cannot resolve without the entity's state |
| DynamicTime.ResolveFixedUnchanged | tests/test_schedule.py:22-28 | a fixed time of day without offset resolves to itself |
| DynamicTime.ResolveEntityWithOffset | tests/test_schedule.py:43-63 | an entity holding time b with an offset of at most a day resolves to b + offset, moved one day forward or back when it leaves the day |
| DynamicTime.WrapIntoDay | tests/test_schedule.py:56-63 | a value within one day either side of the day, taken mod 24 h, moves by at most one day |
| DynamicTime.ResolveExampleEntity | tests/test_schedule.py:31-40 | the entity state 10:30:00 resolves to 10:30 |
| DynamicTime.ResolveExampleEarlier | tests/test_schedule.py:43-53 | 10:00:00 with a -30 min offset resolves to 09:30 |
| DynamicTime.ResolveExampleWraps | tests/test_schedule.py:56-63 | 00:10:00 with a -20 min offset wraps to 23:50 |
| DynamicTime.ResolveExamplesMissing | tests/test_schedule.py:66-81 | a missing entity and the state "invalid" both resolve to None |
| Profiles.BuildSchedules | custom_components/climate_scheduler/profile.py:54-56 | one entry per configured entry, in configuration order, each the entry built from its configuration (every field the configured value) and carrying the time its configuration gives |
| Profiles.Insert | custom_components/climate_scheduler/profile.py:57 | inserting an entry into a list lengthens it by one |
| Profiles.SortByTime | custom_components/climate_scheduler/profile.py:57 | the sorted list has the same length and the same multiset of entries as the configured list |
| Profiles.InsertPermutes | custom_components/climate_scheduler/profile.py:57 | inserting an entry adds exactly that entry to the multiset of entries and places the earlier of it and the old head first |
| Profiles.InsertSorted | custom_components/climate_scheduler/profile.py:57 | inserting into a time-sorted list keeps it sorted |
| Profiles.InsertStable | custom_components/climate_scheduler/profile.py:57 | insertion keeps the relative order of entries with equal times, placing the inserted entry after them |
| Profiles.SortByTimeOrdered | custom_components/climate_scheduler/profile.py:57 | the sorted entries are ordered by time |
| Profiles.SortByTimeSorted | custom_components/climate_scheduler/profile.py:54-57 | the sorted entries are ordered by time and are a permutation of the configured entries |
| Profiles.SortByTimeStable | custom_components/climate_scheduler/profile.py:57 | for every time, the entries with that time keep their configuration order (Python's sort is stable) |
| Profiles.TimesCount | custom_components/climate_scheduler/profile.py:84-86 | each time occurs in the list of entry times as often as entries carry it |
| Profiles.TriggerTimesSortedPermutation | custom_components/climate_scheduler/profile.py:84-86 | the trigger times of a profile are the configured entry times, one per entry, in ascending order |
| Profiles.LastAtOrBefore | custom_components/climate_scheduler/profile.py:100-112 | the chosen entry has started at the given time and every later entry starts after it |
| Profiles.ActiveIndex | custom_components/climate_scheduler/profile.py:88-114 | an entry is active exactly when the profile has entries, and the active index is in range |
| Profiles.ActiveIsGreatestAtOrBefore | custom_components/climate_scheduler/profile.py:95-112 | with two or more sorted entries and a time not before the first, the active entry is the last one that has started |
| Profiles.ActiveAtEntryTime | custom_components/climate_scheduler/profile.py:109-112 | at an entry's own start time that entry is active (its start is inclusive) |
| Profiles.ActiveIsLastConfigured | custom_components/climate_scheduler/profile.py:54-57 | after sorting, the entry active at any time is the last configured entry among those sharing its start time |
| Profiles.ClimateSchedulerProfile.constructor | custom_components/climate_scheduler/profile.py:44-57 | the id and defaults are read from the configuration and the entries are the configured ones sorted stably by time (`BuiltFrom` the configuration) |
| Profiles.ClimateSchedulerProfile.TriggerTimes | custom_components/climate_scheduler/profile.py:84-86 | one trigger time per entry, in entry order, ascending |
| Profiles.ClimateSchedulerProfile.FindSchedule | custom_components/climate_scheduler/profile.py:88-114 | the search loop returns exactly the active entry, and never falls off its end |
| Profiles.NoScheduleUsesDefaults | custom_components/climate_scheduler/profile.py:66-74 | a profile without entries computes its defaults at every time |
| Profiles.SingleScheduleGovernsDay | custom_components/climate_scheduler/profile.py:92-93 | a profile with one entry computes the same climate all day, before and after the entry's start |
| Profiles.ComputeClimateWrapsAround | custom_components/climate_scheduler/profile.py:97-98 | before the first entry the last entry of the day governs |
| Profiles.ComputeClimateUsesLatestStarted | custom_components/climate_scheduler/profile.py:64-82 | from the first entry on, the computed climate is that of an entry that has started and after which no entry has started |
| Profiles.ComputeClimateAtEntryTime | custom_components/climate_scheduler/profile.py:64-82 | at an entry's start time the climate is that entry merged with the defaults |
| Profiles.Merge | custom_components/climate_scheduler/profile.py:76-82 | each field takes the entry's value when it is truthy and the default otherwise, so None, "" and 0.0 fall back |
| Profiles.ClimateSchedulerProfile.Defaults | custom_components/climate_scheduler/profile.py:68-74 | the five profile defaults, unchanged; merging an entry that sets nothing with them gives them back |
| Profiles.ClimateSchedulerProfile.ComputeClimate | custom_components/climate_scheduler/profile.py:64-82 | a profile without entries computes its defaults; otherwise the result is one of its entries merged with the defaults |
| Validation.ValidTimeOrEntity | custom_components/climate_scheduler/validation.py:11-18 | a value readable as a non-negative duration is a fixed time; only otherwise is it read as an entity id; it fails exactly when neither reading exists |
| Validation.ValidOffset | custom_components/climate_scheduler/validation.py:21-26 | accepts exactly the offsets within ±24 h inclusive and returns them unchanged |
| Validation.LessThan24h | custom_components/climate_scheduler/validation.py:29-33 | accepts exactly the durations below 24 h and returns them unchanged |
| Validation.DistinctIffNoShrink | custom_components/climate_scheduler/validation.py:36-41 | a list has as many elements as its set exactly when no two positions hold equal values |
| Validation.UniqueBy | custom_components/climate_scheduler/validation.py:44-49 | fails exactly when two configurations agree on the key, and otherwise returns the input unchanged |
| Validation.UniqueProfiles | custom_components/climate_scheduler/validation.py:36-41 | fails exactly when two profiles share an id; otherwise returns the profiles unchanged |
| Validation.UniqueScheduleTimes | custom_components/climate_scheduler/validation.py:44-49 | fails exactly when two entries share a time; otherwise returns the entries unchanged |
| Validation.ValidatorsIdempotent | custom_components/climate_scheduler/validation.py:21-49 | validating an accepted value again accepts it again, unchanged |
| Switch.TemperatureCall | custom_components/climate_scheduler/switch.py:532-556 | no call without hvac mode or without any temperature; heat sends the minimum, cool the maximum, heat_cool both bounds, any other mode the entity alone |
| Switch.EntityCalls | custom_components/climate_scheduler/switch.py:506-517 | every call targets the entity; there is one call per set hvac, fan and swing setting, plus one temperature call when hvac mode and some temperature are set, and no other |
| Switch.EntityCallsCarry | custom_components/climate_scheduler/switch.py:506-517 | each hvac, fan and swing call carries the data's value for that setting and the temperature call is the one the temperature rule gives; each set setting and the temperature rule's call are among the calls |
| Switch.EntityCallsOrdered | custom_components/climate_scheduler/switch.py:512-517 | the calls come in the order hvac mode, fan mode, swing mode, temperature, with at most one of each kind |
| Switch.ClimateCalls | custom_components/climate_scheduler/switch.py:500-503 | every controlled entity contributes the same number of calls: the count is the number of entities times the per-entity count |
| Switch.ClimateCallsTargets | custom_components/climate_scheduler/switch.py:500-504 | every call targets one of the controlled entities |
| Switch.ClimateCallsAppend | custom_components/climate_scheduler/switch.py:500-504 | the calls for two lists of entities are the calls for the first list followed by those for the second |
| Switch.ClimateCallsSnoc | custom_components/climate_scheduler/switch.py:500-503 | one more entity at the end adds exactly its entity calls at the end |
| Switch.ClimateCallsSplit | custom_components/climate_scheduler/switch.py:500-504 | every controlled entity receives exactly its own entity calls, as one block between the calls for the entities before it and those after it |
| Switch.Trackers | custom_components/climate_scheduler/switch.py:457-466 | one daily registration per trigger time, each a valid clock time equal to that time's seconds part |
| Switch.CancelTrackers | custom_components/climate_scheduler/switch.py:451-453 | after cancelling, the host holds exactly its previous registrations minus the cancelled ones |
| Switch.RegisterTrackers | custom_components/climate_scheduler/switch.py:455-466 | the new registrations are those of the trigger times in order, and the host holds them in addition to what it held |
| Switch.AddProfile | custom_components/climate_scheduler/switch.py:298-301 | one step of the profile comprehension: the new profile is built from its configuration and entered under its id, which is new, keeping every earlier entry |
| Switch.InitialProfile | custom_components/climate_scheduler/switch.py:304-325 | an unknown default id is dropped; the default profile when set and non-empty, otherwise the first, is selected and is the registry's profile under its id; its trigger times are registered in an empty host |
| Switch.BuildProfiles | custom_components/climate_scheduler/switch.py:298-301 | one profile per configuration, keyed by its own id and built from the configuration carrying that id; the ids are distinct and in configuration order |
| Switch.ClimateSchedulerSwitch.IsOn | custom_components/climate_scheduler/switch.py:339-341 | on exactly when the stored state is ON: never while no state is stored, and always once ON is stored |
| Switch.ClimateSchedulerSwitch.State | custom_components/climate_scheduler/switch.py:351-355 | a stored state is returned as is; is_on implies the state reads ON; the state reads ON while is_on is false exactly when no state is stored and the default is ON |
| Switch.ClimateSchedulerSwitch.CurrentProfileId | custom_components/climate_scheduler/switch.py:357-361 | the id always names a known profile: the selected one, else a non-empty default, else the first configured |
| Switch.ClimateSchedulerSwitch.constructor | custom_components/climate_scheduler/switch.py:279-325 | profiles keyed by id in configuration order, each built from the configuration carrying its id; an unknown default id is dropped; the default or first profile is selected and its triggers registered; no state is stored |
| Switch.ClimateSchedulerSwitch.UpdateScheduleTrackers | custom_components/climate_scheduler/switch.py:446-466 | without a profile nothing changes; otherwise the old registrations are cancelled and exactly the selected profile's trigger times are registered |
| Switch.ClimateSchedulerSwitch.UpdateClimate | custom_components/climate_scheduler/switch.py:481-504 | no call while off or without a profile; otherwise the calls for every entity of the profile's climate at the current time of day |
| Switch.ClimateSchedulerSwitch.UpdateProfile | custom_components/climate_scheduler/switch.py:434-444 | an unknown id changes nothing; a known id becomes the current profile, its triggers replace the old ones and the climate is updated |
| Switch.ClimateSchedulerSwitch.TurnOn | custom_components/climate_scheduler/switch.py:468-473 | ON is stored, so the switch is on and reads ON, and the climate is updated at once; profile and triggers are unchanged |
| Switch.ClimateSchedulerSwitch.TurnOff | custom_components/climate_scheduler/switch.py:475-479 | OFF is stored, so the switch is off and reads OFF; profile and triggers are unchanged |

## Notes on the source

- `state` returns the stored state when one is stored, and the default state
  while none is (`switch.py:351-355`). Until the switch is first turned on or
  off, a switch whose default state is ON reports ON but `is_on` is false. In
  that window no climate update runs (`Switch.ClimateSchedulerSwitch.State`).
- For `heat_cool` the temperature call sends the keys `min_temp` and
  `max_temp` (`switch.py:550-552`), not the climate service's range keys
  `target_temp_low` and `target_temp_high`. The model records the two
  bounds as `TemperatureRange`.
- `profile.py:19` imports `ClimateSchedulerSchedule`, but `schedule.py:15`
  defines `ClimateShedulerSchedule`. `switch.py` carries its own copies of the
  validators, the entry class and the profile class (`switch.py:87-267`).
  Each concept is modelled once. The copy of `unique_schedule_times` in
  `switch.py:100-104` compares `total_seconds()`. Since times are modelled as
  whole seconds, both copies have the same meaning here.
- The schedule entry in `schedule.py` holds only a fixed duration. The
  dynamic time, offset and `resolve_time` behaviour comes from
  `tests/test_schedule.py`. It is modelled on its own in `DynamicTime` and
  is not wired into the profile.

## Left out

- Home Assistant plumbing: entity registration, the profile input-select
  entity and its state-change subscription, state attributes, entity ids and
  icons, `async_schedule_update_ha_state`, and logging.
- Restoring the previous state on start-up (`async_added_to_hass`): it goes
  through the host's state storage.
- The periodic update interval (`async_track_time_interval`). Time triggers
  are modelled as the multiset of registrations alive in the host
  (`hostTrackers`), and the callbacks they fire are not modelled.
- Concurrency: the per-entity updates are awaited together with
  `asyncio.wait`, so their relative order is not fixed. `ClimateCalls` lists
  them entity by entity. Within one entity the order (hvac, fan, swing,
  temperature) is the code's.
- `asyncio.wait` on an empty task list: with no controlled entities the code
  raises, while the model issues no call. An absent `climate_entities`
  option is modelled as an empty list; the code would fail to iterate it.
- The clock: `now()` becomes the parameter `now` of the climate updates.
- Floating point: temperatures are `real`, and only their truthiness
  (0.0 is falsy) matters.
- Configuration parsing: `cv.positive_time_period`, `cv.time_period`,
  `cv.entity_id`, `cv.string` and `vol.Coerce(float)` are configuration
  library code. Durations arrive as whole seconds.
  - `ValidTimeOrEntity` takes the two readings as function parameters.
  - The constructors require the configuration shape the schemas guarantee
    (`WellFormedProfileConfig`, unique profile ids, at least one profile).
- Sub-second durations: times are whole seconds.
- Profiles.ClimateSchedulerProfile.constructor: the in-place `list.sort` is
  modelled as assigning the stably sorted sequence `SortByTime` of the built
  entries. Update in place is not captured; the result is.
- DynamicTime.ParseHms: the time parser the host uses for entity states is not
  part of this model; the strict `HH:MM:SS` reading with range checks is an
  assumption about it.
- The climate service calls are modelled as `ServiceCall` records and not
  dispatched. `_async_set_climate_hvac_mode`, `_async_set_climate_fan_mode`
  and `_async_set_climate_swing_mode` appear only as the records they would
  send.
