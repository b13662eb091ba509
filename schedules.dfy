/** One schedule entry of a profile: a fixed time of day plus optional climate
    settings, copied once from its configuration and read-only afterwards. */
module Schedules {
  import opened Common

  const ScheduleTimeKey := "time"
  const ScheduleHvacKey := "hvac_mode"
  const ScheduleFanModeKey := "fan_mode"
  const ScheduleSwingModeKey := "swing_mode"
  const ScheduleMinTempKey := "min_temp"
  const ScheduleMaxTempKey := "max_temp"

  /** A schedule entry. Its fields are the entry's read-only accessors; `time`
      is in whole seconds since midnight. */
  datatype Schedule = Schedule(
    time: int,
    hvacMode: Option<string>,
    fanMode: Option<string>,
    swingMode: Option<string>,
    minTemp: Option<real>,
    maxTemp: Option<real>)

  /** What the schedule schema guarantees of one entry's configuration: a time
      duration is present and every optional key holds a value of its type. */
  predicate WellFormedScheduleConfig(config: Config) {
    && ScheduleTimeKey in config && config[ScheduleTimeKey].Duration?
    && TextOrAbsent(config, ScheduleHvacKey)
    && TextOrAbsent(config, ScheduleFanModeKey)
    && TextOrAbsent(config, ScheduleSwingModeKey)
    && NumberOrAbsent(config, ScheduleMinTempKey)
    && NumberOrAbsent(config, ScheduleMaxTempKey)
  }

  /** The entry's constructor: each accessor reads back the configured value
      unchanged, and an optional key absent from the configuration reads back as `None`. */
  function FromConfig(config: Config): (s: Schedule)
    requires WellFormedScheduleConfig(config)
    ensures config[ScheduleTimeKey] == Duration(s.time)
    ensures s.hvacMode.None? <==> ScheduleHvacKey !in config
    ensures s.fanMode.None? <==> ScheduleFanModeKey !in config
    ensures s.swingMode.None? <==> ScheduleSwingModeKey !in config
    ensures s.minTemp.None? <==> ScheduleMinTempKey !in config
    ensures s.maxTemp.None? <==> ScheduleMaxTempKey !in config
    ensures s.hvacMode.Some? ==> config[ScheduleHvacKey] == Text(s.hvacMode.value)
    ensures s.fanMode.Some? ==> config[ScheduleFanModeKey] == Text(s.fanMode.value)
    ensures s.swingMode.Some? ==> config[ScheduleSwingModeKey] == Text(s.swingMode.value)
    ensures s.minTemp.Some? ==> config[ScheduleMinTempKey] == Number(s.minTemp.value)
    ensures s.maxTemp.Some? ==> config[ScheduleMaxTempKey] == Number(s.maxTemp.value)
  {
    Schedule(
      config[ScheduleTimeKey].seconds,
      GetText(config, ScheduleHvacKey),
      GetText(config, ScheduleFanModeKey),
      GetText(config, ScheduleSwingModeKey),
      GetNumber(config, ScheduleMinTempKey),
      GetNumber(config, ScheduleMaxTempKey))
  }
}
