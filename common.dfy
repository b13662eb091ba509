/** Shared value types of the climate scheduler: optional values, validation
    results, the computed climate record and the already-parsed configuration. */
module Common {

  datatype Option<+T> = None | Some(value: T)

  /** The outcome of a validator: the (unchanged) value, or the message it raises. */
  datatype Result<+T> = Success(value: T) | Failure(error: string)

  /** ComputedClimateData: the five settings a profile resolves to at a time of day.
      Temperatures are never used in arithmetic, only read for their truthiness. */
  datatype ComputedClimateData = ComputedClimateData(
    hvacMode: Option<string>,
    fanMode: Option<string>,
    swingMode: Option<string>,
    minTemp: Option<real>,
    maxTemp: Option<real>)

  /** Truthiness of an optional text value: `None` and the empty string are false. */
  predicate TruthyText(v: Option<string>) {
    v.Some? && v.value != ""
  }

  /** Truthiness of an optional number: `None` and zero are false. */
  predicate TruthyNumber(v: Option<real>) {
    v.Some? && v.value != 0.0
  }

  /** A configuration value as the configuration schema leaves it: a duration in
      whole seconds, a string, a number, or a nested list of configuration maps. */
  datatype ConfigValue =
    | Duration(seconds: int)
    | Text(text: string)
    | Number(number: real)
    | Items(items: seq<map<string, ConfigValue>>)

  /** One configuration mapping (a schedule entry, a profile). */
  type Config = map<string, ConfigValue>

  /** `config.get(key)`: the value under `key`, or `None` when the key is absent. */
  function Get(config: Config, key: string): Option<ConfigValue> {
    if key in config then Some(config[key]) else None
  }

  /** The keys under which the schema stores a string. */
  predicate TextOrAbsent(config: Config, key: string) {
    key in config ==> config[key].Text?
  }

  /** The keys under which the schema stores a (coerced) float. */
  predicate NumberOrAbsent(config: Config, key: string) {
    key in config ==> config[key].Number?
  }

  /** `config.get(key)` for a key holding a string. */
  function GetText(config: Config, key: string): (r: Option<string>)
    requires TextOrAbsent(config, key)
    ensures r.None? <==> key !in config
    ensures r.Some? ==> config[key] == Text(r.value)
  {
    if key in config then Some(config[key].text) else None
  }

  /** `config.get(key)` for a key holding a float. */
  function GetNumber(config: Config, key: string): (r: Option<real>)
    requires NumberOrAbsent(config, key)
    ensures r.None? <==> key !in config
    ensures r.Some? ==> config[key] == Number(r.value)
  {
    if key in config then Some(config[key].number) else None
  }
}
