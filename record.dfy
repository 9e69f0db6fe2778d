/**
 * The persisted record of the thermostat (`self.data` in the app): the
 * target, high and low setpoints and the mode, as loaded from the JSON
 * state file and then completed with defaults.
 */
module Record {
  import opened Wrappers

  /** A value held in the record. A number comes from the JSON file; a
      string is either loaded from the file or an MQTT payload stored as
      received (payloads are never converted when they are stored). */
  datatype Value = Num(n: real) | Text(s: string)

  type Data = map<string, Value>

  /** DEFAULT_TARGET_TEMP: the default for all three setpoints. */
  const DefaultTargetTemp: real := 18.0

  /** The four keys every evaluation reads, with the value each gets when
      the loaded record lacks it. */
  function Defaults(): (d: Data)
    ensures d.Keys == {"target_temp", "high_temp", "low_temp", "mode"}
  {
    map["target_temp" := Num(DefaultTargetTemp),
        "high_temp" := Num(DefaultTargetTemp),
        "low_temp" := Num(DefaultTargetTemp),
        "mode" := Text("off")]
  }

  /** The record holds every key the thermostat reads. */
  predicate IsComplete(d: Data) {
    "target_temp" in d && "high_temp" in d && "low_temp" in d && "mode" in d
  }

  /** The record after the default-filling of the load: every key already
      present is kept, and every missing key of `Defaults()` is added. */
  function WithDefaults(loaded: Data): (r: Data)
    ensures IsComplete(r)
    ensures r.Keys == loaded.Keys + Defaults().Keys
    ensures forall k :: k in loaded ==> r[k] == loaded[k]
    ensures forall k :: k in Defaults() && k !in loaded ==> r[k] == Defaults()[k]
  {
    loaded + map k | k in Defaults() && k !in loaded :: Defaults()[k]
  }

  /** A load that fails (missing file, unreadable JSON) yields the same
      record as an empty file: every key takes its default. */
  lemma UnreadableLoadGivesDefaults()
    ensures WithDefaults(map[]) == Defaults()
  {
  }

  /** Completing a record that is already complete changes nothing, so
      filling defaults twice is the same as filling them once. */
  lemma WithDefaultsIdempotent(loaded: Data)
    ensures WithDefaults(WithDefaults(loaded)) == WithDefaults(loaded)
    ensures IsComplete(loaded) ==> WithDefaults(loaded) == loaded
  {
  }

  /** `float(value)`: a number converts to itself, a string goes through the
      string parser `parse`, which fails on text that is not a number. */
  function ToFloat(v: Value, parse: string -> Option<real>): Option<real> {
    match v
    case Num(n) => Some(n)
    case Text(s) => parse(s)
  }
}
