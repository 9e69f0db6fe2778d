/**
 * The virtual thermostat app: the host it reads and drives, and the app
 * object whose methods update the record, the configured entity lists, the
 * action label and the switch states in place.
 */
module Thermostat {
  import opened Wrappers
  import opened Record
  import opened Sensors
  import opened Control
  import opened Topics
  import opened Config

  /** DEFAULT_MAX_INTERVAL: the default width of the dead band. */
  const DefaultMaxInterval: real := 0.8

  /** The home-automation host as the app sees it: the entities that exist,
      the numeric state of each sensor that has one, and the state of each
      switch, which the app changes through the switch services. */
  class Host {
    const entities: set<string>
    var readings: map<string, real>
    var switches: map<string, SwitchState>

    constructor (entities: set<string>, readings: map<string, real>, switches: map<string, SwitchState>)
      ensures this.entities == entities && this.readings == readings && this.switches == switches
    {
      this.entities := entities;
      this.readings := readings;
      this.switches := switches;
    }

    /** The `switch/turn_on` and `switch/turn_off` services for one entity. */
    method CallSwitchService(entity: string, state: SwitchState)
      modifies this`switches
      ensures switches == old(switches)[entity := state]
    {
      switches := switches[entity := state];
    }
  }

  /** Two maps with the same keys and the same value at every key are equal. */
  lemma SameEntries(a: Data, b: Data)
    requires a.Keys == b.Keys && forall k :: k in a ==> a[k] == b[k]
    ensures a == b
  {
  }

  /** How `parse_and_register` ended: a mandatory setting missing, no
      configured switch existing, registered, or registered but the first
      evaluation raised. */
  datatype SetupOutcome =
    | MissingHeatSwitch
    | MissingTempSensor
    | NoSwitchFound
    | Registered
    | SetupRaised(failure: Failure)

  /** What `handle_mqtt_message` did with a message. */
  datatype MessageOutcome =
    | Ignored
    | NoHandler(topic: string)
    | Handled
    | HandlerRaised(failure: Failure)

  class VirtualThermostat {
    const host: Host
    const deviceId: string
    /** `virtual_thermostat/<device_id>/`, the namespace of this device's topics. */
    const topicBase: string
    const maxInterval: real
    /** `float()` on a string: the number it denotes, or None when it raises. */
    const parse: string -> Option<real>

    var data: Data
    var tempSensors: seq<string>
    var radiatorSwitches: seq<string>
    var currentAction: Action

    /** The state after a successful setup: at least one switch, every
        configured entity exists, and the record holds all four keys. */
    ghost predicate Valid()
      reads this
    {
      topicBase == TopicBase(deviceId) &&
      IsComplete(data) &&
      |radiatorSwitches| > 0 &&
      (forall i :: 0 <= i < |radiatorSwitches| ==> radiatorSwitches[i] in host.entities) &&
      (forall i :: 0 <= i < |tempSensors| ==> tempSensors[i] in host.entities)
    }

    /** The evaluation `evaluate_status` performs with record `d` and switch
        states `states`. */
    function EvaluationOf(d: Data, states: map<string, SwitchState>): Evaluation
      requires IsComplete(d)
      reads this, host
    {
      Evaluate(d["mode"], d["target_temp"], tempSensors, radiatorSwitches, maxInterval, parse,
               host.readings, states)
    }

    /** `initialize` up to the configuration parsing: the dead band, then the
        persisted record loaded (None when the file is missing or unreadable)
        and completed with defaults. */
    constructor (host: Host, deviceId: string, maxIntervalSetting: Option<real>,
                 loaded: Option<Data>, parse: string -> Option<real>)
      ensures this.host == host && this.deviceId == deviceId && this.parse == parse
      ensures topicBase == TopicBase(deviceId)
      ensures maxInterval == maxIntervalSetting.GetOr(DefaultMaxInterval)
      ensures data == WithDefaults(loaded.GetOr(map[])) && IsComplete(data)
      ensures tempSensors == [] && radiatorSwitches == [] && currentAction == Stopped
    {
      this.host := host;
      this.deviceId := deviceId;
      this.topicBase := TopicBase(deviceId);
      this.parse := parse;
      this.maxInterval := if maxIntervalSetting.Some? then maxIntervalSetting.value else DefaultMaxInterval;
      this.data := map[];
      this.tempSensors := [];
      this.radiatorSwitches := [];
      this.currentAction := Stopped;
      new;
      LoadPersistedRecord(loaded);
    }

    /** The default-filling half of `load_persistance_file`. */
    method LoadPersistedRecord(loaded: Option<Data>)
      modifies this`data
      ensures data == WithDefaults(loaded.GetOr(map[]))
    {
      var d := if loaded.Some? then loaded.value else map[];
      ghost var start := d;
      if "target_temp" !in d {
        d := d["target_temp" := Num(DefaultTargetTemp)];
      }
      if "high_temp" !in d {
        d := d["high_temp" := Num(DefaultTargetTemp)];
      }
      if "low_temp" !in d {
        d := d["low_temp" := Num(DefaultTargetTemp)];
      }
      if "mode" !in d {
        d := d["mode" := Text("off")];
      }
      assert d.Keys == start.Keys + Defaults().Keys;
      assert forall k :: k in start ==> d[k] == start[k];
      assert forall k :: k in Defaults() && k !in start ==> d[k] == Defaults()[k];
      SameEntries(d, WithDefaults(start));
      data := d;
    }

    /** The switch and sensor half of `parse_and_register`: both settings are
        mandatory; the switch list is normalised and filtered and setup
        stops when no switch exists; then the sensor list; with no sensor
        the switches are driven off; finally the thermostat is evaluated
        (the discovery announcement and the subscriptions are not modelled). */
    method ParseAndRegister(heatSwitch: Option<Setting>, tempSensor: Option<Setting>) returns (o: SetupOutcome)
      requires IsComplete(data) && topicBase == TopicBase(deviceId)
      modifies this`radiatorSwitches, this`tempSensors, this`currentAction, host`switches
      ensures heatSwitch.None? || tempSensor.None? ==>
        o == (if heatSwitch.None? then MissingHeatSwitch else MissingTempSensor) &&
        unchanged(this) && host.switches == old(host.switches)
      ensures heatSwitch.Some? && tempSensor.Some? ==>
        radiatorSwitches == Existing(Flatten(heatSwitch.value), host.entities)
      ensures heatSwitch.Some? && tempSensor.Some? && radiatorSwitches == [] ==>
        o == NoSwitchFound && tempSensors == old(tempSensors) &&
        currentAction == old(currentAction) && host.switches == old(host.switches)
      ensures heatSwitch.Some? && tempSensor.Some? && radiatorSwitches != [] ==>
        tempSensors == Existing(Flatten(tempSensor.value), host.entities) && Valid() &&
        var e := EvaluationOf(data, old(host.switches));
        (e.Evaluated? ==> o == Registered && host.switches == e.states && currentAction == e.action) &&
        (e.Raised? ==> o == SetupRaised(e.failure) && host.switches == old(host.switches) &&
                       currentAction == old(currentAction))
    {
      if heatSwitch.None? {
        return MissingHeatSwitch;
      }
      if tempSensor.None? {
        return MissingTempSensor;
      }
      var switches := NormaliseNames(heatSwitch.value);
      radiatorSwitches := KeepExisting(switches, host.entities);
      if |radiatorSwitches| == 0 {
        return NoSwitchFound;
      }
      var sensors := NormaliseNames(tempSensor.value);
      tempSensors := KeepExisting(sensors, host.entities);
      if |tempSensors| == 0 {
        SetRadiatorSwitch(Off);
        DriveTwice(old(host.switches), radiatorSwitches, Off);
      }
      var e := EvaluateStatus();
      if e.Raised? {
        return SetupRaised(e.failure);
      }
      return Registered;
    }

    /** `set_radiator_switch`: every configured switch is sent `state`. */
    method SetRadiatorSwitch(state: SwitchState)
      modifies host`switches
      ensures host.switches == Drive(old(host.switches), radiatorSwitches, state)
    {
      for i := 0 to |radiatorSwitches|
        invariant host.switches == Drive(old(host.switches), radiatorSwitches[..i], state)
      {
        DriveSnoc(old(host.switches), radiatorSwitches[..i], radiatorSwitches[i], state);
        assert radiatorSwitches[..i + 1] == radiatorSwitches[..i] + [radiatorSwitches[i]];
        host.CallSwitchService(radiatorSwitches[i], state);
      }
      assert radiatorSwitches[..|radiatorSwitches|] == radiatorSwitches;
    }

    /** `current_temperature`: the readings are added up one by one; a
        reading that is not a number raises (None). */
    method CurrentTemperature() returns (t: Option<real>)
      ensures t == Temperature(tempSensors, host.readings)
    {
      if |tempSensors| == 0 {
        return Some(0.0);
      }
      var sum := 0.0;
      for i := 0 to |tempSensors|
        invariant Sum(tempSensors[..i], host.readings) == Some(sum)
      {
        assert tempSensors[..i + 1][..i] == tempSensors[..i];
        var s := tempSensors[i];
        if s !in host.readings {
          SumDefinedIff(tempSensors, host.readings);
          return None;
        }
        sum := sum + host.readings[s];
      }
      assert tempSensors[..|tempSensors|] == tempSensors;
      return Some(Round1(sum / |tempSensors| as real));
    }

    /** `evaluate_status`: drive the switches from the mode, the readings and
        the target, then read the action back from the first switch. */
    method EvaluateStatus() returns (e: Evaluation)
      requires IsComplete(data)
      modifies this`currentAction, host`switches
      ensures e == old(EvaluationOf(data, host.switches))
      ensures e.Evaluated? ==> host.switches == e.states && currentAction == e.action
      ensures e.Raised? ==> host.switches == old(host.switches) && currentAction == old(currentAction)
    {
      if data["mode"] == Text("off") || |tempSensors| == 0 {
        SetRadiatorSwitch(Off);
        currentAction := Stopped;
        return Evaluated(host.switches, Stopped);
      }
      var current := CurrentTemperature();
      if current.None? {
        return Raised(SensorNotNumeric);
      }
      var target := ToFloat(data["target_temp"], parse);
      if target.None? {
        return Raised(TargetNotNumeric);
      }
      var lowest := target.value - maxInterval / 2.0;
      var highest := target.value + maxInterval / 2.0;
      if current.value < lowest {
        SetRadiatorSwitch(On);
      } else if current.value >= highest {
        SetRadiatorSwitch(Off);
      }
      if |radiatorSwitches| == 0 {
        return Raised(NoSwitch);
      }
      var first := radiatorSwitches[0];
      if first in host.switches && host.switches[first] == Off {
        currentAction := Idle;
      } else {
        currentAction := Heating;
      }
      return Evaluated(host.switches, currentAction);
    }

    /** `handle_set_mode`: the raw payload becomes the mode. */
    method HandleSetMode(payload: string)
      modifies this`data
      ensures data == old(data)["mode" := Text(payload)]
    {
      data := data["mode" := Text(payload)];
    }

    /** `handle_set_temp`: the raw payload is stored under the field the topic
        names, then the thermostat is evaluated. */
    method HandleSetTemp(topic: string, payload: string) returns (e: Evaluation)
      requires IsComplete(data) && |topicBase| > 0
      modifies this`data, this`currentAction, host`switches
      ensures data == old(data)[FieldOf(topic, topicBase) := Text(payload)]
      ensures e == EvaluationOf(data, old(host.switches))
      ensures e.Evaluated? ==> host.switches == e.states && currentAction == e.action
      ensures e.Raised? ==> host.switches == old(host.switches) && currentAction == old(currentAction)
    {
      var field := ReplaceAll(topic, topicBase + "set_", "");
      data := data[field := Text(payload)];
      e := EvaluateStatus();
    }

    /** `handle_mqtt_message`: route the message, run its handler, then
        evaluate once more (publishing is not modelled). The record changes
        as `ApplyCommand` says; the switches and the action change as one
        evaluation of the new record would change them. */
    method HandleMqttMessage(topic: string, payload: string) returns (o: MessageOutcome)
      requires Valid()
      modifies this`data, this`currentAction, host`switches
      ensures Valid()
      ensures data == ApplyCommand(old(data), topic, payload, topicBase)
      ensures var route := RouteOf(topic, topicBase);
        if route.Dispatch? then
          var e := EvaluationOf(data, old(host.switches));
          (e.Evaluated? ==> o == Handled && host.switches == e.states && currentAction == e.action) &&
          (e.Raised? ==> o == HandlerRaised(e.failure) &&
                         host.switches == old(host.switches) && currentAction == old(currentAction))
        else
          o == (if route.Unhandled? then NoHandler(route.topic) else Ignored) &&
          host.switches == old(host.switches) && currentAction == old(currentAction)
    {
      var route := RouteOf(topic, topicBase);
      if route.Foreign? || route.OwnState? {
        return Ignored;
      } else if route.Unhandled? {
        return NoHandler(route.topic);
      }
      if route.handler == SetTemp {
        var first := HandleSetTemp(topic, payload);
        if first.Raised? {
          return HandlerRaised(first.failure);
        }
        EvaluateIdempotent(data["mode"], data["target_temp"], tempSensors, radiatorSwitches,
                           maxInterval, parse, host.readings, old(host.switches));
        SetTempField(topic, deviceId);
      } else if route.handler == SetMode {
        HandleSetMode(payload);
      }
      var e := EvaluateStatus();
      if e.Raised? {
        return HandlerRaised(e.failure);
      }
      return Handled;
    }
  }
}
