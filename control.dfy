/**
 * The hysteresis controller (`evaluate_status`) and the actuator driver
 * (`set_radiator_switch`), stated over the values they read and write: the
 * persisted mode and target, the configured sensors and switches, the dead
 * band `max_interval`, the sensor readings and the switch states of the host.
 */
module Control {
  import opened Wrappers
  import opened Record
  import opened Sensors

  /** The state of a switch entity in the host, "on" or "off". */
  datatype SwitchState = On | Off

  /** The action label published for the climate entity. */
  datatype Action = Stopped | Idle | Heating {
    function Label(): string {
      match this
      case Stopped => "off"
      case Idle => "idle"
      case Heating => "heating"
    }
  }

  /** What the band comparison asks of the switches. */
  datatype Command = TurnOn | TurnOff | Hold

  /** Why an evaluation raised instead of completing: a sensor reading or
      the stored target that `float()` rejects, or no switch to read back
      (`radiator_switches[0]` on an empty list). */
  datatype Failure = SensorNotNumeric | TargetNotNumeric | NoSwitch

  /** The result of one evaluation: the new switch states of the host and the
      new action label, or the failure that aborted it before any change. */
  datatype Evaluation = Evaluated(states: map<string, SwitchState>, action: Action) | Raised(failure: Failure)

  function Lowest(target: real, maxInterval: real): real { target - maxInterval / 2.0 }
  function Highest(target: real, maxInterval: real): real { target + maxInterval / 2.0 }

  /** The band comparison: below the band turns on, at or above its top
      turns off, anything else leaves the switches alone. */
  function Decide(temp: real, target: real, maxInterval: real): Command {
    if temp < Lowest(target, maxInterval) then TurnOn
    else if temp >= Highest(target, maxInterval) then TurnOff
    else Hold
  }

  /** The switch states after every switch of `switches` has been sent
      `state`: every one of them is in `state` and no other entity changes. */
  function Drive(states: map<string, SwitchState>, switches: seq<string>, state: SwitchState): (r: map<string, SwitchState>)
    ensures forall e :: e in switches ==> e in r && r[e] == state
    ensures forall e :: e !in switches ==> (e in r <==> e in states)
    ensures forall e :: e !in switches && e in states ==> r[e] == states[e]
  {
    states + map e | e in switches :: state
  }

  /** The label read back from the first switch: "idle" when it is off,
      "heating" for any other state. */
  function LabelOf(states: map<string, SwitchState>, first: string): Action {
    if first in states && states[first] == Off then Idle else Heating
  }

  /** One run of `evaluate_status`. */
  function Evaluate(mode: Value, target: Value, sensors: seq<string>, switches: seq<string>,
                    maxInterval: real, parse: string -> Option<real>,
                    readings: map<string, real>, states: map<string, SwitchState>): Evaluation
  {
    if mode == Text("off") || |sensors| == 0 then
      Evaluated(Drive(states, switches, Off), Stopped)
    else
      match Temperature(sensors, readings)
      case None => Raised(SensorNotNumeric)
      case Some(temp) =>
        match ToFloat(target, parse)
        case None => Raised(TargetNotNumeric)
        case Some(t) =>
          var after := match Decide(temp, t, maxInterval)
                       case TurnOn => Drive(states, switches, On)
                       case TurnOff => Drive(states, switches, Off)
                       case Hold => states;
          if |switches| == 0 then Raised(NoSwitch)
          else Evaluated(after, LabelOf(after, switches[0]))
  }

  /** Mode "off", or no configured sensor: every switch is driven off and the
      action is "off", whatever the readings and the target. */
  lemma EvaluateOffMode(mode: Value, target: Value, sensors: seq<string>, switches: seq<string>,
                        maxInterval: real, parse: string -> Option<real>,
                        readings: map<string, real>, states: map<string, SwitchState>)
    requires mode == Text("off") || |sensors| == 0
    ensures var e := Evaluate(mode, target, sensors, switches, maxInterval, parse, readings, states);
      e.Evaluated? && e.action == Stopped && e.action.Label() == "off" &&
      (forall s :: s in switches ==> s in e.states && e.states[s] == Off) &&
      (forall s :: s !in switches ==> (s in e.states <==> s in states)) &&
      (forall s :: s !in switches && s in states ==> e.states[s] == states[s])
  {
  }

  /** Below `target - max_interval/2`: every switch ends on and the action is
      "heating". */
  lemma EvaluateBelowBand(mode: Value, target: Value, sensors: seq<string>, switches: seq<string>,
                          maxInterval: real, parse: string -> Option<real>,
                          readings: map<string, real>, states: map<string, SwitchState>,
                          temp: real, t: real)
    requires mode != Text("off") && |sensors| > 0 && |switches| > 0
    requires Temperature(sensors, readings) == Some(temp) && ToFloat(target, parse) == Some(t)
    requires temp < Lowest(t, maxInterval)
    ensures var e := Evaluate(mode, target, sensors, switches, maxInterval, parse, readings, states);
      e == Evaluated(Drive(states, switches, On), Heating) &&
      forall s :: s in switches ==> e.states[s] == On
  {
  }

  /** At or above `target + max_interval/2` (and not below the bottom of the
      band): every switch ends off and the action is "idle". */
  lemma EvaluateAboveBand(mode: Value, target: Value, sensors: seq<string>, switches: seq<string>,
                          maxInterval: real, parse: string -> Option<real>,
                          readings: map<string, real>, states: map<string, SwitchState>,
                          temp: real, t: real)
    requires mode != Text("off") && |sensors| > 0 && |switches| > 0
    requires Temperature(sensors, readings) == Some(temp) && ToFloat(target, parse) == Some(t)
    requires Lowest(t, maxInterval) <= temp && Highest(t, maxInterval) <= temp
    ensures var e := Evaluate(mode, target, sensors, switches, maxInterval, parse, readings, states);
      e == Evaluated(Drive(states, switches, Off), Idle) &&
      forall s :: s in switches ==> e.states[s] == Off
  {
  }

  /** Inside `[lowest, highest)`: no switch is touched and the action is read
      back from the first switch's previous state. */
  lemma EvaluateInsideBand(mode: Value, target: Value, sensors: seq<string>, switches: seq<string>,
                           maxInterval: real, parse: string -> Option<real>,
                           readings: map<string, real>, states: map<string, SwitchState>,
                           temp: real, t: real)
    requires mode != Text("off") && |sensors| > 0 && |switches| > 0
    requires Temperature(sensors, readings) == Some(temp) && ToFloat(target, parse) == Some(t)
    requires Lowest(t, maxInterval) <= temp < Highest(t, maxInterval)
    ensures Evaluate(mode, target, sensors, switches, maxInterval, parse, readings, states)
         == Evaluated(states, if switches[0] in states && states[switches[0]] == Off then Idle else Heating)
  {
  }

  /** Evaluation raises exactly when the mode is not "off", some sensor is
      configured, and a reading or the target is not a number or there is no
      switch; then nothing has been changed. */
  lemma EvaluateRaisesIff(mode: Value, target: Value, sensors: seq<string>, switches: seq<string>,
                          maxInterval: real, parse: string -> Option<real>,
                          readings: map<string, real>, states: map<string, SwitchState>)
    ensures Evaluate(mode, target, sensors, switches, maxInterval, parse, readings, states).Raised?
        <==> mode != Text("off") && |sensors| > 0 &&
             ((exists i :: 0 <= i < |sensors| && sensors[i] !in readings) ||
              ToFloat(target, parse).None? || |switches| == 0)
  {
    SumDefinedIff(sensors, readings);
  }

  /** Sending the same state to the same switches twice is the same as once. */
  lemma DriveTwice(states: map<string, SwitchState>, switches: seq<string>, state: SwitchState)
    ensures Drive(Drive(states, switches, state), switches, state) == Drive(states, switches, state)
  {
  }

  /** Sending `state` to one more switch extends the earlier driving by one
      entry. */
  lemma DriveSnoc(states: map<string, SwitchState>, switches: seq<string>, e: string, state: SwitchState)
    ensures Drive(states, switches + [e], state) == Drive(states, switches, state)[e := state]
  {
  }

  /** Evaluating again on the state an evaluation produced reproduces that
      state: a second `evaluate_status` right after the first changes
      nothing. */
  lemma EvaluateIdempotent(mode: Value, target: Value, sensors: seq<string>, switches: seq<string>,
                           maxInterval: real, parse: string -> Option<real>,
                           readings: map<string, real>, states: map<string, SwitchState>)
    requires Evaluate(mode, target, sensors, switches, maxInterval, parse, readings, states).Evaluated?
    ensures var e := Evaluate(mode, target, sensors, switches, maxInterval, parse, readings, states);
      Evaluate(mode, target, sensors, switches, maxInterval, parse, readings, e.states) == e
  {
  }

  /** A stored target that `float()` rejects makes every evaluation in a
      heating mode with readable sensors raise, so the switches stay in
      whatever state they had, on included, until the target is replaced or
      the mode is set to "off". */
  lemma UnparsableTargetFreezesSwitches(mode: Value, s: string, sensors: seq<string>, switches: seq<string>,
                                         maxInterval: real, parse: string -> Option<real>,
                                         readings: map<string, real>, states: map<string, SwitchState>)
    requires parse(s).None? && mode != Text("off") && |sensors| > 0
    requires forall i :: 0 <= i < |sensors| ==> sensors[i] in readings
    ensures Evaluate(mode, Text(s), sensors, switches, maxInterval, parse, readings, states) == Raised(TargetNotNumeric)
  {
    SumDefinedIff(sensors, readings);
  }

  /** One sensor at 17.0, target 18, dead band 0.8: the band is
      [17.6, 18.4), so the switch is turned on and the action is "heating". */
  lemma ScenarioColdRoom(parse: string -> Option<real>, states: map<string, SwitchState>)
    ensures Evaluate(Text("heat"), Num(18.0), ["sensor.room"], ["switch.radiator"], 0.8, parse,
                     map["sensor.room" := 17.0], states)
         == Evaluated(states["switch.radiator" := On], Heating)
  {
  }

  /** One sensor at 18.5 with the same setpoint: at or above 18.4, so the
      switch is turned off and the action is "idle". */
  lemma ScenarioWarmRoom(parse: string -> Option<real>, states: map<string, SwitchState>)
    ensures Evaluate(Text("heat"), Num(18.0), ["sensor.room"], ["switch.radiator"], 0.8, parse,
                     map["sensor.room" := 18.5], states)
         == Evaluated(states["switch.radiator" := Off], Idle)
  {
  }

  /** One sensor at 18.0, inside the band, with the switch already on: it
      stays on and the action is "heating". */
  lemma ScenarioInsideBand(parse: string -> Option<real>)
    ensures Evaluate(Text("heat"), Num(18.0), ["sensor.room"], ["switch.radiator"], 0.8, parse,
                     map["sensor.room" := 18.0], map["switch.radiator" := On])
         == Evaluated(map["switch.radiator" := On], Heating)
  {
  }
}
