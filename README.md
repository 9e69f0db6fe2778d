# Virtual thermostat control core, in Dafny

This project models the control core of the AppDaemon app
`apps/virtual_thermostat/virtual_thermostat.py`, which turns one or more
Home Assistant switches and temperature sensors into an MQTT climate
entity. It models:

- the **hysteresis controller** `evaluate_status`. It is an on/off decision
  over the target setpoint, a dead band of `max_interval` and the mode.
  Below `target - max_interval/2` it turns every switch on. At or above
  `target + max_interval/2` it turns every switch off. Inside the band it
  touches nothing. The action label is read back from the first switch.
- the **switch driver** `set_radiator_switch`. It sends the same state to
  every configured switch.
- the **temperature aggregation** `current_temperature`. It is the mean of
  all sensor readings, rounded to one decimal, or 0.0 with no sensor.
- the **default filling** of the persisted record in
  `load_persistance_file`.
- the **command routing** of `handle_mqtt_message` and its handlers
  `handle_set_temp`, `handle_set_mode` and `handle_set_power`.
- the **switch and sensor normalisation** of `parse_and_register`.

Modules, one per concern:

- `Record` (record.dfy): the record `{target_temp, high_temp, low_temp,
  mode}`, its values, and the default filling.
- `Sensors` (sensors.dfy): the sum of the readings, `round(x, 1)` on reals,
  and the temperature.
- `Control` (control.dfy): the band decision, driving the switches, the
  label read-back, and `Evaluate`, the specification of one
  `evaluate_status`.
- `Topics` (topics.dfy): topic prefixes, Python's `str.replace`, the
  handler table, the route of a topic, and the record write of each handler.
- `Config` (config.dfy): flattening a switch or sensor setting and
  filtering it by entity existence.
- `Thermostat` (thermostat.dfy): the class `Host` (existing entities,
  sensor readings, switch states) and the class `VirtualThermostat`. Its
  fields are the ones the app updates in place: `data`, `tempSensors`,
  `radiatorSwitches`, `currentAction`. Each method is proved against the
  functions of the other modules.
- `Wrappers` (wrappers.dfy): `Option`.

The host's calls are abstracted as follows. `entity_exists` is membership
in `Host.entities`. `get_state` of a sensor, followed by `float()`, is a
look-up in `Host.readings`; a sensor missing from that map is a reading
that `float()` rejects. `get_state` of a switch is a look-up in
`Host.switches`. The `switch/turn_on` and `switch/turn_off` services are
`Host.CallSwitchService`. `float()` on a string stored in the record is the
parameter `parse` of the thermostat, a partial function returning `None`
where Python raises. A Python exception during an evaluation is the result
`Raised(...)`; every such exception happens before any switch is changed.

Behaviour of the code the model keeps:

- Heating is forced off only when no sensor is configured (or the mode is
  "off"). A configured sensor whose state is not a number makes the
  evaluation raise. It does not drop out of the mean.
- The mean always divides by the number of sensors.
- Setpoint payloads are stored as the raw string and are only converted by
  `float()` at evaluation. `UnparsableTargetFreezesSwitches` shows the
  consequence: a non-numeric target leaves the switches as they were until
  it is replaced or the mode is set to "off".
- The default target is the integer 18. The model holds it as the real 18.0.
- The action is read back from the first switch's state in the host, not
  computed from the decision.

## Model

| member | source | states |
|---|---|---|
| `Record.WithDefaults` | apps/virtual_thermostat/virtual_thermostat.py:127-137 | The completed record holds all four keys. Its keys are the loaded keys plus the four. Every loaded key keeps its loaded value. Every missing key gets its default: 18 for the three setpoints, "off" for the mode. |
| `Record.UnreadableLoadGivesDefaults` | apps/virtual_thermostat/virtual_thermostat.py:115-137 | A missing or unreadable file (an empty record) completes to exactly the default record. |
| `Record.WithDefaultsIdempotent` | apps/virtual_thermostat/virtual_thermostat.py:127-137 | Filling defaults twice equals filling once. A record that already has the four keys is left unchanged. |
| `Thermostat.VirtualThermostat.LoadPersistedRecord` | apps/virtual_thermostat/virtual_thermostat.py:112-137 | The four sequential "add if missing" steps leave `data` equal to `WithDefaults` of the loaded record, or of the empty record when loading failed. |
| `Thermostat.VirtualThermostat.constructor` | apps/virtual_thermostat/virtual_thermostat.py:54-75 | `max_interval` is the setting or 0.8. The topic base is `virtual_thermostat/<name>/`. The record is loaded and completed, so it holds all four keys. |
| `Sensors.SumDefinedIff` | apps/virtual_thermostat/virtual_thermostat.py:414-415 | Summing the readings succeeds if and only if every configured sensor has a numeric reading. |
| `Sensors.SumBounded` | apps/virtual_thermostat/virtual_thermostat.py:412-415 | When every reading lies in [lo, hi], the sum of n readings lies in [lo*n, hi*n]. |
| `Sensors.MeanBounded` | apps/virtual_thermostat/virtual_thermostat.py:408-420 | With at least one sensor and every reading in [lo, hi], the temperature is defined. The unrounded mean lies in [lo, hi], and the returned value is within 0.05 of that mean. |
| `Sensors.Round1` | apps/virtual_thermostat/virtual_thermostat.py:420 | `round(x, 1)` returns a whole number of tenths within 0.05 of x. |
| `Sensors.Round1Nearest` | apps/virtual_thermostat/virtual_thermostat.py:420 | No multiple of 0.1 is closer to x than `round(x, 1)`. |
| `Sensors.Round1Exact` | apps/virtual_thermostat/virtual_thermostat.py:420 | Rounding a value that is already a whole number of tenths returns it unchanged. |
| `Thermostat.VirtualThermostat.CurrentTemperature` | apps/virtual_thermostat/virtual_thermostat.py:408-420 | The accumulation loop returns 0.0 with no sensors. Otherwise it returns the rounded mean of all readings, or raises (None) when a reading is not a number. |
| `Control.Drive` | apps/virtual_thermostat/virtual_thermostat.py:401-406 | After driving, every configured switch is in the requested state. No other entity is added, removed or changed. |
| `Control.DriveTwice` | apps/virtual_thermostat/virtual_thermostat.py:401-406 | Driving the same switches to the same state twice equals driving them once. |
| `Control.DriveSnoc` | apps/virtual_thermostat/virtual_thermostat.py:402-406 | Driving one more switch extends the previous result by that switch alone. |
| `Thermostat.Host.CallSwitchService` | apps/virtual_thermostat/virtual_thermostat.py:404-406 | A turn_on or turn_off call sets that one switch's state and nothing else. |
| `Thermostat.VirtualThermostat.SetRadiatorSwitch` | apps/virtual_thermostat/virtual_thermostat.py:401-406 | The loop over `radiator_switches` leaves the host's switch states equal to `Drive` of the old states: every configured switch is in `state` and nothing else changes. |
| `Control.EvaluateOffMode` | apps/virtual_thermostat/virtual_thermostat.py:380-383 | With mode "off" or no sensors, evaluation always succeeds. Every switch ends off, other entities are untouched, and the action is "off", whatever the readings and target. |
| `Control.EvaluateBelowBand` | apps/virtual_thermostat/virtual_thermostat.py:385-399 | In a non-off mode, with a temperature strictly below `target - max_interval/2`, every switch ends on and the action is "heating". |
| `Control.EvaluateAboveBand` | apps/virtual_thermostat/virtual_thermostat.py:385-399 | In a non-off mode, with a temperature at or above `target + max_interval/2` (and not below the band's bottom), every switch ends off and the action is "idle". |
| `Control.EvaluateInsideBand` | apps/virtual_thermostat/virtual_thermostat.py:391-399 | With a temperature in `[lowest, highest)`, no switch changes. The action is "idle" if the first switch was off and "heating" otherwise. |
| `Control.EvaluateRaisesIff` | apps/virtual_thermostat/virtual_thermostat.py:380-399 | Evaluation raises if and only if all of these hold: the mode is not "off", some sensor is configured, and some reading is not a number, or the target does not convert, or there is no switch. |
| `Control.EvaluateIdempotent` | apps/virtual_thermostat/virtual_thermostat.py:376-399 | Evaluating again on the switch states an evaluation produced gives the same states and action. So the second evaluation after `handle_set_temp` changes nothing. |
| `Control.UnparsableTargetFreezesSwitches` | apps/virtual_thermostat/virtual_thermostat.py:387 | A stored target that `float()` rejects, in a non-off mode with readable sensors, makes evaluation raise. The switches are then left as they were. |
| `Control.ScenarioColdRoom` | apps/virtual_thermostat/virtual_thermostat.py:385-399 | One sensor at 17.0, target 18, band 0.8: the switch is turned on and the action is "heating". |
| `Control.ScenarioWarmRoom` | apps/virtual_thermostat/virtual_thermostat.py:385-399 | One sensor at 18.5, target 18, band 0.8: the switch is turned off and the action is "idle". |
| `Control.ScenarioInsideBand` | apps/virtual_thermostat/virtual_thermostat.py:391-399 | One sensor at 18.0 with the switch already on: it stays on and the action is "heating". |
| `Thermostat.VirtualThermostat.EvaluateStatus` | apps/virtual_thermostat/virtual_thermostat.py:376-399 | The method's result is `Evaluate` of the record, the configuration, the readings and the old switch states. On success the host's switches and `current_action` are that result's. When it raises, neither changes. |
| `Topics.TopicBase` | apps/virtual_thermostat/virtual_thermostat.py:228-229 | A device's topic base starts with `virtual_thermostat/` and is longer than that prefix. |
| `Topics.ReplaceAllWithoutMarker` | apps/virtual_thermostat/virtual_thermostat.py:309 | If replacing the base by `~` leaves no `~` in the result, the result is the topic itself: nothing was replaced. |
| `Topics.HandlerKeys` | apps/virtual_thermostat/virtual_thermostat.py:296-302 | Every key of the handler table is `~` followed by one of its handler's suffixes. |
| `Topics.RouteDispatchIff` | apps/virtual_thermostat/virtual_thermostat.py:304-314 | A topic reaches a handler if and only if it is the device's base followed by one of that handler's suffixes. For the setpoint handler these are `set_target_temp`, `set_high_temp` and `set_low_temp`. |
| `Topics.RouteOwnStateIff` | apps/virtual_thermostat/virtual_thermostat.py:308-311 | A topic is dropped as the device's own state if and only if it is exactly `<base>state`. |
| `Topics.RouteForeignIff` | apps/virtual_thermostat/virtual_thermostat.py:304-308 | A topic is silently dropped as foreign if and only if it does not start with the device's base. This includes every topic outside `virtual_thermostat/`. |
| `Topics.FieldOfSetTopic` | apps/virtual_thermostat/virtual_thermostat.py:327 | Removing `<base>set_` from `<base>set_<field>` yields `<field>`. |
| `Topics.SetTempField` | apps/virtual_thermostat/virtual_thermostat.py:326-331 | A topic routed to the setpoint handler is `<base>set_<field>`. `field` is one of `target_temp`, `high_temp`, `low_temp`, and the handler's string replacement derives exactly that field. |
| `Topics.ApplySetTemp` | apps/virtual_thermostat/virtual_thermostat.py:326-331 | A setpoint command stores the raw payload string, unconverted, under its own field and changes no other key. |
| `Topics.ApplySetMode` | apps/virtual_thermostat/virtual_thermostat.py:323-324 | `set_mode` stores the raw payload under "mode" and changes no other key. |
| `Topics.ApplyOtherTopics` | apps/virtual_thermostat/virtual_thermostat.py:304-321 | These topics leave the record unchanged: `set_power`, the own state topic, topics of other devices or prefixes, and topics without a handler. |
| `Topics.ApplyKeepsComplete` | apps/virtual_thermostat/virtual_thermostat.py:320-331 | No command removes a key, so the record keeps all four keys. |
| `Thermostat.VirtualThermostat.HandleSetMode` | apps/virtual_thermostat/virtual_thermostat.py:323-324 | The record is the old record with "mode" set to the raw payload. |
| `Thermostat.VirtualThermostat.HandleSetTemp` | apps/virtual_thermostat/virtual_thermostat.py:326-332 | The record gets the raw payload under the field derived from the topic. The thermostat is then evaluated on the new record. |
| `Thermostat.VirtualThermostat.HandleMqttMessage` | apps/virtual_thermostat/virtual_thermostat.py:293-318 | The record becomes `ApplyCommand` of the old one. A dispatched message leaves the switches and action as one evaluation of the new record would, or unchanged when it raises. Other messages change neither and are reported as ignored or unhandled. The object invariant is kept. |
| `Config.NormaliseNames` | apps/virtual_thermostat/virtual_thermostat.py:167-178 | The flattening loop returns `Flatten` of the setting. A single entity becomes a one-element list. In a list, a name is kept, a mapping contributes its keys in order, and anything else is dropped. |
| `Config.FlattenItemsMembership` | apps/virtual_thermostat/virtual_thermostat.py:168-176 | A name is in the flattened list if and only if some list item contributes it. |
| `Config.KeepExisting` | apps/virtual_thermostat/virtual_thermostat.py:180-185 | The filtering loop returns `Existing` of the names, and every name it keeps exists. |
| `Config.ExistingMembership` | apps/virtual_thermostat/virtual_thermostat.py:180-185 | A name survives the filter if and only if it is listed and exists. |
| `Config.ExistingAppend` | apps/virtual_thermostat/virtual_thermostat.py:180-185 | The filter preserves order: filtering `a + b` is filtering `a`, then filtering `b`. |
| `Config.ExistingAllPresent` | apps/virtual_thermostat/virtual_thermostat.py:208-217 | When every configured name exists, the filter keeps them all, in order. |
| `Config.ExistingShorter` | apps/virtual_thermostat/virtual_thermostat.py:180-185 | The filter never lengthens the list. |
| `Thermostat.VirtualThermostat.ParseAndRegister` | apps/virtual_thermostat/virtual_thermostat.py:159-225 | A missing `heat_switch` or `temp_sensor` setting aborts before anything changes. `radiator_switches` is the filtered, flattened switch setting, and setup aborts when it is empty. Otherwise `temp_sensors` is the filtered, flattened sensor setting and the object invariant holds. The evaluation at line 290 then sets the switches and action, or changes nothing when it raises. |

## Left out

- MQTT: publishing the state (`publish_state`), subscribing and unsubscribing, and the discovery configuration document. These are transport and a constant document.
- Timers: the five-minute re-publish watchdog with `cancel_timer`, and the daily persistence flush. Their meaning depends on the host scheduler.
- `save_persistance_file`, `terminate`, and the file and JSON reading of `load_persistance_file`. The model takes the loaded record as an input: None when the file is missing or unreadable.
- JSON values other than numbers and strings in the record (booleans, null, lists, objects), and a file whose top level is not an object. `Value` has only numbers and strings.
- `handle_state_change` and `force_eval_and_publish`: each is `evaluate_status` followed by a publish, so `EvaluateStatus` gives their effect.
- `handle_set_power`: it only logs. It appears as the `SetPower` route, which changes nothing.
- `listen_state`, `listen_event`, logging and the DEBUG level.
- `friendly_name`, `max_temp` and `min_temp`: they only feed the discovery document.
- Floating point: the model computes on exact reals. `round(x, 1)` is the nearest tenth with ties to even (`Sensors.Round1`), and `float()` on a string is the abstract parameter `parse`.
- Switch service calls are assumed to take effect before the first switch is read back. The host may apply them later.
- A non-string single setting (a number, or a mapping written without a list) is not modelled: `Setting.Scalar` carries a name.
- After an aborted setup, the app's later callbacks fail on attributes that were never set. The model instead requires a completed setup (`Valid()`) before messages are handled.
- Thermostat.VirtualThermostat.ParseAndRegister: does not model that an exception escaping setup leaves the MQTT handler unregistered. The app calls `parse_and_register` (virtual_thermostat.py:79) before `listen_event` (:81). If the first `evaluate_status` (:290) raises, for example mode "heat" with a sensor reading "unavailable", the app never receives a command. The same happens when `publish_state` (:291) raises in `current_temperature` (:337, :415), which happens even in mode "off". In both cases the model ends with `Valid()` true (outcome `SetupRaised(...)` or `Registered`), so `HandleMqttMessage` can still be called. Publishing is not modelled, and the model has no state for "handler registered".
- The topic base is fixed when the thermostat is constructed, not assigned inside `parse_and_register`. `current_action` starts as "off" rather than being unset until the first evaluation.
