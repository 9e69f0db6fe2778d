/**
 * Command routing (`handle_mqtt_message` and its handlers): which inbound
 * MQTT topics reach which handler, which record field a setpoint topic
 * names, and what each handler writes into the record.
 */
module Topics {
  import opened Wrappers
  import opened Record

  /** TOPIC_PREFIX: every topic of every virtual thermostat lives below it. */
  const TopicPrefix: string := "virtual_thermostat/"

  /** The topic namespace of one device, `virtual_thermostat/<device_id>/`. */
  function TopicBase(deviceId: string): (b: string)
    ensures StartsWith(b, TopicPrefix) && |b| > |TopicPrefix|
  {
    TopicPrefix + deviceId + "/"
  }

  predicate StartsWith(s: string, p: string) {
    |p| <= |s| && s[..|p|] == p
  }

  /** Python's `s.replace(pat, rep)` for a non-empty `pat`: every occurrence,
      scanning left to right without overlaps, is replaced. */
  function ReplaceAll(s: string, pat: string, rep: string): string
    requires |pat| > 0
    decreases |s|
  {
    if |s| < |pat| then s
    else if s[..|pat|] == pat then rep + ReplaceAll(s[|pat|..], pat, rep)
    else [s[0]] + ReplaceAll(s[1..], pat, rep)
  }

  /** The three handlers the topic table names. */
  datatype Handler = SetTemp | SetPower | SetMode

  /** TOPIC_HANDLERS: topics with the device's base replaced by `~`. */
  const TopicHandlers: map<string, Handler> :=
    map["~set_target_temp" := SetTemp,
        "~set_high_temp" := SetTemp,
        "~set_low_temp" := SetTemp,
        "~set_power" := SetPower,
        "~set_mode" := SetMode]

  /** Where an inbound message goes: dropped silently (another prefix or
      another device), dropped as the device's own state echo, logged as
      having no handler, or dispatched. */
  datatype Route = Foreign | OwnState | Unhandled(topic: string) | Dispatch(handler: Handler)

  function RouteOf(full: string, base: string): Route
    requires |base| > 0
  {
    if !StartsWith(full, TopicPrefix) then Foreign
    else if !StartsWith(full, base) then Foreign
    else
      var topic := ReplaceAll(full, base, "~");
      if topic == "~state" then OwnState
      else if topic in TopicHandlers then Dispatch(TopicHandlers[topic])
      else Unhandled(topic)
  }

  /** The topic suffixes, after the device's base, that reach each handler. */
  function Suffixes(h: Handler): set<string> {
    match h
    case SetTemp => {"set_target_temp", "set_high_temp", "set_low_temp"}
    case SetPower => {"set_power"}
    case SetMode => {"set_mode"}
  }

  /** The setpoint fields a `set_..._temp` topic can name. */
  const TempFields: set<string> := {"target_temp", "high_temp", "low_temp"}

  /** `handle_set_temp`'s field name: the full topic with every occurrence of
      `<base>set_` removed. */
  function FieldOf(full: string, base: string): string
    requires |base| > 0
  {
    ReplaceAll(full, base + "set_", "")
  }

  /** The record after the handler of `full` has run on `payload`: a
      setpoint handler stores the raw payload under its field, the mode
      handler stores it under "mode", and `set_power` and every ignored
      topic leave the record alone. */
  function ApplyCommand(data: Data, full: string, payload: string, base: string): Data
    requires |base| > 0
  {
    match RouteOf(full, base)
    case Dispatch(SetTemp) => data[FieldOf(full, base) := Text(payload)]
    case Dispatch(SetMode) => data["mode" := Text(payload)]
    case _ => data
  }

  lemma ReplaceAllAtPrefix(s: string, pat: string, rep: string)
    requires |pat| > 0 && StartsWith(s, pat)
    ensures ReplaceAll(s, pat, rep) == rep + ReplaceAll(s[|pat|..], pat, rep)
  {
  }

  /** If replacing `pat` by `~` leaves no `~` in the result, nothing was
      replaced. */
  lemma {:induction false} ReplaceAllWithoutMarker(s: string, pat: string)
    requires |pat| > 0
    ensures '~' !in ReplaceAll(s, pat, "~") ==> ReplaceAll(s, pat, "~") == s
  {
    if |s| < |pat| {
    } else if s[..|pat|] == pat {
      assert ReplaceAll(s, pat, "~")[0] == '~';
    } else {
      ReplaceAllWithoutMarker(s[1..], pat);
      assert ReplaceAll(s, pat, "~") == [s[0]] + ReplaceAll(s[1..], pat, "~");
    }
  }

  /** Every key of the handler table is `~` followed by a suffix of its
      handler, with no other `~`. */
  lemma HandlerKeys(key: string)
    requires key in TopicHandlers
    ensures |key| > 0 && key[0] == '~' && '~' !in key[1..] && key[1..] in Suffixes(TopicHandlers[key])
  {
    if key == "~set_target_temp" {
      assert key[1..] == "set_target_temp";
    } else if key == "~set_high_temp" {
      assert key[1..] == "set_high_temp";
    } else if key == "~set_low_temp" {
      assert key[1..] == "set_low_temp";
    } else if key == "~set_power" {
      assert key[1..] == "set_power";
    } else {
      assert key[1..] == "set_mode";
    }
  }

  /** Each suffix of a handler is a key of the table once prefixed by `~`,
      is short, and is not the state topic. */
  lemma SuffixKeys(h: Handler, sfx: string)
    requires sfx in Suffixes(h)
    ensures "~" + sfx in TopicHandlers && TopicHandlers["~" + sfx] == h
    ensures "~" + sfx != "~state" && |sfx| <= 15
  {
    match h
    case SetTemp =>
      if sfx == "set_target_temp" {
        assert "~" + sfx == "~set_target_temp";
      } else if sfx == "set_high_temp" {
        assert "~" + sfx == "~set_high_temp";
      } else {
        assert "~" + sfx == "~set_low_temp";
      }
    case SetPower => assert "~" + sfx == "~set_power";
    case SetMode => assert "~" + sfx == "~set_mode";
  }

  /** Each setpoint suffix is `set_` followed by a setpoint field. */
  lemma TempSuffix(sfx: string)
    requires sfx in Suffixes(SetTemp)
    ensures |sfx| >= 4 && sfx == "set_" + sfx[4..] && sfx[4..] in TempFields
  {
  }

  /** A topic reaches handler `h` exactly when it is the device's base
      followed by one of `h`'s suffixes. */
  lemma RouteDispatchIff(full: string, deviceId: string, h: Handler)
    ensures var base := TopicBase(deviceId);
      RouteOf(full, base) == Dispatch(h) <==> StartsWith(full, base) && full[|base|..] in Suffixes(h)
  {
    var base := TopicBase(deviceId);
    if StartsWith(full, base) {
      var rest := full[|base|..];
      assert full[..|TopicPrefix|] == base[..|TopicPrefix|];
      ReplaceAllAtPrefix(full, base, "~");
      ReplaceAllWithoutMarker(rest, base);
      var topic := ReplaceAll(full, base, "~");
      assert topic == "~" + ReplaceAll(rest, base, "~");
      if rest in Suffixes(h) {
        SuffixKeys(h, rest);
        assert ReplaceAll(rest, base, "~") == rest;
        assert topic == "~" + rest;
      }
      if RouteOf(full, base) == Dispatch(h) {
        assert topic != "~state" && topic in TopicHandlers && TopicHandlers[topic] == h;
        HandlerKeys(topic);
        assert ReplaceAll(rest, base, "~") == topic[1..];
        assert rest == topic[1..];
      }
    }
  }

  /** The device's own state topic, and only it, is dropped as an echo. */
  lemma RouteOwnStateIff(full: string, deviceId: string)
    ensures var base := TopicBase(deviceId);
      RouteOf(full, base) == OwnState <==> full == base + "state"
  {
    var base := TopicBase(deviceId);
    if StartsWith(full, base) {
      var rest := full[|base|..];
      assert full[..|TopicPrefix|] == base[..|TopicPrefix|];
      ReplaceAllAtPrefix(full, base, "~");
      ReplaceAllWithoutMarker(rest, base);
      assert full == base + rest;
      var topic := ReplaceAll(full, base, "~");
      if rest == "state" {
        assert ReplaceAll(rest, base, "~") == rest;
      }
      if topic == "~state" {
        assert '~' !in topic[1..];
      }
    }
  }

  /** Every topic outside the device's base is dropped without effect. */
  lemma RouteForeignIff(full: string, deviceId: string)
    ensures var base := TopicBase(deviceId);
      RouteOf(full, base) == Foreign <==> !StartsWith(full, base)
  {
  }

  /** `<base>set_<field>` names `<field>`, because the field is too short to
      hold another copy of `<base>set_`. */
  lemma FieldOfSetTopic(deviceId: string, field: string)
    requires |field| < |TopicBase(deviceId)| + 4
    ensures FieldOf(TopicBase(deviceId) + "set_" + field, TopicBase(deviceId)) == field
  {
    var base := TopicBase(deviceId);
    var full := base + "set_" + field;
    assert full[..|base + "set_"|] == base + "set_";
    assert full[|base + "set_"|..] == field;
    ReplaceAllAtPrefix(full, base + "set_", "");
  }

  /** A setpoint command writes its raw payload into the field its topic
      names and into no other key; the field is one of the three setpoints. */
  lemma ApplySetTemp(data: Data, full: string, payload: string, deviceId: string)
    requires RouteOf(full, TopicBase(deviceId)) == Dispatch(SetTemp)
    ensures var base := TopicBase(deviceId);
      StartsWith(full, base + "set_") &&
      var field := full[|base| + 4..];
      field in TempFields && ApplyCommand(data, full, payload, base) == data[field := Text(payload)]
  {
    var base := TopicBase(deviceId);
    SetTempField(full, deviceId);
    assert ApplyCommand(data, full, payload, base) == data[FieldOf(full, base) := Text(payload)];
  }

  /** A topic routed to the setpoint handler is `<base>set_<field>` for one
      of the three setpoint fields, and `handle_set_temp` derives that field. */
  lemma SetTempField(full: string, deviceId: string)
    requires RouteOf(full, TopicBase(deviceId)) == Dispatch(SetTemp)
    ensures var base := TopicBase(deviceId);
      StartsWith(full, base + "set_") &&
      var field := full[|base| + 4..];
      field in TempFields && FieldOf(full, base) == field
  {
    RouteDispatchIff(full, deviceId, SetTemp);
    SetTempSuffixField(full, deviceId);
  }

  lemma SetTempSuffixField(full: string, deviceId: string)
    requires StartsWith(full, TopicBase(deviceId))
    requires full[|TopicBase(deviceId)|..] in Suffixes(SetTemp)
    ensures var base := TopicBase(deviceId);
      StartsWith(full, base + "set_") &&
      var field := full[|base| + 4..];
      field in TempFields && FieldOf(full, base) == field
  {
    var base := TopicBase(deviceId);
    var rest := full[|base|..];
    TempSuffix(rest);
    var field := rest[4..];
    assert full == base + rest;
    assert full == base + "set_" + field;
    FieldOfSetTopic(deviceId, field);
    assert (base + "set_" + field)[..|base + "set_"|] == base + "set_";
    assert field == full[|base| + 4..];
  }

  /** `set_mode` writes its raw payload into "mode" and into no other key. */
  lemma ApplySetMode(data: Data, payload: string, deviceId: string)
    ensures var base := TopicBase(deviceId);
      ApplyCommand(data, base + "set_mode", payload, base) == data["mode" := Text(payload)]
  {
    var base := TopicBase(deviceId);
    var full := base + "set_mode";
    assert full[|base|..] == "set_mode";
    RouteDispatchIff(full, deviceId, SetMode);
  }

  /** `set_power`, the device's own state topic, topics of other devices and
      topics without a handler leave the record unchanged. */
  lemma ApplyOtherTopics(data: Data, full: string, payload: string, deviceId: string)
    requires var base := TopicBase(deviceId);
      !StartsWith(full, base) || full[|base|..] !in Suffixes(SetTemp) + Suffixes(SetMode)
    ensures ApplyCommand(data, full, payload, TopicBase(deviceId)) == data
  {
    RouteDispatchIff(full, deviceId, SetTemp);
    RouteDispatchIff(full, deviceId, SetMode);
  }

  /** No command removes a key, so the record stays complete. */
  lemma ApplyKeepsComplete(data: Data, full: string, payload: string, base: string)
    requires |base| > 0 && IsComplete(data)
    ensures IsComplete(ApplyCommand(data, full, payload, base))
  {
  }
}
