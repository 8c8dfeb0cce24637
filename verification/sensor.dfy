/** Sensor entities (custom_components/smaev/sensor.py): a measurement channel (its first
    sample) or a parameter channel (its value), shown through an optional label table. */
module SensorPlatform {
  import opened Wrappers
  import opened Numeric
  import opened Tables
  import opened Channels

  /** Which channel set a sensor reads (`type` of the description). */
  datatype Source = FromMeasurements | FromParameters

  /** A sensor description: key, channel set, channel, label table (empty for plain
      sensors) and, for enum sensors, the declared option list. */
  datatype SensorDescription = SensorDescription(
    key: string,
    source: Source,
    channelId: string,
    mapping: Table<Value, string>,
    options: Option<seq<string>>)

  function Plain(key: string, source: Source, channelId: string): SensorDescription {
    SensorDescription(key, source, channelId, [], None)
  }

  /** The phase letters of the charger's channels and the load numbers of the keys. */
  const PHASES: seq<(string, nat)> := [("A", 1), ("B", 2), ("C", 3)]

  /** The generated per-phase descriptions: key `{keyPrefix}{load}`, channel
      `{channelPrefix}{phase}`, one per entry of `PHASES`, in that order. */
  function PhaseDescriptions(keyPrefix: string, channelPrefix: string): (ds: seq<SensorDescription>)
    ensures |ds| == |PHASES|
    ensures forall d :: d in ds ==> d.source == FromMeasurements && d.mapping == [] && d.options.None?
  {
    seq(|PHASES|, i requires 0 <= i < |PHASES| =>
      Plain(keyPrefix + IntToString(PHASES[i].1), FromMeasurements, channelPrefix + PHASES[i].0))
  }

  const HEALTH_LABELS: Table<Value, string> :=
    [(Code(Ok), "ok"), (Code(Warning), "warning"), (Code(Alarm), "alarm"), (Code(Off), "off")]

  /** The descriptions before the generated phase entries. */
  const LEADING_DESCRIPTIONS: seq<SensorDescription> :=
    [ Plain("charging_session_energy", FromMeasurements, "Measurement.ChaSess.WhIn"),
      SensorDescription(
        "position_of_rotary_switch", FromMeasurements, "Measurement.Chrg.ModSw",
        [(Code(SmartChargingMode), "smart_charging"), (Code(BoostChargingMode), "boost_charging")],
        Some(["smart_charging", "boost_charging"])) ]

  const CURRENT_DESCRIPTIONS: seq<SensorDescription> :=
    PhaseDescriptions("grid_current_phase_l", "Measurement.GridMs.A.phs")

  const VOLTAGE_DESCRIPTIONS: seq<SensorDescription> :=
    PhaseDescriptions("grid_voltage_phase_l", "Measurement.GridMs.PhV.phs")

  /** The descriptions after the generated phase entries. */
  const TRAILING_DESCRIPTIONS: seq<SensorDescription> :=
    [ Plain("grid_frequency", FromMeasurements, "Measurement.GridMs.Hz"),
      Plain("charging_station_power", FromMeasurements, "Measurement.Metering.GridMs.TotWIn.ChaSta"),
      Plain("charging_station_meter_reading", FromMeasurements, "Measurement.Metering.GridMs.TotWhIn.ChaSta"),
      SensorDescription(
        "charging_session_status", FromMeasurements, "Measurement.Operation.EVeh.ChaStt",
        [ (Code(NotConnected), "not_connected"), (Code(SleepMode), "sleep_mode"),
          (Code(ActiveMode), "active_mode"), (Code(StationLocked), "station_locked") ],
        Some(["not_connected", "sleep_mode", "active_mode", "station_locked"])),
      SensorDescription(
        "connected_vehicle_status", FromMeasurements, "Measurement.Operation.EVeh.Health",
        HEALTH_LABELS, Some(["ok", "warning", "alarm", "off"])),
      SensorDescription(
        "charging_station_status", FromMeasurements, "Measurement.Operation.Health",
        HEALTH_LABELS, Some(["ok", "warning", "alarm", "off"])),
      Plain("mac_address", FromParameters, "Parameter.Nameplate.MacId"),
      Plain("wifi_mac_address", FromParameters, "Parameter.Nameplate.WlMacId") ]

  /** `SENSOR_ENTITY_DESCRIPTIONS`, in declaration order. */
  const SENSOR_DESCRIPTIONS: seq<SensorDescription> :=
    LEADING_DESCRIPTIONS + CURRENT_DESCRIPTIONS + VOLTAGE_DESCRIPTIONS + TRAILING_DESCRIPTIONS

  /** The keys of `SENSOR_DESCRIPTIONS`, written out. */
  const SENSOR_KEYS: seq<string> :=
    [ "charging_session_energy", "position_of_rotary_switch",
      "grid_current_phase_l1", "grid_current_phase_l2", "grid_current_phase_l3",
      "grid_voltage_phase_l1", "grid_voltage_phase_l2", "grid_voltage_phase_l3",
      "grid_frequency", "charging_station_power", "charging_station_meter_reading",
      "charging_session_status", "connected_vehicle_status", "charging_station_status",
      "mac_address", "wifi_mac_address" ]

  /** An enum description declares as options exactly its table's labels, in declaration
      order; a description without options has no table. */
  predicate OptionsMatchTable(d: SensorDescription) {
    && (d.options.Some? ==> d.options.value == Values(d.mapping))
    && (d.options.None? <==> d.mapping == [])
  }

  /** Every description of the integration matches its options to its table, and every
      table is one-to-one. */
  lemma EnumOptionsMatchMapping(i: nat)
    requires i < |SENSOR_KEYS|
    ensures i < |SENSOR_DESCRIPTIONS|
    ensures OptionsMatchTable(SENSOR_DESCRIPTIONS[i])
    ensures DistinctKeys(SENSOR_DESCRIPTIONS[i].mapping) && DistinctValues(SENSOR_DESCRIPTIONS[i].mapping)
  {
    DescriptionKeys();
    var d := SENSOR_DESCRIPTIONS[i];
    if i < 2 {
      assert d == LEADING_DESCRIPTIONS[i];
      LeadingLabels(d);
    } else if i < 5 {
      assert d == CURRENT_DESCRIPTIONS[i - 2];
    } else if i < 8 {
      assert d == VOLTAGE_DESCRIPTIONS[i - 5];
    } else {
      assert d == TRAILING_DESCRIPTIONS[i - 8];
      TrailingLabels(i - 8);
    }
  }

  lemma LeadingLabels(d: SensorDescription)
    requires d in LEADING_DESCRIPTIONS
    ensures d.options.Some? ==> d.options.value == Values(d.mapping)
    ensures d.options.None? <==> d.mapping == []
    ensures DistinctKeys(d.mapping) && DistinctValues(d.mapping)
  {
    if d == LEADING_DESCRIPTIONS[1] {
      LabelTable(d.mapping, d.options.value);
    }
  }

  lemma TrailingLabels(k: nat)
    requires k < |TRAILING_DESCRIPTIONS|
    ensures var d := TRAILING_DESCRIPTIONS[k];
            && (d.options.Some? ==> d.options.value == Values(d.mapping))
            && (d.options.None? <==> d.mapping == [])
            && DistinctKeys(d.mapping) && DistinctValues(d.mapping)
  {
    var d := TRAILING_DESCRIPTIONS[k];
    if k == 3 || k == 4 || k == 5 {
      LabelTable(d.mapping, d.options.value);
    }
  }

  /** A label table whose codes are distinct and whose labels are the given pairwise
      distinct option list, in order. */
  lemma LabelTable(t: Table<Value, string>, options: seq<string>)
    requires |t| == |options|
    requires forall i :: 0 <= i < |t| ==> t[i].1 == options[i]
    requires forall i, j :: 0 <= i < j < |t| ==> t[i].0 != t[j].0 && options[i] != options[j]
    ensures options == Values(t)
    ensures DistinctKeys(t) && DistinctValues(t)
  {
  }

  /** The phase generators pair phase A with load 1, B with 2 and C with 3, for both the
      current and the voltage channels. */
  lemma PhasePairing()
    ensures var cur := CURRENT_DESCRIPTIONS;
            && cur[0].key == "grid_current_phase_l1" && cur[0].channelId == "Measurement.GridMs.A.phsA"
            && cur[1].key == "grid_current_phase_l2" && cur[1].channelId == "Measurement.GridMs.A.phsB"
            && cur[2].key == "grid_current_phase_l3" && cur[2].channelId == "Measurement.GridMs.A.phsC"
    ensures var vol := VOLTAGE_DESCRIPTIONS;
            && vol[0].key == "grid_voltage_phase_l1" && vol[0].channelId == "Measurement.GridMs.PhV.phsA"
            && vol[1].key == "grid_voltage_phase_l2" && vol[1].channelId == "Measurement.GridMs.PhV.phsB"
            && vol[2].key == "grid_voltage_phase_l3" && vol[2].channelId == "Measurement.GridMs.PhV.phsC"
  {
    assert IntToString(1) == "1" && IntToString(2) == "2" && IntToString(3) == "3";
  }

  /** The part of `SENSOR_DESCRIPTIONS` starting at `offset` has the keys written out in
      `SENSOR_KEYS` from `offset` on. */
  predicate KeysFrom(part: seq<SensorDescription>, offset: nat) {
    offset + |part| <= |SENSOR_KEYS| && forall i :: 0 <= i < |part| ==> part[i].key == SENSOR_KEYS[offset + i]
  }

  lemma LeadingKeys()
    ensures KeysFrom(LEADING_DESCRIPTIONS, 0)
  {
  }

  lemma PhaseKeys()
    ensures KeysFrom(CURRENT_DESCRIPTIONS, 2)
    ensures KeysFrom(VOLTAGE_DESCRIPTIONS, 5)
  {
    PhasePairing();
  }

  lemma TrailingKeys()
    ensures KeysFrom(TRAILING_DESCRIPTIONS, 8)
  {
    var t := TRAILING_DESCRIPTIONS;
    assert t[0].key == SENSOR_KEYS[8] && t[1].key == SENSOR_KEYS[9];
    assert t[2].key == SENSOR_KEYS[10] && t[3].key == SENSOR_KEYS[11];
    assert t[4].key == SENSOR_KEYS[12] && t[5].key == SENSOR_KEYS[13];
    assert t[6].key == SENSOR_KEYS[14] && t[7].key == SENSOR_KEYS[15];
  }

  /** The description list has the keys written out in `SENSOR_KEYS`, in order. */
  lemma DescriptionKeys()
    ensures |SENSOR_DESCRIPTIONS| == |SENSOR_KEYS|
    ensures forall i :: 0 <= i < |SENSOR_KEYS| ==> SENSOR_DESCRIPTIONS[i].key == SENSOR_KEYS[i]
  {
    LeadingKeys();
    PhaseKeys();
    TrailingKeys();
    var l, c, v, t := LEADING_DESCRIPTIONS, CURRENT_DESCRIPTIONS, VOLTAGE_DESCRIPTIONS, TRAILING_DESCRIPTIONS;
    assert SENSOR_DESCRIPTIONS == l + c + v + t;
    assert |l| == 2 && |c| == 3 && |v| == 3 && |t| == 8;
    forall i | 0 <= i < |SENSOR_KEYS| ensures SENSOR_DESCRIPTIONS[i].key == SENSOR_KEYS[i] {
      if i < 2 {
        assert SENSOR_DESCRIPTIONS[i] == l[i];
      } else if i < 5 {
        assert SENSOR_DESCRIPTIONS[i] == c[i - 2];
      } else if i < 8 {
        assert SENSOR_DESCRIPTIONS[i] == v[i - 5];
      } else {
        assert SENSOR_DESCRIPTIONS[i] == t[i - 8];
      }
    }
  }

  /** The written-out keys are pairwise distinct. */
  lemma SensorKeysDistinct()
    ensures forall i, j :: 0 <= i < j < |SENSOR_KEYS| ==> SENSOR_KEYS[i] != SENSOR_KEYS[j]
  {
  }

  /** The description keys are pairwise distinct. */
  lemma KeysDistinct()
    ensures forall i, j :: 0 <= i < j < |SENSOR_DESCRIPTIONS| ==> SENSOR_DESCRIPTIONS[i].key != SENSOR_DESCRIPTIONS[j].key
  {
    DescriptionKeys();
    SensorKeysDistinct();
  }

  /** `f"{config_entry_unique_id}-{key}"`. */
  function UniqueId(entryUniqueId: string, key: string): string {
    entryUniqueId + "-" + key
  }

  /** Within one config entry, different keys give different unique ids. */
  lemma UniqueIdInjective(entryUniqueId: string, k1: string, k2: string)
    requires UniqueId(entryUniqueId, k1) == UniqueId(entryUniqueId, k2)
    ensures k1 == k2
  {
    var n := |entryUniqueId| + 1;
    assert k1 == UniqueId(entryUniqueId, k1)[n..];
    assert k2 == UniqueId(entryUniqueId, k2)[n..];
  }

  /** So the sensors of one entry have pairwise distinct unique ids. */
  lemma UniqueIdsDistinct(entryUniqueId: string, i: nat, j: nat)
    requires i < j < |SENSOR_KEYS|
    ensures UniqueId(entryUniqueId, SENSOR_DESCRIPTIONS[i].key) != UniqueId(entryUniqueId, SENSOR_DESCRIPTIONS[j].key)
  {
    DescriptionKeys();
    KeysDistinct();
    if UniqueId(entryUniqueId, SENSOR_DESCRIPTIONS[i].key) == UniqueId(entryUniqueId, SENSOR_DESCRIPTIONS[j].key) {
      UniqueIdInjective(entryUniqueId, SENSOR_DESCRIPTIONS[i].key, SENSOR_DESCRIPTIONS[j].key);
    }
  }

  /** What `_attr_native_value` holds: a label from the table, or the raw value. */
  datatype NativeValue = Shown(text: string) | Raw(raw: Value)

  /** `_attr_native_value`, None until the first update. */
  datatype SensorState = SensorState(value: Option<NativeValue>)

  /** The state shows `v`: its label when the table has one, otherwise `v` itself. */
  predicate Presents(d: SensorDescription, v: Value, st: SensorState) {
    && st.value.Some?
    && (st.value.value.Shown? <==> v in Keys(d.mapping))
    && (st.value.value.Shown? ==> (v, st.value.value.text) in d.mapping)
    && (st.value.value.Raw? ==> st.value.value.raw == v)
  }

  /** `_handle_coordinator_update`: a missing channel changes nothing; a measurement sensor
      shows its channel's first sample (an empty sample list is an IndexError), a parameter
      sensor its channel's value. */
  function Reconcile(d: SensorDescription, st: SensorState, snap: Snapshot): (r: Result<SensorState, EntityError>)
    ensures d.source == FromMeasurements ==>
              var found := MeasurementSamples(snap.measurements, d.channelId);
              && (found.Failure? ==> r == Success(st))
              && (found.Success? && |found.value| == 0 ==> r == Failure(NoSamples))
              && (found.Success? && |found.value| > 0 ==> r.Success? && Presents(d, found.value[0].value, r.value))
    ensures d.source == FromParameters ==>
              var found := ParameterRecord(snap.parameters, d.channelId);
              && (found.Failure? ==> r == Success(st))
              && (found.Success? ==> r.Success? && Presents(d, found.value.value, r.value))
  {
    var read: Result<Value, EntityError> :=
      match d.source
      case FromMeasurements =>
        (match MeasurementSamples(snap.measurements, d.channelId)
         case Failure(e) => Failure(LookupFailed(e))
         case Success(samples) => if |samples| == 0 then Failure(NoSamples) else Success(samples[0].value))
      case FromParameters =>
        (match ParameterRecord(snap.parameters, d.channelId)
         case Failure(e) => Failure(LookupFailed(e))
         case Success(ch) => Success(ch.value));
    match read
    case Failure(LookupFailed(_)) => Success(st)
    case Failure(e) => Failure(e)
    case Success(v) =>
      match Get(d.mapping, v)
      case Some(text) => Success(SensorState(Some(Shown(text))))
      case None => Success(SensorState(Some(Raw(v))))
  }

  /** Reconciling the same snapshot twice gives the same state as once. */
  lemma ReconcileIsIdempotent(d: SensorDescription, st: SensorState, snap: Snapshot)
    requires Reconcile(d, st, snap).Success?
    ensures Reconcile(d, Reconcile(d, st, snap).value, snap) == Reconcile(d, st, snap)
  {
  }

  /** The state shows no label, or a label among the description's declared options. */
  predicate ShowsOption(d: SensorDescription, st: SensorState) {
    st.value.Some? && st.value.value.Shown? ==> d.options.Some? && st.value.value.text in d.options.value
  }

  /** For a description whose options match its table (every sensor of the integration, by
      `EnumOptionsMatchMapping`), reconciliation keeps every shown label among the declared
      options, which is what an enum sensor requires of its state. */
  lemma ReconcileShowsOption(d: SensorDescription, st: SensorState, snap: Snapshot)
    requires OptionsMatchTable(d)
    requires ShowsOption(d, st)
    requires Reconcile(d, st, snap).Success?
    ensures ShowsOption(d, Reconcile(d, st, snap).value)
  {
    var st1 := Reconcile(d, st, snap).value;
    if st1 != st && st1.value.value.Shown? {
      var v := if d.source == FromMeasurements
               then MeasurementSamples(snap.measurements, d.channelId).value[0].value
               else ParameterRecord(snap.parameters, d.channelId).value.value;
      assert Presents(d, v, st1);
      var i :| 0 <= i < |d.mapping| && d.mapping[i] == (v, st1.value.value.text);
      assert Values(d.mapping)[i] == st1.value.value.text;
    }
  }
}
