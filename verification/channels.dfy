/** Channel records and the snapshot one poll produces, and the two lookups the entities
    use (`get_measurements_channel`, `get_parameters_channel` of the pysmaev helpers). */
module Channels {
  import opened Wrappers

  /** The named device codes the entity descriptions refer to. They are constants of the
      pysmaev library (`SmaEvChargerParameters.*`, `SmaEvChargerMeasurements.*`); their wire
      text belongs to that library, so the model keeps them symbolic and distinct. */
  datatype DeviceCode =
    // SmaEvChargerParameters
    | BoostCharging | OptimizedCharging | SetpointCharging | ChargeStop
    | LedLow | LedAverage | LedHigh
    | ChargingLock | ChargingRelease
    | Yes | No
    // SmaEvChargerMeasurements
    | SmartChargingMode | BoostChargingMode
    | NotConnected | SleepMode | ActiveMode | StationLocked
    | Ok | Warning | Alarm | Off

  /** A device-native value as it appears in the JSON the charger returns. */
  datatype Value =
    | Code(code: DeviceCode)
    | Text(text: string)
    | Number(number: real)

  /** One timestamped reading of a measurement channel. */
  datatype Sample = Sample(value: Value, time: string)

  datatype MeasurementChannel = MeasurementChannel(channelId: string, samples: seq<Sample>)

  /** A parameter channel: its value and, when the device reports them, its bounds and its
      list of possible values (`min`, `max`, `possibleValues`). */
  datatype ParameterChannel = ParameterChannel(
    channelId: string,
    value: Value,
    min: Option<Value>,
    max: Option<Value>,
    possibleValues: Option<seq<Value>>)

  /** What one successful poll returns: the measurement set and the parameter set. */
  datatype Snapshot = Snapshot(measurements: seq<MeasurementChannel>, parameters: seq<ParameterChannel>)

  /** The only snapshots a poll may publish: both sets non-empty. */
  predicate Complete(s: Snapshot) {
    |s.measurements| > 0 && |s.parameters| > 0
  }

  /** `SmaEvChargerChannelError`: the requested channel is not in the set. */
  datatype ChannelError = ChannelNotFound(channelId: string)

  /** Why an entity's reconciliation or write raised instead of completing. */
  datatype EntityError =
    | LookupFailed(cause: ChannelError)   // a channel error nobody caught
    | MissingField(field: string)         // KeyError on the channel record
    | UnmappedValue(value: Value)         // KeyError on value_mapping
    | UnknownOption(option: string)       // KeyError on inv_value_mapping
    | NotANumber(value: Value)            // ValueError from float()
    | NoSamples                           // IndexError on channel[0]

  /** An entity's presentation state after one reconciliation, and whether that pass
      scheduled a deferred re-run (`async_call_later(hass, 0, force_refresh)`). */
  datatype Reconciled<S> = Reconciled(state: S, deferred: bool)

  /** The samples of the first measurement channel with identifier `id`. */
  function MeasurementSamples(ms: seq<MeasurementChannel>, id: string): (r: Result<seq<Sample>, ChannelError>)
    ensures r.Failure? <==> forall i :: 0 <= i < |ms| ==> ms[i].channelId != id
    ensures r.Failure? ==> r.error == ChannelNotFound(id)
    ensures r.Success? ==> exists i :: 0 <= i < |ms| && ms[i].channelId == id && ms[i].samples == r.value
                                       && forall j :: 0 <= j < i ==> ms[j].channelId != id
  {
    if |ms| == 0 then Failure(ChannelNotFound(id))
    else if ms[0].channelId == id then
      Success(ms[0].samples)
    else
      var r := MeasurementSamples(ms[1..], id);
      assert r.Failure? ==> forall i :: 0 <= i < |ms| ==> ms[i].channelId != id by {
        if r.Failure? {
          forall i | 0 <= i < |ms| ensures ms[i].channelId != id {
            if i > 0 { assert ms[i] == ms[1..][i - 1]; }
          }
        }
      }
      assert r.Success? ==> exists i :: 0 <= i < |ms| && ms[i].channelId == id && ms[i].samples == r.value
                                        && forall j :: 0 <= j < i ==> ms[j].channelId != id by {
        if r.Success? {
          var k :| 0 <= k < |ms| - 1 && ms[1..][k].channelId == id && ms[1..][k].samples == r.value
                   && forall j :: 0 <= j < k ==> ms[1..][j].channelId != id;
          assert ms[k + 1] == ms[1..][k];
          forall j | 0 <= j < k + 1 ensures ms[j].channelId != id {
            if j > 0 { assert ms[j] == ms[1..][j - 1]; }
          }
        }
      }
      r
  }

  /** The first parameter record with identifier `id`. */
  function ParameterRecord(ps: seq<ParameterChannel>, id: string): (r: Result<ParameterChannel, ChannelError>)
    ensures r.Failure? <==> forall i :: 0 <= i < |ps| ==> ps[i].channelId != id
    ensures r.Failure? ==> r.error == ChannelNotFound(id)
    ensures r.Success? ==> r.value.channelId == id
    ensures r.Success? ==> exists i :: 0 <= i < |ps| && ps[i] == r.value
                                       && forall j :: 0 <= j < i ==> ps[j].channelId != id
  {
    if |ps| == 0 then Failure(ChannelNotFound(id))
    else if ps[0].channelId == id then Success(ps[0])
    else
      var r := ParameterRecord(ps[1..], id);
      assert r.Failure? ==> forall i :: 0 <= i < |ps| ==> ps[i].channelId != id by {
        if r.Failure? {
          forall i | 0 <= i < |ps| ensures ps[i].channelId != id {
            if i > 0 { assert ps[i] == ps[1..][i - 1]; }
          }
        }
      }
      assert r.Success? ==> exists i :: 0 <= i < |ps| && ps[i] == r.value
                                        && forall j :: 0 <= j < i ==> ps[j].channelId != id by {
        if r.Success? {
          var k :| 0 <= k < |ps| - 1 && ps[1..][k] == r.value
                   && forall j :: 0 <= j < k ==> ps[1..][j].channelId != id;
          assert ps[k + 1] == ps[1..][k];
          forall j | 0 <= j < k + 1 ensures ps[j].channelId != id {
            if j > 0 { assert ps[j] == ps[1..][j - 1]; }
          }
        }
      }
      r
  }
}
