/** `SmaEvChargerCoordinator` (custom_components/smaev/coordinator.py): its poll interval,
    one poll cycle `_async_update_data`, and the lookup of a device's coordinator. The
    Home Assistant `DataUpdateCoordinator` that schedules cycles and fans their result out
    is host code and is not modelled; a cycle is one function call. */
module Coordinator {
  import opened Wrappers
  import opened Channels
  import opened Gateway

  const DOMAIN: string := "smaev"
  const DEFAULT_SCAN_INTERVAL: int := 5

  /** The poll period in seconds: the entry's `scan_interval` option when set. */
  function UpdateInterval(scanInterval: Option<int>): (seconds: int)
    ensures scanInterval.Some? ==> seconds == scanInterval.value
    ensures scanInterval.None? ==> seconds == DEFAULT_SCAN_INTERVAL
  {
    scanInterval.GetOr(DEFAULT_SCAN_INTERVAL)
  }

  /** The message an `UpdateFailed` carries. */
  datatype FailReason =
    | ConnectionLost     // reopening the session failed to connect
    | FetchFailed        // a request raised a connection exception
    | NoValidData        // a request returned an empty set

  /** How a poll cycle ends. */
  datatype PollOutcome =
    | Updated(snapshot: Snapshot)      // the data returned to the coordinator
    | UpdateFailed(reason: FailReason)
    | AuthFailed                       // ConfigEntryAuthFailed: re-authentication needed
    | Escaped(error: GatewayError)     // an exception the cycle does not catch

  /** The outcome of a cycle and the gateway calls it made, in order. */
  datatype Cycle = Cycle(outcome: PollOutcome, calls: seq<GatewayCall>)

  /** The calls a cycle makes when nothing fails. */
  function CallPlan(closed: bool): seq<GatewayCall> {
    (if closed then [Open] else []) + [RequestMeasurements, RequestParameters]
  }

  predicate IsPrefix(a: seq<GatewayCall>, b: seq<GatewayCall>) {
    |a| <= |b| && a == b[..|a|]
  }

  /** Only a connection failure of a request is turned into `UpdateFailed`. */
  function RequestFailure(e: GatewayError): PollOutcome {
    if e == ConnectionFailure then UpdateFailed(FetchFailed) else Escaped(e)
  }

  /** `_async_update_data`: reopen a closed session, request measurements, then parameters,
      and accept the data only when both sets are non-empty. The replies the gateway would
      give to each call are parameters. */
  function PollCycle(
    closed: bool,
    open: Reply<()>,
    measurements: Reply<seq<MeasurementChannel>>,
    parameters: Reply<seq<ParameterChannel>>): (r: Cycle)
    // the calls made follow the plan and stop at the first failure
    ensures IsPrefix(r.calls, CallPlan(closed))
    ensures Open in r.calls <==> closed
    ensures closed ==> r.calls[0] == Open
    // reopening
    ensures closed && open.Raised? ==> r.calls == [Open]
    ensures closed && open == Raised(ConnectionFailure) ==> r.outcome == UpdateFailed(ConnectionLost)
    ensures r.outcome == AuthFailed <==> closed && open == Raised(AuthenticationFailure)
    ensures closed && open == Raised(UnexpectedFailure) ==> r.outcome == Escaped(UnexpectedFailure)
    // fetching
    ensures RequestMeasurements in r.calls <==> !closed || open.Returned?
    ensures RequestParameters in r.calls <==> (!closed || open.Returned?) && measurements.Returned?
    ensures (!closed || open.Returned?) && measurements == Raised(ConnectionFailure) ==>
              r.outcome == UpdateFailed(FetchFailed) && RequestParameters !in r.calls
    ensures (!closed || open.Returned?) && measurements.Returned? && parameters == Raised(ConnectionFailure) ==>
              r.outcome == UpdateFailed(FetchFailed)
    // only the connection exception of a request is caught; any other escapes the cycle
    ensures (!closed || open.Returned?) && measurements.Raised? && measurements.error != ConnectionFailure ==>
              r.outcome == Escaped(measurements.error)
    ensures (!closed || open.Returned?) && measurements.Returned? && parameters.Raised?
            && parameters.error != ConnectionFailure ==>
              r.outcome == Escaped(parameters.error)
    // validating
    ensures r.outcome.Updated? <==>
              (!closed || open.Returned?) && measurements.Returned? && parameters.Returned?
              && |measurements.result| > 0 && |parameters.result| > 0
    ensures r.outcome.Updated? ==>
              r.outcome.snapshot == Snapshot(measurements.result, parameters.result)
              && Complete(r.outcome.snapshot)
    ensures (!closed || open.Returned?) && measurements.Returned? && parameters.Returned?
            && (|measurements.result| == 0 || |parameters.result| == 0) ==>
              r.outcome == UpdateFailed(NoValidData)
  {
    if closed && open.Raised? then
      var outcome := match open.error
        case ConnectionFailure => UpdateFailed(ConnectionLost)
        case AuthenticationFailure => AuthFailed
        case UnexpectedFailure => Escaped(UnexpectedFailure);
      Cycle(outcome, [Open])
    else
      var before: seq<GatewayCall> := if closed then [Open] else [];
      match measurements
      case Raised(e) => Cycle(RequestFailure(e), before + [RequestMeasurements])
      case Returned(ms) =>
        match parameters
        case Raised(e) => Cycle(RequestFailure(e), before + [RequestMeasurements, RequestParameters])
        case Returned(ps) =>
          var outcome := if |ms| > 0 && |ps| > 0 then Updated(Snapshot(ms, ps)) else UpdateFailed(NoValidData);
          Cycle(outcome, before + [RequestMeasurements, RequestParameters])
  }

  /** A config entry as the device lookup sees it. */
  datatype ConfigEntry = ConfigEntry(domain: string)

  /** The parts of Home Assistant's state the device lookup reads: the device registry
      (device id to the ids of its config entries, in iteration order), the config entries
      by id, and this integration's loaded entries (`hass.data[DOMAIN]`) by id. */
  datatype Registry<C> = Registry(
    devices: map<string, seq<string>>,
    entries: map<string, ConfigEntry>,
    loaded: map<string, C>)

  datatype LookupError = UnknownDevice(deviceId: string) | NoCoordinator(deviceId: string)

  /** An entry id whose coordinator may serve the device: the entry exists, belongs to this
      integration and is loaded. */
  predicate Qualifies<C>(reg: Registry<C>, entryId: string) {
    entryId in reg.entries && reg.entries[entryId].domain == DOMAIN && entryId in reg.loaded
  }

  /** `async_get_coordinator_by_device_id`: the coordinator of the first qualifying entry
      linked to the device; a ValueError when the device is unknown or none qualifies. */
  method CoordinatorByDeviceId<C>(reg: Registry<C>, deviceId: string) returns (r: Result<C, LookupError>)
    ensures deviceId !in reg.devices ==> r == Failure(UnknownDevice(deviceId))
    ensures deviceId in reg.devices ==>
              (r.Failure? <==> forall i :: 0 <= i < |reg.devices[deviceId]| ==> !Qualifies(reg, reg.devices[deviceId][i]))
    ensures deviceId in reg.devices && r.Failure? ==> r.error == NoCoordinator(deviceId)
    ensures r.Success? ==>
              deviceId in reg.devices &&
              exists i :: 0 <= i < |reg.devices[deviceId]|
                          && Qualifies(reg, reg.devices[deviceId][i])
                          && r.value == reg.loaded[reg.devices[deviceId][i]]
                          && forall j :: 0 <= j < i ==> !Qualifies(reg, reg.devices[deviceId][j])
  {
    if deviceId !in reg.devices {
      return Failure(UnknownDevice(deviceId));
    }
    var linked := reg.devices[deviceId];
    var i := 0;
    while i < |linked|
      invariant 0 <= i <= |linked|
      invariant forall j :: 0 <= j < i ==> !Qualifies(reg, linked[j])
    {
      if Qualifies(reg, linked[i]) {
        return Success(reg.loaded[linked[i]]);
      }
      i := i + 1;
    }
    return Failure(NoCoordinator(deviceId));
  }
}
