/** Entry setup and unload of the integration (custom_components/smaev/__init__.py): the
    device URL, how a failed connection at setup is reported, the device-registry record,
    the unload guard, and the older poll cycle kept in that file, which never reopens the
    session. */
module Setup {
  import opened Wrappers
  import opened Channels
  import opened Gateway
  import Coordinator

  /** The `data` of a config entry, as the user step stores it. */
  datatype EntryData = EntryData(
    host: string,
    username: string,
    password: string,
    ssl: bool,
    verifySsl: bool)

  /** `f"{protocol}://{host}"` with protocol "https" exactly when SSL is on. */
  function BuildUrl(host: string, ssl: bool): (url: string)
    ensures |url| >= |host| && url[|url| - |host|..] == host
    ensures ssl <==> |url| >= 8 && url[..8] == "https://"
    ensures !ssl <==> |url| >= 7 && url[..7] == "http://"
  {
    var url := (if ssl then "https" else "http") + "://" + host;
    assert ssl ==> url[..8] == "https://" && url[4] == 's';
    assert !ssl ==> url[..7] == "http://" && url[4] == ':';
    url
  }

  /** Reads a URL built by `BuildUrl` back into its SSL flag and host. */
  function SplitUrl(url: string): Option<(bool, string)> {
    if |url| >= 8 && url[..8] == "https://" then Some((true, url[8..]))
    else if |url| >= 7 && url[..7] == "http://" then Some((false, url[7..]))
    else None
  }

  /** The URL determines both the protocol choice and the host. */
  lemma UrlRoundTrip(host: string, ssl: bool)
    ensures SplitUrl(BuildUrl(host, ssl)) == Some((ssl, host))
  {
    var url := BuildUrl(host, ssl);
    if ssl {
      assert url == "https://" + host;
      assert url[8..] == host;
    } else {
      assert url == "http://" + host;
      assert url[7..] == host;
    }
  }

  /** Home Assistant's `DeviceInfo` record for the charger. */
  datatype HaDeviceInfo = HaDeviceInfo(
    configurationUrl: string,
    identifiers: set<(string, string)>,
    manufacturer: string,
    model: string,
    name: string,
    hwVersion: string,
    swVersion: string)

  /** What `hass.data[DOMAIN][entry_id]` holds for a loaded entry: the registered device
      record and the coordinator, represented by its poll interval. */
  datatype LoadedEntry = LoadedEntry(url: string, deviceInfo: HaDeviceInfo, updateInterval: int)

  /** How `async_setup_entry` ends. */
  datatype SetupOutcome =
    | SetUp
    | NotReady                     // ConfigEntryNotReady: retried by the host later
    | SetupAuthFailed              // ConfigEntryAuthFailed: re-authentication needed
    | SetupEscaped(error: GatewayError)

  datatype SetupResult = SetupResult(
    outcome: SetupOutcome,
    calls: seq<GatewayCall>,
    loaded: map<string, LoadedEntry>)

  function SetupFailure(e: GatewayError): SetupOutcome {
    match e
    case ConnectionFailure => NotReady
    case AuthenticationFailure => SetupAuthFailed
    case UnexpectedFailure => SetupEscaped(UnexpectedFailure)
  }

  /** `async_setup_entry`, up to forwarding the platforms: open the session, read the device
      information, and register the entry's device record and coordinator. */
  function SetupEntry(
    loaded: map<string, LoadedEntry>,
    entryId: string,
    uniqueId: string,
    data: EntryData,
    scanInterval: Option<int>,
    open: Reply<()>,
    info: Reply<DeviceInfo>): (r: SetupResult)
    ensures r.calls == if open.Returned? then [Open, ReadDeviceInfo] else [Open]
    ensures r.outcome == NotReady <==>
              open == Raised(ConnectionFailure) || (open.Returned? && info == Raised(ConnectionFailure))
    ensures r.outcome == SetupAuthFailed <==>
              open == Raised(AuthenticationFailure) || (open.Returned? && info == Raised(AuthenticationFailure))
    ensures r.outcome == SetUp <==> open.Returned? && info.Returned?
    ensures open == Raised(UnexpectedFailure) || (open.Returned? && info == Raised(UnexpectedFailure)) ==>
              r.outcome == SetupEscaped(UnexpectedFailure)
    ensures r.outcome != SetUp ==> r.loaded == loaded
    ensures r.outcome == SetUp ==>
              && r.loaded.Keys == loaded.Keys + {entryId}
              && (forall id :: id in loaded && id != entryId ==> r.loaded[id] == loaded[id])
    ensures r.outcome == SetUp ==>
              var e := r.loaded[entryId];
              var d := info.result;
              && e.url == BuildUrl(data.host, data.ssl)
              && e.updateInterval == Coordinator.UpdateInterval(scanInterval)
              && e.deviceInfo.configurationUrl == e.url
              && e.deviceInfo.identifiers == {(Coordinator.DOMAIN, uniqueId)}
              && e.deviceInfo.hwVersion == d.serial
              && e.deviceInfo.manufacturer == d.manufacturer
              && e.deviceInfo.model == d.model
              && e.deviceInfo.name == d.name
              && e.deviceInfo.swVersion == d.swVersion
  {
    var url := BuildUrl(data.host, data.ssl);
    match open
    case Raised(e) => SetupResult(SetupFailure(e), [Open], loaded)
    case Returned(_) =>
      match info
      case Raised(e) => SetupResult(SetupFailure(e), [Open, ReadDeviceInfo], loaded)
      case Returned(d) =>
        var device := HaDeviceInfo(url, {(Coordinator.DOMAIN, uniqueId)}, d.manufacturer, d.model, d.name, d.serial, d.swVersion);
        var entry := LoadedEntry(url, device, Coordinator.UpdateInterval(scanInterval));
        SetupResult(SetUp, [Open, ReadDeviceInfo], loaded[entryId := entry])
  }

  /** How `async_unload_entry` ends: its return value, the gateway calls it made and the
      integration's loaded entries afterwards. */
  datatype UnloadResult = UnloadResult(ok: bool, calls: seq<GatewayCall>, loaded: map<string, LoadedEntry>)

  /** `async_unload_entry`: only when the host unloaded every platform is the session closed
      and the entry dropped; a missing entry is then a KeyError. */
  function UnloadEntry(loaded: map<string, LoadedEntry>, entryId: string, platformsUnloaded: bool): (r: Result<UnloadResult, string>)
    ensures r.Failure? <==> platformsUnloaded && entryId !in loaded
    ensures r.Success? ==> r.value.ok == platformsUnloaded
    ensures r.Success? && !platformsUnloaded ==> r.value.calls == [] && r.value.loaded == loaded
    ensures r.Success? && platformsUnloaded ==>
              r.value.calls == [Close] && entryId !in r.value.loaded
              && r.value.loaded.Keys == loaded.Keys - {entryId}
              && forall id :: id in r.value.loaded ==> r.value.loaded[id] == loaded[id]
  {
    if !platformsUnloaded then Success(UnloadResult(false, [], loaded))
    else if entryId !in loaded then Failure(entryId)
    else Success(UnloadResult(true, [Close], loaded - {entryId}))
  }

  /** Unloading a freshly set-up entry returns the integration's state to what it was. */
  lemma UnloadUndoesSetup(
    loaded: map<string, LoadedEntry>, entryId: string, uniqueId: string, data: EntryData,
    scanInterval: Option<int>, open: Reply<()>, info: Reply<DeviceInfo>)
    requires entryId !in loaded
    requires SetupEntry(loaded, entryId, uniqueId, data, scanInterval, open, info).outcome == SetUp
    ensures var s := SetupEntry(loaded, entryId, uniqueId, data, scanInterval, open, info);
            var u := UnloadEntry(s.loaded, entryId, true);
            u.Success? && u.value.loaded == loaded && u.value.calls == [Close]
  {
    var s := SetupEntry(loaded, entryId, uniqueId, data, scanInterval, open, info);
    var u := UnloadEntry(s.loaded, entryId, true);
    assert u.value.loaded == loaded by {
      assert u.value.loaded.Keys == loaded.Keys;
      forall id | id in loaded ensures u.value.loaded[id] == loaded[id] {
        assert id != entryId;
      }
    }
  }

  /** The older `_async_update_data` of this file: no reopen; measurements, then parameters;
      a connection failure or an empty set fails the cycle. */
  function LegacyPollCycle(
    measurements: Reply<seq<MeasurementChannel>>,
    parameters: Reply<seq<ParameterChannel>>): (r: Coordinator.Cycle)
    ensures Open !in r.calls
    ensures Coordinator.IsPrefix(r.calls, [RequestMeasurements, RequestParameters])
    ensures |r.calls| >= 1 && r.calls[0] == RequestMeasurements
    ensures RequestParameters in r.calls <==> measurements.Returned?
    ensures measurements == Raised(ConnectionFailure) ==> r.outcome == Coordinator.UpdateFailed(Coordinator.FetchFailed)
    ensures measurements.Returned? && parameters == Raised(ConnectionFailure) ==>
              r.outcome == Coordinator.UpdateFailed(Coordinator.FetchFailed)
    // only the connection exception is caught; any other escapes the cycle
    ensures measurements.Raised? && measurements.error != ConnectionFailure ==>
              r.outcome == Coordinator.Escaped(measurements.error)
    ensures measurements.Returned? && parameters.Raised? && parameters.error != ConnectionFailure ==>
              r.outcome == Coordinator.Escaped(parameters.error)
    ensures r.outcome.Updated? <==>
              measurements.Returned? && parameters.Returned?
              && |measurements.result| > 0 && |parameters.result| > 0
    ensures r.outcome.Updated? ==>
              r.outcome.snapshot == Snapshot(measurements.result, parameters.result)
              && Complete(r.outcome.snapshot)
    ensures measurements.Returned? && parameters.Returned?
            && (|measurements.result| == 0 || |parameters.result| == 0) ==>
              r.outcome == Coordinator.UpdateFailed(Coordinator.NoValidData)
    ensures r.outcome != Coordinator.AuthFailed
  {
    match measurements
    case Raised(e) => Coordinator.Cycle(Coordinator.RequestFailure(e), [RequestMeasurements])
    case Returned(ms) =>
      match parameters
      case Raised(e) => Coordinator.Cycle(Coordinator.RequestFailure(e), [RequestMeasurements, RequestParameters])
      case Returned(ps) =>
        var outcome :=
          if |ms| > 0 && |ps| > 0 then Coordinator.Updated(Snapshot(ms, ps))
          else Coordinator.UpdateFailed(Coordinator.NoValidData);
        Coordinator.Cycle(outcome, [RequestMeasurements, RequestParameters])
  }

  /** The newer cycle differs from the older one only by reopening a closed session: with
      the session open they agree, and after a successful reopen they agree except for the
      leading `open` call. */
  lemma PollCycleExtendsLegacy(
    closed: bool,
    open: Reply<()>,
    measurements: Reply<seq<MeasurementChannel>>,
    parameters: Reply<seq<ParameterChannel>>)
    ensures !closed ==> Coordinator.PollCycle(closed, open, measurements, parameters) == LegacyPollCycle(measurements, parameters)
    ensures closed && open.Returned? ==>
              var c := Coordinator.PollCycle(closed, open, measurements, parameters);
              var l := LegacyPollCycle(measurements, parameters);
              c.outcome == l.outcome && c.calls == [Open] + l.calls
  {
  }

  /** `async_setup_entry` registers the coordinator class defined in this file, not the one
      of coordinator.py: on a session that was closed, its cycle goes straight to the
      measurement request, where the cycle of coordinator.py first reopens the session. */
  lemma SetupCoordinatorSkipsReopen(
    open: Reply<()>,
    measurements: Reply<seq<MeasurementChannel>>,
    parameters: Reply<seq<ParameterChannel>>)
    ensures LegacyPollCycle(measurements, parameters).calls[0] == RequestMeasurements
    ensures Coordinator.PollCycle(true, open, measurements, parameters).calls[0] == Open
  {
  }
}
