/** The configuration flow (custom_components/smaev/config_flow.py): the user step that
    validates a host and credentials against the charger and creates one config entry per
    charger serial number, and the re-authentication steps that lead back to it. */
module ConfigFlow {
  import opened Wrappers
  import opened Gateway
  import Setup

  /** The form the user step shows, before schema defaults are applied: SSL and
      certificate verification are optional. */
  datatype UserInput = UserInput(
    host: string,
    username: string,
    password: string,
    ssl: Option<bool>,
    verifySsl: Option<bool>)

  const DEFAULT_SSL: bool := true
  const DEFAULT_VERIFY_SSL: bool := false

  /** `STEP_USER_DATA_SCHEMA`: the three required strings are kept, an omitted SSL flag
      becomes true and an omitted verification flag becomes false. */
  function ApplySchema(u: UserInput): (d: Setup.EntryData)
    ensures d.host == u.host && d.username == u.username && d.password == u.password
    ensures u.ssl.None? ==> d.ssl == DEFAULT_SSL
    ensures u.ssl.Some? ==> d.ssl == u.ssl.value
    ensures u.verifySsl.None? ==> d.verifySsl == DEFAULT_VERIFY_SSL
    ensures u.verifySsl.Some? ==> d.verifySsl == u.verifySsl.value
  {
    Setup.EntryData(u.host, u.username, u.password, u.ssl.GetOr(DEFAULT_SSL), u.verifySsl.GetOr(DEFAULT_VERIFY_SSL))
  }

  /** What `validate_input` did: the URL it connected to, the calls it made in order and
      the device information it returned or the error that escaped it. */
  datatype Validation = Validation(url: string, calls: seq<GatewayCall>, result: Result<DeviceInfo, GatewayError>)

  /** `validate_input`: open a session at the entry's URL, read the device information,
      close the session. The first call that raises ends the validation with its error;
      in particular the session is not closed when the read raised. */
  function ValidateInput(data: Setup.EntryData, open: Reply<()>, info: Reply<DeviceInfo>, close: Reply<()>): (v: Validation)
    ensures v.url == Setup.BuildUrl(data.host, data.ssl)
    ensures 1 <= |v.calls| <= 3 && v.calls == [Open, ReadDeviceInfo, Close][..|v.calls|]
    ensures ReadDeviceInfo in v.calls <==> open.Returned?
    ensures Close in v.calls <==> open.Returned? && info.Returned?
    ensures v.result.Success? <==> open.Returned? && info.Returned? && close.Returned?
    ensures v.result.Success? ==> v.result.value == info.result
    ensures open.Raised? ==> v.result == Failure(open.error)
    ensures open.Returned? && info.Raised? ==> v.result == Failure(info.error)
    ensures open.Returned? && info.Returned? && close.Raised? ==> v.result == Failure(close.error)
  {
    var url := Setup.BuildUrl(data.host, data.ssl);
    match open
    case Raised(e) => Validation(url, [Open], Failure(e))
    case Returned(_) =>
      match info
      case Raised(e) => Validation(url, [Open, ReadDeviceInfo], Failure(e))
      case Returned(d) =>
        match close
        case Raised(e) => Validation(url, [Open, ReadDeviceInfo, Close], Failure(e))
        case Returned(_) => Validation(url, [Open, ReadDeviceInfo, Close], Success(d))
  }

  /** The error key shown under the form's `base` for each error kind. */
  function ErrorKey(e: GatewayError): (key: string)
    ensures key in {"cannot_connect", "invalid_auth", "unknown"}
    ensures key == "cannot_connect" <==> e == ConnectionFailure
    ensures key == "invalid_auth" <==> e == AuthenticationFailure
    ensures key == "unknown" <==> e == UnexpectedFailure
  {
    match e
    case ConnectionFailure => "cannot_connect"
    case AuthenticationFailure => "invalid_auth"
    case UnexpectedFailure => "unknown"
  }

  /** Distinct error kinds are reported under distinct keys, so the form tells them apart. */
  lemma ErrorKeyInjective(e1: GatewayError, e2: GatewayError)
    ensures ErrorKey(e1) == ErrorKey(e2) <==> e1 == e2
  {
  }

  /** How a flow step ends. */
  datatype FlowResult =
    | ShowForm(stepId: string, errors: map<string, string>)
    | CreateEntry(title: string, uniqueId: string, data: Setup.EntryData)
    | Abort(reason: string)

  /** A config entry of this integration as the flow sees it. */
  datatype FlowEntry = FlowEntry(uniqueId: Option<string>, data: Setup.EntryData)

  /** Whether some entry already carries unique id `id`. */
  predicate Configured(entries: seq<FlowEntry>, id: string) {
    exists i :: 0 <= i < |entries| && entries[i].uniqueId == Some(id)
  }

  /** The position of the first entry carrying unique id `id`. */
  function FirstConfigured(entries: seq<FlowEntry>, id: string): (k: Option<nat>)
    ensures k.None? <==> !Configured(entries, id)
    ensures k.Some? ==> k.value < |entries| && entries[k.value].uniqueId == Some(id)
                        && forall j :: 0 <= j < k.value ==> entries[j].uniqueId != Some(id)
  {
    if |entries| == 0 then None
    else if entries[0].uniqueId == Some(id) then Some(0)
    else
      var k := FirstConfigured(entries[1..], id);
      assert Configured(entries, id) ==> Configured(entries[1..], id) by {
        if Configured(entries, id) {
          var i :| 0 <= i < |entries| && entries[i].uniqueId == Some(id);
          assert entries[1..][i - 1] == entries[i];
        }
      }
      assert k.Some? ==> entries[k.value + 1] == entries[1..][k.value];
      assert k.Some? ==> forall j :: 0 <= j < k.value + 1 ==> entries[j].uniqueId != Some(id) by {
        if k.Some? {
          forall j | 0 <= j < k.value + 1 ensures entries[j].uniqueId != Some(id) {
            if j > 0 { assert entries[j] == entries[1..][j - 1]; }
          }
        }
      }
      match k
      case None => None
      case Some(i) => Some(i + 1)
  }

  /** `_abort_if_unique_id_configured(updates=...)`: the first entry carrying `id` gets the
      new data (every key of the stored data is in the update); all others are unchanged. */
  function UpdateFirst(entries: seq<FlowEntry>, id: string, data: Setup.EntryData): (r: seq<FlowEntry>)
    ensures |r| == |entries|
    ensures forall i :: 0 <= i < |entries| ==> r[i].uniqueId == entries[i].uniqueId
    ensures !Configured(entries, id) ==> r == entries
    ensures Configured(entries, id) ==>
              var k := FirstConfigured(entries, id).value;
              && r[k].data == data
              && forall j :: 0 <= j < |entries| && j != k ==> r[j] == entries[j]
  {
    match FirstConfigured(entries, id)
    case None => entries
    case Some(k) => entries[k := entries[k].(data := data)]
  }

  /** What a step returned and the integration's config entries afterwards. */
  datatype Step = Step(result: FlowResult, calls: seq<GatewayCall>, entries: seq<FlowEntry>)

  /** `async_step_user`: without input, show the empty form. With input, validate it; an
      error re-shows the form with its key under `base`; a device whose serial number is
      already an entry's unique id updates that entry and aborts; any other device gets a
      new entry titled with the host. */
  function StepUser(input: Option<UserInput>, entries: seq<FlowEntry>, open: Reply<()>, info: Reply<DeviceInfo>, close: Reply<()>): (s: Step)
    ensures input.None? ==> s == Step(ShowForm("user", map[]), [], entries)
    ensures input.Some? ==>
              var data := ApplySchema(input.value);
              var v := ValidateInput(data, open, info, close);
              && s.calls == v.calls
              && (v.result.Failure? ==>
                    s.result == ShowForm("user", map["base" := ErrorKey(v.result.error)]) && s.entries == entries)
              && (v.result.Success? && Configured(entries, v.result.value.serial) ==>
                    s.result == Abort("already_configured")
                    && s.entries == UpdateFirst(entries, v.result.value.serial, data))
              && (v.result.Success? && !Configured(entries, v.result.value.serial) ==>
                    s.result == CreateEntry(data.host, v.result.value.serial, data)
                    && s.entries == entries + [FlowEntry(Some(v.result.value.serial), data)])
  {
    match input
    case None => Step(ShowForm("user", map[]), [], entries)
    case Some(u) =>
      var data := ApplySchema(u);
      var v := ValidateInput(data, open, info, close);
      match v.result
      case Failure(e) => Step(ShowForm("user", map["base" := ErrorKey(e)]), v.calls, entries)
      case Success(d) =>
        if Configured(entries, d.serial) then
          Step(Abort("already_configured"), v.calls, UpdateFirst(entries, d.serial, data))
        else
          Step(CreateEntry(data.host, d.serial, data), v.calls, entries + [FlowEntry(Some(d.serial), data)])
  }

  /** No two entries carry the same unique id. */
  predicate UniqueIdsDistinct(entries: seq<FlowEntry>) {
    forall i, j :: 0 <= i < j < |entries| && entries[i].uniqueId.Some? ==> entries[i].uniqueId != entries[j].uniqueId
  }

  /** The user step never gives two entries the same unique id, so one charger is
      configured at most once. */
  lemma StepUserKeepsUniqueIdsDistinct(input: Option<UserInput>, entries: seq<FlowEntry>, open: Reply<()>, info: Reply<DeviceInfo>, close: Reply<()>)
    requires UniqueIdsDistinct(entries)
    ensures UniqueIdsDistinct(StepUser(input, entries, open, info, close).entries)
  {
    var s := StepUser(input, entries, open, info, close);
    if input.Some? && s.result.CreateEntry? {
      var id := s.result.uniqueId;
      assert !Configured(entries, id);
      forall i, j | 0 <= i < j < |s.entries| && s.entries[i].uniqueId.Some?
        ensures s.entries[i].uniqueId != s.entries[j].uniqueId
      {
        if j == |entries| {
          assert s.entries[i] == entries[i];
        }
      }
    }
  }

  /** A second user step for the same charger aborts instead of creating a duplicate entry,
      and stores the newly entered data in the existing one. */
  lemma SameChargerIsConfiguredOnce(
    first: UserInput, second: UserInput, entries: seq<FlowEntry>,
    open: Reply<()>, info: Reply<DeviceInfo>, close: Reply<()>,
    open2: Reply<()>, info2: Reply<DeviceInfo>, close2: Reply<()>)
    requires StepUser(Some(first), entries, open, info, close).result.CreateEntry?
    requires info2.Returned? && info.Returned? && info2.result.serial == info.result.serial
    requires open2.Returned? && close2.Returned?
    ensures var after := StepUser(Some(first), entries, open, info, close).entries;
            var s := StepUser(Some(second), after, open2, info2, close2);
            && s.result == Abort("already_configured")
            && s.entries[|entries|] == FlowEntry(Some(info.result.serial), ApplySchema(second))
            && s.entries[..|entries|] == entries
  {
    var after := StepUser(Some(first), entries, open, info, close).entries;
    var id := info.result.serial;
    assert after[|entries|].uniqueId == Some(id);
    assert !Configured(entries, id);
    var s := StepUser(Some(second), after, open2, info2, close2);
    forall j | 0 <= j < |entries| ensures after[j].uniqueId != Some(id) {
      assert after[j] == entries[j];
    }
    assert FirstConfigured(after, id) == Some(|entries|);
    assert s.entries[..|entries|] == entries;
  }

  /** The entry the user step creates is set up against the URL it was validated against,
      and its device record is keyed by the serial number the validation read. */
  lemma CreatedEntrySetsUpAsValidated(
    u: UserInput, entries: seq<FlowEntry>, open: Reply<()>, info: Reply<DeviceInfo>, close: Reply<()>,
    loaded: map<string, Setup.LoadedEntry>, entryId: string, scanInterval: Option<int>,
    setupOpen: Reply<()>, setupInfo: Reply<DeviceInfo>)
    requires StepUser(Some(u), entries, open, info, close).result.CreateEntry?
    requires Setup.SetupEntry(loaded, entryId, StepUser(Some(u), entries, open, info, close).result.uniqueId,
                              StepUser(Some(u), entries, open, info, close).result.data,
                              scanInterval, setupOpen, setupInfo).outcome == Setup.SetUp
    ensures var c := StepUser(Some(u), entries, open, info, close).result;
            var r := Setup.SetupEntry(loaded, entryId, c.uniqueId, c.data, scanInterval, setupOpen, setupInfo);
            && r.loaded[entryId].url == ValidateInput(ApplySchema(u), open, info, close).url
            && r.loaded[entryId].deviceInfo.identifiers == {("smaev", info.result.serial)}
  {
  }

  /** `async_step_reauth` followed by `async_step_reauth_confirm`: without input, show the
      confirmation form; once confirmed, continue with a user step that has no input, which
      shows the empty user form. The confirmation's input itself is not used. */
  function ReauthConfirm(input: Option<UserInput>, entries: seq<FlowEntry>): (s: Step)
    ensures s.calls == [] && s.entries == entries
    ensures input.None? ==> s.result == ShowForm("reauth_confirm", map[])
    ensures input.Some? ==> s.result == ShowForm("user", map[])
  {
    match input
    case None => Step(ShowForm("reauth_confirm", map[]), [], entries)
    case Some(_) =>
      // without input the user step makes no gateway call, so the replies are never read
      StepUser(None, entries, Returned(()), Raised(UnexpectedFailure), Returned(()))
  }

  /** `async_step_reauth`: always the confirmation form first. */
  function Reauth(entries: seq<FlowEntry>): (s: Step)
    ensures s == Step(ShowForm("reauth_confirm", map[]), [], entries)
  {
    ReauthConfirm(None, entries)
  }
}
