# SMA EV Charger integration — a Dafny model of its per-cycle logic

This project models the decision logic of the Home Assistant integration for SMA EV
chargers (`custom_components/smaev`). It covers:

- **The update coordinator.** One poll cycle reopens a closed gateway session and requests
  the measurement set and then the parameter set. It accepts the data only when both sets
  are non-empty.
- **Lookup and lifecycle.** This covers the lookup from a device to its coordinator, and
  the setup and unload of a config entry. Setup builds the device URL, maps connection and
  authentication errors, and registers the device record.
- **The entity reconcilers.** Each entity projects one channel of the latest snapshot into
  its state:
  - **Number:** entities adopt drifted bounds before showing a value.
  - **Select:** entities adopt a drifted option list before showing the current option.
  - **Switch:** entities map two device codes to on and off.
  - **Sensor:** entities show a measurement's first sample or a parameter's value, through
    an optional label table.
- **The entity write paths.** These write the device code or the rendered number, then
  request a refresh.
- **The configuration flow.** It validates the user's input against the charger, reports
  errors, and creates one entry per charger serial number. It also has the
  re-authentication steps.

Gateway I/O is not modelled. The reply each gateway call would give (`Reply<T>`: returned
a value, or raised a connection, authentication or other error) is an input of the
function that makes the call. The calls made and the commands written are part of its
result. An exception the code lets escape is part of the result too, in the form each
operation's result type gives it: a `Failure` of a `Result` for the lookups, the parsers,
the reconcilers and validation; `Escaped` in a poll cycle's outcome; `SetupEscaped` in a
setup outcome; and the `raised` error of the `Effects` a write path returns.

A deferred re-run scheduled with `async_call_later(hass, 0, force_refresh)` is a `deferred`
flag on the reconciliation result. The lemmas about the second pass state what that re-run
does on the same data.

Modules:

- `Wrappers`: `Option` and `Result`.
- `Numeric`: Python's `str(n)`, `float(text)`, `int(x)` and `f"{x:.0f}"` on exact reals.
- `Tables`: dict literals as ordered pair lists, with `get` and the inverted dict.
- `Channels`: channel records, snapshots and the two channel lookups.
- `Gateway`: errors, replies, calls and the write-then-refresh path.
- `Coordinator`: the contents of coordinator.py.
- `Setup`: the contents of `__init__.py`.
- `NumberPlatform`, `SelectPlatform`, `SwitchPlatform`, `SensorPlatform`: the four entity
  platforms.
- `ConfigFlow`: the contents of config_flow.py.

## Model

| member | source | states |
|---|---|---|
| `Tables.Get` | custom_components/smaev/switch.py:143 | a dict lookup finds a value exactly when the key is one of the table's keys, and the value found is paired with that key in the table |
| `Tables.GetIsLastPair` | custom_components/smaev/switch.py:143 | the value found is that of the last pair with the key, as a dict literal that repeats a key keeps its last value |
| `Tables.InverseGet` | custom_components/smaev/select.py:124-126 | the inverted dict has an entry exactly for the table's values, and maps each to a key the table pairs with it |
| `Tables.InverseGetIsLastPair` | custom_components/smaev/select.py:124-126 | the key found is that of the last pair holding the value, as the comprehension overwrites earlier entries |
| `Tables.GetListed` | custom_components/smaev/select.py:149 | in a table with distinct keys, looking up a listed key gives the value listed with it |
| `Tables.InverseGetListed` | custom_components/smaev/select.py:160 | in a table with distinct values, inverting a listed value gives the key listed with it |
| `Tables.DecodeEncode` | custom_components/smaev/select.py:124-126 | for a one-to-one table, inverting the value of a key gives back the key |
| `Tables.EncodeDecode` | custom_components/smaev/switch.py:127-129 | for a table with distinct keys, looking up the inverted key of a value gives back the value |
| `Numeric.NatToString` | custom_components/smaev/sensor.py:82 | a rendered number is a non-empty digit string with no leading zero except for zero itself |
| `Numeric.NatToStringRoundTrip` | custom_components/smaev/sensor.py:82 | reading a rendered natural number back as decimal digits gives the number |
| `Numeric.CanonicalDigitsRoundTrip` | custom_components/smaev/sensor.py:82 | every digit string without a leading zero is the rendering of its own value, so rendering and reading are inverse |
| `Numeric.IntToStringParses` | custom_components/smaev/number.py:143 | the decimal rendering of any integer, sign included, parses back to that integer |
| `Numeric.TruncateTowardZero` | custom_components/smaev/number.py:143 | `int()` of a float lies between zero and the float, less than one away from it |
| `Numeric.TruncateIsSymmetric` | custom_components/smaev/number.py:143 | truncation of a negated value is the negated truncation |
| `Numeric.RoundHalfEven` | custom_components/smaev/number.py:166 | the rounded integer is at most one half away from the value, and is even on a tie |
| `Numeric.RoundHalfEvenUnique` | custom_components/smaev/number.py:166 | those two properties determine the rounded integer |
| `Numeric.FormatNoDecimals` | custom_components/smaev/number.py:166 | the text written is a '-' exactly when the value is negative (so "-0" for a negative value that rounds to zero), followed by the canonical digits of the rounded magnitude: digits only, no '.', no leading zero unless it is "0" |
| `Numeric.FormatNoDecimalsUnique` | custom_components/smaev/number.py:166 | exactly one text meets that description, so the contract fixes the rendering and excludes "42.0" or "042" |
| `Numeric.FormatNoDecimalsParses` | custom_components/smaev/number.py:166 | the text written for a number, including "-0", parses back to the rounded value |
| `Numeric.DotIndex` | custom_components/smaev/number.py:143 | the position found is the first '.' of the text, or its end when there is none |
| `Numeric.ParseNumberLiteral` | custom_components/smaev/number.py:143 | `float()` of every decimal literal (optional '+' or '-', digits, optionally '.' and more digits, at least one digit in all; "42.5", "-.5", "5." included) is the value the literal denotes |
| `Numeric.ParseNumberOnlyLiterals` | custom_components/smaev/number.py:143 | conversely, every text `float()` accepts here is such a literal and parses to its value; every other ASCII text is the ValueError (non-ASCII digits are left out) |
| `Channels.MeasurementSamples` | custom_components/smaev/sensor.py:251-254 | a measurement lookup fails with a channel error exactly when no channel has the id, and otherwise returns the samples of the first channel with the id |
| `Channels.ParameterRecord` | custom_components/smaev/select.py:131-137 | a parameter lookup fails with a channel error exactly when no record has the id, and otherwise returns the first record with the id |
| `Gateway.WriteThenRefresh` | custom_components/smaev/number.py:163-167 | the parameter is written first; a refresh is requested exactly when the write returned; the write's error escapes otherwise |
| `Coordinator.UpdateInterval` | custom_components/smaev/coordinator.py:37-40 | the poll period is the entry's scan interval option when set, otherwise 5 seconds |
| `Coordinator.PollCycle` | custom_components/smaev/coordinator.py:43-64 | open is called exactly when the session is closed. A failed reopen stops the cycle: a connection error gives UpdateFailed, an authentication error the distinct AuthFailed, and any other error escapes. Parameters are requested exactly when measurements returned. A connection error of either request gives UpdateFailed, and any other error of a request escapes the cycle unchanged. The cycle publishes data exactly when both requests returned non-empty sets, and an empty set gives the no-data failure |
| `Coordinator.CoordinatorByDeviceId` | custom_components/smaev/coordinator.py:68-88 | an unknown device is an error. Otherwise the result is the coordinator of the first linked entry that exists, belongs to the integration and is loaded, and it is an error exactly when no linked entry qualifies |
| `Setup.BuildUrl` | custom_components/smaev/__init__.py:57-58 | the URL ends with the host, and starts with "https://" exactly when SSL is on and with "http://" exactly when it is off |
| `Setup.UrlRoundTrip` | custom_components/smaev/__init__.py:57-58 | the URL determines both the SSL choice and the host |
| `Setup.SetupEntry` | custom_components/smaev/__init__.py:52-96 | open and device info are called in order. A connection error gives NotReady, an authentication error AuthFailed and any other error escapes unchanged, and nothing is registered on failure. On success exactly the entry is added, with the URL, the scan interval, identifiers `{("smaev", unique id)}`, the serial as hardware version, and the other device fields copied |
| `Setup.UnloadEntry` | custom_components/smaev/__init__.py:99-108 | the session is closed and the entry dropped only when the platforms unloaded, and only that entry is dropped; otherwise nothing changes; a missing entry is a KeyError |
| `Setup.UnloadUndoesSetup` | custom_components/smaev/__init__.py:52-108 | unloading a freshly set-up entry restores the loaded entries and closes the session |
| `Setup.LegacyPollCycle` | custom_components/smaev/__init__.py:124-136 | this cycle never calls open. Measurements are requested before parameters, and parameters exactly when measurements returned. A connection error of either request gives UpdateFailed and any other error escapes unchanged; data is published exactly when both sets are non-empty, and is then exactly the two sets; it never reports AuthFailed |
| `Setup.PollCycleExtendsLegacy` | custom_components/smaev/__init__.py:124-136 | on an open session the two cycles agree. After a successful reopen they agree except for the leading open call |
| `Setup.SetupCoordinatorSkipsReopen` | custom_components/smaev/__init__.py:86 | on a closed session, the coordinator setup registers goes straight to the measurement request, while the coordinator.py cycle first reopens |
| `NumberPlatform.ParseChannelValue` | custom_components/smaev/number.py:143 | a number or ASCII decimal text is truncated toward zero; any other value is the ValueError of `float()` (`NotANumber` of that value) |
| `NumberPlatform.Reconcile` | custom_components/smaev/number.py:134-157 | a missing channel propagates and an unparsable value fails with the ValueError `NotANumber` of that value. The pass defers exactly when both bounds are reported and one differs from the recorded one. On a drift the reported bounds are recorded and the value kept; otherwise the value becomes the parsed one and the bounds stay |
| `NumberPlatform.SecondPassConverges` | custom_components/smaev/number.py:144-161 | the deferred re-run on the same data does not defer again, and sets the value next to the adopted bounds |
| `NumberPlatform.SettledPassIsIdempotent` | custom_components/smaev/number.py:144-157 | a pass that did not defer is a fixed point of reconciling the same data |
| `NumberPlatform.Settle` | custom_components/smaev/number.py:134-161 | a notification plus its deferred re-run fails exactly when the lookup or the parse fails, and otherwise shows the parsed value with no drift left |
| `NumberPlatform.NewEntityFirstAdoptsBounds` | custom_components/smaev/number.py:130-154 | a new entity that sees bounds other than 0 and 10000000000 defers and shows no value on its first pass |
| `NumberPlatform.SetNativeValue` | custom_components/smaev/number.py:163-167 | the entity's channel gets the `.0f` rendering of the value, which parses to the value rounded half to even; a refresh follows exactly when the write returned, and otherwise the write's own error escapes |
| `NumberPlatform.WrittenValueReadsBack` | custom_components/smaev/number.py:143-167 | once the device reports the written text and the bounds are settled, the entity shows the rounded value |
| `SelectPlatform.SelectTablesOneToOne` | custom_components/smaev/select.py:46-73 | both select tables have distinct codes and distinct labels |
| `SelectPlatform.SelectMappingRoundTrip` | custom_components/smaev/select.py:124-126 | on a select table, code to label to code, and label to code to label, are identities |
| `SelectPlatform.OptionLabels` | custom_components/smaev/select.py:141-144 | the option list is defined exactly when every possible value is mapped, and is then the label of each in order. Otherwise the error names an unmapped possible value |
| `SelectPlatform.Reconcile` | custom_components/smaev/select.py:129-150 | a missing channel changes nothing and a missing possible-values field fails. An unmapped possible value fails with the KeyError `OptionLabels` reports. A different option list is recorded and the pass defers, keeping the current option. An unchanged list makes the current option the label of the value, and fails, with `UnmappedValue` of the value, exactly when the value is unmapped |
| `SelectPlatform.SecondPassConverges` | custom_components/smaev/select.py:145-154 | the deferred re-run on the same data does not defer again and, when the value is mapped, sets the current option to its label |
| `SelectPlatform.SettledPassIsIdempotent` | custom_components/smaev/select.py:145-150 | a pass that did not defer is a fixed point of reconciling the same data |
| `SelectPlatform.NewEntityFirstAdoptsOptions` | custom_components/smaev/select.py:121-147 | a new entity (empty option list, no current option) whose channel reports a fully mapped, non-empty list spends its first pass recording the labels and defers, showing no option |
| `SelectPlatform.SelectOption` | custom_components/smaev/select.py:156-163 | an unknown option is a KeyError before any write. Otherwise the code paired with the option is written to the channel, and a refresh follows exactly when the write returned; otherwise the write's own error escapes |
| `SelectPlatform.SelectedOptionReadsBack` | custom_components/smaev/select.py:129-163 | once the device reports the written code with an unchanged option list, the entity shows the selected option |
| `SwitchPlatform.SwitchTablesAreTwoWay` | custom_components/smaev/switch.py:48-72 | each switch table has one code for on and one for off, so writing either state is defined and reads back |
| `SwitchPlatform.Reconcile` | custom_components/smaev/switch.py:132-144 | a missing channel changes nothing. Otherwise the state is mapped exactly when the code is in the table, with the table's boolean, and an unmapped code passes through as the raw value |
| `SwitchPlatform.ReconcileIsIdempotent` | custom_components/smaev/switch.py:132-144 | reconciling the same data twice equals reconciling it once |
| `SwitchPlatform.Turn` | custom_components/smaev/switch.py:146-164 | the code paired with the target is written. The state becomes the target only when the write returned, and a refresh follows only then; otherwise the write's own error escapes |
| `SwitchPlatform.TurnReadsBack` | custom_components/smaev/switch.py:127-164 | turning a shipped switch always writes; once the device reports the written code, the entity reads back the target state |
| `SensorPlatform.PhaseDescriptions` | custom_components/smaev/sensor.py:80-105 | the generator yields one plain measurement sensor per phase, with no label table and no options |
| `SensorPlatform.PhasePairing` | custom_components/smaev/sensor.py:80-105 | phase A is paired with load 1, B with 2 and C with 3, in both the current and the voltage generators |
| `SensorPlatform.DescriptionKeys` | custom_components/smaev/sensor.py:56-197 | the description list has sixteen entries whose keys are, in order, the ones written out in `SENSOR_KEYS` |
| `SensorPlatform.KeysDistinct` | custom_components/smaev/sensor.py:56-197 | no two sensor descriptions share a key |
| `SensorPlatform.UniqueIdInjective` | custom_components/smaev/sensor.py:244 | within one entry, equal unique ids come from equal keys |
| `SensorPlatform.UniqueIdsDistinct` | custom_components/smaev/sensor.py:244 | the sensors of one entry have pairwise distinct unique ids |
| `SensorPlatform.EnumOptionsMatchMapping` | custom_components/smaev/sensor.py:67-180 | every enum sensor declares as options exactly its table's labels in order, each table is one-to-one, and only the enum sensors have a table |
| `SensorPlatform.Reconcile` | custom_components/smaev/sensor.py:247-268 | a missing channel changes nothing. A measurement sensor shows its channel's first sample, and an empty sample list is an IndexError. A parameter sensor shows the record's value. The label is shown exactly when the value is in the table, otherwise the raw value |
| `SensorPlatform.ReconcileIsIdempotent` | custom_components/smaev/sensor.py:247-268 | reconciling the same snapshot twice equals reconciling it once |
| `SensorPlatform.ReconcileShowsOption` | custom_components/smaev/sensor.py:247-268 | for the shipped sensors, reconciliation keeps any shown label among the sensor's declared options |
| `ConfigFlow.ApplySchema` | custom_components/smaev/config_flow.py:32-40 | host and credentials are kept; an omitted SSL flag becomes true and an omitted verification flag false |
| `ConfigFlow.ValidateInput` | custom_components/smaev/config_flow.py:43-53 | validation connects to the same URL setup uses. It calls open, device info and close in order, and stops at the first call that raises with that error, so the session stays open when the read raised. It returns the device info exactly when all three returned |
| `ConfigFlow.ErrorKey` | custom_components/smaev/config_flow.py:70-76 | a connection error is reported exactly as "cannot_connect", an authentication error exactly as "invalid_auth", and any other error exactly as "unknown" |
| `ConfigFlow.ErrorKeyInjective` | custom_components/smaev/config_flow.py:70-76 | distinct error kinds get distinct keys |
| `ConfigFlow.FirstConfigured` | custom_components/smaev/config_flow.py:79 | the position found is the first entry carrying the unique id, and there is none exactly when no entry carries it |
| `ConfigFlow.UpdateFirst` | custom_components/smaev/config_flow.py:79 | an abort for a configured id stores the new data in the first entry with that id and leaves every other entry and every unique id unchanged |
| `ConfigFlow.StepUser` | custom_components/smaev/config_flow.py:61-86 | without input the empty user form is shown and nothing is called. A validation error re-shows the form with its key under "base". A serial already configured aborts with "already_configured" and updates that entry. Any other serial creates an entry titled with the host, keyed by the serial and holding the input |
| `ConfigFlow.StepUserKeepsUniqueIdsDistinct` | custom_components/smaev/config_flow.py:78-82 | the user step never gives two entries the same unique id |
| `ConfigFlow.SameChargerIsConfiguredOnce` | custom_components/smaev/config_flow.py:78-82 | a second flow for a charger already added aborts, stores the new data in the existing entry and leaves the other entries unchanged |
| `ConfigFlow.CreatedEntrySetsUpAsValidated` | custom_components/smaev/config_flow.py:43-82 | a created entry is set up at the URL it was validated against, and its device record is keyed by the serial the validation read |
| `ConfigFlow.ReauthConfirm` | custom_components/smaev/config_flow.py:92-101 | without input the confirmation form is shown; once confirmed the empty user form follows; no gateway call is made and no entry changes |
| `ConfigFlow.Reauth` | custom_components/smaev/config_flow.py:88-90 | re-authentication always starts at the confirmation form |

## Left out

- The Home Assistant `DataUpdateCoordinator` machinery is not modelled: scheduling,
  listeners, keeping the last snapshot and marking entities unavailable. A cycle is one
  function call, and notifying an entity is one reconciliation call.
- `async_call_later` and the timer behind it are not modelled: a deferred re-run is the
  `deferred` flag. The convergence lemmas state what the re-run computes on unchanged data.
- The wire text of the pysmaev constants is not modelled. `SmaEvChargerParameters.*` and
  `SmaEvChargerMeasurements.*` are distinct symbolic codes. That library's
  `get_measurements_channel` and `get_parameters_channel` are not part of this model: they
  are modelled as returning the first record with the id.
- Floating point is not modelled: JSON numbers are exact reals. `float(text)` accepts an
  optional sign and a decimal literal. Exponents, surrounding whitespace, underscores,
  "inf" and "nan" are out of scope, as is binary rounding in `int()` and `.0f`.
- Numeric.ParseNumberOnlyLiterals: characterises only the ASCII text `float()` accepts.
  Python's `float()` also accepts non-ASCII decimal digits ("٣", "１２"), which the model
  rejects because Unicode digit classes are not modelled.
- NumberPlatform.ParseChannelValue: like `ParseNumber`, it rejects text written with
  non-ASCII decimal digits, which `float()` would accept.
- Number and select entities compare values with Python `!=`. The model compares `Value`s
  structurally, so the number 0 and the text "0" differ, and the integer 0 and the float
  0.0 are the same number.
- The config flow catches `SmaEvChargerConnectionError` and `SmaEvChargerAuthenticationError`
  (custom_components/smaev/config_flow.py:8-12,70-72), while setup and the poll cycles
  catch `SmaEvChargerConnectionException` and `SmaEvChargerAuthenticationException`
  (custom_components/smaev/coordinator.py:5-9,48-50,58 and
  custom_components/smaev/__init__.py:8-12,68-71). pysmaev is not part of this model, and
  the model treats each pair as one error kind (`ConnectionFailure`,
  `AuthenticationFailure`). If the names are distinct classes, the config flow would
  report the `...Exception` kind as "unknown"; the model does not represent that case.
- NumberPlatform.ParseChannelValue: its clause that a device code fails to parse follows
  from the codes being symbolic, not from `float()`. The codes' wire text is not modelled,
  and `float()` would accept a code whose text is numeric.
- `close()` at unload is assumed to return. An error raised there is not modelled.
- datetime.py, services.py and device_action.py are not part of this model, and neither
  is the platform setup that creates the entities (`async_setup_entry` of each platform).
  Logging is left out too.
- The Home Assistant internals of the config flow are not modelled: reloading an updated
  entry, ignored entries, and the flow manager's form rendering. The data merge of
  `_abort_if_unique_id_configured` is modelled as replacing the data. This is exact
  because the schema always supplies every key.
- A device's linked config entries are a set in Home Assistant. Here they are a sequence
  in iteration order, so "first qualifying entry" depends on that order.
- Measurement sensors read the first sample of their channel (`channel[0]`,
  custom_components/smaev/sensor.py:255). The model does not claim the samples are
  ordered by time.
- A connection failure while requesting measurements ends the cycle before parameters are
  requested (custom_components/smaev/coordinator.py:55-59).
- The config-flow tests expect `validate_input` to return a pair. The code returns the
  device information dictionary, and the model follows the code.

## Findings

| source | as written | input that shows it | evidently intended | confidence | as-written member | corrected member |
|---|---|---|---|---|---|---|
| custom_components/smaev/__init__.py:86 | `async_setup_entry` creates the coordinator class defined later in `__init__.py`, whose cycle never reopens the gateway session | a session that a previous failure left closed: the next cycle requests measurements without calling `open` | the coordinator of coordinator.py, which reopens a closed session before fetching; the device lookup in coordinator.py declares the coordinator it returns to be of that class | medium, not executed | `Setup.SetupCoordinatorSkipsReopen` | `Coordinator.PollCycle` |
