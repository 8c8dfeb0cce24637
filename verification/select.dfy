/** Select entities (custom_components/smaev/select.py): an enumerated parameter channel
    whose option list is the label image of the channel's possible values, and whose
    current option is only set once that list matches the recorded one. */
module SelectPlatform {
  import opened Wrappers
  import opened Tables
  import opened Channels
  import opened Gateway

  datatype SelectDescription = SelectDescription(key: string, channelId: string, mapping: Table<Value, string>)

  const OPERATING_MODE: SelectDescription := SelectDescription(
    "operating_mode_of_charge_session",
    "Parameter.Chrg.ActChaMod",
    [ (Code(BoostCharging), "boost_charging"),
      (Code(OptimizedCharging), "optimized_charging"),
      (Code(SetpointCharging), "setpoint_charging"),
      (Code(ChargeStop), "charge_stop") ])

  const LED_BRIGHTNESS: SelectDescription := SelectDescription(
    "led_brightness",
    "Parameter.Sys.DevSigBri",
    [ (Code(LedLow), "low"),
      (Code(LedAverage), "average"),
      (Code(LedHigh), "high") ])

  const SELECT_DESCRIPTIONS: seq<SelectDescription> := [OPERATING_MODE, LED_BRIGHTNESS]

  /** The recorded option list (`_attr_options`) and the current option. */
  datatype SelectState = SelectState(options: seq<string>, current: Option<string>)

  /** The state of a newly created select entity: no options, no current option. */
  const NEW_SELECT: SelectState := SelectState([], None)

  /** Both select tables are one-to-one, so `inv_value_mapping` loses nothing. */
  lemma SelectTablesOneToOne(desc: SelectDescription)
    requires desc in SELECT_DESCRIPTIONS
    ensures DistinctKeys(desc.mapping) && DistinctValues(desc.mapping)
  {
  }

  /** Round trip over a select table in both directions: a device code's label inverts to
      the code, and an option's code maps to the option. */
  lemma SelectMappingRoundTrip(desc: SelectDescription, code: Value, option: string)
    requires desc in SELECT_DESCRIPTIONS
    ensures code in Keys(desc.mapping) ==> InverseGet(desc.mapping, Get(desc.mapping, code).value) == Some(code)
    ensures option in Values(desc.mapping) ==> Get(desc.mapping, InverseGet(desc.mapping, option).value) == Some(option)
  {
    SelectTablesOneToOne(desc);
    if code in Keys(desc.mapping) {
      DecodeEncode(desc.mapping, code);
    }
    if option in Values(desc.mapping) {
      EncodeDecode(desc.mapping, option);
    }
  }

  /** `[value_mapping[v] for v in possible_values]`: fails on the first unmapped value. */
  function OptionLabels(mapping: Table<Value, string>, possible: seq<Value>): (r: Result<seq<string>, EntityError>)
    ensures r.Success? <==> forall i :: 0 <= i < |possible| ==> possible[i] in Keys(mapping)
    ensures r.Success? ==>
              |r.value| == |possible|
              && forall i :: 0 <= i < |possible| ==> Get(mapping, possible[i]) == Some(r.value[i])
    ensures r.Failure? ==> r.error.UnmappedValue? && r.error.value in possible && r.error.value !in Keys(mapping)
  {
    if |possible| == 0 then Success([])
    else
      match Get(mapping, possible[0])
      case None => Failure(UnmappedValue(possible[0]))
      case Some(shown) =>
        match OptionLabels(mapping, possible[1..])
        case Failure(e) => Failure(e)
        case Success(rest) =>
          assert forall i :: 1 <= i < |possible| ==> possible[i] == possible[1..][i - 1];
          Success([shown] + rest)
  }

  /** `_handle_coordinator_update`: a missing channel changes nothing; otherwise the mapped
      option list either replaces a different recorded list and defers, or the current
      option becomes the label of the channel's value. */
  function Reconcile(desc: SelectDescription, st: SelectState, ps: seq<ParameterChannel>): (r: Result<Reconciled<SelectState>, EntityError>)
    ensures ParameterRecord(ps, desc.channelId).Failure? ==> r == Success(Reconciled(st, false))
    ensures ParameterRecord(ps, desc.channelId).Success? ==>
              var ch := ParameterRecord(ps, desc.channelId).value;
              && (ch.possibleValues.None? ==> r == Failure(MissingField("possibleValues")))
              && (ch.possibleValues.Some? ==>
                    var labels := OptionLabels(desc.mapping, ch.possibleValues.value);
                    && (labels.Failure? ==> r == Failure(labels.error))
                    // options drift: record the new list, keep the current option, defer
                    && (labels.Success? && labels.value != st.options ==>
                          r.Success? && r.value.deferred
                          && r.value.state.options == labels.value
                          && r.value.state.current == st.current)
                    // options settled: the current option is the value's label
                    && (labels.Success? && labels.value == st.options ==>
                          (r.Success? <==> ch.value in Keys(desc.mapping))
                          && (r.Failure? ==> r == Failure(UnmappedValue(ch.value)))
                          && (r.Success? ==> !r.value.deferred
                                             && r.value.state.options == st.options
                                             && r.value.state.current == Get(desc.mapping, ch.value))))
  {
    match ParameterRecord(ps, desc.channelId)
    case Failure(_) => Success(Reconciled(st, false))
    case Success(ch) =>
      match ch.possibleValues
      case None => Failure(MissingField("possibleValues"))
      case Some(possible) =>
        match OptionLabels(desc.mapping, possible)
        case Failure(e) => Failure(e)
        case Success(options) =>
          if options != st.options then
            Success(Reconciled(st.(options := options), true))
          else
            match Get(desc.mapping, ch.value)
            case None => Failure(UnmappedValue(ch.value))
            case Some(shown) => Success(Reconciled(st.(current := Some(shown)), false))
  }

  /** Convergence: after a drift cycle, the deferred re-run on the same data does not defer
      again and, when the value is mapped, sets the current option. */
  lemma SecondPassConverges(desc: SelectDescription, st: SelectState, ps: seq<ParameterChannel>)
    requires Reconcile(desc, st, ps).Success? && Reconcile(desc, st, ps).value.deferred
    ensures var st1 := Reconcile(desc, st, ps).value.state;
            var ch := ParameterRecord(ps, desc.channelId).value;
            var r := Reconcile(desc, st1, ps);
            && (r.Success? <==> ch.value in Keys(desc.mapping))
            && (r.Success? ==> !r.value.deferred && r.value.state.options == st1.options
                               && r.value.state.current == Get(desc.mapping, ch.value))
  {
  }

  /** A pass that did not defer is a fixed point of reconciling the same data. */
  lemma SettledPassIsIdempotent(desc: SelectDescription, st: SelectState, ps: seq<ParameterChannel>)
    requires Reconcile(desc, st, ps).Success? && !Reconcile(desc, st, ps).value.deferred
    ensures var st1 := Reconcile(desc, st, ps).value.state;
            Reconcile(desc, st1, ps) == Success(Reconciled(st1, false))
  {
  }

  /** A new entity whose channel reports a fully mapped, non-empty list of possible values
      spends its first pass recording that list and shows no option until the deferred
      re-run. */
  lemma NewEntityFirstAdoptsOptions(desc: SelectDescription, ps: seq<ParameterChannel>)
    requires ParameterRecord(ps, desc.channelId).Success?
    requires var ch := ParameterRecord(ps, desc.channelId).value;
             && ch.possibleValues.Some? && |ch.possibleValues.value| >= 1
             && OptionLabels(desc.mapping, ch.possibleValues.value).Success?
    ensures var r := Reconcile(desc, NEW_SELECT, ps);
            var ch := ParameterRecord(ps, desc.channelId).value;
            && r.Success? && r.value.deferred && r.value.state.current.None?
            && r.value.state.options == OptionLabels(desc.mapping, ch.possibleValues.value).value
  {
  }

  /** `async_select_option`: write the device code of the chosen label to the channel, then
      request one refresh; an unknown label is a KeyError before anything is written. */
  function SelectOption(desc: SelectDescription, option: string, reply: Reply<()>): (r: Result<Effects, EntityError>)
    ensures r.Failure? <==> option !in Values(desc.mapping)
    ensures r.Failure? ==> r.error == UnknownOption(option)
    ensures r.Success? ==>
              var e := r.value;
              && |e.commands| >= 1 && e.commands[0].SetParameter?
              && e.commands[0].channelId == desc.channelId
              && (e.commands[0].value, option) in desc.mapping
              && e.commands[1..] == (if reply.Returned? then [RequestRefresh] else [])
              && (e.raised.Some? <==> reply.Raised?)
              && (reply.Raised? ==> e.raised == Some(reply.error))
  {
    match InverseGet(desc.mapping, option)
    case None => Failure(UnknownOption(option))
    case Some(code) => Success(WriteThenRefresh(code, desc.channelId, reply))
  }

  /** Write then read back: when the device reports the code a selection wrote and its
      option list is unchanged, the entity shows the selected option. */
  lemma SelectedOptionReadsBack(desc: SelectDescription, st: SelectState, ps: seq<ParameterChannel>, option: string, reply: Reply<()>)
    requires desc in SELECT_DESCRIPTIONS
    requires SelectOption(desc, option, reply).Success?
    requires ParameterRecord(ps, desc.channelId).Success?
    requires var ch := ParameterRecord(ps, desc.channelId).value;
             && ch.value == SelectOption(desc, option, reply).value.commands[0].value
             && ch.possibleValues.Some?
             && OptionLabels(desc.mapping, ch.possibleValues.value) == Success(st.options)
    ensures Reconcile(desc, st, ps) == Success(Reconciled(st.(current := Some(option)), false))
  {
    SelectTablesOneToOne(desc);
    var code := SelectOption(desc, option, reply).value.commands[0].value;
    var i :| 0 <= i < |desc.mapping| && desc.mapping[i] == (code, option);
    GetListed(desc.mapping, i);
    SettledPassShows(desc, st, ps, option);
  }

  /** A pass over an unchanged option list whose value is mapped shows that value's label. */
  lemma SettledPassShows(desc: SelectDescription, st: SelectState, ps: seq<ParameterChannel>, shown: string)
    requires ParameterRecord(ps, desc.channelId).Success?
    requires var ch := ParameterRecord(ps, desc.channelId).value;
             && ch.possibleValues.Some?
             && OptionLabels(desc.mapping, ch.possibleValues.value) == Success(st.options)
             && Get(desc.mapping, ch.value) == Some(shown)
    ensures Reconcile(desc, st, ps) == Success(Reconciled(st.(current := Some(shown)), false))
  {
  }
}
