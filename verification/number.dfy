/** Number entities (custom_components/smaev/number.py): a parameter channel with bounds,
    whose displayed value is only set once the recorded bounds match the reported ones. */
module NumberPlatform {
  import opened Wrappers
  import opened Numeric
  import opened Channels
  import opened Gateway

  /** Bounds a number entity starts with (`SMAEV_DEFAULT_MIN`, `SMAEV_DEFAULT_MAX`). */
  const DEFAULT_MIN: Value := Number(0.0)
  const DEFAULT_MAX: Value := Number(10000000000.0)

  datatype NumberDescription = NumberDescription(key: string, channelId: string)

  /** The recorded bounds (`_attr_native_min_value`, `_attr_native_max_value`) and the
      displayed value (`_attr_native_value`, None until first set). */
  datatype NumberState = NumberState(minValue: Value, maxValue: Value, value: Option<int>)

  /** The state of a newly created number entity. */
  const NEW_NUMBER: NumberState := NumberState(DEFAULT_MIN, DEFAULT_MAX, None)

  /** `int(float(v))`: a JSON number or a decimal string, truncated toward zero. */
  function ParseChannelValue(v: Value): (r: Result<int, EntityError>)
    ensures r.Failure? ==> r.error == NotANumber(v)
    ensures v.Number? ==> r == Success(TruncateTowardZero(v.number))
    ensures v.Text? ==> (r.Success? <==> ParseNumber(v.text).Some?)
    ensures v.Text? && r.Success? ==> r.value == TruncateTowardZero(ParseNumber(v.text).value)
    ensures v.Code? ==> r.Failure?
  {
    match v
    case Number(x) => Success(TruncateTowardZero(x))
    case Text(s) =>
      (match ParseNumber(s)
       case Some(x) => Success(TruncateTowardZero(x))
       case None => Failure(NotANumber(v)))
    case Code(_) => Failure(NotANumber(v))
  }

  /** Bounds drift: the record reports both bounds and at least one differs from the
      recorded one. */
  predicate BoundsDrift(st: NumberState, ch: ParameterChannel) {
    ch.min.Some? && ch.max.Some? && (ch.min.value != st.minValue || ch.max.value != st.maxValue)
  }

  /** `_handle_coordinator_update`: find the channel (a missing channel propagates), parse
      its value, then either adopt drifted bounds and defer, or set the value. */
  function Reconcile(desc: NumberDescription, st: NumberState, ps: seq<ParameterChannel>): (r: Result<Reconciled<NumberState>, EntityError>)
    ensures ParameterRecord(ps, desc.channelId).Failure? ==>
              r == Failure(LookupFailed(ChannelNotFound(desc.channelId)))
    ensures ParameterRecord(ps, desc.channelId).Success? ==>
              var ch := ParameterRecord(ps, desc.channelId).value;
              && (r.Failure? <==> ParseChannelValue(ch.value).Failure?)
              // the ValueError of `float()` on the channel's value
              && (r.Failure? ==> r == Failure(NotANumber(ch.value)))
              && (r.Success? ==> (r.value.deferred <==> BoundsDrift(st, ch)))
              // a drift cycle records the reported bounds and leaves the value alone
              && (r.Success? && r.value.deferred ==>
                    && r.value.state.minValue == ch.min.value
                    && r.value.state.maxValue == ch.max.value
                    && r.value.state.value == st.value)
              // otherwise the bounds stay and the value is the parsed channel value
              && (r.Success? && !r.value.deferred ==>
                    && r.value.state.minValue == st.minValue
                    && r.value.state.maxValue == st.maxValue
                    && r.value.state.value == Some(ParseChannelValue(ch.value).value))
  {
    match ParameterRecord(ps, desc.channelId)
    case Failure(e) => Failure(LookupFailed(e))
    case Success(ch) =>
      match ParseChannelValue(ch.value)
      case Failure(e) => Failure(e)
      case Success(v) =>
        if BoundsDrift(st, ch) then
          Success(Reconciled(st.(minValue := ch.min.value, maxValue := ch.max.value), true))
        else
          Success(Reconciled(st.(value := Some(v)), false))
  }

  /** Convergence: re-running the deferred pass on the same data after a drift cycle sets
      the value and schedules nothing further. */
  lemma SecondPassConverges(desc: NumberDescription, st: NumberState, ps: seq<ParameterChannel>)
    requires Reconcile(desc, st, ps).Success? && Reconcile(desc, st, ps).value.deferred
    ensures var st1 := Reconcile(desc, st, ps).value.state;
            var ch := ParameterRecord(ps, desc.channelId).value;
            && Reconcile(desc, st1, ps).Success?
            && !Reconcile(desc, st1, ps).value.deferred
            && Reconcile(desc, st1, ps).value.state
               == NumberState(ch.min.value, ch.max.value, Some(ParseChannelValue(ch.value).value))
  {
  }

  /** A pass that did not defer is a fixed point: reconciling the same data again changes
      nothing and defers nothing. */
  lemma SettledPassIsIdempotent(desc: NumberDescription, st: NumberState, ps: seq<ParameterChannel>)
    requires Reconcile(desc, st, ps).Success? && !Reconcile(desc, st, ps).value.deferred
    ensures var st1 := Reconcile(desc, st, ps).value.state;
            Reconcile(desc, st1, ps) == Success(Reconciled(st1, false))
  {
  }

  /** One notification followed by draining the deferred re-run it scheduled. */
  function Settle(desc: NumberDescription, st: NumberState, ps: seq<ParameterChannel>): (r: Result<NumberState, EntityError>)
    ensures r.Failure? <==>
              ParameterRecord(ps, desc.channelId).Failure?
              || ParseChannelValue(ParameterRecord(ps, desc.channelId).value.value).Failure?
    ensures r.Success? ==>
              var ch := ParameterRecord(ps, desc.channelId).value;
              && r.value.value == Some(ParseChannelValue(ch.value).value)
              && !BoundsDrift(r.value, ch)
              && (ch.min.Some? && ch.max.Some? ==> r.value.minValue == ch.min.value && r.value.maxValue == ch.max.value)
  {
    match Reconcile(desc, st, ps)
    case Failure(e) => Failure(e)
    case Success(first) =>
      if first.deferred then
        SecondPassConverges(desc, st, ps);
        Success(Reconcile(desc, first.state, ps).value.state)
      else
        Success(first.state)
  }

  /** A new entity that sees reported bounds other than the defaults spends its first pass
      adopting them and shows no value until the deferred re-run. */
  lemma NewEntityFirstAdoptsBounds(desc: NumberDescription, ps: seq<ParameterChannel>)
    requires ParameterRecord(ps, desc.channelId).Success?
    requires var ch := ParameterRecord(ps, desc.channelId).value;
             ch.min.Some? && ch.max.Some? && (ch.min.value != DEFAULT_MIN || ch.max.value != DEFAULT_MAX)
             && ParseChannelValue(ch.value).Success?
    ensures var r := Reconcile(desc, NEW_NUMBER, ps);
            r.Success? && r.value.deferred && r.value.state.value.None?
  {
  }

  /** `async_set_native_value`: write the value rendered with no decimals to the entity's
      channel, then request one refresh. Local state is not touched. */
  function SetNativeValue(desc: NumberDescription, value: real, reply: Reply<()>): (e: Effects)
    ensures |e.commands| >= 1 && e.commands[0].SetParameter? && e.commands[0].channelId == desc.channelId
    ensures e.commands[0].value == Text(FormatNoDecimals(value))
    ensures ParseNumber(e.commands[0].value.text) == Some(RoundHalfEven(value) as real)
    ensures e.commands[1..] == (if reply.Returned? then [RequestRefresh] else [])
    ensures e.raised.Some? <==> reply.Raised?
    ensures reply.Raised? ==> e.raised == Some(reply.error)
  {
    FormatNoDecimalsParses(value);
    WriteThenRefresh(Text(FormatNoDecimals(value)), desc.channelId, reply)
  }

  /** Write then read back: once the device reports the text `SetNativeValue` writes as the
      channel value and the bounds are settled, the entity shows the rounded value that was
      written. */
  lemma WrittenValueReadsBack(desc: NumberDescription, st: NumberState, ps: seq<ParameterChannel>, value: real)
    requires ParameterRecord(ps, desc.channelId).Success?
    requires ParameterRecord(ps, desc.channelId).value.value == Text(FormatNoDecimals(value))
    requires !BoundsDrift(st, ParameterRecord(ps, desc.channelId).value)
    ensures Reconcile(desc, st, ps).Success?
    ensures Reconcile(desc, st, ps).value.state.value == Some(RoundHalfEven(value))
  {
    FormatNoDecimalsParses(value);
    var n := RoundHalfEven(value);
    assert TruncateTowardZero(n as real) == n;
  }
}
