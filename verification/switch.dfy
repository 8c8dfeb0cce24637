/** Switch entities (custom_components/smaev/switch.py): a two-state parameter channel
    shown as on/off through a fixed table, and written through the table's inverse. */
module SwitchPlatform {
  import opened Wrappers
  import opened Tables
  import opened Channels
  import opened Gateway

  datatype SwitchDescription = SwitchDescription(key: string, channelId: string, mapping: Table<Value, bool>)

  const MANUAL_CHARGING_RELEASE: SwitchDescription := SwitchDescription(
    "manual_charging_release",
    "Parameter.Chrg.ChrgApv",
    [ (Code(ChargingLock), false),
      (Code(ChargingRelease), true) ])

  const FULL_CHARGE_DISCONNECT: SwitchDescription := SwitchDescription(
    "full_charge_disconnect",
    "Parameter.Chrg.StpWhenFl",
    [ (Code(Yes), true),
      (Code(No), false) ])

  const SWITCH_DESCRIPTIONS: seq<SwitchDescription> := [MANUAL_CHARGING_RELEASE, FULL_CHARGE_DISCONNECT]

  /** What `_attr_is_on` holds: the mapped boolean, or the raw value that `get(value,
      value)` passes through when the code is not in the table. */
  datatype SwitchValue = Mapped(on: bool) | Unmapped(raw: Value)

  /** `_attr_is_on`, None until the first update or write. */
  datatype SwitchState = SwitchState(isOn: Option<SwitchValue>)

  /** Each switch table has exactly one code for on and one for off, so the inverse is
      defined on both booleans and round-trips. */
  lemma SwitchTablesAreTwoWay(desc: SwitchDescription, on: bool)
    requires desc in SWITCH_DESCRIPTIONS
    ensures |desc.mapping| == 2 && DistinctKeys(desc.mapping) && DistinctValues(desc.mapping)
    ensures on in Values(desc.mapping)
    ensures InverseGet(desc.mapping, on).Some?
    ensures Get(desc.mapping, InverseGet(desc.mapping, on).value) == Some(on)
  {
    assert desc.mapping[0].1 != desc.mapping[1].1;
    assert on == desc.mapping[0].1 || on == desc.mapping[1].1;
    EncodeDecode(desc.mapping, on);
  }

  /** `_handle_coordinator_update`: a missing channel changes nothing; otherwise `is_on` is
      the mapped boolean, or the raw value when the code is not in the table. */
  function Reconcile(desc: SwitchDescription, st: SwitchState, ps: seq<ParameterChannel>): (r: SwitchState)
    ensures ParameterRecord(ps, desc.channelId).Failure? ==> r == st
    ensures ParameterRecord(ps, desc.channelId).Success? ==>
              var v := ParameterRecord(ps, desc.channelId).value.value;
              && r.isOn.Some?
              && (r.isOn.value.Mapped? <==> v in Keys(desc.mapping))
              && (r.isOn.value.Mapped? ==> (v, r.isOn.value.on) in desc.mapping)
              && (r.isOn.value.Unmapped? ==> r.isOn.value.raw == v)
  {
    match ParameterRecord(ps, desc.channelId)
    case Failure(_) => st
    case Success(ch) =>
      match Get(desc.mapping, ch.value)
      case Some(on) => SwitchState(Some(Mapped(on)))
      case None => SwitchState(Some(Unmapped(ch.value)))
  }

  /** Reconciling the same data twice gives the same state as once. */
  lemma ReconcileIsIdempotent(desc: SwitchDescription, st: SwitchState, ps: seq<ParameterChannel>)
    ensures Reconcile(desc, Reconcile(desc, st, ps), ps) == Reconcile(desc, st, ps)
  {
  }

  /** `async_turn_on` (target true) and `async_turn_off` (target false): write the code the
      table maps to the target, set `is_on` once the write returned, then request one
      refresh. An error of the write escapes before either. */
  function Turn(desc: SwitchDescription, st: SwitchState, target: bool, reply: Reply<()>): (r: Result<(SwitchState, Effects), EntityError>)
    ensures r.Failure? <==> target !in Values(desc.mapping)
    ensures r.Success? ==>
              var (st1, e) := r.value;
              && |e.commands| >= 1 && e.commands[0].SetParameter?
              && e.commands[0].channelId == desc.channelId
              && (e.commands[0].value, target) in desc.mapping
              && e.commands[1..] == (if reply.Returned? then [RequestRefresh] else [])
              && (e.raised.Some? <==> reply.Raised?)
              && (reply.Raised? ==> e.raised == Some(reply.error))
              && st1 == (if reply.Returned? then SwitchState(Some(Mapped(target))) else st)
  {
    match InverseGet(desc.mapping, target)
    case None => Failure(UnknownOption(if target then "True" else "False"))
    case Some(code) =>
      var e := WriteThenRefresh(code, desc.channelId, reply);
      Success((if reply.Returned? then SwitchState(Some(Mapped(target))) else st, e))
  }

  /** For the shipped switches, turning on or off always writes, and once the device reports
      the written code the entity reads back the state it was turned to. */
  lemma TurnReadsBack(desc: SwitchDescription, st: SwitchState, target: bool, reply: Reply<()>, ps: seq<ParameterChannel>)
    requires desc in SWITCH_DESCRIPTIONS
    ensures Turn(desc, st, target, reply).Success?
    ensures ParameterRecord(ps, desc.channelId).Success?
            && ParameterRecord(ps, desc.channelId).value.value == Turn(desc, st, target, reply).value.1.commands[0].value
            ==> Reconcile(desc, st, ps) == SwitchState(Some(Mapped(target)))
  {
    SwitchTablesAreTwoWay(desc, target);
  }
}
