/** The pysmaev `SmaEvCharger` object seen from this integration: which calls it is asked
    to make and how each call can end. Its I/O is not modelled; a call's reply is an input
    of the functions that use it, and the calls and writes they make are their output. */
module Gateway {
  import opened Wrappers
  import opened Channels

  /** The exception kinds a gateway call can raise. */
  datatype GatewayError =
    | ConnectionFailure       // SmaEvChargerConnectionException / ...ConnectionError
    | AuthenticationFailure   // SmaEvChargerAuthenticationException / ...AuthenticationError
    | UnexpectedFailure       // any other exception

  /** How one awaited gateway call ended. */
  datatype Reply<+T> = Returned(result: T) | Raised(error: GatewayError)

  /** Calls made on the gateway by setup, polling and the config flow. */
  datatype GatewayCall = Open | Close | ReadDeviceInfo | RequestMeasurements | RequestParameters

  /** What an entity's write path asks of the outside world, in order. */
  datatype Command =
    | SetParameter(value: Value, channelId: string)   // evcharger.set_parameter(value, channel)
    | RequestRefresh                                   // coordinator.async_request_refresh()

  /** The dictionary `evcharger.device_info()` returns. */
  datatype DeviceInfo = DeviceInfo(
    manufacturer: string,
    model: string,
    name: string,
    serial: string,
    swVersion: string)

  /** The commands a write path issued and the gateway error it let escape, if any. */
  datatype Effects = Effects(commands: seq<Command>, raised: Option<GatewayError>)

  /** `await evcharger.set_parameter(value, channel)` followed, only if it returned, by
      `await coordinator.async_request_refresh()`. */
  function WriteThenRefresh(value: Value, channelId: string, reply: Reply<()>): (e: Effects)
    ensures |e.commands| >= 1 && e.commands[0] == SetParameter(value, channelId)
    ensures RequestRefresh in e.commands <==> reply.Returned?
    ensures e.commands == [SetParameter(value, channelId)] || e.commands == [SetParameter(value, channelId), RequestRefresh]
    ensures e.raised.Some? <==> reply.Raised?
    ensures reply.Raised? ==> e.raised.value == reply.error
  {
    match reply
    case Returned(_) => Effects([SetParameter(value, channelId), RequestRefresh], None)
    case Raised(err) => Effects([SetParameter(value, channelId)], Some(err))
  }
}
