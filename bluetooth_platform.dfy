/** The platform interface shared by the test coordinator and the two radio
    adapters: the event records it hands to the coordinator, the connection
    role, the callbacks of its event handler and the handler registration. */
module BluetoothPlatform {
  import opened Common

  /** `connection_role_t` */
  datatype ConnectionRole = Peripheral | Main

  datatype AdvertisingStartEvent = AdvertisingStartEvent(
    durationMs: uint32, isPeriodic: bool, periodicIntervalMs: uint32)

  /** An advertising report. `peerAddress` is the data the address pointer
      refers to, `peerAddressSize` the size the sender claims for it, and
      `localName` the characters of the name string. */
  datatype AdvertisingReportEvent = AdvertisingReportEvent(
    sid: byte, peerAddressType: byte, peerAddress: seq<byte>, peerAddressSize: nat,
    localName: string, isPeriodic: bool, periodicIntervalMs: uint32)

  datatype ScanStartEvent = ScanStartEvent(scanDurationMs: uint32)

  datatype ConnectEvent = ConnectEvent(
    peerAddressType: byte, peerAddress: seq<byte>, peerAddressSize: nat,
    error: int, role: ConnectionRole, connectionHandle: Handle)

  datatype PeriodicSyncEvent = PeriodicSyncEvent(
    sid: byte, peerAddressType: byte, peerAddress: seq<byte>, peerAddressSize: nat,
    error: int, role: ConnectionRole, syncHandle: Handle)

  /** One call into an `EventHandler`, with its argument. */
  datatype HandlerCall =
    | OnAdvertisingStart(start: AdvertisingStartEvent)
    | OnScanStart(scan: ScanStartEvent)
    | OnAdvertisingReport(report: AdvertisingReportEvent)
    | OnAdvertisingTimeout
    | OnScanTimeout
    | OnConnection(connection: ConnectEvent)
    | OnDisconnect
    | OnPeriodicSync(sync: PeriodicSyncEvent)
    | OnSyncLoss

  /** The `AdvertisingReportEvent` constructor: every argument is stored as given,
      except the 32-bit `sid`, which lands in an 8-bit field. */
  function NewAdvertisingReportEvent(
    sid: int32, peerAddressType: byte, peerAddress: seq<byte>, peerAddressSize: nat,
    localName: string, isPeriodic: bool, periodicIntervalMs: uint32): (e: AdvertisingReportEvent)
    ensures e.peerAddressType == peerAddressType && e.peerAddress == peerAddress
    ensures e.peerAddressSize == peerAddressSize && e.localName == localName
    ensures e.isPeriodic == isPeriodic && e.periodicIntervalMs == periodicIntervalMs
    ensures 0 <= sid < 256 ==> e.sid == sid
  {
    AdvertisingReportEvent(Narrow8(sid), peerAddressType, peerAddress, peerAddressSize,
      localName, isPeriodic, periodicIntervalMs)
  }

  /** The `PeriodicSyncEvent` constructor, with the same narrowing of `sid`. */
  function NewPeriodicSyncEvent(
    sid: int32, peerAddressType: byte, peerAddress: seq<byte>, peerAddressSize: nat,
    error: int, role: ConnectionRole, syncHandle: Handle): (e: PeriodicSyncEvent)
    ensures e.peerAddressType == peerAddressType && e.peerAddress == peerAddress
    ensures e.peerAddressSize == peerAddressSize && e.error == error
    ensures e.role == role && e.syncHandle == syncHandle
    ensures 0 <= sid < 256 ==> e.sid == sid
  {
    PeriodicSyncEvent(Narrow8(sid), peerAddressType, peerAddress, peerAddressSize,
      error, role, syncHandle)
  }

  /** The narrowing loses the SID's high bits: SIDs 256 apart give the same
      report and the same sync event. */
  lemma SidNarrowingAliases(
    sid: int32, k: int, peerAddressType: byte, peerAddress: seq<byte>, peerAddressSize: nat,
    localName: string, isPeriodic: bool, periodicIntervalMs: uint32,
    error: int, role: ConnectionRole, syncHandle: Handle)
    requires -0x8000_0000 <= sid + 256 * k < 0x8000_0000
    ensures NewAdvertisingReportEvent(sid + 256 * k, peerAddressType, peerAddress, peerAddressSize,
        localName, isPeriodic, periodicIntervalMs)
      == NewAdvertisingReportEvent(sid, peerAddressType, peerAddress, peerAddressSize,
        localName, isPeriodic, periodicIntervalMs)
    ensures NewPeriodicSyncEvent(sid + 256 * k, peerAddressType, peerAddress, peerAddressSize,
        error, role, syncHandle)
      == NewPeriodicSyncEvent(sid, peerAddressType, peerAddress, peerAddressSize,
        error, role, syncHandle)
  {
    Narrow8Periodic(sid, k);
  }

  /** The error-only `ConnectEvent` constructor: it sets `error` and leaves every
      other field indeterminate, which the model represents by the fields of `junk`. */
  function NewConnectEventError(error: int, junk: ConnectEvent): (e: ConnectEvent)
    ensures e.error == error
    ensures e.peerAddressType == junk.peerAddressType && e.peerAddress == junk.peerAddress
    ensures e.peerAddressSize == junk.peerAddressSize && e.role == junk.role
    ensures e.connectionHandle == junk.connectionHandle
  {
    junk.(error := error)
  }

  /** An installed event handler: the shared default handler, whose every
      callback does nothing, or a handler object supplied by the program. */
  datatype Handler = DefaultHandler | Installed(id: nat)

  /** One callback run on a handler object supplied by the program. */
  datatype Delivery = Delivery(handler: nat, call: HandlerCall)

  /** Raising `c` on handler `h`: the default handler's callbacks are empty,
      so only an installed handler receives anything. */
  function Deliver(h: Handler, c: HandlerCall, received: seq<Delivery>): seq<Delivery>
  {
    match h
    case DefaultHandler => received
    case Installed(id) => received + [Delivery(id, c)]
  }

  function DeliverAll(h: Handler, cs: seq<HandlerCall>, received: seq<Delivery>): seq<Delivery>
    decreases |cs|
  {
    if |cs| == 0 then received else DeliverAll(h, cs[1..], Deliver(h, cs[0], received))
  }

  /** Events raised while no handler of the program is installed are lost;
      an installed handler receives every one of them, in order. */
  lemma {:induction false} DeliverAllReceives(h: Handler, cs: seq<HandlerCall>, received: seq<Delivery>)
    ensures h.DefaultHandler? ==> DeliverAll(h, cs, received) == received
    ensures h.Installed? ==>
      |DeliverAll(h, cs, received)| == |received| + |cs|
      && DeliverAll(h, cs, received)[..|received|] == received
      && forall i :: 0 <= i < |cs| ==> DeliverAll(h, cs, received)[|received| + i] == Delivery(h.id, cs[i])
    decreases |cs|
  {
    if |cs| > 0 {
      var r1 := Deliver(h, cs[0], received);
      DeliverAllReceives(h, cs[1..], r1);
      if h.Installed? {
        var all := DeliverAll(h, cs, received);
        assert all[..|r1|] == r1;
        assert all[..|received|] == r1[..|received|];
        forall i | 0 <= i < |cs| ensures all[|received| + i] == Delivery(h.id, cs[i]) {
          if i == 0 {
            assert all[|received|] == r1[|received|];
          } else {
            assert all[|r1| + (i - 1)] == Delivery(h.id, cs[1..][i - 1]);
          }
        }
      }
    }
  }

  /** The handler registration of a platform. */
  class Platform {
    /** `_event_handler`; None is a null pointer. */
    var eventHandler: Option<Handler>

    /** The base constructor does not initialise the handler pointer; `junk`
        stands for whatever value it holds. */
    constructor (junk: Option<Handler>)
      ensures eventHandler == junk
    {
      eventHandler := junk;
    }

    /** `getEventHandler`: the handler last installed. */
    function GetEventHandler(): Option<Handler>
      reads this
    {
      eventHandler
    }

    /** `setEventHandler`: null installs the default handler, anything else is
        installed as given; afterwards the handler is never null. */
    method SetEventHandler(eh: Option<nat>)
      modifies this
      ensures GetEventHandler().Some?
      ensures eh.None? ==> GetEventHandler() == Some(DefaultHandler)
      ensures eh.Some? ==> GetEventHandler() == Some(Installed(eh.value))
    {
      if eh.None? {
        eventHandler := Some(DefaultHandler);
      } else {
        eventHandler := Some(Installed(eh.value));
      }
    }
  }
}
