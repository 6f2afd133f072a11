/** What the two stand-alone Mbed test programs see of the Mbed BLE stack and
    event queue: the calls they make, the events they handle, the replies of
    the radio, and the advertising payload as a list of fields. */
module MbedGap {
  import opened Common

  /** `ble::LEGACY_ADVERTISING_HANDLE` and `ble::INVALID_ADVERTISING_HANDLE`. */
  const LegacyAdvertisingHandle: nat := 0x00
  const InvalidAdvertisingHandle: nat := 0xFF

  /** The advertising data type of a complete local name. */
  const CompleteLocalName: byte := 0x09

  /** The test programs' own `DEVICE_NAME`. */
  const DeviceName: string := "Power Consumption"

  /** `ble::AdvertisingReportEvent`: the sender's address, its SID, the periodic
      interval when one is present, and the payload. */
  datatype GapReport = GapReport(peerAddressType: byte, peerAddress: MacAddress, sid: byte,
                                 periodicIntervalMs: Option<uint32>, payload: seq<AdField>)

  /** `ble::ConnectionCompleteEvent` and `ble::PeriodicAdvertisingSyncEstablishedEvent`,
      as far as the programs and the adapter read them. */
  datatype GapConnection = GapConnection(status: int, connectionHandle: nat, peerAddressType: byte,
                                         peerAddress: MacAddress)
  datatype GapSync = GapSync(status: int, syncHandle: nat, sid: byte, peerAddressType: byte,
                             peerAddress: MacAddress)

  /** The events of `ble::Gap::EventHandler` the programs override. */
  datatype GapEvent =
    | AdvertisingStart
    | AdvertisingEnd
    | AdvertisingReport(report: GapReport)
    | ScanTimeout
    | ConnectionComplete(connection: GapConnection)
    | DisconnectionComplete
    | SyncEstablished(sync: GapSync)
    | SyncLoss

  /** A callback posted on the event queue: `next_state`, `scan`, or the lambda
      that disconnects the given connection. */
  datatype Task = NextStateTask | ScanTask | DisconnectTask(handle: nat)

  /** A call into the stack or the event queue. The periodic interval bounds
      are the numbers passed, in the stack's interval units. */
  datatype GapRequest =
    | CreateAdvertisingSet
    | SetAdvertisingParameters(handle: nat)
    | SetAdvertisingPayload(handle: nat)
    | StartAdvertising(handle: nat)
    | SetPeriodicAdvertisingParameters(handle: nat, minInterval: nat, maxInterval: nat)
    | StartPeriodicAdvertising(handle: nat)
    | StopPeriodicAdvertising(handle: nat)
    | StopAdvertising(handle: nat)
    | DestroyAdvertisingSet(handle: nat)
    | SetScanParameters
    | StartScan
    | CreateSync(peerAddressType: byte, peerAddress: MacAddress, sid: byte, maxPacketSkip: nat, timeoutMs: nat)
    | Connect(peerAddressType: byte, peerAddress: MacAddress)
    | Disconnect(handle: nat)
    | TerminateSync(handle: nat)
    | Call(task: Task)
    | CallIn(millis: nat, task: Task)

  /** What the stack answers, chosen freely: the status of the call at each
      position of the trace (0 is `BLE_ERROR_NONE`), the handle a successful
      `createAdvertisingSet` at that position writes, and whether the
      controller supports extended and periodic advertising. */
  datatype Radio = Radio(status: nat -> int, setHandle: nat -> nat, periodicSupported: bool)

  /** The programs' name match: some field is a complete local name equal to `name`. */
  function HasName(payload: seq<AdField>, name: string): bool
    decreases |payload|
  {
    |payload| > 0
    && ((payload[0].fieldType == CompleteLocalName && payload[0].value == name) || HasName(payload[1..], name))
  }

  lemma {:induction false} HasNameIff(payload: seq<AdField>, name: string)
    ensures HasName(payload, name) <==>
      exists i :: 0 <= i < |payload| && payload[i].fieldType == CompleteLocalName && payload[i].value == name
    decreases |payload|
  {
    if |payload| > 0 {
      HasNameIff(payload[1..], name);
      if HasName(payload[1..], name) {
        var i :| 0 <= i < |payload[1..]| && payload[1..][i].fieldType == CompleteLocalName && payload[1..][i].value == name;
        assert payload[i + 1] == payload[1..][i];
      }
      forall i | 1 <= i < |payload| && payload[i].fieldType == CompleteLocalName && payload[i].value == name
        ensures HasName(payload[1..], name)
      {
        assert payload[1..][i - 1] == payload[i];
      }
    }
  }
}
