/** The Zephyr radio adapter as values: its flags, the Zephyr calls it makes,
    the end-of-session timers it posts and the events it raises on the
    installed handler. One function per operation and per stack callback gives
    the adapter after it, with the result code where the operation returns one.
    Module ZephyrPlatformClass runs the same operations in place. */
module ZephyrPlatform {
  import opened Common
  import opened Hex
  import opened BluetoothPlatform

  /** The build constants CONFIG_ADVERTISE_TIME, CONFIG_SCAN_TIME,
      CONFIG_APP_PERIODIC_INTERVAL and CONFIG_USE_PER_ADV_SYNC. */
  datatype Config = Config(advertiseTimeMs: uint32, scanTimeMs: uint32, periodicIntervalMs: uint32,
                           usePerAdvSync: bool)

  /** A call into the Zephyr Bluetooth stack. */
  datatype VendorCall =
    | AdvStart
    | AdvStop
    | ScanStart
    | ScanStop
    | ConnCreate(peerAddressType: byte, peerAddress: MacAddress)
    | ConnDisconnect(conn: Handle)
    | ExtAdvCreate
    | PerAdvSetParam
    | PerAdvStart
    | ExtAdvStart
    | PerAdvStop
    | ExtAdvStop
    | ExtAdvDelete
    | PerAdvSyncCreate(sid: byte, peerAddressType: byte, peerAddress: MacAddress, timeout: nat)
    | PerAdvSyncDelete(sync: Option<Handle>)

  /** The two static callbacks the adapter posts on its event queue. */
  datatype TimerCallback = EndAdvertisingCallback | EndScanCallback
  datatype Timer = Timer(millis: uint32, callback: TimerCallback)

  /** What the stack answers, chosen freely: the result of the call at each
      position of the trace, and the connection or sync object a successful
      create at that position writes. */
  datatype Radio = Radio(status: nat -> int, handle: nat -> Handle)

  /** The adapter's fields `_is_scanner`, `_is_periodic`,
      `_is_scanning_or_advertising`, `_is_connecting_or_syncing`, `_conn` and
      `_sync` (None is null), then the stack calls made, the timers posted and
      the handler calls raised, oldest first. */
  datatype Zephyr = Zephyr(isScanner: bool, isPeriodic: bool, isScanningOrAdvertising: bool,
                           isConnectingOrSyncing: bool, conn: Option<Handle>, sync: Option<Handle>,
                           vendor: seq<VendorCall>, timers: seq<Timer>, events: seq<HandlerCall>)

  /** The adapter after an operation, and the code the operation returns. */
  datatype Outcome = Outcome(z: Zephyr, error: int)

  /** The result of the next stack call. */
  function Status(radio: Radio, z: Zephyr): int
  {
    radio.status(|z.vendor|)
  }

  function Vendor(z: Zephyr, c: VendorCall): Zephyr
  {
    z.(vendor := z.vendor + [c])
  }

  function Raise(z: Zephyr, h: HandlerCall): Zephyr
  {
    z.(events := z.events + [h])
  }

  function Post(z: Zephyr, millis: uint32, cb: TimerCallback): Zephyr
  {
    z.(timers := z.timers + [Timer(millis, cb)])
  }

  /** A session has started: flags set, its end timer posted, its start raised. */
  function Started(z: Zephyr, millis: uint32, cb: TimerCallback, h: HandlerCall): Zephyr
  {
    Raise(Post(z.(isScanningOrAdvertising := true, isConnectingOrSyncing := false), millis, cb), h)
  }

  /** No session is active and nothing is connecting: what the start operations assert. */
  predicate Idle(z: Zephyr)
  {
    !z.isConnectingOrSyncing && !z.isScanningOrAdvertising
  }

  function StartAdvertising(cfg: Config, radio: Radio, z: Zephyr): Outcome
    requires Idle(z)
  {
    var z1 := z.(isScanner := false, isPeriodic := false);
    var e := Status(radio, z1);
    var z2 := Vendor(z1, AdvStart);
    if e != 0 then Outcome(z2, e)
    else Outcome(Started(z2, cfg.advertiseTimeMs, EndAdvertisingCallback,
                         OnAdvertisingStart(AdvertisingStartEvent(cfg.advertiseTimeMs, false, 0))), 0)
  }

  function StartScan(cfg: Config, radio: Radio, z: Zephyr): Outcome
    requires Idle(z)
  {
    var z1 := z.(isScanner := true, isPeriodic := false);
    var e := Status(radio, z1);
    var z2 := Vendor(z1, ScanStart);
    if e != 0 then Outcome(z2, e)
    else Outcome(Started(z2, cfg.scanTimeMs, EndScanCallback, OnScanStart(ScanStartEvent(cfg.scanTimeMs))), 0)
  }

  /** Stop periodic advertising, stop extended advertising, delete the set;
      failures are only printed. */
  function CleanUpExtendedAdvertising(z: Zephyr): Zephyr
  {
    Vendor(Vendor(Vendor(z, PerAdvStop), ExtAdvStop), ExtAdvDelete)
  }

  /** `startPeriodicAdvertising`, built only with CONFIG_USE_PER_ADV_SYNC: four
      stack calls, the first failure ends it, and a failure after the set was
      created also cleans it up. */
  function StartPeriodicAdvertising(cfg: Config, radio: Radio, z: Zephyr): Outcome
    requires cfg.usePerAdvSync && Idle(z)
  {
    var z1 := z.(isScanner := false, isPeriodic := true);
    var z2 := Vendor(z1, ExtAdvCreate);
    var z3 := Vendor(z2, PerAdvSetParam);
    var z4 := Vendor(z3, PerAdvStart);
    var z5 := Vendor(z4, ExtAdvStart);
    if Status(radio, z1) != 0 then Outcome(z2, Status(radio, z1))
    else if Status(radio, z2) != 0 then Outcome(CleanUpExtendedAdvertising(z3), Status(radio, z2))
    else if Status(radio, z3) != 0 then Outcome(CleanUpExtendedAdvertising(z4), Status(radio, z3))
    else if Status(radio, z4) != 0 then Outcome(CleanUpExtendedAdvertising(z5), Status(radio, z4))
    else Outcome(Started(z5, cfg.advertiseTimeMs, EndAdvertisingCallback,
                         OnAdvertisingStart(AdvertisingStartEvent(cfg.advertiseTimeMs, true, cfg.periodicIntervalMs))), 0)
  }

  /** A scan for periodic advertising is a scan that then marks itself periodic,
      whether or not it started. */
  function StartScanForPeriodicAdvertising(cfg: Config, radio: Radio, z: Zephyr): Outcome
    requires cfg.usePerAdvSync && Idle(z)
  {
    var o := StartScan(cfg, radio, z);
    Outcome(o.z.(isPeriodic := true), o.error)
  }

  /** `endAdvertising`: only while an advertising session is active. */
  function EndAdvertising(cfg: Config, z: Zephyr): Zephyr
  {
    if !z.isScanningOrAdvertising || z.isScanner then z
    else
      var z1 := z.(isScanningOrAdvertising := false);
      var z2 := if cfg.usePerAdvSync && z.isPeriodic then CleanUpExtendedAdvertising(z1) else Vendor(z1, AdvStop);
      if z2.isConnectingOrSyncing then z2 else Raise(z2, OnAdvertisingTimeout)
  }

  /** `endScan`: only while a scan is active. */
  function EndScan(z: Zephyr): Zephyr
  {
    if !z.isScanningOrAdvertising || !z.isScanner then z
    else
      var z1 := Vendor(z.(isScanningOrAdvertising := false), ScanStop);
      if z1.isConnectingOrSyncing then z1 else Raise(z1, OnScanTimeout)
  }

  function RunTimer(cfg: Config, z: Zephyr, cb: TimerCallback): Zephyr
  {
    match cb
    case EndAdvertisingCallback => EndAdvertising(cfg, z)
    case EndScanCallback => EndScan(z)
  }

  /** `establishConnection`: marks the adapter busy before ending the scan; a
      failed create raises the connection event itself, carrying only the error
      (`junk` stands for the fields the error-only constructor leaves unset). */
  function EstablishConnection(radio: Radio, z: Zephyr, peerAddressType: byte, peerAddress: MacAddress,
                               junk: ConnectEvent): Outcome
    requires z.isScanner && z.conn.None?
  {
    var z1 := EndScan(z.(isConnectingOrSyncing := true));
    var e := Status(radio, z1);
    var z2 := Vendor(z1, ConnCreate(peerAddressType, peerAddress));
    if e != 0 then Outcome(Raise(z2, OnConnection(NewConnectEventError(e, junk))), e)
    else Outcome(z2.(conn := Some(radio.handle(|z1.vendor|))), 0)
  }

  /** `disconnect`: clears the busy flag first; the connection is released only
      when the stack accepted the disconnect. */
  function Disconnect(radio: Radio, z: Zephyr, h: Handle): Outcome
    requires z.conn == Some(h) && z.isConnectingOrSyncing
  {
    var z1 := z.(isConnectingOrSyncing := false);
    var e := Status(radio, z1);
    var z2 := Vendor(z1, ConnDisconnect(h));
    if e != 0 then Outcome(z2, e) else Outcome(z2.(conn := None), 0)
  }

  /** The sync timeout in the stack's 10 ms units, clamped to 0x000A..0x4000. */
  function SyncTimeout(ms: uint32): nat
  {
    var units := ms / 10;
    var low := if units < 0xA then 0xA else units;
    if low < 0x4000 then low else 0x4000
  }

  /** `syncToPeriodicAdvertising`: the adapter is busy exactly when the sync
      create was accepted. The `uint8_t` SID field narrows the 32-bit SID. */
  function SyncToPeriodicAdvertising(radio: Radio, z: Zephyr, sid: int32, peerAddressType: byte,
                                     peerAddress: MacAddress, syncTimeoutMs: uint32): Outcome
  {
    var e := Status(radio, z);
    var z1 := Vendor(z, PerAdvSyncCreate(Narrow8(sid), peerAddressType, peerAddress, SyncTimeout(syncTimeoutMs)));
    if e != 0 then Outcome(z1.(isConnectingOrSyncing := false), e)
    else Outcome(z1.(isConnectingOrSyncing := true, sync := Some(radio.handle(|z.vendor|))), 0)
  }

  function StopSync(radio: Radio, z: Zephyr): Outcome
    requires z.isConnectingOrSyncing
  {
    var e := Status(radio, z);
    var z1 := Vendor(z, PerAdvSyncDelete(z.sync));
    if e != 0 then Outcome(z1, e) else Outcome(z1.(sync := None, isConnectingOrSyncing := false), 0)
  }

  /** The data types of a shortened and of a complete local name. */
  const NameShortened: byte := 0x08
  const NameComplete: byte := 0x09
  /** DEV_NAME_MAX: the name buffer's size, terminator included. */
  const DevNameMax: nat := 50

  /** `nameCallback` on one field: a name field yields its first 49 characters
      (the string ends at an embedded NUL) and stops the parse; any other field
      lets the parse go on. */
  function NameCallback(d: AdField): Option<string>
  {
    if d.fieldType == NameShortened || d.fieldType == NameComplete then
      Some(CStr(d.value[..if |d.value| < DevNameMax - 1 then |d.value| else DevNameMax - 1]))
    else None
  }

  /** The name `scanCallback` reports: from the first name field, else empty. */
  function ReportName(payload: seq<AdField>): (name: string)
    ensures |name| < DevNameMax
    decreases |payload|
  {
    if |payload| == 0 then ""
    else match NameCallback(payload[0])
      case Some(name) => name
      case None => ReportName(payload[1..])
  }

  /** The scan information `scanCallback` reads: SID, address and periodic interval. */
  datatype ScanInfo = ScanInfo(sid: byte, addrType: byte, addr: MacAddress, interval: nat)

  /** `scanCallback`: nothing while busy, otherwise one report. */
  function ScanCallback(z: Zephyr, info: ScanInfo, payload: seq<AdField>): Zephyr
    requires info.interval < 0x1_0000
  {
    if z.isConnectingOrSyncing then z
    else Raise(z, OnAdvertisingReport(NewAdvertisingReportEvent(
      info.sid, info.addrType, info.addr, 6, ReportName(payload), info.interval > 0, info.interval)))
  }

  /** What `bt_conn_get_info` answers: the connection type and whether the
      local role is master, or an error code. */
  datatype ConnInfo = InfoOk(connType: byte, roleIsMaster: bool) | InfoError(error: int)

  /** `connectedCallback`: busy, the session ended, then the connection
      event. When the info query fails its code replaces `err` (narrowed to the
      `uint8_t` parameter), and the zeroed info reads as type 0 and role master. */
  function ConnectedCallback(cfg: Config, z: Zephyr, conn: Handle, err: byte, peerAddress: MacAddress,
                             info: ConnInfo): Zephyr
  {
    var z1 := z.(isConnectingOrSyncing := true, conn := Some(conn));
    var z2 := if z1.isScanner then EndScan(z1) else EndAdvertising(cfg, z1);
    var connType := if info.InfoOk? then info.connType else 0;
    var master := if info.InfoOk? then info.roleIsMaster else true;
    var error := if info.InfoOk? then err else Narrow8(info.error);
    Raise(z2, OnConnection(ConnectEvent(connType, peerAddress, 6, error, if master then Main else Peripheral, conn)))
  }

  function DisconnectedCallback(z: Zephyr): Zephyr
  {
    Raise(z.(conn := None, isConnectingOrSyncing := false), OnDisconnect)
  }

  /** `syncedCallback`: busy, the session ended, then a sync event with no
      error, role main exactly when scanning. */
  function SyncedCallback(cfg: Config, z: Zephyr, sync: Handle, sid: byte, addrType: byte,
                          addr: MacAddress): Zephyr
  {
    var z1 := z.(isConnectingOrSyncing := true);
    var z2 := if z1.isScanner then EndScan(z1) else EndAdvertising(cfg, z1);
    var z3 := z2.(sync := Some(sync));
    Raise(z3, OnPeriodicSync(NewPeriodicSyncEvent(
      sid, addrType, addr, 6, 0, if z3.isScanner then Main else Peripheral, sync)))
  }

  function SyncLostCallback(z: Zephyr): Zephyr
  {
    Raise(z.(isConnectingOrSyncing := false), OnSyncLoss)
  }

  // ---------------------------------------------------------------------------

  /** A start either fails with the stack's code, having raised nothing and
      posted no timer, or succeeds with the session flags set, one end timer
      posted and one start event raised. */
  lemma StartAdvertisingOutcome(cfg: Config, radio: Radio, z: Zephyr)
    requires Idle(z)
    ensures var o := StartAdvertising(cfg, radio, z);
      o.error == Status(radio, z) && o.z.vendor == z.vendor + [AdvStart]
      && !o.z.isScanner && !o.z.isPeriodic
      && (o.error != 0 ==> o.z.timers == z.timers && o.z.events == z.events && Idle(o.z))
      && (o.error == 0 ==>
            o.z.isScanningOrAdvertising && !o.z.isConnectingOrSyncing
            && o.z.timers == z.timers + [Timer(cfg.advertiseTimeMs, EndAdvertisingCallback)]
            && o.z.events == z.events + [OnAdvertisingStart(AdvertisingStartEvent(cfg.advertiseTimeMs, false, 0))])
  {
  }

  lemma StartScanOutcome(cfg: Config, radio: Radio, z: Zephyr)
    requires Idle(z)
    ensures var o := StartScan(cfg, radio, z);
      o.error == Status(radio, z) && o.z.vendor == z.vendor + [ScanStart]
      && o.z.isScanner && !o.z.isPeriodic
      && (o.error != 0 ==> o.z.timers == z.timers && o.z.events == z.events && Idle(o.z))
      && (o.error == 0 ==>
            o.z.isScanningOrAdvertising && !o.z.isConnectingOrSyncing
            && o.z.timers == z.timers + [Timer(cfg.scanTimeMs, EndScanCallback)]
            && o.z.events == z.events + [OnScanStart(ScanStartEvent(cfg.scanTimeMs))])
  {
  }

  /** Periodic advertising succeeds only when all four calls do; otherwise the
      first failing code is returned, and a set already created is cleaned up. */
  lemma StartPeriodicAdvertisingOutcome(cfg: Config, radio: Radio, z: Zephyr)
    requires cfg.usePerAdvSync && Idle(z)
    ensures var o := StartPeriodicAdvertising(cfg, radio, z);
      var n := |z.vendor|;
      o.z.isPeriodic && !o.z.isScanner
      && (o.error == 0 <==> (forall i :: n <= i < n + 4 ==> radio.status(i) == 0))
      && (o.error != 0 ==> o.z.timers == z.timers && o.z.events == z.events && Idle(o.z)
                           && o.z.vendor[n] == ExtAdvCreate
                           && (|o.z.vendor| == n + 1 || o.z.vendor[|o.z.vendor| - 3..] == [PerAdvStop, ExtAdvStop, ExtAdvDelete]))
      && (o.error == 0 ==>
            o.z.vendor == z.vendor + [ExtAdvCreate, PerAdvSetParam, PerAdvStart, ExtAdvStart]
            && o.z.timers == z.timers + [Timer(cfg.advertiseTimeMs, EndAdvertisingCallback)]
            && o.z.events == z.events + [OnAdvertisingStart(AdvertisingStartEvent(cfg.advertiseTimeMs, true, cfg.periodicIntervalMs))])
  {
    var n := |z.vendor|;
    var o := StartPeriodicAdvertising(cfg, radio, z);
    if o.error == 0 {
      forall i | n <= i < n + 4 ensures radio.status(i) == 0 {
        assert i == n || i == n + 1 || i == n + 2 || i == n + 3;
      }
    } else {
      assert !(forall i :: n <= i < n + 4 ==> radio.status(i) == 0) by {
        assert radio.status(n) != 0 || radio.status(n + 1) != 0 || radio.status(n + 2) != 0 || radio.status(n + 3) != 0;
      }
    }
  }

  /** Ending a session does nothing unless a session of that kind is active,
      and a second end (a stale timer) changes nothing. */
  lemma EndIdempotent(cfg: Config, z: Zephyr)
    ensures EndAdvertising(cfg, EndAdvertising(cfg, z)) == EndAdvertising(cfg, z)
    ensures EndScan(EndScan(z)) == EndScan(z)
    ensures !z.isScanningOrAdvertising || z.isScanner ==> EndAdvertising(cfg, z) == z
    ensures !z.isScanningOrAdvertising || !z.isScanner ==> EndScan(z) == z
  {
  }

  /** A timeout is raised exactly when the matching session was active and
      nothing is connecting, and then it is the only event raised. */
  lemma TimeoutIff(cfg: Config, z: Zephyr)
    ensures EndAdvertising(cfg, z).events ==
      z.events + (if z.isScanningOrAdvertising && !z.isScanner && !z.isConnectingOrSyncing then [OnAdvertisingTimeout] else [])
    ensures EndScan(z).events ==
      z.events + (if z.isScanningOrAdvertising && z.isScanner && !z.isConnectingOrSyncing then [OnScanTimeout] else [])
    ensures !EndAdvertising(cfg, z).isScanningOrAdvertising || z == EndAdvertising(cfg, z)
    ensures !EndScan(z).isScanningOrAdvertising || z == EndScan(z)
  {
  }

  /** `establishConnection` never raises a scan timeout; when the create fails
      it raises exactly the error-carrying connection event, returns the code
      and leaves the adapter busy. */
  lemma EstablishConnectionOutcome(radio: Radio, z: Zephyr, peerAddressType: byte, peerAddress: MacAddress,
                                   junk: ConnectEvent)
    requires z.isScanner && z.conn.None?
    ensures var o := EstablishConnection(radio, z, peerAddressType, peerAddress, junk);
      o.z.isConnectingOrSyncing && !o.z.isScanningOrAdvertising
      && o.z.timers == z.timers
      && (o.error != 0 ==> o.z.events == z.events + [OnConnection(NewConnectEventError(o.error, junk))]
                           && o.z.conn.None?)
      && (o.error == 0 ==> o.z.events == z.events && o.z.conn.Some?)
  {
  }

  /** The sync timeout is always in the range the stack accepts, and it is the
      plain conversion wherever that is already in range. */
  lemma SyncTimeoutRange(ms: uint32)
    ensures 0x000A <= SyncTimeout(ms) <= 0x4000
    ensures 100 <= ms <= 163849 ==> SyncTimeout(ms) == ms / 10
    ensures ms < 100 ==> SyncTimeout(ms) == 0xA
    ensures ms >= 163840 ==> SyncTimeout(ms) == 0x4000
  {
  }

  lemma SyncBusyIff(radio: Radio, z: Zephyr, sid: int32, peerAddressType: byte, peerAddress: MacAddress,
                    syncTimeoutMs: uint32)
    ensures var o := SyncToPeriodicAdvertising(radio, z, sid, peerAddressType, peerAddress, syncTimeoutMs);
      (o.z.isConnectingOrSyncing <==> o.error == 0) && o.error == Status(radio, z)
      && o.z.events == z.events && o.z.timers == z.timers
  {
  }

  /** The reported name comes from the first name field, is at most 49
      characters and has no NUL; a short NUL-free name is reported whole. */
  lemma {:induction false} ReportNameFirst(payload: seq<AdField>, i: nat)
    requires i < |payload| && NameCallback(payload[i]).Some?
    requires forall j :: 0 <= j < i ==> NameCallback(payload[j]).None?
    ensures ReportName(payload) == NameCallback(payload[i]).value
    decreases i
  {
    if i > 0 {
      assert forall j :: 0 <= j < i - 1 ==> payload[1..][j] == payload[j + 1];
      ReportNameFirst(payload[1..], i - 1);
    }
  }

  lemma NameCallbackWhole(d: AdField)
    requires d.fieldType == NameComplete && |d.value| < DevNameMax
    requires forall k :: 0 <= k < |d.value| ==> d.value[k] != '\0'
    ensures NameCallback(d) == Some(d.value)
  {
    var v := d.value[..if |d.value| < DevNameMax - 1 then |d.value| else DevNameMax - 1];
    assert v == d.value;
    assert CStr(v) == v[..|v|];
  }

  lemma ReportNameNone(payload: seq<AdField>)
    requires forall j :: 0 <= j < |payload| ==> NameCallback(payload[j]).None?
    ensures ReportName(payload) == ""
  {
    if |payload| > 0 {
      assert forall j :: 0 <= j < |payload| - 1 ==> payload[1..][j] == payload[j + 1];
      ReportNameNone(payload[1..]);
    }
  }

  /** `scanCallback` forwards nothing while busy and otherwise exactly one
      report, periodic exactly when the interval is non-zero. */
  lemma ScanCallbackForwards(z: Zephyr, info: ScanInfo, payload: seq<AdField>)
    requires info.interval < 0x1_0000
    ensures var u := ScanCallback(z, info, payload);
      (z.isConnectingOrSyncing ==> u == z)
      && (!z.isConnectingOrSyncing ==>
            |u.events| == |z.events| + 1 && u.events[..|z.events|] == z.events
            && u.events[|z.events|].OnAdvertisingReport?
            && u.events[|z.events|].report.isPeriodic == (info.interval > 0)
            && u.events[|z.events|].report.localName == ReportName(payload)
            && u.events[|z.events|].report.peerAddress == info.addr
            && u.(events := z.events) == z)
  {
  }

  /** The connection and sync callbacks mark the adapter busy and end the
      active session without a timeout event, so each raises exactly its own
      event; the reported role is main exactly when the stack says master (or
      the info query failed). */
  lemma ConnectedCallbackOutcome(cfg: Config, z: Zephyr, conn: Handle, err: byte, peerAddress: MacAddress,
                                 info: ConnInfo)
    ensures var u := ConnectedCallback(cfg, z, conn, err, peerAddress, info);
      u.isConnectingOrSyncing && u.conn == Some(conn)
      && (z.isScanner ==> !u.isScanningOrAdvertising || !z.isScanningOrAdvertising)
      && (!z.isScanner ==> !u.isScanningOrAdvertising || !z.isScanningOrAdvertising)
      && |u.events| == |z.events| + 1 && u.events[..|z.events|] == z.events
      && u.events[|z.events|].OnConnection?
      && (u.events[|z.events|].connection.role == Main <==> (info.InfoOk? ==> info.roleIsMaster))
      && u.events[|z.events|].connection.error == (if info.InfoOk? then err else Narrow8(info.error))
      && u.timers == z.timers
  {
  }

  lemma SyncedCallbackOutcome(cfg: Config, z: Zephyr, sync: Handle, sid: byte, addrType: byte, addr: MacAddress)
    ensures var u := SyncedCallback(cfg, z, sync, sid, addrType, addr);
      u.isConnectingOrSyncing && u.sync == Some(sync) && !u.isScanningOrAdvertising
      && u.events == z.events + [OnPeriodicSync(PeriodicSyncEvent(sid, addrType, addr, 6, 0,
                                                                  if z.isScanner then Main else Peripheral, sync))]
  {
  }

  /** A successful `disconnect` releases the connection before the stack
      reports the disconnection, so the callback then finds no connection
      where it asserts the one it is given; a refused one keeps it. */
  lemma DisconnectReleasesFirst(radio: Radio, z: Zephyr, h: Handle)
    requires z.conn == Some(h) && z.isConnectingOrSyncing
    ensures var o := Disconnect(radio, z, h); o.error == 0 <==> o.z.conn.None?
    ensures var o := Disconnect(radio, z, h); o.error != 0 ==> o.z.conn == Some(h)
    ensures !Disconnect(radio, z, h).z.isConnectingOrSyncing
  {
  }

  lemma LinkLossClearsBusy(z: Zephyr)
    ensures !DisconnectedCallback(z).isConnectingOrSyncing && DisconnectedCallback(z).conn.None?
    ensures DisconnectedCallback(z).events == z.events + [OnDisconnect]
    ensures !SyncLostCallback(z).isConnectingOrSyncing && SyncLostCallback(z).events == z.events + [OnSyncLoss]
  {
  }

  /** Without CONFIG_USE_PER_ADV_SYNC the adapter is never periodic, so the
      build's `assert(!_is_periodic)` in `endAdvertising` holds. */
  predicate BuildConsistent(cfg: Config, z: Zephyr)
  {
    cfg.usePerAdvSync || !z.isPeriodic
  }

  lemma BuildConsistentKept(cfg: Config, radio: Radio, z: Zephyr, info: ScanInfo, payload: seq<AdField>,
                             addrType: byte, addr: MacAddress, junk: ConnectEvent, h: Handle, sid: int32,
                             timeoutMs: uint32, err: byte, conn: ConnInfo, cb: TimerCallback)
    requires BuildConsistent(cfg, z) && info.interval < 0x1_0000
    ensures Idle(z) ==> BuildConsistent(cfg, StartAdvertising(cfg, radio, z).z)
    ensures Idle(z) ==> BuildConsistent(cfg, StartScan(cfg, radio, z).z)
    ensures cfg.usePerAdvSync && Idle(z) ==> BuildConsistent(cfg, StartPeriodicAdvertising(cfg, radio, z).z)
    ensures cfg.usePerAdvSync && Idle(z) ==> BuildConsistent(cfg, StartScanForPeriodicAdvertising(cfg, radio, z).z)
    ensures BuildConsistent(cfg, EndAdvertising(cfg, z)) && BuildConsistent(cfg, EndScan(z))
    ensures BuildConsistent(cfg, RunTimer(cfg, z, cb)) && BuildConsistent(cfg, CleanUpExtendedAdvertising(z))
    ensures z.isScanner && z.conn.None? ==>
      BuildConsistent(cfg, EstablishConnection(radio, z, addrType, addr, junk).z)
    ensures z.conn == Some(h) && z.isConnectingOrSyncing ==> BuildConsistent(cfg, Disconnect(radio, z, h).z)
    ensures BuildConsistent(cfg, SyncToPeriodicAdvertising(radio, z, sid, addrType, addr, timeoutMs).z)
    ensures z.isConnectingOrSyncing ==> BuildConsistent(cfg, StopSync(radio, z).z)
    ensures BuildConsistent(cfg, ScanCallback(z, info, payload))
    ensures BuildConsistent(cfg, ConnectedCallback(cfg, z, h, err, addr, conn))
    ensures BuildConsistent(cfg, SyncedCallback(cfg, z, h, info.sid, addrType, addr))
    ensures BuildConsistent(cfg, DisconnectedCallback(z)) && BuildConsistent(cfg, SyncLostCallback(z))
  {
  }
}

/** The Zephyr adapter as an object updating its flags in place. */
module ZephyrPlatformClass {
  import opened Common
  import opened Hex
  import opened BluetoothPlatform
  import Z = ZephyrPlatform

  class ZephyrBluetoothPlatform {
    const cfg: Z.Config
    const radio: Z.Radio
    var isScanner: bool
    var isPeriodic: bool
    var isScanningOrAdvertising: bool
    var isConnectingOrSyncing: bool
    var conn: Option<Handle>
    var sync: Option<Handle>
    var vendor: seq<Z.VendorCall>
    var timers: seq<Z.Timer>
    var events: seq<HandlerCall>

    function Snapshot(): Z.Zephyr
      reads this
    {
      Z.Zephyr(isScanner, isPeriodic, isScanningOrAdvertising, isConnectingOrSyncing, conn, sync, vendor, timers, events)
    }

    constructor (cfg: Z.Config, radio: Z.Radio)
      ensures this.cfg == cfg && this.radio == radio
      ensures Snapshot() == Z.Zephyr(false, false, false, false, None, None, [], [], [])
    {
      this.cfg := cfg;
      this.radio := radio;
      isScanner := false;
      isPeriodic := false;
      isScanningOrAdvertising := false;
      isConnectingOrSyncing := false;
      conn := None;
      sync := None;
      vendor := [];
      timers := [];
      events := [];
    }

    /** One call into the stack, and its result. */
    method Vendor(c: Z.VendorCall) returns (error: int)
      modifies this
      ensures error == Z.Status(radio, old(Snapshot()))
      ensures Snapshot() == Z.Vendor(old(Snapshot()), c)
    {
      error := radio.status(|vendor|);
      vendor := vendor + [c];
    }

    method Raise(h: HandlerCall)
      modifies this
      ensures Snapshot() == Z.Raise(old(Snapshot()), h)
    {
      events := events + [h];
    }

    method StartAdvertising() returns (error: int)
      requires !isConnectingOrSyncing && !isScanningOrAdvertising
      modifies this
      ensures Z.Outcome(Snapshot(), error) == Z.StartAdvertising(cfg, radio, old(Snapshot()))
    {
      isScanner := false;
      isPeriodic := false;
      error := Vendor(Z.AdvStart);
      if error != 0 {
        return;
      }
      isScanningOrAdvertising := true;
      isConnectingOrSyncing := false;
      timers := timers + [Z.Timer(cfg.advertiseTimeMs, Z.EndAdvertisingCallback)];
      Raise(OnAdvertisingStart(AdvertisingStartEvent(cfg.advertiseTimeMs, false, 0)));
    }

    method StartScan() returns (error: int)
      requires !isConnectingOrSyncing && !isScanningOrAdvertising
      modifies this
      ensures Z.Outcome(Snapshot(), error) == Z.StartScan(cfg, radio, old(Snapshot()))
    {
      isScanner := true;
      isPeriodic := false;
      error := Vendor(Z.ScanStart);
      if error != 0 {
        return;
      }
      isScanningOrAdvertising := true;
      isConnectingOrSyncing := false;
      timers := timers + [Z.Timer(cfg.scanTimeMs, Z.EndScanCallback)];
      Raise(OnScanStart(ScanStartEvent(cfg.scanTimeMs)));
    }

    method CleanUpExtendedAdvertising()
      modifies this
      ensures Snapshot() == Z.CleanUpExtendedAdvertising(old(Snapshot()))
    {
      var error := Vendor(Z.PerAdvStop);
      error := Vendor(Z.ExtAdvStop);
      error := Vendor(Z.ExtAdvDelete);
    }

    method StartPeriodicAdvertising() returns (error: int)
      requires cfg.usePerAdvSync && !isConnectingOrSyncing && !isScanningOrAdvertising
      modifies this
      ensures Z.Outcome(Snapshot(), error) == Z.StartPeriodicAdvertising(cfg, radio, old(Snapshot()))
    {
      isScanner := false;
      isPeriodic := true;
      error := Vendor(Z.ExtAdvCreate);
      if error != 0 {
        return;
      }
      error := Vendor(Z.PerAdvSetParam);
      if error != 0 {
        CleanUpExtendedAdvertising();
        return;
      }
      error := Vendor(Z.PerAdvStart);
      if error != 0 {
        CleanUpExtendedAdvertising();
        return;
      }
      error := Vendor(Z.ExtAdvStart);
      if error != 0 {
        CleanUpExtendedAdvertising();
        return;
      }
      isScanningOrAdvertising := true;
      isConnectingOrSyncing := false;
      timers := timers + [Z.Timer(cfg.advertiseTimeMs, Z.EndAdvertisingCallback)];
      Raise(OnAdvertisingStart(AdvertisingStartEvent(cfg.advertiseTimeMs, true, cfg.periodicIntervalMs)));
    }

    method StartScanForPeriodicAdvertising() returns (error: int)
      requires cfg.usePerAdvSync && !isConnectingOrSyncing && !isScanningOrAdvertising
      modifies this
      ensures Z.Outcome(Snapshot(), error) == Z.StartScanForPeriodicAdvertising(cfg, radio, old(Snapshot()))
    {
      error := StartScan();
      isPeriodic := true;
    }

    method EndAdvertising()
      modifies this
      ensures Snapshot() == Z.EndAdvertising(cfg, old(Snapshot()))
    {
      if !isScanningOrAdvertising || isScanner {
        return;
      }
      isScanningOrAdvertising := false;
      if cfg.usePerAdvSync && isPeriodic {
        CleanUpExtendedAdvertising();
      } else {
        var _ := Vendor(Z.AdvStop);
      }
      if !isConnectingOrSyncing {
        Raise(OnAdvertisingTimeout);
      }
    }

    method EndScan()
      modifies this
      ensures Snapshot() == Z.EndScan(old(Snapshot()))
    {
      if !isScanningOrAdvertising || !isScanner {
        return;
      }
      isScanningOrAdvertising := false;
      var _ := Vendor(Z.ScanStop);
      if !isConnectingOrSyncing {
        Raise(OnScanTimeout);
      }
    }

    method EstablishConnection(peerAddressType: byte, peerAddress: MacAddress, junk: ConnectEvent)
      returns (error: int)
      requires isScanner && conn.None?
      modifies this
      ensures Z.Outcome(Snapshot(), error) == Z.EstablishConnection(radio, old(Snapshot()), peerAddressType, peerAddress, junk)
    {
      isConnectingOrSyncing := true;
      EndScan();
      var h := radio.handle(|vendor|);
      error := Vendor(Z.ConnCreate(peerAddressType, peerAddress));
      if error != 0 {
        Raise(OnConnection(NewConnectEventError(error, junk)));
        return;
      }
      conn := Some(h);
    }

    method Disconnect(h: Handle) returns (error: int)
      requires conn == Some(h) && isConnectingOrSyncing
      modifies this
      ensures Z.Outcome(Snapshot(), error) == Z.Disconnect(radio, old(Snapshot()), h)
    {
      isConnectingOrSyncing := false;
      error := Vendor(Z.ConnDisconnect(h));
      if error != 0 {
        return;
      }
      conn := None;
    }

    method SyncToPeriodicAdvertising(sid: int32, peerAddressType: byte, peerAddress: MacAddress,
                                     syncTimeoutMs: uint32) returns (error: int)
      modifies this
      ensures Z.Outcome(Snapshot(), error)
        == Z.SyncToPeriodicAdvertising(radio, old(Snapshot()), sid, peerAddressType, peerAddress, syncTimeoutMs)
    {
      var units := syncTimeoutMs / 10;
      var timeout := if units < 0xA then 0xA else units;
      timeout := if timeout < 0x4000 then timeout else 0x4000;
      var h := radio.handle(|vendor|);
      error := Vendor(Z.PerAdvSyncCreate(Narrow8(sid), peerAddressType, peerAddress, timeout));
      if error != 0 {
        isConnectingOrSyncing := false;
      } else {
        sync := Some(h);
        isConnectingOrSyncing := true;
      }
    }

    method StopSync() returns (error: int)
      requires isConnectingOrSyncing
      modifies this
      ensures Z.Outcome(Snapshot(), error) == Z.StopSync(radio, old(Snapshot()))
    {
      error := Vendor(Z.PerAdvSyncDelete(sync));
      if error != 0 {
        return;
      }
      sync := None;
      isConnectingOrSyncing := false;
    }

    /** `bt_data_parse` with `nameCallback`: fields are visited in order until the
        callback copies a name. */
    method ParseName(payload: seq<AdField>) returns (name: string)
      ensures name == Z.ReportName(payload)
    {
      name := "";
      var i := 0;
      var going := true;
      while going && i < |payload|
        invariant 0 <= i <= |payload|
        invariant going ==> name == "" && Z.ReportName(payload) == Z.ReportName(payload[i..])
        invariant !going ==> name == Z.ReportName(payload)
        decreases |payload| - i, going
      {
        assert payload[i..][1..] == payload[i + 1..];
        var r := Z.NameCallback(payload[i]);
        if r.Some? {
          name := r.value;
          going := false;
        } else {
          i := i + 1;
        }
      }
    }

    method ScanCallback(info: Z.ScanInfo, payload: seq<AdField>)
      requires info.interval < 0x1_0000
      modifies this
      ensures Snapshot() == Z.ScanCallback(old(Snapshot()), info, payload)
    {
      if isConnectingOrSyncing {
        return;
      }
      var localName := ParseName(payload);
      Raise(OnAdvertisingReport(NewAdvertisingReportEvent(
        info.sid, info.addrType, info.addr, 6, localName, info.interval > 0, info.interval)));
    }

    method ConnectedCallback(c: Handle, err: byte, peerAddress: MacAddress, info: Z.ConnInfo)
      modifies this
      ensures Snapshot() == Z.ConnectedCallback(cfg, old(Snapshot()), c, err, peerAddress, info)
    {
      isConnectingOrSyncing := true;
      conn := Some(c);
      if isScanner {
        EndScan();
      } else {
        EndAdvertising();
      }
      var connType: byte := 0;
      var master := true;
      var error: byte := err;
      if info.InfoOk? {
        connType := info.connType;
        master := info.roleIsMaster;
      } else {
        error := Narrow8(info.error);
      }
      Raise(OnConnection(ConnectEvent(connType, peerAddress, 6, error, if master then Main else Peripheral, c)));
    }

    /** `c` is the connection the stack reports. The `assert(_conn == conn)` of
        the source is not required: after a successful `disconnect` the
        connection is already released (`DisconnectReleasesFirst`). */
    method DisconnectedCallback(c: Handle)
      modifies this
      ensures Snapshot() == Z.DisconnectedCallback(old(Snapshot()))
    {
      conn := None;
      isConnectingOrSyncing := false;
      Raise(OnDisconnect);
    }

    method SyncedCallback(s: Handle, sid: byte, addrType: byte, addr: MacAddress)
      modifies this
      ensures Snapshot() == Z.SyncedCallback(cfg, old(Snapshot()), s, sid, addrType, addr)
    {
      isConnectingOrSyncing := true;
      if isScanner {
        EndScan();
      } else {
        EndAdvertising();
      }
      sync := Some(s);
      Raise(OnPeriodicSync(NewPeriodicSyncEvent(sid, addrType, addr, 6, 0, if isScanner then Main else Peripheral, s)));
    }

    method SyncLostCallback()
      modifies this
      ensures Snapshot() == Z.SyncLostCallback(old(Snapshot()))
    {
      isConnectingOrSyncing := false;
      Raise(OnSyncLoss);
    }
  }
}
