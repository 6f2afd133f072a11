/** The Mbed radio adapter as values: its flags, the advertising handle it
    keeps, the calls it makes into the Mbed BLE stack and the events it raises
    on the installed handler. One function per operation and per stack
    callback gives the adapter after it, with the result code where the
    operation returns one. Module MbedPlatformClass runs the same operations in
    place. */
module MbedPlatform {
  import opened Common
  import opened Hex
  import BP = BluetoothPlatform
  import G = MbedGap

  /** CONFIG_ADVERTISE_TIME, CONFIG_SCAN_TIME and CONFIG_PERIODIC_INTERVAL, as
      the millisecond values the adapter reports for them. */
  datatype Config = Config(advertiseTimeMs: uint32, scanTimeMs: uint32, periodicIntervalMs: uint32)

  /** The adapter's fields `_is_periodic`, `_is_scanner`,
      `_is_connecting_or_syncing`, `_ignore_timeout` and `_adv_handle`, then the
      stack calls made and the handler calls raised, oldest first. */
  datatype Mbed = Mbed(isPeriodic: bool, isScanner: bool, isConnectingOrSyncing: bool,
                       ignoreTimeout: bool, advHandle: nat,
                       requests: seq<G.GapRequest>, events: seq<BP.HandlerCall>)

  /** The adapter after an operation, and the code the operation returns. */
  datatype Outcome = Outcome(m: Mbed, error: int)

  /** The adapter as constructed: no flag set, no advertising set. */
  const Initial: Mbed := Mbed(false, false, false, false, G.InvalidAdvertisingHandle, [], [])

  /** The packet skip `createSync` is given. */
  const SyncMaxPacketSkip: nat := 2

  /** The name reported for a peer that advertises no complete local name. */
  const UnknownName: string := "(unknown name)"

  /** The result of the next stack call. */
  function Status(radio: G.Radio, m: Mbed): int
  {
    radio.status(|m.requests|)
  }

  function Issue(m: Mbed, r: G.GapRequest): Mbed
  {
    m.(requests := m.requests + [r])
  }

  function Raise(m: Mbed, h: BP.HandlerCall): Mbed
  {
    m.(events := m.events + [h])
  }

  /** The flags every start sets: the role, nothing connecting, timeouts heeded. */
  function Begin(m: Mbed, scanner: bool): Mbed
  {
    m.(isScanner := scanner, isConnectingOrSyncing := false, ignoreTimeout := false)
  }

  /** `commonStartAdvertising`: set the payload of the set, then start it. The
      start event comes later, from the stack. */
  function CommonStartAdvertising(radio: G.Radio, m: Mbed, handle: nat): Outcome
  {
    var m1 := Begin(m, false);
    var m2 := Issue(m1, G.SetAdvertisingPayload(handle));
    if Status(radio, m1) != 0 then Outcome(m2, Status(radio, m1))
    else Outcome(Issue(m2, G.StartAdvertising(handle)), Status(radio, m2))
  }

  /** `commonStartScan`: set the scan parameters, start the scan, and raise
      the scan start only when both were accepted. */
  function CommonStartScan(cfg: Config, radio: G.Radio, m: Mbed): Outcome
  {
    var m1 := Begin(m, true);
    var m2 := Issue(m1, G.SetScanParameters);
    var m3 := Issue(m2, G.StartScan);
    if Status(radio, m1) != 0 then Outcome(m2, Status(radio, m1))
    else if Status(radio, m2) != 0 then Outcome(m3, Status(radio, m2))
    else Outcome(Raise(m3, BP.OnScanStart(BP.ScanStartEvent(cfg.scanTimeMs))), 0)
  }

  /** `stopPeriodicAdvertising`: three calls on the set, the first failure
      ends it, and the handle is forgotten only after all three. */
  function StopPeriodicAdvertising(radio: G.Radio, m: Mbed): Mbed
    requires m.isPeriodic && !m.isScanner && m.advHandle != G.InvalidAdvertisingHandle
  {
    var h := m.advHandle;
    var m1 := Issue(m, G.StopPeriodicAdvertising(h));
    var m2 := Issue(m1, G.StopAdvertising(h));
    var m3 := Issue(m2, G.DestroyAdvertisingSet(h));
    if Status(radio, m) != 0 then m1
    else if Status(radio, m1) != 0 then m2
    else if Status(radio, m2) != 0 then m3
    else m3.(advHandle := G.InvalidAdvertisingHandle)
  }

  function StartAdvertising(radio: G.Radio, m: Mbed): Outcome
    requires !m.isConnectingOrSyncing
  {
    CommonStartAdvertising(radio, m.(isPeriodic := false), G.LegacyAdvertisingHandle)
  }

  /** `startPeriodicAdvertising`: -1 without a call when the controller lacks
      the features; otherwise create a set (which writes the handle), give it
      its parameters, and start it as any advertising. */
  function StartPeriodicAdvertising(radio: G.Radio, m: Mbed): Outcome
    requires !m.isConnectingOrSyncing
  {
    if !radio.periodicSupported then Outcome(m, -1)
    else
      var m1 := m.(isPeriodic := true);
      var m2 := Issue(m1, G.CreateAdvertisingSet);
      if Status(radio, m1) != 0 then Outcome(m2, Status(radio, m1))
      else
        var m3 := m2.(advHandle := radio.setHandle(|m1.requests|));
        var m4 := Issue(m3, G.SetAdvertisingParameters(m3.advHandle));
        if Status(radio, m3) != 0 then Outcome(m4, Status(radio, m3))
        else CommonStartAdvertising(radio, m4, m4.advHandle)
  }

  function StartScan(cfg: Config, radio: G.Radio, m: Mbed): Outcome
    requires !m.isConnectingOrSyncing
  {
    CommonStartScan(cfg, radio, m.(isPeriodic := false))
  }

  function StartScanForPeriodicAdvertising(cfg: Config, radio: G.Radio, m: Mbed): Outcome
    requires !m.isConnectingOrSyncing
  {
    CommonStartScan(cfg, radio, m.(isPeriodic := true))
  }

  /** `establishConnection`: timeouts are ignored from now on and the connect
      is issued; the busy flag is left as it was. */
  function EstablishConnection(radio: G.Radio, m: Mbed, peerAddressType: byte, peerAddress: MacAddress): Outcome
    requires m.isScanner && !m.isPeriodic && !m.isConnectingOrSyncing
  {
    var m1 := m.(ignoreTimeout := true);
    Outcome(Issue(m1, G.Connect(peerAddressType, peerAddress)), Status(radio, m1))
  }

  /** `syncToPeriodicAdvertising`: busy, and ignoring timeouts, exactly when
      the stack accepted the sync. The 8-bit SID parameter narrows the 32-bit SID. */
  function SyncToPeriodicAdvertising(radio: G.Radio, m: Mbed, sid: int32, peerAddressType: byte,
                                     peerAddress: MacAddress, syncTimeoutMs: uint32): Outcome
    requires m.isScanner && m.isPeriodic && !m.isConnectingOrSyncing
  {
    var m1 := Issue(m, G.CreateSync(peerAddressType, peerAddress, Narrow8(sid), SyncMaxPacketSkip, syncTimeoutMs));
    if Status(radio, m) != 0 then Outcome(m1, Status(radio, m))
    else Outcome(m1.(isConnectingOrSyncing := true, ignoreTimeout := true), 0)
  }

  /** `disconnect` of the connection whose stack handle `h` the adapter reads
      from the `handle_t` it is given. */
  function Disconnect(radio: G.Radio, m: Mbed, h: nat): Outcome
  {
    Outcome(Issue(m, G.Disconnect(h)), Status(radio, m))
  }

  /** `stopSync` of the sync whose stack handle is `h`. */
  function StopSync(radio: G.Radio, m: Mbed, h: nat): Outcome
  {
    Outcome(Issue(m, G.TerminateSync(h)), Status(radio, m))
  }

  /** `disconnect` as written: the `handle_t` it is given is an address, and
      the stack handle is whatever `mem`, the memory when `disconnect` runs,
      holds there. */
  function DisconnectAsWritten(radio: G.Radio, m: Mbed, slot: Handle, mem: Handle -> nat): Outcome
  {
    Disconnect(radio, m, mem(slot))
  }

  /** `stopSync` as written, reading the sync handle through its address. */
  function StopSyncAsWritten(radio: G.Radio, m: Mbed, slot: Handle, mem: Handle -> nat): Outcome
  {
    StopSync(radio, m, mem(slot))
  }

  /** The advertising start event the adapter raises. */
  function StartEvent(cfg: Config, m: Mbed): BP.HandlerCall
  {
    BP.OnAdvertisingStart(BP.AdvertisingStartEvent(cfg.advertiseTimeMs, m.isPeriodic, cfg.periodicIntervalMs))
  }

  /** `onAdvertisingStart`: a periodic set first gets its periodic parameters
      (half and twice the configured interval) and its periodic start, and a
      failure of either swallows the event. */
  function OnAdvertisingStart(cfg: Config, radio: G.Radio, m: Mbed): Mbed
  {
    if !m.isPeriodic then Raise(m, StartEvent(cfg, m))
    else
      var m1 := Issue(m, G.SetPeriodicAdvertisingParameters(
        m.advHandle, cfg.periodicIntervalMs / 2, cfg.periodicIntervalMs * 2));
      var m2 := Issue(m1, G.StartPeriodicAdvertising(m.advHandle));
      if Status(radio, m) != 0 then m1
      else if Status(radio, m1) != 0 then m2
      else Raise(m2, StartEvent(cfg, m))
  }

  /** `get_name_of_peer`: the value of the first complete local name field,
      read as a C string. */
  function GetNameOfPeer(payload: seq<AdField>): Option<string>
    decreases |payload|
  {
    if |payload| == 0 then None
    else if payload[0].fieldType == G.CompleteLocalName then Some(CStr(payload[0].value))
    else GetNameOfPeer(payload[1..])
  }

  /** The name a report carries. */
  function ReportedName(payload: seq<AdField>): string
  {
    match GetNameOfPeer(payload)
    case Some(name) => name
    case None => UnknownName
  }

  /** `copy_string` as written: it copies one byte more than the field holds,
      so the string read back is the value followed by the byte `next` that
      comes after it in the payload buffer. */
  function CopyStringAsWritten(value: string, next: char): string
  {
    CStr(value + [next])
  }

  /** `onAdvertisingReport`: nothing while busy or when the report's kind
      (periodic or not) is not the one scanned for; otherwise one report. */
  function OnAdvertisingReport(m: Mbed, r: G.GapReport): Mbed
  {
    if m.isConnectingOrSyncing || r.periodicIntervalMs.Some? != m.isPeriodic then m
    else Raise(m, BP.OnAdvertisingReport(BP.NewAdvertisingReportEvent(
      r.sid, r.peerAddressType, r.peerAddress, 6, ReportedName(r.payload), r.periodicIntervalMs.Some?,
      if r.periodicIntervalMs.Some? then r.periodicIntervalMs.value else 0)))
  }

  /** A timeout is forwarded unless timeouts are ignored or something is
      connecting; after it, every later timeout is ignored. */
  function Timeout(m: Mbed, h: BP.HandlerCall): Mbed
  {
    var m1 := if !m.ignoreTimeout && !m.isConnectingOrSyncing then Raise(m, h) else m;
    m1.(ignoreTimeout := true)
  }

  /** `onAdvertisingEnd`: a periodic set is torn down first. */
  function OnAdvertisingEnd(radio: G.Radio, m: Mbed): Mbed
    requires m.isPeriodic ==> !m.isScanner && m.advHandle != G.InvalidAdvertisingHandle
  {
    var m1 := if m.isPeriodic then StopPeriodicAdvertising(radio, m) else m;
    Timeout(m1, BP.OnAdvertisingTimeout)
  }

  function OnScanTimeout(m: Mbed): Mbed
  {
    Timeout(m, BP.OnScanTimeout)
  }

  /** The role the adapter reports: main exactly when it scanned. */
  function Role(m: Mbed): BP.ConnectionRole
  {
    if m.isScanner then BP.Main else BP.Peripheral
  }

  /** `onConnectionComplete`: busy and ignoring timeouts whatever the status,
      then the connection event carrying the status. `slot` is the `handle_t`
      the adapter hands over. As written it is the address of the callback's
      local copy of the stack's handle, which is gone once the callback
      returns; the class hands over the stack's handle itself. */
  function OnConnectionComplete(m: Mbed, c: G.GapConnection, slot: Handle): Mbed
  {
    var m1 := m.(isConnectingOrSyncing := true, ignoreTimeout := true);
    Raise(m1, BP.OnConnection(BP.ConnectEvent(c.peerAddressType, c.peerAddress, 6, c.status, Role(m1), slot)))
  }

  /** `onPeriodicAdvertisingSyncEstablished`: the same for a sync, with the
      same `slot`. */
  function OnPeriodicAdvertisingSyncEstablished(m: Mbed, s: G.GapSync, slot: Handle): Mbed
  {
    var m1 := m.(isConnectingOrSyncing := true, ignoreTimeout := true);
    Raise(m1, BP.OnPeriodicSync(BP.NewPeriodicSyncEvent(
      s.sid, s.peerAddressType, s.peerAddress, 6, s.status, Role(m1), slot)))
  }

  /** The end of a link is reported only while busy, and clears it. */
  function LinkLost(m: Mbed, h: BP.HandlerCall): Mbed
  {
    if !m.isConnectingOrSyncing then m
    else Raise(m.(isConnectingOrSyncing := false, ignoreTimeout := true), h)
  }

  function OnDisconnectionComplete(m: Mbed): Mbed
  {
    LinkLost(m, BP.OnDisconnect)
  }

  function OnPeriodicAdvertisingSyncLoss(m: Mbed): Mbed
  {
    LinkLost(m, BP.OnSyncLoss)
  }

  // ---------------------------------------------------------------------------

  /** An advertising start sets the payload and then starts the set unless that
      failed, returns the first failing code, raises nothing itself, and leaves
      the adapter advertising with timeouts heeded. */
  lemma CommonStartAdvertisingOutcome(radio: G.Radio, m: Mbed, handle: nat)
    ensures var o := CommonStartAdvertising(radio, m, handle);
      var n := |m.requests|;
      !o.m.isScanner && !o.m.isConnectingOrSyncing && !o.m.ignoreTimeout
      && o.m.isPeriodic == m.isPeriodic && o.m.advHandle == m.advHandle && o.m.events == m.events
      && (radio.status(n) != 0 ==>
            o.error == radio.status(n) && o.m.requests == m.requests + [G.SetAdvertisingPayload(handle)])
      && (radio.status(n) == 0 ==>
            o.error == radio.status(n + 1)
            && o.m.requests == m.requests + [G.SetAdvertisingPayload(handle), G.StartAdvertising(handle)])
  {
  }

  /** A scan start raises the scan start event exactly when both calls were
      accepted, and otherwise returns the first failing code. */
  lemma CommonStartScanOutcome(cfg: Config, radio: G.Radio, m: Mbed)
    ensures var o := CommonStartScan(cfg, radio, m);
      var n := |m.requests|;
      o.m.isScanner && !o.m.isConnectingOrSyncing && !o.m.ignoreTimeout
      && o.m.isPeriodic == m.isPeriodic && o.m.advHandle == m.advHandle
      && (o.error == 0 <==> radio.status(n) == 0 && radio.status(n + 1) == 0)
      && (o.error == 0 ==>
            o.m.requests == m.requests + [G.SetScanParameters, G.StartScan]
            && o.m.events == m.events + [BP.OnScanStart(BP.ScanStartEvent(cfg.scanTimeMs))])
      && (o.error != 0 ==> o.m.events == m.events && o.m.requests[..n + 1] == m.requests + [G.SetScanParameters])
  {
    var n := |m.requests|;
    var o := CommonStartScan(cfg, radio, m);
    if radio.status(n) != 0 {
      assert o.m.requests == m.requests + [G.SetScanParameters];
    } else if radio.status(n + 1) != 0 {
      assert o.m.requests[..n + 1] == m.requests + [G.SetScanParameters];
    }
  }

  /** Without the controller features no call is made and nothing changes.
      With them, the set created is the one configured and started, its
      handle is kept, and the operation succeeds exactly when all four calls
      were accepted. */
  lemma StartPeriodicAdvertisingOutcome(radio: G.Radio, m: Mbed)
    requires !m.isConnectingOrSyncing
    ensures var o := StartPeriodicAdvertising(radio, m);
      var n := |m.requests|;
      var h := radio.setHandle(n);
      (!radio.periodicSupported ==> o == Outcome(m, -1))
      && (radio.periodicSupported ==>
            o.m.isPeriodic && o.m.events == m.events
            && o.m.requests[n] == G.CreateAdvertisingSet
            && (o.error == 0 <==> (forall i :: n <= i < n + 4 ==> radio.status(i) == 0))
            && (o.error == 0 ==>
                  o.m.advHandle == h && !o.m.isScanner && !o.m.ignoreTimeout
                  && o.m.requests == m.requests + [G.CreateAdvertisingSet, G.SetAdvertisingParameters(h),
                                                   G.SetAdvertisingPayload(h), G.StartAdvertising(h)]))
  {
    var n := |m.requests|;
    var o := StartPeriodicAdvertising(radio, m);
    if radio.periodicSupported {
      assert o.m.requests[n] == G.CreateAdvertisingSet;
      if o.error == 0 {
        forall i | n <= i < n + 4 ensures radio.status(i) == 0 {
          assert i == n || i == n + 1 || i == n + 2 || i == n + 3;
        }
      } else {
        assert radio.status(n) != 0 || radio.status(n + 1) != 0 || radio.status(n + 2) != 0
            || radio.status(n + 3) != 0;
      }
    }
  }

  /** The set's handle is forgotten exactly when all three calls were accepted;
      a failure leaves the handle and stops issuing calls. */
  lemma StopPeriodicInvalidatesIff(radio: G.Radio, m: Mbed)
    requires m.isPeriodic && !m.isScanner && m.advHandle != G.InvalidAdvertisingHandle
    ensures var s := StopPeriodicAdvertising(radio, m);
      var n := |m.requests|;
      var h := m.advHandle;
      (s.advHandle == G.InvalidAdvertisingHandle <==> (forall i :: n <= i < n + 3 ==> radio.status(i) == 0))
      && (s.advHandle == G.InvalidAdvertisingHandle || s.advHandle == h)
      && s.events == m.events && s.isPeriodic && !s.isScanner
      && n < |s.requests| <= n + 3 && s.requests[n] == G.StopPeriodicAdvertising(h)
      && (forall i :: n <= i < |s.requests| - 1 ==> radio.status(i) == 0)
  {
    var n := |m.requests|;
    var s := StopPeriodicAdvertising(radio, m);
    if s.advHandle == G.InvalidAdvertisingHandle {
      forall i | n <= i < n + 3 ensures radio.status(i) == 0 {
        assert i == n || i == n + 1 || i == n + 2;
      }
    } else {
      assert radio.status(n) != 0 || radio.status(n + 1) != 0 || radio.status(n + 2) != 0;
    }
    forall i | n <= i < |s.requests| - 1 ensures radio.status(i) == 0 {
    }
  }

  /** The periodic parameters of set `h`: a range that holds the configured interval. */
  predicate IntervalRequest(cfg: Config, r: G.GapRequest, h: nat)
  {
    r.SetPeriodicAdvertisingParameters? && r.handle == h
    && r.minInterval <= cfg.periodicIntervalMs <= r.maxInterval
  }

  /** The advertising start is forwarded, carrying the periodic flag, exactly
      when the set is legacy or its periodic setup was accepted; a periodic set
      asks for an interval range around the configured interval. */
  lemma AdvertisingStartForwardedIff(cfg: Config, radio: G.Radio, m: Mbed)
    ensures var s := OnAdvertisingStart(cfg, radio, m);
      var n := |m.requests|;
      var accepted := !m.isPeriodic || (radio.status(n) == 0 && radio.status(n + 1) == 0);
      s.isPeriodic == m.isPeriodic && s.advHandle == m.advHandle
      && (accepted ==> s.events == m.events + [StartEvent(cfg, m)])
      && (!accepted ==> s.events == m.events)
      && (!m.isPeriodic ==> s.requests == m.requests)
      && (m.isPeriodic ==> IntervalRequest(cfg, s.requests[n], m.advHandle))
  {
  }

  /** Field `i` is the first complete local name of the payload. */
  predicate FirstName(payload: seq<AdField>, i: int)
  {
    0 <= i < |payload| && payload[i].fieldType == G.CompleteLocalName
    && forall j :: 0 <= j < i ==> payload[j].fieldType != G.CompleteLocalName
  }

  /** The reported name is the first complete local name, read as a C string,
      or the fallback when there is none. */
  lemma {:induction false} ReportedNameFirst(payload: seq<AdField>)
    ensures GetNameOfPeer(payload).None? <==>
      (forall i :: 0 <= i < |payload| ==> payload[i].fieldType != G.CompleteLocalName)
    ensures GetNameOfPeer(payload).None? ==> ReportedName(payload) == UnknownName
    ensures forall i :: FirstName(payload, i) ==> ReportedName(payload) == CStr(payload[i].value)
    decreases |payload|
  {
    if |payload| > 0 && payload[0].fieldType != G.CompleteLocalName {
      ReportedNameFirst(payload[1..]);
      forall i | 1 <= i < |payload| ensures payload[i] == payload[1..][i - 1] {
      }
      forall i | FirstName(payload, i) ensures FirstName(payload[1..], i - 1) {
      }
    }
  }

  /** A report event that carries the peer of `r`, its SID, the reported name
      and the interval (0 when absent). */
  predicate ReportOf(e: BP.AdvertisingReportEvent, r: G.GapReport, periodic: bool)
  {
    e.sid == r.sid && e.peerAddress == r.peerAddress && e.peerAddressSize == 6
    && e.localName == ReportedName(r.payload) && e.isPeriodic == periodic
    && e.periodicIntervalMs == (if r.periodicIntervalMs.Some? then r.periodicIntervalMs.value else 0)
  }

  /** A report is forwarded exactly when nothing is connecting and its kind is
      the one scanned for, carrying the peer, its SID, the reported name and
      the interval (0 when absent); otherwise nothing at all changes. */
  lemma ReportForwardedIff(m: Mbed, r: G.GapReport)
    ensures var s := OnAdvertisingReport(m, r);
      var forwarded := !m.isConnectingOrSyncing && r.periodicIntervalMs.Some? == m.isPeriodic;
      (!forwarded ==> s == m)
      && (forwarded ==> s == Raise(m, BP.OnAdvertisingReport(s.events[|m.events|].report))
                        && ReportOf(s.events[|m.events|].report, r, m.isPeriodic))
  {
  }

  /** Timeouts are heeded and nothing is connecting. */
  predicate Heeded(m: Mbed)
  {
    !m.ignoreTimeout && !m.isConnectingOrSyncing
  }

  /** A timeout is forwarded exactly when timeouts are heeded and nothing is
      connecting; afterwards they are ignored. */
  lemma TimeoutForwardedIff(radio: G.Radio, m: Mbed)
    requires m.isPeriodic ==> !m.isScanner && m.advHandle != G.InvalidAdvertisingHandle
    ensures OnScanTimeout(m).events == m.events + (if Heeded(m) then [BP.OnScanTimeout] else [])
    ensures OnAdvertisingEnd(radio, m).events == m.events + (if Heeded(m) then [BP.OnAdvertisingTimeout] else [])
    ensures OnScanTimeout(m).ignoreTimeout && OnAdvertisingEnd(radio, m).ignoreTimeout
  {
  }

  /** A run of timeouts of any kinds, as the stack may deliver them. */
  function Timeouts(m: Mbed, hs: seq<BP.HandlerCall>): Mbed
    decreases |hs|
  {
    if |hs| == 0 then m else Timeouts(Timeout(m, hs[0]), hs[1..])
  }

  /** However many timeouts the stack delivers, at most one reaches the
      handler, and none once timeouts are ignored. */
  lemma {:induction false} AtMostOneTimeout(m: Mbed, hs: seq<BP.HandlerCall>)
    ensures |m.events| <= |Timeouts(m, hs).events| <= |m.events| + 1
    ensures Timeouts(m, hs).events[..|m.events|] == m.events
    ensures m.ignoreTimeout ==> Timeouts(m, hs).events == m.events
    decreases |hs|
  {
    if |hs| > 0 {
      var m1 := Timeout(m, hs[0]);
      AtMostOneTimeout(m1, hs[1..]);
      assert m1.ignoreTimeout;
      assert Timeouts(m1, hs[1..]).events == m1.events;
    }
  }

  /** The end of an advertising session is that timeout, after the periodic
      teardown, which raises nothing and touches neither flag it reads. */
  lemma AdvertisingEndIsTimeout(radio: G.Radio, m: Mbed)
    requires m.isPeriodic ==> !m.isScanner && m.advHandle != G.InvalidAdvertisingHandle
    ensures var s := OnAdvertisingEnd(radio, m);
      var t := Timeout(m, BP.OnAdvertisingTimeout);
      s.events == t.events && s.ignoreTimeout == t.ignoreTimeout
      && s.isConnectingOrSyncing == t.isConnectingOrSyncing
  {
  }

  /** The connection event carries the status as its error and the main role
      exactly when the adapter scanned; the adapter is busy and ignores
      timeouts whatever the status. */
  lemma ConnectionOutcome(m: Mbed, c: G.GapConnection, slot: Handle, s: G.GapSync)
    ensures var t := OnConnectionComplete(m, c, slot);
      t.isConnectingOrSyncing && t.ignoreTimeout && t.isScanner == m.isScanner
      && t.requests == m.requests && t.events[..|m.events|] == m.events
      && |t.events| == |m.events| + 1 && t.events[|m.events|].OnConnection?
      && t.events[|m.events|].connection.error == c.status
      && (t.events[|m.events|].connection.role == BP.Main <==> m.isScanner)
    ensures var t := OnPeriodicAdvertisingSyncEstablished(m, s, slot);
      t.isConnectingOrSyncing && t.ignoreTimeout
      && |t.events| == |m.events| + 1 && t.events[|m.events|].OnPeriodicSync?
      && t.events[|m.events|].sync.error == s.status && t.events[|m.events|].sync.sid == s.sid
      && (t.events[|m.events|].sync.role == BP.Main <==> m.isScanner)
  {
  }

  /** A link end is reported only while busy, and only once: a second one,
      of either kind, changes nothing. */
  lemma LinkLossOnce(m: Mbed)
    ensures OnDisconnectionComplete(m).events ==
      m.events + (if m.isConnectingOrSyncing then [BP.OnDisconnect] else [])
    ensures OnPeriodicAdvertisingSyncLoss(m).events ==
      m.events + (if m.isConnectingOrSyncing then [BP.OnSyncLoss] else [])
    ensures !OnDisconnectionComplete(m).isConnectingOrSyncing
    ensures OnDisconnectionComplete(OnDisconnectionComplete(m)) == OnDisconnectionComplete(m)
    ensures OnPeriodicAdvertisingSyncLoss(OnDisconnectionComplete(m)) == OnDisconnectionComplete(m)
    ensures OnDisconnectionComplete(OnPeriodicAdvertisingSyncLoss(m)) == OnPeriodicAdvertisingSyncLoss(m)
    ensures OnPeriodicAdvertisingSyncLoss(OnPeriodicAdvertisingSyncLoss(m)) == OnPeriodicAdvertisingSyncLoss(m)
  {
  }

  /** A sync request makes the adapter busy exactly when it was accepted, and
      then reports stop. */
  lemma SyncBusyIff(radio: G.Radio, m: Mbed, sid: int32, peerAddressType: byte, peerAddress: MacAddress,
                    syncTimeoutMs: uint32, r: G.GapReport)
    requires m.isScanner && m.isPeriodic && !m.isConnectingOrSyncing
    ensures var o := SyncToPeriodicAdvertising(radio, m, sid, peerAddressType, peerAddress, syncTimeoutMs);
      (o.m.isConnectingOrSyncing <==> o.error == 0) && o.error == Status(radio, m)
      && (o.error == 0 ==> o.m.ignoreTimeout && OnAdvertisingReport(o.m, r) == o.m)
      && o.m.events == m.events
      && o.m.requests == m.requests + [G.CreateSync(peerAddressType, peerAddress, Narrow8(sid),
                                                    SyncMaxPacketSkip, syncTimeoutMs)]
  {
  }

  /** Unlike a sync request, an accepted connect request does not make the
      adapter busy: until the connection completes, reports of the scan keep
      reaching the handler, while timeouts are already ignored. */
  lemma EstablishConnectionKeepsReporting(radio: G.Radio, m: Mbed, peerAddressType: byte,
                                          peerAddress: MacAddress, r: G.GapReport)
    requires m.isScanner && !m.isPeriodic && !m.isConnectingOrSyncing
    requires r.periodicIntervalMs.None?
    ensures var o := EstablishConnection(radio, m, peerAddressType, peerAddress);
      !o.m.isConnectingOrSyncing && o.m.ignoreTimeout
      && |OnAdvertisingReport(o.m, r).events| == |m.events| + 1
      && OnScanTimeout(o.m).events == m.events
  {
  }

  /** A C string with no terminator in it, followed by one more character. */
  lemma {:induction false} CStrPlusOne(v: string, c: char)
    requires forall i :: 0 <= i < |v| ==> v[i] != '\0'
    ensures CStr(v + [c]) == v + (if c == '\0' then [] else [c])
    decreases |v|
  {
    if |v| > 0 {
      assert (v + [c])[1..] == v[1..] + [c];
      assert forall i :: 0 <= i < |v| - 1 ==> v[1..][i] == v[i + 1];
      CStrPlusOne(v[1..], c);
      assert v == [v[0]] + v[1..];
    } else {
      assert [c][1..] == [];
    }
  }

  /** As written, the copied name of a field without a terminator gains the
      byte after the field whenever that byte is not zero, so it differs from
      the advertised name: for "abc" followed by the next field's length
      byte 2 it reads "abc" and the character 2. */
  lemma CopyStringAsWrittenOverreads(value: string, next: char)
    requires forall i :: 0 <= i < |value| ==> value[i] != '\0'
    ensures CopyStringAsWritten(value, next) == CStr(value) <==> next == '\0'
  {
    CStrPlusOne(value, next);
    CStrPlusOne(value, '\0');
    assert CStr(value) == value by {
      assert CStr(value) == CStr(value + ['\0'])[..|CStr(value)|];
    }
    if next != '\0' {
      assert |CopyStringAsWritten(value, next)| == |value| + 1;
    }
  }

  lemma CopyStringAsWrittenExample()
    ensures CopyStringAsWritten("abc", 2 as char) == "abc" + [2 as char] != CStr("abc")
  {
    CStrPlusOne("abc", 2 as char);
    assert CStr("abc") == "abc";
  }

  /** The name the model reports is the advertised name itself whenever it has
      no terminator in it. */
  lemma ReportedNameExact(payload: seq<AdField>, i: nat)
    requires i < |payload| && payload[i].fieldType == G.CompleteLocalName
    requires forall j :: 0 <= j < i ==> payload[j].fieldType != G.CompleteLocalName
    requires forall k :: 0 <= k < |payload[i].value| ==> payload[i].value[k] != '\0'
    ensures ReportedName(payload) == payload[i].value
  {
    ReportedNameFirst(payload);
    CStrPlusOne(payload[i].value, '\0');
    assert payload[i].value + [] == payload[i].value;
    assert CStr(payload[i].value) == CStr(payload[i].value + ['\0']) by {
      CStrPlusOne(payload[i].value, '\0');
      assert CStr(payload[i].value + ['\0']) == payload[i].value;
    }
  }
}

/** The Mbed adapter as an object updating its fields in place. */
module MbedPlatformClass {
  import opened Common
  import opened Hex
  import BP = BluetoothPlatform
  import G = MbedGap
  import M = MbedPlatform

  /** `get_name_of_peer`: walks the fields to the first complete local name. */
  method GetNameOfPeer(payload: seq<AdField>) returns (found: bool, name: string)
    ensures (if found then Some(name) else None) == M.GetNameOfPeer(payload)
  {
    var i := 0;
    while i < |payload|
      invariant 0 <= i <= |payload|
      invariant M.GetNameOfPeer(payload[i..]) == M.GetNameOfPeer(payload)
    {
      if payload[i].fieldType == G.CompleteLocalName {
        return true, CStr(payload[i].value);
      }
      assert payload[i..][1..] == payload[i + 1..];
      i := i + 1;
    }
    return false, "";
  }

  class MbedBluetoothPlatform {
    const cfg: M.Config
    const radio: G.Radio
    var isPeriodic: bool
    var isScanner: bool
    var isConnectingOrSyncing: bool
    var ignoreTimeout: bool
    var advHandle: nat
    var requests: seq<G.GapRequest>
    var events: seq<BP.HandlerCall>

    function Snapshot(): M.Mbed
      reads this
    {
      M.Mbed(isPeriodic, isScanner, isConnectingOrSyncing, ignoreTimeout, advHandle, requests, events)
    }

    constructor (cfg: M.Config, radio: G.Radio)
      ensures this.cfg == cfg && this.radio == radio
      ensures Snapshot() == M.Initial
    {
      this.cfg := cfg;
      this.radio := radio;
      isPeriodic := false;
      isScanner := false;
      isConnectingOrSyncing := false;
      ignoreTimeout := false;
      advHandle := G.InvalidAdvertisingHandle;
      requests := [];
      events := [];
    }

    /** One call into the stack, and its result. */
    method Issue(r: G.GapRequest) returns (error: int)
      modifies this
      ensures error == M.Status(radio, old(Snapshot()))
      ensures Snapshot() == M.Issue(old(Snapshot()), r)
    {
      error := radio.status(|requests|);
      requests := requests + [r];
    }

    method Raise(h: BP.HandlerCall)
      modifies this
      ensures Snapshot() == M.Raise(old(Snapshot()), h)
    {
      events := events + [h];
    }

    method CommonStartAdvertising(handle: nat) returns (error: int)
      modifies this
      ensures M.Outcome(Snapshot(), error) == M.CommonStartAdvertising(radio, old(Snapshot()), handle)
    {
      isScanner := false;
      isConnectingOrSyncing := false;
      ignoreTimeout := false;
      error := Issue(G.SetAdvertisingPayload(handle));
      if error != 0 {
        return;
      }
      error := Issue(G.StartAdvertising(handle));
    }

    method CommonStartScan() returns (error: int)
      modifies this
      ensures M.Outcome(Snapshot(), error) == M.CommonStartScan(cfg, radio, old(Snapshot()))
    {
      isScanner := true;
      isConnectingOrSyncing := false;
      ignoreTimeout := false;
      error := Issue(G.SetScanParameters);
      if error != 0 {
        return;
      }
      error := Issue(G.StartScan);
      if error != 0 {
        return;
      }
      Raise(BP.OnScanStart(BP.ScanStartEvent(cfg.scanTimeMs)));
    }

    method StopPeriodicAdvertising()
      requires isPeriodic && !isScanner && advHandle != G.InvalidAdvertisingHandle
      modifies this
      ensures Snapshot() == M.StopPeriodicAdvertising(radio, old(Snapshot()))
    {
      var error := Issue(G.StopPeriodicAdvertising(advHandle));
      if error != 0 {
        return;
      }
      error := Issue(G.StopAdvertising(advHandle));
      if error != 0 {
        return;
      }
      error := Issue(G.DestroyAdvertisingSet(advHandle));
      if error != 0 {
        return;
      }
      advHandle := G.InvalidAdvertisingHandle;
    }

    method StartAdvertising() returns (error: int)
      requires !isConnectingOrSyncing
      modifies this
      ensures M.Outcome(Snapshot(), error) == M.StartAdvertising(radio, old(Snapshot()))
    {
      isPeriodic := false;
      error := CommonStartAdvertising(G.LegacyAdvertisingHandle);
    }

    method StartPeriodicAdvertising() returns (error: int)
      requires !isConnectingOrSyncing
      modifies this
      ensures M.Outcome(Snapshot(), error) == M.StartPeriodicAdvertising(radio, old(Snapshot()))
    {
      if !radio.periodicSupported {
        return -1;
      }
      isPeriodic := true;
      var created := radio.setHandle(|requests|);
      error := Issue(G.CreateAdvertisingSet);
      if error != 0 {
        return;
      }
      advHandle := created;
      error := Issue(G.SetAdvertisingParameters(advHandle));
      if error != 0 {
        return;
      }
      error := CommonStartAdvertising(advHandle);
    }

    method StartScan() returns (error: int)
      requires !isConnectingOrSyncing
      modifies this
      ensures M.Outcome(Snapshot(), error) == M.StartScan(cfg, radio, old(Snapshot()))
    {
      isPeriodic := false;
      error := CommonStartScan();
    }

    method StartScanForPeriodicAdvertising() returns (error: int)
      requires !isConnectingOrSyncing
      modifies this
      ensures M.Outcome(Snapshot(), error) == M.StartScanForPeriodicAdvertising(cfg, radio, old(Snapshot()))
    {
      isPeriodic := true;
      error := CommonStartScan();
    }

    method EstablishConnection(peerAddressType: byte, peerAddress: MacAddress) returns (error: int)
      requires isScanner && !isPeriodic && !isConnectingOrSyncing
      modifies this
      ensures M.Outcome(Snapshot(), error) == M.EstablishConnection(radio, old(Snapshot()), peerAddressType, peerAddress)
    {
      ignoreTimeout := true;
      error := Issue(G.Connect(peerAddressType, peerAddress));
      if error != 0 {
        return;
      }
      return 0;
    }

    method SyncToPeriodicAdvertising(sid: int32, peerAddressType: byte, peerAddress: MacAddress,
                                     syncTimeoutMs: uint32) returns (error: int)
      requires isScanner && isPeriodic && !isConnectingOrSyncing
      modifies this
      ensures M.Outcome(Snapshot(), error)
        == M.SyncToPeriodicAdvertising(radio, old(Snapshot()), sid, peerAddressType, peerAddress, syncTimeoutMs)
    {
      error := Issue(G.CreateSync(peerAddressType, peerAddress, Narrow8(sid), M.SyncMaxPacketSkip, syncTimeoutMs));
      if error != 0 {
        return;
      }
      isConnectingOrSyncing := true;
      ignoreTimeout := true;
      return 0;
    }

    method Disconnect(connectionHandle: nat) returns (error: int)
      modifies this
      ensures M.Outcome(Snapshot(), error) == M.Disconnect(radio, old(Snapshot()), connectionHandle)
    {
      error := Issue(G.Disconnect(connectionHandle));
    }

    method StopSync(syncHandle: nat) returns (error: int)
      modifies this
      ensures M.Outcome(Snapshot(), error) == M.StopSync(radio, old(Snapshot()), syncHandle)
    {
      error := Issue(G.TerminateSync(syncHandle));
    }

    method OnAdvertisingStart()
      modifies this
      ensures Snapshot() == M.OnAdvertisingStart(cfg, radio, old(Snapshot()))
    {
      if isPeriodic {
        var error := Issue(G.SetPeriodicAdvertisingParameters(
          advHandle, cfg.periodicIntervalMs / 2, cfg.periodicIntervalMs * 2));
        if error != 0 {
          return;
        }
        error := Issue(G.StartPeriodicAdvertising(advHandle));
        if error != 0 {
          return;
        }
      }
      Raise(BP.OnAdvertisingStart(BP.AdvertisingStartEvent(cfg.advertiseTimeMs, isPeriodic, cfg.periodicIntervalMs)));
    }

    method OnAdvertisingReport(r: G.GapReport)
      modifies this
      ensures Snapshot() == M.OnAdvertisingReport(old(Snapshot()), r)
    {
      if isConnectingOrSyncing {
        return;
      }
      if r.periodicIntervalMs.Some? != isPeriodic {
        return;
      }
      var found, name := GetNameOfPeer(r.payload);
      if !found {
        name := M.UnknownName;
      }
      Raise(BP.OnAdvertisingReport(BP.NewAdvertisingReportEvent(
        r.sid, r.peerAddressType, r.peerAddress, 6, name, r.periodicIntervalMs.Some?,
        if r.periodicIntervalMs.Some? then r.periodicIntervalMs.value else 0)));
    }

    method OnAdvertisingEnd()
      requires isPeriodic ==> !isScanner && advHandle != G.InvalidAdvertisingHandle
      modifies this
      ensures Snapshot() == M.OnAdvertisingEnd(radio, old(Snapshot()))
    {
      if isPeriodic {
        StopPeriodicAdvertising();
      }
      if !ignoreTimeout && !isConnectingOrSyncing {
        Raise(BP.OnAdvertisingTimeout);
      }
      ignoreTimeout := true;
    }

    method OnScanTimeout()
      modifies this
      ensures Snapshot() == M.OnScanTimeout(old(Snapshot()))
    {
      if !ignoreTimeout && !isConnectingOrSyncing {
        Raise(BP.OnScanTimeout);
      }
      ignoreTimeout := true;
    }

    /** The corrected hand-over: the event's `handle_t` carries the stack's
        connection handle itself, which `Disconnect` reads back, instead of the
        address of a local that dies with the callback. */
    method OnConnectionComplete(c: G.GapConnection)
      modifies this
      ensures Snapshot() == M.OnConnectionComplete(old(Snapshot()), c, c.connectionHandle)
    {
      isConnectingOrSyncing := true;
      ignoreTimeout := true;
      Raise(BP.OnConnection(BP.ConnectEvent(c.peerAddressType, c.peerAddress, 6, c.status,
        if isScanner then BP.Main else BP.Peripheral, c.connectionHandle)));
    }

    /** The corrected hand-over for a sync: the sync handle itself. */
    method OnPeriodicAdvertisingSyncEstablished(s: G.GapSync)
      modifies this
      ensures Snapshot() == M.OnPeriodicAdvertisingSyncEstablished(old(Snapshot()), s, s.syncHandle)
    {
      isConnectingOrSyncing := true;
      ignoreTimeout := true;
      Raise(BP.OnPeriodicSync(BP.NewPeriodicSyncEvent(s.sid, s.peerAddressType, s.peerAddress, 6, s.status,
        if isScanner then BP.Main else BP.Peripheral, s.syncHandle)));
    }

    method OnDisconnectionComplete()
      modifies this
      ensures Snapshot() == M.OnDisconnectionComplete(old(Snapshot()))
    {
      if !isConnectingOrSyncing {
        return;
      }
      isConnectingOrSyncing := false;
      ignoreTimeout := true;
      Raise(BP.OnDisconnect);
    }

    method OnPeriodicAdvertisingSyncLoss()
      modifies this
      ensures Snapshot() == M.OnPeriodicAdvertisingSyncLoss(old(Snapshot()))
    {
      if !isConnectingOrSyncing {
        return;
      }
      isConnectingOrSyncing := false;
      ignoreTimeout := true;
      Raise(BP.OnSyncLoss);
    }
  }
}
