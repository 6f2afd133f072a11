/** The original stand-alone Mbed test program (advertise, scan or advertise
    periodically, matching a peer by name only) as values; module
    SourceMainClass runs the same handlers in place. */
module SourceMain {
  import opened Common
  import opened Hex
  import opened MbedGap

  /** CONNECT_TIME: how long the scanner keeps a connection. */
  const ConnectTimeMs: nat := 10000

  const SyncTimeoutMs: nat := 5000
  const SyncMaxPacketSkip: nat := 2
  /** The periodic interval bounds `onAdvertisingStart` asks for, as the raw
      `periodic_interval_t` counts of 1.25 ms: 125 ms and 1250 ms. */
  const PeriodicMinInterval: nat := 100
  const PeriodicMaxInterval: nat := 1000

  /** The program's fields: `_is_scanner`, `_is_periodic`,
      `_is_connecting_or_syncing`, `_have_adv_handle`, `_adv_handle`,
      `_sync_handle`; then the console input not yet read, the calls made so
      far, and the state names `enter_state` has printed, oldest first. */
  datatype Test = Test(isScanner: bool, isPeriodic: bool, isConnectingOrSyncing: bool, haveAdvHandle: bool,
                       advHandle: nat, syncHandle: nat, console: string, requests: seq<GapRequest>,
                       entered: seq<string>)

  function Issue(t: Test, r: GapRequest): Test
  {
    t.(requests := t.requests + [r])
  }

  /** The next call the program makes fails. */
  predicate Fails(radio: Radio, t: Test)
  {
    radio.status(|t.requests|) != 0
  }

  /** `enter_state`: prints the state's name and sets all three flags. */
  function EnterState(t: Test, name: string, isScanner: bool, isPeriodic: bool, isConnectingOrSyncing: bool): Test
  {
    t.(isScanner := isScanner, isPeriodic := isPeriodic, isConnectingOrSyncing := isConnectingOrSyncing,
       entered := t.entered + [name])
  }

  /** `advertise`: legacy advertising on the legacy handle. */
  function Advertise(radio: Radio, t: Test): Test
  {
    var t1 := EnterState(t, "advertise", false, false, false);
    var t2 := Issue(t1, SetAdvertisingPayload(LegacyAdvertisingHandle));
    if Fails(radio, t1) then t2 else Issue(t2, StartAdvertising(LegacyAdvertisingHandle))
  }

  /** `advertise_periodic`: only when the controller supports it; the set is
      created, configured and given its payload the first time only, and
      `_have_adv_handle` is set once all three succeeded. */
  function AdvertisePeriodic(radio: Radio, t: Test): Test
  {
    var t1 := EnterState(t, "advertise_periodic", false, true, false);
    if !radio.periodicSupported then t1
    else if t1.haveAdvHandle then Issue(t1, StartAdvertising(t1.advHandle))
    else if Fails(radio, t1) then Issue(t1, CreateAdvertisingSet)
    else
      var t2 := Issue(t1, CreateAdvertisingSet).(advHandle := radio.setHandle(|t1.requests|));
      var t3 := Issue(t2, SetAdvertisingParameters(t2.advHandle));
      if Fails(radio, t2) then t3
      else
        var t4 := Issue(t3, SetAdvertisingPayload(t2.advHandle));
        if Fails(radio, t3) then t4
        else Issue(t4.(haveAdvHandle := true), StartAdvertising(t2.advHandle))
  }

  function Scan(radio: Radio, t: Test): Test
  {
    var t1 := EnterState(t, "scan", true, false, false);
    var t2 := Issue(t1, SetScanParameters);
    if Fails(radio, t1) then t2 else Issue(t2, StartScan)
  }

  predicate IsChoice(c: char)
  {
    c == 'a' || c == 's' || c == 'p'
  }

  /** The read loop of `next_state`: the first character that lower-cases to a
      choice, and the input after it; none while the input runs out first. */
  function ReadChoice(input: string): (r: (Option<char>, string))
    ensures r.0.Some? ==> IsChoice(r.0.value) && |r.1| < |input|
    ensures r.0.None? ==> |r.1| == 0
    decreases |input|
  {
    if |input| == 0 then (None, [])
    else if IsChoice(ToLower(input[0])) then (Some(ToLower(input[0])), input[1..])
    else ReadChoice(input[1..])
  }

  /** The loop stops at the first choice and consumes exactly the input up to it. */
  lemma {:induction false} ReadChoiceAt(input: string, i: nat)
    requires i < |input| && IsChoice(ToLower(input[i]))
    requires forall j :: 0 <= j < i ==> !IsChoice(ToLower(input[j]))
    ensures ReadChoice(input) == (Some(ToLower(input[i])), input[i + 1..])
    decreases i
  {
    if i > 0 {
      assert !IsChoice(ToLower(input[0]));
      assert forall j :: 0 <= j < i - 1 ==> input[1..][j] == input[j + 1];
      ReadChoiceAt(input[1..], i - 1);
      assert input[1..][i - 1 + 1..] == input[i + 1..];
    }
  }

  /** Input without a choice leaves the loop waiting. */
  lemma {:induction false} ReadChoiceNone(input: string)
    requires forall j :: 0 <= j < |input| ==> !IsChoice(ToLower(input[j]))
    ensures ReadChoice(input) == (None, [])
    decreases |input|
  {
    if |input| > 0 {
      assert forall j :: 0 <= j < |input| - 1 ==> input[1..][j] == input[j + 1];
      ReadChoiceNone(input[1..]);
    }
  }

  /** `next_state`: waits for a choice and enters that state. */
  function NextState(radio: Radio, t: Test): Test
  {
    var r := ReadChoice(t.console);
    var t1 := t.(console := r.1);
    if r.0.None? then t1
    else if r.0.value == 'a' then Advertise(radio, t1)
    else if r.0.value == 's' then Scan(radio, t1)
    else AdvertisePeriodic(radio, t1)
  }

  /** `onAdvertisingReport`: while not busy, a sender naming itself DEVICE_NAME
      is synced to (periodic) or connected to; busy only once accepted. */
  function OnAdvertisingReport(radio: Radio, t: Test, e: GapReport): Test
  {
    if t.isConnectingOrSyncing then t
    else if t.isPeriodic && e.periodicIntervalMs.None? then t
    else if !HasName(e.payload, DeviceName) then t
    else
      var req := if t.isPeriodic then CreateSync(e.peerAddressType, e.peerAddress, e.sid, SyncMaxPacketSkip, SyncTimeoutMs)
                 else Connect(e.peerAddressType, e.peerAddress);
      if Fails(radio, t) then Issue(t, req) else Issue(t, req).(isConnectingOrSyncing := true)
  }

  function OnAdvertisingStart(radio: Radio, t: Test): Test
  {
    if !t.isPeriodic then t
    else
      var t1 := Issue(t, SetPeriodicAdvertisingParameters(t.advHandle, PeriodicMinInterval, PeriodicMaxInterval));
      if Fails(radio, t) then t1 else Issue(t1, StartPeriodicAdvertising(t.advHandle))
  }

  /** `onAdvertisingEnd` and `onScanTimeout`: prompt again unless busy. */
  function OnTimeout(radio: Radio, t: Test): Test
  {
    if t.isConnectingOrSyncing then t else NextState(radio, t)
  }

  /** The roles keep the periodic flag and mark the program busy. */
  function OnConnectionComplete(radio: Radio, t: Test, c: GapConnection): Test
  {
    if c.status != 0 then NextState(radio, t)
    else if t.isScanner then
      EnterState(Issue(t, CallIn(ConnectTimeMs, DisconnectTask(c.connectionHandle))), "connect_master", true, t.isPeriodic, true)
    else EnterState(t, "connect_peripheral", false, t.isPeriodic, true)
  }

  /** A disconnection prompts again without clearing the busy flag. */
  function OnDisconnectionComplete(radio: Radio, t: Test): Test
  {
    NextState(radio, t)
  }

  function OnSyncEstablished(t: Test, s: GapSync): Test
  {
    if s.status == 0 then t.(syncHandle := s.syncHandle) else t
  }

  function OnSyncLoss(t: Test): Test
  {
    Issue(t.(syncHandle := InvalidAdvertisingHandle), Call(ScanTask))
  }

  function Deliver(radio: Radio, t: Test, ev: GapEvent): Test
  {
    match ev
    case AdvertisingStart => OnAdvertisingStart(radio, t)
    case AdvertisingEnd => OnTimeout(radio, t)
    case AdvertisingReport(e) => OnAdvertisingReport(radio, t, e)
    case ScanTimeout => OnTimeout(radio, t)
    case ConnectionComplete(c) => OnConnectionComplete(radio, t, c)
    case DisconnectionComplete => OnDisconnectionComplete(radio, t)
    case SyncEstablished(s) => OnSyncEstablished(t, s)
    case SyncLoss => OnSyncLoss(t)
  }

  function RunTask(radio: Radio, t: Test, task: Task): Test
  {
    match task
    case NextStateTask => NextState(radio, t)
    case ScanTask => Scan(radio, t)
    case DisconnectTask(h) => Issue(t, Disconnect(h))
  }

  // ---------------------------------------------------------------------------

  /** Each state sets the flags its role needs and names itself once. */
  lemma EnteredFlags(radio: Radio, t: Test)
    ensures var a := Advertise(radio, t);
      !a.isScanner && !a.isPeriodic && !a.isConnectingOrSyncing && a.entered == t.entered + ["advertise"]
    ensures var p := AdvertisePeriodic(radio, t);
      !p.isScanner && p.isPeriodic && !p.isConnectingOrSyncing && p.entered == t.entered + ["advertise_periodic"]
    ensures var s := Scan(radio, t);
      s.isScanner && !s.isPeriodic && !s.isConnectingOrSyncing && s.entered == t.entered + ["scan"]
  {
  }

  /** Once the periodic set exists a periodic run only starts it again. */
  lemma PeriodicSetReused(radio: Radio, t: Test)
    requires t.haveAdvHandle && radio.periodicSupported
    ensures var p := AdvertisePeriodic(radio, t);
      p.requests == t.requests + [StartAdvertising(t.advHandle)] && p.advHandle == t.advHandle && p.haveAdvHandle
  {
  }

  /** The first successful periodic run creates exactly one set and starts it. */
  lemma PeriodicSetCreated(radio: Radio, t: Test)
    requires !t.haveAdvHandle && radio.periodicSupported
    ensures var p := AdvertisePeriodic(radio, t);
      var n := |t.requests|;
      p.haveAdvHandle <==> radio.status(n) == 0 && radio.status(n + 1) == 0 && radio.status(n + 2) == 0
    ensures var p := AdvertisePeriodic(radio, t);
      var n := |t.requests|;
      p.haveAdvHandle ==>
        p.advHandle == radio.setHandle(n)
        && p.requests == t.requests + [CreateAdvertisingSet, SetAdvertisingParameters(p.advHandle),
                                       SetAdvertisingPayload(p.advHandle), StartAdvertising(p.advHandle)]
  {
    var n := |t.requests|;
    var t1 := EnterState(t, "advertise_periodic", false, true, false);
    assert |t1.requests| == n;
  }

  lemma NextStateKeepsSet(radio: Radio, t: Test)
    requires t.haveAdvHandle
    ensures var u := NextState(radio, t);
      u.haveAdvHandle && u.advHandle == t.advHandle
  {
  }

  /** The periodic set, once created, is kept for good: no event and no posted
      callback clears `_have_adv_handle` or changes `_adv_handle`. */
  lemma SetCreatedOnce(radio: Radio, t: Test, ev: GapEvent, task: Task)
    requires t.haveAdvHandle
    ensures var u := Deliver(radio, t, ev);
      u.haveAdvHandle && u.advHandle == t.advHandle
    ensures var u := RunTask(radio, t, task);
      u.haveAdvHandle && u.advHandle == t.advHandle
  {
    NextStateKeepsSet(radio, t);
  }

  /** A report leaves the program busy exactly when it was idle, usable, from a
      sender named DEVICE_NAME, and the request was accepted. */
  lemma ReportBusyIff(radio: Radio, t: Test, e: GapReport)
    ensures var u := OnAdvertisingReport(radio, t, e);
      (u.isConnectingOrSyncing && !t.isConnectingOrSyncing) <==>
        (!t.isConnectingOrSyncing && (!t.isPeriodic || e.periodicIntervalMs.Some?)
         && (exists i :: 0 <= i < |e.payload| && e.payload[i].fieldType == CompleteLocalName
                         && e.payload[i].value == DeviceName)
         && !Fails(radio, t))
    ensures var u := OnAdvertisingReport(radio, t, e);
      !t.isPeriodic ==> u.requests == t.requests || u.requests == t.requests + [Connect(e.peerAddressType, e.peerAddress)]
  {
    HasNameIff(e.payload, DeviceName);
  }

  /** `scan` clears the periodic flag, so while scanning a report can only lead
      to `connect`, never to `createSync`, and a connection entered from there
      stays non-periodic. */
  lemma ScanOnlyConnects(radio: Radio, t: Test, e: GapReport, c: GapConnection)
    ensures !Scan(radio, t).isPeriodic
    ensures var s := Scan(radio, t); var u := OnAdvertisingReport(radio, s, e);
      !u.isPeriodic
      && (u.requests == s.requests || u.requests == s.requests + [Connect(e.peerAddressType, e.peerAddress)])
    ensures var u := OnAdvertisingReport(radio, Scan(radio, t), e);
      c.status == 0 ==> !OnConnectionComplete(radio, u, c).isPeriodic
  {
  }

  /** `onDisconnectionComplete` does not clear the busy flag itself: the state
      chosen next clears it, and until a choice is typed the menu waits with
      the flag as it was and no stack call made. */
  lemma DisconnectionLeavesFlagToMenu(radio: Radio, t: Test)
    ensures var u := OnDisconnectionComplete(radio, t);
      ReadChoice(t.console).0.Some? ==> !u.isConnectingOrSyncing && |u.entered| > |t.entered|
    ensures var u := OnDisconnectionComplete(radio, t);
      ReadChoice(t.console).0.None? ==>
        u.isConnectingOrSyncing == t.isConnectingOrSyncing && u.requests == t.requests && |u.console| == 0
  {
  }

  lemma ConnectionOutcomes(radio: Radio, t: Test, c: GapConnection)
    ensures var u := OnConnectionComplete(radio, t, c);
      (c.status == 0 ==> u.isConnectingOrSyncing && u.isScanner == t.isScanner && u.isPeriodic == t.isPeriodic)
      && (c.status == 0 && t.isScanner ==>
            u.requests == t.requests + [CallIn(ConnectTimeMs, DisconnectTask(c.connectionHandle))]
            && u.entered == t.entered + ["connect_master"])
      && (c.status == 0 && !t.isScanner ==> u.requests == t.requests && u.entered == t.entered + ["connect_peripheral"])
      && (c.status != 0 ==> u == NextState(radio, t))
  {
  }
}

/** The original stand-alone program as an object updating its fields in place. */
module SourceMainClass {
  import opened Common
  import opened Hex
  import opened MbedGap
  import S = SourceMain

  class PowerConsumptionTest {
    const radio: Radio
    var isScanner: bool
    var isPeriodic: bool
    var isConnectingOrSyncing: bool
    var haveAdvHandle: bool
    var advHandle: nat
    var syncHandle: nat
    var console: string
    var requests: seq<GapRequest>
    var entered: seq<string>

    function Snapshot(): S.Test
      reads this
    {
      S.Test(isScanner, isPeriodic, isConnectingOrSyncing, haveAdvHandle, advHandle, syncHandle, console, requests, entered)
    }

    constructor (radio: Radio, console: string)
      ensures this.radio == radio
      ensures Snapshot() == S.Test(false, false, false, false, InvalidAdvertisingHandle, InvalidAdvertisingHandle,
                                   console, [], [])
    {
      this.radio := radio;
      isScanner := false;
      isPeriodic := false;
      isConnectingOrSyncing := false;
      haveAdvHandle := false;
      advHandle := InvalidAdvertisingHandle;
      syncHandle := InvalidAdvertisingHandle;
      this.console := console;
      requests := [];
      entered := [];
    }

    method Issue(r: GapRequest) returns (failed: bool)
      modifies this
      ensures failed == S.Fails(radio, old(Snapshot()))
      ensures Snapshot() == S.Issue(old(Snapshot()), r)
    {
      failed := radio.status(|requests|) != 0;
      requests := requests + [r];
    }

    method GetChar() returns (c: char)
      requires |console| > 0
      modifies this
      ensures c == old(console[0])
      ensures Snapshot() == old(Snapshot()).(console := old(console[1..]))
    {
      c := console[0];
      console := console[1..];
    }

    method EnterState(name: string, scanner: bool, periodic: bool, connectingOrSyncing: bool)
      modifies this
      ensures Snapshot() == S.EnterState(old(Snapshot()), name, scanner, periodic, connectingOrSyncing)
    {
      entered := entered + [name];
      isScanner := scanner;
      isPeriodic := periodic;
      isConnectingOrSyncing := connectingOrSyncing;
    }

    method Advertise()
      modifies this
      ensures Snapshot() == S.Advertise(radio, old(Snapshot()))
    {
      EnterState("advertise", false, false, false);
      var failed := Issue(SetAdvertisingPayload(LegacyAdvertisingHandle));
      if failed {
        return;
      }
      failed := Issue(StartAdvertising(LegacyAdvertisingHandle));
    }

    method AdvertisePeriodic()
      modifies this
      ensures Snapshot() == S.AdvertisePeriodic(radio, old(Snapshot()))
    {
      EnterState("advertise_periodic", false, true, false);
      if !radio.periodicSupported {
        return;
      }
      var failed;
      if !haveAdvHandle {
        var h := radio.setHandle(|requests|);
        failed := Issue(CreateAdvertisingSet);
        if failed {
          return;
        }
        advHandle := h;
        failed := Issue(SetAdvertisingParameters(advHandle));
        if failed {
          return;
        }
        failed := Issue(SetAdvertisingPayload(advHandle));
        if failed {
          return;
        }
        haveAdvHandle := true;
      }
      failed := Issue(StartAdvertising(advHandle));
    }

    method Scan()
      modifies this
      ensures Snapshot() == S.Scan(radio, old(Snapshot()))
    {
      EnterState("scan", true, false, false);
      var failed := Issue(SetScanParameters);
      if failed {
        return;
      }
      failed := Issue(StartScan);
    }

    /** `next_state`; `complete` is false while it still waits for a choice. */
    method NextState() returns (complete: bool)
      modifies this
      ensures Snapshot() == S.NextState(radio, old(Snapshot()))
      ensures complete == S.ReadChoice(old(console)).0.Some?
    {
      ghost var input := console;
      ghost var t0 := Snapshot();
      var choice: Option<char> := None;
      while choice.None? && |console| > 0
        invariant Snapshot() == t0.(console := console)
        invariant choice.None? ==> S.ReadChoice(console) == S.ReadChoice(input)
        invariant choice.Some? ==> S.ReadChoice(input) == (choice, console)
        decreases |console|
      {
        var c := GetChar();
        var lc := ToLower(c);
        if S.IsChoice(lc) {
          choice := Some(lc);
        }
      }
      complete := choice.Some?;
      if choice == Some('a') {
        Advertise();
      } else if choice == Some('s') {
        Scan();
      } else if choice == Some('p') {
        AdvertisePeriodic();
      }
    }

    /** The payload loop: the first field naming DEVICE_NAME decides, and the
        handler returns after acting on it. */
    method OnAdvertisingReport(e: GapReport)
      modifies this
      ensures Snapshot() == S.OnAdvertisingReport(radio, old(Snapshot()), e)
    {
      if isConnectingOrSyncing {
        return;
      }
      if isPeriodic && e.periodicIntervalMs.None? {
        return;
      }
      var i := 0;
      while i < |e.payload|
        invariant 0 <= i <= |e.payload|
        invariant HasName(e.payload, DeviceName) == HasName(e.payload[i..], DeviceName)
        invariant Snapshot() == old(Snapshot())
        decreases |e.payload| - i
      {
        var field := e.payload[i];
        assert e.payload[i..][1..] == e.payload[i + 1..];
        if field.fieldType == CompleteLocalName && field.value == DeviceName {
          var failed;
          if isPeriodic {
            failed := Issue(CreateSync(e.peerAddressType, e.peerAddress, e.sid, S.SyncMaxPacketSkip, S.SyncTimeoutMs));
          } else {
            failed := Issue(Connect(e.peerAddressType, e.peerAddress));
          }
          if failed {
            return;
          }
          isConnectingOrSyncing := true;
          return;
        }
        i := i + 1;
      }
    }

    method OnAdvertisingStart()
      modifies this
      ensures Snapshot() == S.OnAdvertisingStart(radio, old(Snapshot()))
    {
      if isPeriodic {
        var failed := Issue(SetPeriodicAdvertisingParameters(advHandle, S.PeriodicMinInterval, S.PeriodicMaxInterval));
        if failed {
          return;
        }
        failed := Issue(StartPeriodicAdvertising(advHandle));
      }
    }

    method OnAdvertisingEnd()
      modifies this
      ensures Snapshot() == S.OnTimeout(radio, old(Snapshot()))
    {
      if !isConnectingOrSyncing {
        var _ := NextState();
      }
    }

    method OnScanTimeout()
      modifies this
      ensures Snapshot() == S.OnTimeout(radio, old(Snapshot()))
    {
      if !isConnectingOrSyncing {
        var _ := NextState();
      }
    }

    method OnConnectionComplete(c: GapConnection)
      modifies this
      ensures Snapshot() == S.OnConnectionComplete(radio, old(Snapshot()), c)
    {
      if c.status == 0 {
        if isScanner {
          var _ := Issue(CallIn(S.ConnectTimeMs, DisconnectTask(c.connectionHandle)));
          EnterState("connect_master", true, isPeriodic, true);
        } else {
          EnterState("connect_peripheral", false, isPeriodic, true);
        }
      } else {
        var _ := NextState();
      }
    }

    method OnDisconnectionComplete()
      modifies this
      ensures Snapshot() == S.OnDisconnectionComplete(radio, old(Snapshot()))
    {
      var _ := NextState();
    }

    method OnSyncEstablished(s: GapSync)
      modifies this
      ensures Snapshot() == S.OnSyncEstablished(old(Snapshot()), s)
    {
      if s.status == 0 {
        syncHandle := s.syncHandle;
      }
    }

    method OnSyncLoss()
      modifies this
      ensures Snapshot() == S.OnSyncLoss(old(Snapshot()))
    {
      syncHandle := InvalidAdvertisingHandle;
      var _ := Issue(Call(ScanTask));
    }

    /** The disconnect lambda `onConnectionComplete` posts. */
    method DisconnectLink(h: nat)
      modifies this
      ensures Snapshot() == S.RunTask(radio, old(Snapshot()), DisconnectTask(h))
    {
      var _ := Issue(GapRequest.Disconnect(h));
    }
  }
}
