/** The stand-alone Mbed test program as values: its fields, the console input
    it has not read, the calls it has made into the BLE stack and the event
    queue, and the states it has reported; one function per handler gives the
    state after it. Module MbedMainClass runs the same handlers in place. */
module MbedMain {
  import opened Common
  import opened Hex
  import opened MacInput
  import opened BtTestState
  import opened MbedGap
  import Coordinator

  /** The radio's replies and the build constant MBED_CONF_APP_CONNECT_TIME. */
  datatype Env = Env(radio: Radio, connectTimeMs: nat)

  /** `PeriodicAdvertisingSync` needs its own timeout and packet skip. */
  const SyncTimeoutMs: nat := 5000
  const SyncMaxPacketSkip: nat := 2

  /** The periodic interval bounds `onAdvertisingStart` asks for, as the raw
      `periodic_interval_t` counts of 1.25 ms: 125 ms and 1250 ms. */
  const PeriodicMinInterval: nat := 100
  const PeriodicMaxInterval: nat := 1000

  /** The program's fields: `_state`, `_is_scanner`, `_is_connecting_or_syncing`,
      `_is_periodic`, `_have_adv_handle`, `_adv_handle`, `_sync_handle`, and
      `_target_mac` up to `_target_mac_len` (its length); then the console input
      not yet read, the calls made so far and the states reported, oldest first. */
  datatype Test = Test(state: State, isScanner: bool, isConnectingOrSyncing: bool, isPeriodic: bool,
                       haveAdvHandle: bool, advHandle: nat, syncHandle: nat, targetMac: string,
                       console: string, requests: seq<GapRequest>, reports: seq<State>)

  /** One more call into the stack or the event queue. */
  function Issue(t: Test, r: GapRequest): Test
  {
    t.(requests := t.requests + [r])
  }

  /** The next call the program makes fails. */
  predicate Fails(env: Env, t: Test)
  {
    env.radio.status(|t.requests|) != 0
  }

  /** `update_state`: reports a change, assigns the state and derives both flags from it. */
  function UpdateState(t: Test, s: State): Test
  {
    t.(state := s,
       isScanner := s == State.Scan || s == ConnectMain,
       isConnectingOrSyncing := s == ConnectPeripheral || s == ConnectMain,
       reports := t.reports + (if s != t.state then [s] else []))
  }

  /** Set the payload of the current set, then start it; stop at the first failure. */
  function StartCurrentSet(env: Env, t: Test): Test
  {
    var t1 := Issue(t, SetAdvertisingPayload(t.advHandle));
    if Fails(env, t) then t1 else Issue(t1, StartAdvertising(t.advHandle))
  }

  /** `advertise`: legacy advertising on the legacy handle; periodic advertising
      only when the controller supports it, creating and configuring the set
      the first time only. */
  function Advertise(env: Env, t: Test): Test
  {
    var t1 := UpdateState(t, State.Advertise);
    if !t1.isPeriodic then StartCurrentSet(env, t1.(advHandle := LegacyAdvertisingHandle))
    else if !env.radio.periodicSupported then t1
    else if t1.haveAdvHandle then StartCurrentSet(env, t1)
    else if Fails(env, t1) then Issue(t1, CreateAdvertisingSet)
    else
      var t2 := Issue(t1, CreateAdvertisingSet).(advHandle := env.radio.setHandle(|t1.requests|));
      var t3 := Issue(t2, SetAdvertisingParameters(t2.advHandle));
      if Fails(env, t2) then t3 else StartCurrentSet(env, t3.(haveAdvHandle := true))
  }

  /** `scan`: set the parameters, then start; stop at the first failure. */
  function Scan(env: Env, t: Test): Test
  {
    var t1 := Issue(UpdateState(t, State.Scan), SetScanParameters);
    if Fails(env, UpdateState(t, State.Scan)) then t1 else Issue(t1, StartScan)
  }

  function TogglePeriodic(t: Test): Test
  {
    Issue(t.(isPeriodic := !t.isPeriodic), Call(NextStateTask))
  }

  /** `read_target_mac`: clears the target, then stores digits and separators
      as typed; the prompt is posted again once the reader stops. */
  function ReadTargetMac(t: Test): Test
  {
    var r := ReadMacColon(t.console, [], 0);
    var t1 := t.(targetMac := r.stored, console := r.rest);
    if r.complete then Issue(t1, Call(NextStateTask)) else t1
  }

  /** One command, read by the same loop as the coordinator's except that a
      newline is one more invalid choice. */
  function Dispatch(env: Env, c: char, t: Test): Test
  {
    if c == 'a' then Advertise(env, t)
    else if c == 's' then Scan(env, t)
    else if c == 'p' then TogglePeriodic(t)
    else ReadTargetMac(t)
  }

  /** `next_state`: no state change of its own; waits for a command and runs it. */
  function NextState(env: Env, t: Test): Test
  {
    var r := Coordinator.ReadCommand(t.console);
    if r.0.None? then t.(console := r.1) else Dispatch(env, r.0.value, t.(console := r.1))
  }

  /** `next_state` returns: a command arrived, and a target entry was finished. */
  predicate NextStateReturns(input: string)
  {
    var r := Coordinator.ReadCommand(input);
    r.0.Some? && (r.0.value == 'm' ==> ReadMacColon(r.1, [], 0).complete)
  }

  /** `peer_is_match`: by name while no target is set, otherwise by the colon
      form of the sender's address. */
  predicate PeerIsMatch(t: Test, e: GapReport)
  {
    if |t.targetMac| == 0 then HasName(e.payload, DeviceName) else t.targetMac == MacHexColon(e.peerAddress)
  }

  /** `onAdvertisingReport`: while not busy, a matching sender is synced to
      (periodic) or connected to; the program is busy only once that request
      was accepted. */
  function OnAdvertisingReport(env: Env, t: Test, e: GapReport): Test
  {
    if t.isConnectingOrSyncing then t
    else if t.isPeriodic && e.periodicIntervalMs.None? then t
    else if !PeerIsMatch(t, e) then t
    else
      var req := if t.isPeriodic then CreateSync(e.peerAddressType, e.peerAddress, e.sid, SyncMaxPacketSkip, SyncTimeoutMs)
                 else Connect(e.peerAddressType, e.peerAddress);
      if Fails(env, t) then Issue(t, req) else Issue(t, req).(isConnectingOrSyncing := true)
  }

  /** `onAdvertisingStart`: periodic advertising is configured and started on the current set. */
  function OnAdvertisingStart(env: Env, t: Test): Test
  {
    if !t.isPeriodic then t
    else
      var t1 := Issue(t, SetPeriodicAdvertisingParameters(t.advHandle, PeriodicMinInterval, PeriodicMaxInterval));
      if Fails(env, t) then t1 else Issue(t1, StartPeriodicAdvertising(t.advHandle))
  }

  /** `onAdvertisingEnd` and `onScanTimeout`: prompt again unless busy. */
  function OnTimeout(env: Env, t: Test): Test
  {
    if t.isConnectingOrSyncing then t else NextState(env, t)
  }

  function OnConnectionComplete(env: Env, t: Test, c: GapConnection): Test
  {
    if c.status != 0 then NextState(env, t)
    else if t.isScanner then UpdateState(Issue(t, CallIn(env.connectTimeMs, DisconnectTask(c.connectionHandle))), ConnectMain)
    else UpdateState(t, ConnectPeripheral)
  }

  function OnDisconnectionComplete(env: Env, t: Test): Test
  {
    NextState(env, t.(isConnectingOrSyncing := false))
  }

  function OnSyncEstablished(t: Test, s: GapSync): Test
  {
    if s.status != 0 then t else t.(syncHandle := s.syncHandle)
  }

  /** A lost sync resumes scanning. */
  function OnSyncLoss(t: Test): Test
  {
    Issue(t.(syncHandle := InvalidAdvertisingHandle), Call(ScanTask))
  }

  function Deliver(env: Env, t: Test, ev: GapEvent): Test
  {
    match ev
    case AdvertisingStart => OnAdvertisingStart(env, t)
    case AdvertisingEnd => OnTimeout(env, t)
    case AdvertisingReport(e) => OnAdvertisingReport(env, t, e)
    case ScanTimeout => OnTimeout(env, t)
    case ConnectionComplete(c) => OnConnectionComplete(env, t, c)
    case DisconnectionComplete => OnDisconnectionComplete(env, t)
    case SyncEstablished(s) => OnSyncEstablished(t, s)
    case SyncLoss => OnSyncLoss(t)
  }

  /** A posted callback running on the event queue. */
  function RunTask(env: Env, t: Test, task: Task): Test
  {
    match task
    case NextStateTask => NextState(env, t)
    case ScanTask => Scan(env, t)
    case DisconnectTask(h) => Issue(t, Disconnect(h))
  }

  // ---------------------------------------------------------------------------
  // The target entry.

  /** What every handler keeps: the target is the colon grouping of at most
      twelve lowercase hex digits. */
  predicate TargetShape(t: Test)
  {
    var d := RemoveColons(t.targetMac);
    |d| <= MacDigits && IsLowerHexString(d) && t.targetMac == Grouped(d)
  }

  /** The entry stores the grouping of exactly what the plain reader keeps, and
      consumes and stops as it does. */
  lemma ReadTargetMacGrouped(t: Test)
    ensures var r := ReadMac(t.console, []);
      var u := ReadTargetMac(t);
      u.targetMac == Grouped(r.stored) && u.console == r.rest
      && u.requests == t.requests + (if r.complete then [Call(NextStateTask)] else [])
  {
    ReadMacColonGrouped(t.console, []);
    assert Grouped([]) == [];
  }

  /** An entry is empty exactly when no digit was typed and full (seventeen
      characters) exactly when twelve were; anything else is the invalid case. */
  lemma ReadTargetMacForms(t: Test)
    ensures var d := ReadMac(t.console, []).stored;
      var n := |ReadTargetMac(t).targetMac|;
      (n == 0 <==> |d| == 0) && (n == MacColonLength <==> |d| == MacDigits)
      && n <= MacColonLength
  {
    ReadTargetMacGrouped(t);
    GroupedNLength(ReadMac(t.console, []).stored, 5);
  }

  lemma ReadTargetMacShape(t: Test)
    ensures TargetShape(ReadTargetMac(t))
  {
    var d := ReadMac(t.console, []).stored;
    ReadTargetMacGrouped(t);
    ReadMacLower(t.console, []);
    forall i | 0 <= i < |d| ensures d[i] != ':' {
      assert IsLowerHex(d[i]);
    }
    GroupedUngroup(d, 5);
  }

  /** With a target set, a sender matches exactly when its address renders as
      the digits typed. */
  lemma MatchByMacIff(t: Test, e: GapReport)
    requires TargetShape(t) && |t.targetMac| > 0
    ensures PeerIsMatch(t, e) <==> RemoveColons(t.targetMac) == MacHex(e.peerAddress)
  {
    GroupedMatchesColon(RemoveColons(t.targetMac), e.peerAddress);
  }

  /** After twelve digits only the sender with that address matches; after
      some digits short of twelve nobody matches, neither by address nor by
      name; after none, matching is by name. */
  lemma EntryDecidesMatch(t: Test, e: GapReport)
    ensures var d := ReadMac(t.console, []).stored;
      var u := ReadTargetMac(t);
      (|d| == MacDigits ==> (PeerIsMatch(u, e) <==> d == MacHex(e.peerAddress)))
      && (0 < |d| < MacDigits ==> !PeerIsMatch(u, e))
      && (|d| == 0 ==> (PeerIsMatch(u, e) <==> HasName(e.payload, DeviceName)))
  {
    var d := ReadMac(t.console, []).stored;
    var u := ReadTargetMac(t);
    ReadTargetMacForms(t);
    ReadTargetMacGrouped(t);
    ReadMacLower(t.console, []);
    GroupedMatchesColon(d, e.peerAddress);
    if 0 < |d| < MacDigits {
      MacHexShape(e.peerAddress);
      MacHexColonGrouped(e.peerAddress);
      GroupedNLength(MacHex(e.peerAddress), 5);
      assert |MacHexColon(e.peerAddress)| == MacColonLength;
    }
  }

  // ---------------------------------------------------------------------------
  // Handlers.

  /** Advertising and scanning clear the busy flag; only scanning or the main
      role marks the program as scanner. */
  lemma StartsAreIdle(env: Env, t: Test)
    ensures var a := Advertise(env, t);
      a.state == State.Advertise && !a.isScanner && !a.isConnectingOrSyncing
    ensures var s := Scan(env, t);
      s.state == State.Scan && s.isScanner && !s.isConnectingOrSyncing
  {
  }

  /** The trace of one `advertise`: the calls it makes and where it stops. */
  lemma AdvertiseCalls(env: Env, t: Test)
    ensures var a := Advertise(env, t);
      var n := |t.requests|;
      |a.requests| <= n + 4 && a.requests[..n] == t.requests
      && (!t.isPeriodic ==> a.advHandle == LegacyAdvertisingHandle && a.haveAdvHandle == t.haveAdvHandle
                            && a.requests[n] == SetAdvertisingPayload(LegacyAdvertisingHandle))
      && (t.isPeriodic && !env.radio.periodicSupported ==> a.requests == t.requests)
      && (t.isPeriodic && env.radio.periodicSupported && !t.haveAdvHandle ==> a.requests[n] == CreateAdvertisingSet)
      && (a.haveAdvHandle && !t.haveAdvHandle ==> a.advHandle == env.radio.setHandle(n))
  {
  }

  /** A legacy run after the periodic set exists overwrites the set's handle but
      keeps `_have_adv_handle`, so the next periodic run skips creating a set
      and sets the payload of the legacy handle. */
  lemma PeriodicAfterLegacyUsesLegacyHandle(env: Env, t: Test)
    requires t.haveAdvHandle && !t.isPeriodic && env.radio.periodicSupported
    ensures var u := TogglePeriodic(Advertise(env, t));
      var a := Advertise(env, u);
      u.isPeriodic && a.requests[|u.requests|] == SetAdvertisingPayload(LegacyAdvertisingHandle)
  {
  }

  /** A report leaves the program busy exactly when it was idle, the report
      may be used, the sender matches and the connect or sync request was
      accepted; every report makes at most that one request. */
  lemma ReportBusyIff(env: Env, t: Test, e: GapReport)
    ensures var u := OnAdvertisingReport(env, t, e);
      (u.isConnectingOrSyncing && !t.isConnectingOrSyncing) <==>
        (!t.isConnectingOrSyncing && (!t.isPeriodic || e.periodicIntervalMs.Some?) && PeerIsMatch(t, e)
         && !Fails(env, t))
    ensures var u := OnAdvertisingReport(env, t, e);
      |u.requests| <= |t.requests| + 1 && u.requests[..|t.requests|] == t.requests
      && (|u.requests| > |t.requests| ==>
            u.requests[|t.requests|] == (if t.isPeriodic then CreateSync(e.peerAddressType, e.peerAddress, e.sid, 2, 5000)
                                         else Connect(e.peerAddressType, e.peerAddress)))
  {
  }

  /** A successful connection as scanner schedules its own disconnect and enters
      the main role; as advertiser it enters the peripheral role; a failed one
      prompts again. */
  lemma ConnectionOutcomes(env: Env, t: Test, c: GapConnection)
    ensures var u := OnConnectionComplete(env, t, c);
      (c.status == 0 && t.isScanner ==>
         u.state == ConnectMain && u.isConnectingOrSyncing
         && u.requests == t.requests + [CallIn(env.connectTimeMs, DisconnectTask(c.connectionHandle))])
      && (c.status == 0 && !t.isScanner ==> u.state == ConnectPeripheral && u.isConnectingOrSyncing && u.requests == t.requests)
      && (c.status != 0 ==> u == NextState(env, t))
  {
  }

  /** The commands reach the same place as in the coordinator, with a newline
      read as just another invalid character. */
  lemma NextStateSkips(env: Env, t: Test, junk: string)
    requires forall j :: 0 <= j < |junk| ==> !Coordinator.IsCommand(ToLower(junk[j]))
    ensures NextState(env, t.(console := junk + t.console)) == NextState(env, t)
  {
    Coordinator.ReadCommandSkips(junk, t.console);
  }

  lemma IssueShape(t: Test, r: GapRequest)
    requires TargetShape(t)
    ensures TargetShape(Issue(t, r))
  {
  }

  lemma NextStateShape(env: Env, t: Test)
    requires TargetShape(t)
    ensures TargetShape(NextState(env, t))
  {
    var r := Coordinator.ReadCommand(t.console);
    if r.0.Some? && r.0.value == 'm' {
      ReadTargetMacShape(t.(console := r.1));
    }
  }

  /** Every event and every posted callback keeps the target's shape. */
  lemma DeliverShape(env: Env, t: Test, ev: GapEvent)
    requires TargetShape(t)
    ensures TargetShape(Deliver(env, t, ev))
  {
    match ev
    case AdvertisingEnd => NextStateShape(env, t);
    case ScanTimeout => NextStateShape(env, t);
    case ConnectionComplete(c) => NextStateShape(env, t);
    case DisconnectionComplete => NextStateShape(env, t.(isConnectingOrSyncing := false));
    case _ =>
  }

  lemma RunTaskShape(env: Env, t: Test, task: Task)
    requires TargetShape(t)
    ensures TargetShape(RunTask(env, t, task))
  {
    if task.NextStateTask? {
      NextStateShape(env, t);
    }
  }
}

/** The stand-alone Mbed program as an object updating its fields in place,
    each handler proved to leave the state module MbedMain gives for it. */
module MbedMainClass {
  import opened Common
  import opened Hex
  import opened MacInput
  import opened BtTestState
  import opened MbedGap
  import Coordinator
  import M = MbedMain

  /** One character of `read_target_mac`'s loop: a hex digit is kept (lower
      case) and a pair is followed by a colon, a newline or a full address
      ends the read. `rest` is the input after `c`. */
  method ReadMacChar(c: char, target: string, pending: nat, ghost rest: string)
    returns (t: string, p: nat, stop: bool)
    requires |target| < MacColonLength
    ensures |t| <= MacColonLength
    ensures stop ==> ReadMacColon([c] + rest, target, pending) == MacRead(t, rest, true)
    ensures !stop ==> |t| < MacColonLength && ReadMacColon([c] + rest, target, pending) == ReadMacColon(rest, t, p)
  {
    assert ([c] + rest)[0] == c && ([c] + rest)[1..] == rest;
    var l := ToLower(c);
    t, p, stop := target, pending, false;
    if l == '\n' {
      stop := true;
      return;
    }
    if IsXDigit(l) {
      t := t + [l];
      p := p + 1;
    }
    if p == 2 && |t| < MacColonLength {
      t := t + [':'];
      p := 0;
    }
    if |t| >= MacColonLength {
      stop := true;
    }
  }

  class PowerConsumptionTest {
    const env: M.Env
    var state: State
    var isScanner: bool
    var isConnectingOrSyncing: bool
    var isPeriodic: bool
    var haveAdvHandle: bool
    var advHandle: nat
    var syncHandle: nat
    var targetMac: string
    var console: string
    var requests: seq<GapRequest>
    var reports: seq<State>

    function Snapshot(): M.Test
      reads this
    {
      M.Test(state, isScanner, isConnectingOrSyncing, isPeriodic, haveAdvHandle, advHandle, syncHandle,
             targetMac, console, requests, reports)
    }

    /** `_state` starts uninitialised: `junkState`. The target buffer's initial
        contents are never read while its length is 0. */
    constructor (env: M.Env, console: string, junkState: State)
      ensures this.env == env
      ensures Snapshot() == M.Test(junkState, false, false, false, false, InvalidAdvertisingHandle,
                                   InvalidAdvertisingHandle, [], console, [], [])
    {
      this.env := env;
      state := junkState;
      isScanner := false;
      isConnectingOrSyncing := false;
      isPeriodic := false;
      haveAdvHandle := false;
      advHandle := InvalidAdvertisingHandle;
      syncHandle := InvalidAdvertisingHandle;
      targetMac := [];
      this.console := console;
      requests := [];
      reports := [];
    }

    /** One call into the stack or the event queue, and whether it failed. */
    method Issue(r: GapRequest) returns (failed: bool)
      modifies this
      ensures failed == M.Fails(env, old(Snapshot()))
      ensures Snapshot() == M.Issue(old(Snapshot()), r)
    {
      failed := env.radio.status(|requests|) != 0;
      requests := requests + [r];
    }

    method GetChar() returns (c: char)
      requires |console| > 0
      modifies this
      ensures c == old(console[0])
      ensures Snapshot() == old(Snapshot()).(console := old(console[1..]))
    {
      c := console[0];
      console := console[1..];
    }

    method UpdateState(s: State)
      modifies this
      ensures Snapshot() == M.UpdateState(old(Snapshot()), s)
    {
      if s != state {
        reports := reports + [s];
      }
      state := s;
      isScanner := s == State.Scan || s == ConnectMain;
      isConnectingOrSyncing := s == ConnectPeripheral || s == ConnectMain;
    }

    method StartCurrentSet()
      modifies this
      ensures Snapshot() == M.StartCurrentSet(env, old(Snapshot()))
    {
      var failed := Issue(SetAdvertisingPayload(advHandle));
      if failed {
        return;
      }
      failed := Issue(StartAdvertising(advHandle));
    }

    method Advertise()
      modifies this
      ensures Snapshot() == M.Advertise(env, old(Snapshot()))
    {
      UpdateState(State.Advertise);
      if isPeriodic {
        if !env.radio.periodicSupported {
          return;
        }
        if !haveAdvHandle {
          var h := env.radio.setHandle(|requests|);
          var failed := Issue(CreateAdvertisingSet);
          if failed {
            return;
          }
          advHandle := h;
          failed := Issue(SetAdvertisingParameters(advHandle));
          if failed {
            return;
          }
          haveAdvHandle := true;
        }
      } else {
        advHandle := LegacyAdvertisingHandle;
      }
      StartCurrentSet();
    }

    method Scan()
      modifies this
      ensures Snapshot() == M.Scan(env, old(Snapshot()))
    {
      UpdateState(State.Scan);
      var failed := Issue(SetScanParameters);
      if failed {
        return;
      }
      failed := Issue(StartScan);
    }

    method TogglePeriodic()
      modifies this
      ensures Snapshot() == M.TogglePeriodic(old(Snapshot()))
    {
      isPeriodic := !isPeriodic;
      var _ := Issue(Call(NextStateTask));
    }

    /** The console loop of `read_target_mac`: the characters it takes, the
        target it builds and whether it ended with a newline or a full address. */
    method ReadMacLoop() returns (target: string, stopped: bool)
      modifies this
      ensures MacRead(target, console, stopped) == ReadMacColon(old(console), [], 0)
      ensures Snapshot() == old(Snapshot()).(console := console)
    {
      ghost var input := console;
      ghost var t0 := Snapshot();
      target := [];
      var xdigits: nat := 0;
      stopped := false;
      while !stopped && |console| > 0
        invariant |target| <= MacColonLength
        invariant !stopped ==>
          |target| < MacColonLength && ReadMacColon(console, target, xdigits) == ReadMacColon(input, [], 0)
        invariant stopped ==> ReadMacColon(input, [], 0) == MacRead(target, console, true)
        invariant Snapshot() == t0.(console := console)
        decreases |console|
      {
        ghost var before := console;
        var c := GetChar();
        assert before == [c] + console;
        target, xdigits, stopped := ReadMacChar(c, target, xdigits, console);
      }
    }

    /** `read_target_mac`: the loop above, then the target replaced by what it
        stored and the prompt posted again once it stopped. */
    method ReadTargetMac() returns (complete: bool)
      modifies this
      ensures Snapshot() == M.ReadTargetMac(old(Snapshot()))
      ensures complete == ReadMacColon(old(console), [], 0).complete
    {
      var target, stopped := ReadMacLoop();
      targetMac := target;
      if stopped {
        var _ := Issue(Call(NextStateTask));
      }
      complete := stopped;
    }

    method NextState() returns (complete: bool)
      modifies this
      ensures Snapshot() == M.NextState(env, old(Snapshot()))
      ensures complete == M.NextStateReturns(old(console))
    {
      ghost var input := console;
      ghost var t0 := Snapshot();
      var cmd: Option<char> := None;
      while cmd.None? && |console| > 0
        invariant Snapshot() == t0.(console := console)
        invariant cmd.None? ==> Coordinator.ReadCommand(console) == Coordinator.ReadCommand(input)
        invariant cmd.Some? ==> Coordinator.ReadCommand(input) == (cmd, console)
        decreases |console|
      {
        var c := GetChar();
        var lc := ToLower(c);
        if Coordinator.IsCommand(lc) {
          cmd := Some(lc);
        }
      }
      if cmd.None? {
        complete := false;
      } else if cmd.value == 'a' {
        Advertise();
        complete := true;
      } else if cmd.value == 's' {
        Scan();
        complete := true;
      } else if cmd.value == 'p' {
        TogglePeriodic();
        complete := true;
      } else {
        complete := ReadTargetMac();
      }
    }

    /** `peer_is_match`: the name loop over the payload fields, or the address compare. */
    method PeerIsMatch(e: GapReport) returns (m: bool)
      ensures m == M.PeerIsMatch(Snapshot(), e)
    {
      if |targetMac| == 0 {
        var i := 0;
        m := false;
        while i < |e.payload| && !m
          invariant 0 <= i <= |e.payload|
          invariant HasName(e.payload, DeviceName) == (m || HasName(e.payload[i..], DeviceName))
          decreases |e.payload| - i
        {
          var field := e.payload[i];
          assert e.payload[i..][1..] == e.payload[i + 1..];
          if field.fieldType == CompleteLocalName && field.value == DeviceName {
            m := true;
          }
          i := i + 1;
        }
      } else {
        var peerMac := MacHexColon(e.peerAddress);
        m := targetMac == peerMac;
      }
    }

    method OnAdvertisingReport(e: GapReport)
      modifies this
      ensures Snapshot() == M.OnAdvertisingReport(env, old(Snapshot()), e)
    {
      if isConnectingOrSyncing {
        return;
      }
      if isPeriodic && e.periodicIntervalMs.None? {
        return;
      }
      var matched := PeerIsMatch(e);
      if matched {
        var failed;
        if isPeriodic {
          failed := Issue(CreateSync(e.peerAddressType, e.peerAddress, e.sid, M.SyncMaxPacketSkip, M.SyncTimeoutMs));
        } else {
          failed := Issue(Connect(e.peerAddressType, e.peerAddress));
        }
        if failed {
          return;
        }
        isConnectingOrSyncing := true;
      }
    }

    method OnAdvertisingStart()
      modifies this
      ensures Snapshot() == M.OnAdvertisingStart(env, old(Snapshot()))
    {
      if isPeriodic {
        var failed := Issue(SetPeriodicAdvertisingParameters(advHandle, M.PeriodicMinInterval, M.PeriodicMaxInterval));
        if failed {
          return;
        }
        failed := Issue(StartPeriodicAdvertising(advHandle));
      }
    }

    method OnAdvertisingEnd()
      modifies this
      ensures Snapshot() == M.OnTimeout(env, old(Snapshot()))
    {
      if !isConnectingOrSyncing {
        var _ := NextState();
      }
    }

    method OnScanTimeout()
      modifies this
      ensures Snapshot() == M.OnTimeout(env, old(Snapshot()))
    {
      if !isConnectingOrSyncing {
        var _ := NextState();
      }
    }

    method OnConnectionComplete(c: GapConnection)
      modifies this
      ensures Snapshot() == M.OnConnectionComplete(env, old(Snapshot()), c)
    {
      if c.status == 0 {
        if isScanner {
          var _ := Issue(CallIn(env.connectTimeMs, DisconnectTask(c.connectionHandle)));
          UpdateState(ConnectMain);
        } else {
          UpdateState(ConnectPeripheral);
        }
      } else {
        var _ := NextState();
      }
    }

    method OnDisconnectionComplete()
      modifies this
      ensures Snapshot() == M.OnDisconnectionComplete(env, old(Snapshot()))
    {
      isConnectingOrSyncing := false;
      var _ := NextState();
    }

    method OnSyncEstablished(s: GapSync)
      modifies this
      ensures Snapshot() == M.OnSyncEstablished(old(Snapshot()), s)
    {
      if s.status == 0 {
        syncHandle := s.syncHandle;
      }
    }

    method OnSyncLoss()
      modifies this
      ensures Snapshot() == M.OnSyncLoss(old(Snapshot()))
    {
      syncHandle := InvalidAdvertisingHandle;
      var _ := Issue(Call(ScanTask));
    }

    /** The disconnect lambda `onConnectionComplete` posts. */
    method DisconnectLink(h: nat)
      modifies this
      ensures Snapshot() == M.RunTask(env, old(Snapshot()), DisconnectTask(h))
    {
      var _ := Issue(GapRequest.Disconnect(h));
    }
  }
}
