/** The role coordinator of the shared test program, as values: its fields, the
    console input it has not read yet, the calls it has made on its platform
    and the states it has reported, and one function per operation giving the
    state after it. The class in module CoordinatorClass runs the same
    operations in place; the lemmas here state what they do. */
module Coordinator {
  import opened Common
  import opened Hex
  import opened MacInput
  import opened BtTestState
  import opened BluetoothPlatform

  /** A callback the coordinator posts with `call` or `callIn`, with the context
      it carries: `callNextState`, `triggerDisconnect` and `triggerDesync`. */
  datatype Task = NextStateTask | TriggerDisconnectTask(handle: Handle) | TriggerDesyncTask(handle: Handle)

  /** A call the coordinator makes on its platform. The coordinator ignores the
      result codes, so none are modelled. */
  datatype Request =
    | StartAdvertising
    | StartPeriodicAdvertising
    | StartScan
    | StartScanForPeriodicAdvertising
    | EstablishConnection(peerAddressType: byte, peerAddress: seq<byte>)
    | SyncToPeriodicAdvertising(sid: byte, peerAddressType: byte, peerAddress: seq<byte>, syncTimeoutMs: uint32)
    | Disconnect(handle: Handle)
    | StopSync(handle: Handle)
    | Call(task: Task)
    | CallIn(millis: uint32, task: Task)

  /** The platform's `deviceName()` and the build constants CONFIG_CONNECT_TIME
      and CONFIG_USE_PER_ADV_SYNC. */
  datatype Config = Config(deviceName: string, connectTimeMs: uint32, usePerAdvSync: bool)

  /** The sync timeout the coordinator asks for, in milliseconds. */
  const SyncTimeoutMs: uint32 := 5000

  /** The coordinator: `_state`, `_is_periodic`, `_target_mac` (its twelve
      characters before the terminator) and `_target_mac_len`; then the console
      input not yet read, the platform calls made so far and the states
      `updateState` has reported, oldest first. */
  datatype Test = Test(state: State, isPeriodic: bool, targetMac: string, targetMacLen: nat,
                       console: string, requests: seq<Request>, reports: seq<State>)

  /** What every operation keeps: the target buffer holds twelve characters, and
      the target length is 0 (match by name) or 12 with twelve lowercase digits. */
  predicate Consistent(t: Test)
  {
    |t.targetMac| == MacDigits
    && (t.targetMacLen == 0 || (t.targetMacLen == MacDigits && IsLowerHexString(t.targetMac)))
  }

  /** One more platform call. */
  function Post(t: Test, r: Request): Test
  {
    t.(requests := t.requests + [r])
  }

  /** `updateState`: the state is always assigned, and reported when it changes. */
  function UpdateState(t: Test, s: State): Test
  {
    t.(state := s, reports := t.reports + (if s != t.state then [s] else []))
  }

  /** `updateState` sets the state, reports exactly when the state changes, and
      repeating it reports nothing more. */
  lemma UpdateStateReports(t: Test, s: State)
    ensures UpdateState(t, s).state == s
    ensures UpdateState(t, s).reports[..|t.reports|] == t.reports
    ensures |UpdateState(t, s).reports| == |t.reports| + (if s == t.state then 0 else 1)
    ensures UpdateState(UpdateState(t, s), s) == UpdateState(t, s)
  {
  }

  function Advertise(t: Test): Test
  {
    Post(t, if t.isPeriodic then StartPeriodicAdvertising else StartAdvertising)
  }

  function Scan(t: Test): Test
  {
    Post(t, if t.isPeriodic then StartScanForPeriodicAdvertising else StartScan)
  }

  /** `advertise` and `scan` make exactly one platform call, the periodic one iff
      the periodic flag is set, and change nothing else. */
  lemma AdvertiseScanRequest(t: Test)
    ensures Advertise(t).requests == t.requests + [Advertise(t).requests[|t.requests|]]
    ensures Advertise(t).requests[|t.requests|].StartPeriodicAdvertising? <==> t.isPeriodic
    ensures Advertise(t).requests[|t.requests|].StartAdvertising? <==> !t.isPeriodic
    ensures Scan(t).requests == t.requests + [Scan(t).requests[|t.requests|]]
    ensures Scan(t).requests[|t.requests|].StartScanForPeriodicAdvertising? <==> t.isPeriodic
    ensures Scan(t).requests[|t.requests|].StartScan? <==> !t.isPeriodic
    ensures Advertise(t).(requests := t.requests) == t && Scan(t).(requests := t.requests) == t
  {
  }

  /** `togglePeriodic`: flips the flag when periodic sync is built in, and in
      either build posts one `nextState`. */
  function TogglePeriodic(cfg: Config, t: Test): Test
  {
    Post(t.(isPeriodic := if cfg.usePerAdvSync then !t.isPeriodic else t.isPeriodic), Call(NextStateTask))
  }

  /** Toggling twice restores the flag; each toggle posts exactly one `nextState`. */
  lemma TogglePeriodicTwice(cfg: Config, t: Test)
    ensures TogglePeriodic(cfg, TogglePeriodic(cfg, t)).isPeriodic == t.isPeriodic
    ensures TogglePeriodic(cfg, TogglePeriodic(cfg, t)).requests
      == t.requests + [Call(NextStateTask), Call(NextStateTask)]
    ensures TogglePeriodic(cfg, t).isPeriodic != t.isPeriodic <==> cfg.usePerAdvSync
  {
  }

  /** `readTargetMac`: the plain twelve-digit reader runs on the console. Exactly
      twelve digits replace the target and set its length; anything shorter,
      the empty entry included, leaves both unchanged. A finished entry posts
      `nextState`; an entry the console never finishes posts nothing. */
  function ReadTargetMac(t: Test): Test
  {
    var r := ReadMac(t.console, []);
    var t1 := t.(console := r.rest);
    var t2 := if |r.stored| == MacDigits then t1.(targetMac := r.stored, targetMacLen := MacDigits) else t1;
    if r.complete then Post(t2, Call(NextStateTask)) else t2
  }

  /** What `readTargetMac` does, in terms of the characters it consumes: the
      target becomes their lowercase hex digits exactly when there are twelve
      of them, and `nextState` is posted exactly when the entry ends. */
  lemma ReadTargetMacEffect(t: Test)
    ensures var n := Consumed(t.console, []);
      var d := HexDigitsOf(t.console[..n]);
      var r := ReadTargetMac(t);
      0 <= n <= |t.console| && r.console == t.console[n..]
      && (|d| == MacDigits ==> r.targetMac == d && r.targetMacLen == MacDigits)
      && (|d| != MacDigits ==> r.targetMac == t.targetMac && r.targetMacLen == t.targetMacLen)
      && r.requests == t.requests + (if ReadMac(t.console, []).complete then [Call(NextStateTask)] else [])
      && r.state == t.state && r.isPeriodic == t.isPeriodic && r.reports == t.reports
  {
    ReadMacRest(t.console, []);
    ReadMacStored(t.console, []);
    assert [] + HexDigitsOf(t.console[..Consumed(t.console, [])]) == HexDigitsOf(t.console[..Consumed(t.console, [])]);
  }

  /** The prompt offers an empty entry to unset the target, but an entry that
      ends before any digit keeps the target and its length. */
  lemma EmptyEntryKeepsTarget(t: Test, rest: string)
    requires t.console == "\n" + rest
    ensures ReadTargetMac(t).targetMac == t.targetMac
    ensures ReadTargetMac(t).targetMacLen == t.targetMacLen
    ensures ReadTargetMac(t).requests == t.requests + [Call(NextStateTask)]
    ensures ReadTargetMac(t).console == rest
  {
    assert ToLower(t.console[0]) == '\n';
    assert t.console[1..] == rest;
  }

  /** No entry clears a target once one is set. */
  lemma ReadTargetMacNeverClears(t: Test)
    requires t.targetMacLen == MacDigits
    ensures ReadTargetMac(t).targetMacLen == MacDigits
  {
  }

  lemma ReadTargetMacConsistent(t: Test)
    requires Consistent(t)
    ensures Consistent(ReadTargetMac(t))
  {
    ReadMacLower(t.console, []);
  }

  /** The characters `nextState` dispatches on. */
  predicate IsCommand(c: char)
  {
    c == 'a' || c == 's' || c == 'p' || c == 'm'
  }

  /** The read loop of `nextState`: the first character that lower-cases to a
      command, and the input after it. Input that runs out before one leaves the
      loop waiting: no command, all input consumed. */
  function ReadCommand(input: string): (r: (Option<char>, string))
    ensures r.0.Some? ==> IsCommand(r.0.value) && |r.1| < |input|
    ensures r.0.None? ==> |r.1| == 0
    decreases |input|
  {
    if |input| == 0 then (None, [])
    else if IsCommand(ToLower(input[0])) then (Some(ToLower(input[0])), input[1..])
    else ReadCommand(input[1..])
  }

  /** The loop stops at the first command character and consumes exactly the
      input up to it. */
  lemma {:induction false} ReadCommandAt(input: string, i: nat)
    requires i < |input| && IsCommand(ToLower(input[i]))
    requires forall j :: 0 <= j < i ==> !IsCommand(ToLower(input[j]))
    ensures ReadCommand(input) == (Some(ToLower(input[i])), input[i + 1..])
    decreases i
  {
    if i > 0 {
      assert !IsCommand(ToLower(input[0]));
      assert forall j :: 0 <= j < i - 1 ==> input[1..][j] == input[j + 1];
      ReadCommandAt(input[1..], i - 1);
      assert input[1..][i - 1 + 1..] == input[i + 1..];
    }
  }

  /** Input without a command character leaves the loop waiting. */
  lemma {:induction false} ReadCommandNone(input: string)
    requires forall j :: 0 <= j < |input| ==> !IsCommand(ToLower(input[j]))
    ensures ReadCommand(input) == (None, [])
    decreases |input|
  {
    if |input| > 0 {
      assert forall j :: 0 <= j < |input| - 1 ==> input[1..][j] == input[j + 1];
      ReadCommandNone(input[1..]);
    }
  }

  /** Characters that are not commands are skipped and change nothing. */
  lemma {:induction false} ReadCommandSkips(junk: string, s: string)
    requires forall j :: 0 <= j < |junk| ==> !IsCommand(ToLower(junk[j]))
    ensures ReadCommand(junk + s) == ReadCommand(s)
    decreases |junk|
  {
    if |junk| > 0 {
      assert (junk + s)[0] == junk[0];
      assert (junk + s)[1..] == junk[1..] + s;
      assert forall j :: 0 <= j < |junk| - 1 ==> junk[1..][j] == junk[j + 1];
      ReadCommandSkips(junk[1..], s);
    } else {
      assert junk + s == s;
    }
  }

  /** The handler a command character selects. */
  function Dispatch(cfg: Config, c: char, t: Test): Test
  {
    if c == 'a' then Advertise(t)
    else if c == 's' then Scan(t)
    else if c == 'p' then TogglePeriodic(cfg, t)
    else ReadTargetMac(t)
  }

  /** `nextState`: enter START, read up to the first command character and run
      exactly one handler for it. */
  function NextState(cfg: Config, t: Test): Test
  {
    var t1 := UpdateState(t, Start);
    var r := ReadCommand(t1.console);
    if r.0.None? then t1.(console := r.1) else Dispatch(cfg, r.0.value, t1.(console := r.1))
  }

  /** Whether `nextState` returns: a command arrives, and for `m` the MAC entry
      ends as well. */
  predicate NextStateReturns(input: string)
  {
    var r := ReadCommand(input);
    r.0.Some? && (r.0.value == 'm' ==> ReadMac(r.1, []).complete)
  }

  /** Characters before the command change nothing: the result is the same as
      if they had not been typed. */
  lemma NextStateSkips(cfg: Config, t: Test, junk: string, s: string)
    requires forall j :: 0 <= j < |junk| ==> !IsCommand(ToLower(junk[j]))
    ensures NextState(cfg, t.(console := junk + s)) == NextState(cfg, t.(console := s))
    ensures NextStateReturns(junk + s) == NextStateReturns(s)
  {
    ReadCommandSkips(junk, s);
  }

  /** `nextState` ends in START having made at most one platform call: exactly
      one when it returns, none while it is still waiting for input. */
  lemma NextStateOneCall(cfg: Config, t: Test)
    ensures var r := NextState(cfg, t);
      r.state == Start
      && |r.requests| == |t.requests| + (if NextStateReturns(t.console) then 1 else 0)
      && r.requests[..|t.requests|] == t.requests
  {
    var c := ReadCommand(t.console);
    if c.0.Some? && c.0.value == 'm' {
      ReadTargetMacEffect(UpdateState(t, Start).(console := c.1));
    }
  }

  /** Only `p` changes the periodic flag, and only `m` the target. */
  lemma NextStateChanges(cfg: Config, t: Test)
    ensures var c := ReadCommand(t.console).0;
      var r := NextState(cfg, t);
      (r.isPeriodic != t.isPeriodic ==> c == Some('p'))
      && (r.targetMac != t.targetMac || r.targetMacLen != t.targetMacLen ==> c == Some('m'))
  {
  }

  /** The two ways a report can match: by address when a target is set, the
      first `_target_mac_len` characters of its 12-character rendering agreeing
      with the target's (`memcmp`); and by name when none is set, the report's
      name equal to the device's (`strcmp`). */
  predicate MacMatches(t: Test, a: MacAddress)
  {
    0 < t.targetMacLen <= MacDigits && t.targetMacLen <= |t.targetMac|
    && MacHex(a)[..t.targetMacLen] == t.targetMac[..t.targetMacLen]
  }

  predicate NameMatches(cfg: Config, t: Test, e: AdvertisingReportEvent)
  {
    t.targetMacLen == 0 && CStr(cfg.deviceName) == CStr(e.localName)
  }

  /** `onAdvertisingReport`; the code asserts a six-byte address. A matching peer
      gets one call: a sync when it advertises periodically, else a connection. */
  function OnAdvertisingReport(cfg: Config, t: Test, e: AdvertisingReportEvent): Test
    requires e.peerAddressSize == 6 && |e.peerAddress| == 6
  {
    if !(MacMatches(t, e.peerAddress) || NameMatches(cfg, t, e)) then t
    else if e.isPeriodic then Post(t, SyncToPeriodicAdvertising(e.sid, e.peerAddressType, e.peerAddress, SyncTimeoutMs))
    else Post(t, EstablishConnection(e.peerAddressType, e.peerAddress))
  }

  /** With a target set, a report matches exactly when the target parses back to
      the report's address. */
  lemma MacMatchesParsed(t: Test, a: MacAddress)
    requires Consistent(t) && t.targetMacLen == MacDigits
    ensures MacMatches(t, a) <==> ParseMacHex(t.targetMac) == Some(a)
  {
    MacHexShape(a);
    assert MacHex(a)[..12] == MacHex(a) && t.targetMac[..12] == t.targetMac;
    if MacMatches(t, a) {
      MacHexRoundTrip(a);
    }
    if ParseMacHex(t.targetMac) == Some(a) {
      ParseMacHexRoundTrip(t.targetMac);
    }
  }

  /** Entering twelve digits and then seeing a report: it matches by address
      exactly when the address renders as those digits, and a name never
      matches. */
  lemma EnteredMacMatches(cfg: Config, t: Test, e: AdvertisingReportEvent)
    requires e.peerAddressSize == 6 && |e.peerAddress| == 6
    requires |HexDigitsOf(t.console[..Consumed(t.console, [])])| == MacDigits
    ensures var t' := ReadTargetMac(t);
      (MacMatches(t', e.peerAddress) <==> MacHex(e.peerAddress) == HexDigitsOf(t.console[..Consumed(t.console, [])]))
      && !NameMatches(cfg, t', e)
  {
    ReadTargetMacEffect(t);
    var a: MacAddress := e.peerAddress;
    MacHexShape(a);
    var d := HexDigitsOf(t.console[..Consumed(t.console, [])]);
    assert MacHex(a)[..12] == MacHex(a) && d[..12] == d;
  }

  /** A report makes at most one call: none without a match, otherwise the sync
      (with SID, address and a 5000 ms timeout) iff the peer advertises
      periodically, else the connection. Nothing else changes. */
  lemma ReportCalls(cfg: Config, t: Test, e: AdvertisingReportEvent)
    requires e.peerAddressSize == 6 && |e.peerAddress| == 6
    ensures var r := OnAdvertisingReport(cfg, t, e);
      var m := MacMatches(t, e.peerAddress) || NameMatches(cfg, t, e);
      (!m ==> r == t)
      && (m && e.isPeriodic ==>
        r == Post(t, SyncToPeriodicAdvertising(e.sid, e.peerAddressType, e.peerAddress, 5000)))
      && (m && !e.isPeriodic ==> r == Post(t, EstablishConnection(e.peerAddressType, e.peerAddress)))
      && (t.targetMacLen > 0 ==> !NameMatches(cfg, t, e))
  {
  }

  /** `onInitComplete`, `onDisconnect` and `onSyncLoss` post `nextState`. */
  function PostNextState(t: Test): Test
  {
    Post(t, Call(NextStateTask))
  }

  function OnAdvertisingStart(t: Test, e: AdvertisingStartEvent): Test
  {
    UpdateState(t, State.Advertise)
  }

  function OnScanStart(t: Test, e: ScanStartEvent): Test
  {
    UpdateState(t, State.Scan)
  }

  /** `onAdvertisingTimeout` and `onScanTimeout`: START, and a posted `nextState`. */
  function OnTimeout(t: Test): Test
  {
    PostNextState(UpdateState(t, Start))
  }

  /** `onConnection`: an error changes nothing and schedules nothing (the program
      is not re-prompted); as main, CONNECT_MAIN and one `triggerDisconnect`
      after CONFIG_CONNECT_TIME; as peripheral, CONNECT_PERIPHERAL. */
  function OnConnection(cfg: Config, t: Test, e: ConnectEvent): Test
  {
    if e.error != 0 then t
    else if e.role == Main then
      Post(UpdateState(t, ConnectMain), CallIn(cfg.connectTimeMs, TriggerDisconnectTask(e.connectionHandle)))
    else UpdateState(t, ConnectPeripheral)
  }

  /** `onPeriodicSync`: one `triggerDesync` after CONFIG_CONNECT_TIME, with or
      without an error. */
  function OnPeriodicSync(cfg: Config, t: Test, e: PeriodicSyncEvent): Test
  {
    Post(t, CallIn(cfg.connectTimeMs, TriggerDesyncTask(e.syncHandle)))
  }

  /** `triggerDisconnect`: the disconnect, then `nextState` run directly. */
  function TriggerDisconnect(cfg: Config, t: Test, h: Handle): Test
  {
    NextState(cfg, Post(t, Disconnect(h)))
  }

  /** `triggerDesync`: the sync stop, then `nextState` run directly. */
  function TriggerDesync(cfg: Config, t: Test, h: Handle): Test
  {
    NextState(cfg, Post(t, StopSync(h)))
  }

  /** Running a posted callback. */
  function RunTask(cfg: Config, t: Test, task: Task): Test
  {
    match task
    case NextStateTask => NextState(cfg, t)
    case TriggerDisconnectTask(h) => TriggerDisconnect(cfg, t, h)
    case TriggerDesyncTask(h) => TriggerDesync(cfg, t, h)
  }

  /** A platform event delivered to the coordinator's handler. */
  function Deliver(cfg: Config, t: Test, call: HandlerCall): Test
    requires call.OnAdvertisingReport? ==>
      call.report.peerAddressSize == 6 && |call.report.peerAddress| == 6
  {
    match call
    case OnAdvertisingStart(e) => OnAdvertisingStart(t, e)
    case OnScanStart(e) => OnScanStart(t, e)
    case OnAdvertisingReport(e) => OnAdvertisingReport(cfg, t, e)
    case OnAdvertisingTimeout => OnTimeout(t)
    case OnScanTimeout => OnTimeout(t)
    case OnConnection(e) => OnConnection(cfg, t, e)
    case OnDisconnect => PostNextState(t)
    case OnPeriodicSync(e) => OnPeriodicSync(cfg, t, e)
    case OnSyncLoss => PostNextState(t)
  }

  /** What each connection outcome schedules. */
  lemma ConnectionOutcomes(cfg: Config, t: Test, e: ConnectEvent)
    ensures e.error != 0 ==> OnConnection(cfg, t, e) == t
    ensures e.error == 0 && e.role == Main ==>
      OnConnection(cfg, t, e).state == ConnectMain
      && OnConnection(cfg, t, e).requests
        == t.requests + [CallIn(cfg.connectTimeMs, TriggerDisconnectTask(e.connectionHandle))]
    ensures e.error == 0 && e.role == Peripheral ==>
      OnConnection(cfg, t, e).state == ConnectPeripheral && OnConnection(cfg, t, e).requests == t.requests
  {
  }

  /** A failed sync still schedules the desync of its (meaningless) handle. */
  lemma SyncErrorStillDesyncs(cfg: Config, t: Test, e: PeriodicSyncEvent)
    requires e.error != 0
    ensures OnPeriodicSync(cfg, t, e).requests == t.requests + [CallIn(cfg.connectTimeMs, TriggerDesyncTask(e.syncHandle))]
  {
  }

  /** A disconnect the coordinator triggers prompts twice: `triggerDisconnect`
      runs `nextState` itself, and the `onDisconnect` that follows posts another. */
  lemma DisconnectPromptsTwice(cfg: Config, t: Test, h: Handle)
    ensures var t1 := TriggerDisconnect(cfg, t, h);
      var t2 := Deliver(cfg, t1, OnDisconnect);
      t1.state == Start
      && t1.requests[..|t.requests| + 1] == t.requests + [Disconnect(h)]
      && t2.requests == t1.requests + [Call(NextStateTask)]
  {
    NextStateOneCall(cfg, Post(t, Disconnect(h)));
  }

  /** The coordinator's platform calls only ever grow. */
  lemma DeliverExtends(cfg: Config, t: Test, call: HandlerCall)
    requires call.OnAdvertisingReport? ==>
      call.report.peerAddressSize == 6 && |call.report.peerAddress| == 6
    ensures var r := Deliver(cfg, t, call);
      |t.requests| <= |r.requests| && r.requests[..|t.requests|] == t.requests
  {
  }

  lemma RunTaskExtends(cfg: Config, t: Test, task: Task)
    ensures var r := RunTask(cfg, t, task);
      |t.requests| <= |r.requests| && r.requests[..|t.requests|] == t.requests
  {
    match task
    case NextStateTask =>
      NextStateOneCall(cfg, t);
    case TriggerDisconnectTask(h) =>
      NextStateOneCall(cfg, Post(t, Disconnect(h)));
    case TriggerDesyncTask(h) =>
      NextStateOneCall(cfg, Post(t, StopSync(h)));
  }

  /** Every event and every task keeps the target consistent. */
  lemma NextStateConsistent(cfg: Config, t: Test)
    requires Consistent(t)
    ensures Consistent(NextState(cfg, t))
  {
    var r := ReadCommand(t.console);
    if r.0 == Some('m') {
      ReadTargetMacConsistent(UpdateState(t, Start).(console := r.1));
    }
  }

  lemma DeliverConsistent(cfg: Config, t: Test, call: HandlerCall)
    requires Consistent(t)
    requires call.OnAdvertisingReport? ==>
      call.report.peerAddressSize == 6 && |call.report.peerAddress| == 6
    ensures Consistent(Deliver(cfg, t, call))
  {
  }

  lemma RunTaskConsistent(cfg: Config, t: Test, task: Task)
    requires Consistent(t)
    ensures Consistent(RunTask(cfg, t, task))
  {
    match task
    case NextStateTask =>
      NextStateConsistent(cfg, t);
    case TriggerDisconnectTask(h) =>
      NextStateConsistent(cfg, Post(t, Disconnect(h)));
    case TriggerDesyncTask(h) =>
      NextStateConsistent(cfg, Post(t, StopSync(h)));
  }
}

/** The coordinator as an object whose methods update its fields in place,
    each proved to leave the state module Coordinator gives for it. */
module CoordinatorClass {
  import opened Common
  import opened Hex
  import opened MacInput
  import opened BtTestState
  import opened BluetoothPlatform
  import C = Coordinator

  class PowerConsumptionTest {
    const config: C.Config
    var state: State
    var isPeriodic: bool
    var targetMac: string
    var targetMacLen: nat
    /** The console input not yet read. */
    var console: string
    /** The calls made on the platform, oldest first. */
    var requests: seq<C.Request>
    /** The states `updateState` has reported, oldest first. */
    var reports: seq<State>

    function Snapshot(): C.Test
      reads this
    {
      C.Test(state, isPeriodic, targetMac, targetMacLen, console, requests, reports)
    }

    /** The constructor sets neither `_state` nor `_target_mac`; `junkState` and
        `junkMac` stand for what they hold. */
    constructor (config: C.Config, console: string, junkState: State, junkMac: string)
      requires |junkMac| == MacDigits
      ensures this.config == config
      ensures Snapshot() == C.Test(junkState, false, junkMac, 0, console, [], [])
      ensures C.Consistent(Snapshot())
    {
      this.config := config;
      state := junkState;
      isPeriodic := false;
      targetMac := junkMac;
      targetMacLen := 0;
      this.console := console;
      requests := [];
      reports := [];
    }

    /** The platform's `getchar`, on a console that has input. */
    method GetChar() returns (c: char)
      requires |console| > 0
      modifies this
      ensures c == old(console[0])
      ensures Snapshot() == old(Snapshot()).(console := old(console[1..]))
    {
      c := console[0];
      console := console[1..];
    }

    method UpdateState(s: State)
      modifies this
      ensures Snapshot() == C.UpdateState(old(Snapshot()), s)
    {
      if s != state {
        reports := reports + [s];
      }
      state := s;
    }

    method Advertise()
      modifies this
      ensures Snapshot() == C.Advertise(old(Snapshot()))
    {
      if isPeriodic {
        requests := requests + [C.StartPeriodicAdvertising];
      } else {
        requests := requests + [C.StartAdvertising];
      }
    }

    method Scan()
      modifies this
      ensures Snapshot() == C.Scan(old(Snapshot()))
    {
      if isPeriodic {
        requests := requests + [C.StartScanForPeriodicAdvertising];
      } else {
        requests := requests + [C.StartScan];
      }
    }

    method TogglePeriodic()
      modifies this
      ensures Snapshot() == C.TogglePeriodic(config, old(Snapshot()))
    {
      if config.usePerAdvSync {
        isPeriodic := !isPeriodic;
      }
      requests := requests + [C.Call(C.NextStateTask)];
    }

    /** `readTargetMac`: reads into a local buffer until a newline or the twelfth
        digit; `complete` is false when the console runs dry first. */
    method ReadTargetMac() returns (complete: bool)
      modifies this
      ensures Snapshot() == C.ReadTargetMac(old(Snapshot()))
      ensures complete == ReadMac(old(console), []).complete
    {
      ghost var input := console;
      ghost var t0 := Snapshot();
      var buffer: string := [];
      var stopped := false;
      while !stopped && |console| > 0
        invariant |buffer| <= MacDigits
        invariant !stopped ==> |buffer| < MacDigits && ReadMac(console, buffer) == ReadMac(input, [])
        invariant stopped ==> ReadMac(input, []) == MacRead(buffer, console, true)
        invariant Snapshot() == t0.(console := console)
        decreases |console|
      {
        ghost var before := console;
        var c := GetChar();
        c := ToLower(c);
        if c == '\n' {
          stopped := true;
        } else if IsXDigit(c) {
          buffer := buffer + [c];
        }
        if |buffer| == MacDigits {
          stopped := true;
        }
        assert before[1..] == console;
      }
      assert ReadMac(input, []) == MacRead(buffer, console, stopped);
      if |buffer| == MacDigits {
        targetMacLen := MacDigits;
        targetMac := buffer;
      }
      if stopped {
        requests := requests + [C.Call(C.NextStateTask)];
      }
      complete := stopped;
    }

    /** `nextState`: START, then read characters until a command arrives, and run
        its handler; `complete` is false when the console runs dry first. */
    method NextState() returns (complete: bool)
      modifies this
      ensures Snapshot() == C.NextState(config, old(Snapshot()))
      ensures complete == C.NextStateReturns(old(console))
    {
      UpdateState(Start);
      ghost var input := console;
      ghost var t1 := Snapshot();
      var cmd: Option<char> := None;
      while cmd.None? && |console| > 0
        invariant Snapshot() == t1.(console := console)
        invariant cmd.None? ==> C.ReadCommand(console) == C.ReadCommand(input)
        invariant cmd.Some? ==> C.ReadCommand(input) == (cmd, console)
        decreases |console|
      {
        var c := GetChar();
        if C.IsCommand(ToLower(c)) {
          cmd := Some(ToLower(c));
        }
      }
      if cmd.None? {
        complete := false;
      } else if cmd.value == 'a' {
        Advertise();
        complete := true;
      } else if cmd.value == 's' {
        Scan();
        complete := true;
      } else if cmd.value == 'p' {
        TogglePeriodic();
        complete := true;
      } else {
        complete := ReadTargetMac();
      }
    }

    method OnInitComplete()
      modifies this
      ensures Snapshot() == C.PostNextState(old(Snapshot()))
    {
      requests := requests + [C.Call(C.NextStateTask)];
    }

    method OnAdvertisingStart(e: AdvertisingStartEvent)
      modifies this
      ensures Snapshot() == C.OnAdvertisingStart(old(Snapshot()), e)
    {
      UpdateState(State.Advertise);
    }

    method OnScanStart(e: ScanStartEvent)
      modifies this
      ensures Snapshot() == C.OnScanStart(old(Snapshot()), e)
    {
      UpdateState(State.Scan);
    }

    method OnAdvertisingReport(e: AdvertisingReportEvent)
      requires e.peerAddressSize == 6 && |e.peerAddress| == 6
      modifies this
      ensures Snapshot() == C.OnAdvertisingReport(config, old(Snapshot()), e)
    {
      var mac := MacHex(e.peerAddress);
      var n := targetMacLen;
      if 0 < n <= MacDigits && n <= |targetMac| && mac[..n] == targetMac[..n] {
      } else if n == 0 && CStr(config.deviceName) == CStr(e.localName) {
      } else {
        return;
      }
      if e.isPeriodic {
        requests := requests + [C.SyncToPeriodicAdvertising(e.sid, e.peerAddressType, e.peerAddress, C.SyncTimeoutMs)];
      } else {
        requests := requests + [C.EstablishConnection(e.peerAddressType, e.peerAddress)];
      }
    }

    method OnAdvertisingTimeout()
      modifies this
      ensures Snapshot() == C.OnTimeout(old(Snapshot()))
    {
      UpdateState(Start);
      requests := requests + [C.Call(C.NextStateTask)];
    }

    method OnScanTimeout()
      modifies this
      ensures Snapshot() == C.OnTimeout(old(Snapshot()))
    {
      UpdateState(Start);
      requests := requests + [C.Call(C.NextStateTask)];
    }

    method TriggerDisconnect(h: Handle) returns (complete: bool)
      modifies this
      ensures Snapshot() == C.TriggerDisconnect(config, old(Snapshot()), h)
    {
      requests := requests + [C.Disconnect(h)];
      complete := NextState();
    }

    method TriggerDesync(h: Handle) returns (complete: bool)
      modifies this
      ensures Snapshot() == C.TriggerDesync(config, old(Snapshot()), h)
    {
      requests := requests + [C.StopSync(h)];
      complete := NextState();
    }

    method OnConnection(e: ConnectEvent)
      modifies this
      ensures Snapshot() == C.OnConnection(config, old(Snapshot()), e)
    {
      if e.error != 0 {
        return;
      }
      if e.role == Main {
        UpdateState(ConnectMain);
        requests := requests + [C.CallIn(config.connectTimeMs, C.TriggerDisconnectTask(e.connectionHandle))];
      } else {
        UpdateState(ConnectPeripheral);
      }
    }

    method OnDisconnect()
      modifies this
      ensures Snapshot() == C.PostNextState(old(Snapshot()))
    {
      requests := requests + [C.Call(C.NextStateTask)];
    }

    method OnPeriodicSync(e: PeriodicSyncEvent)
      modifies this
      ensures Snapshot() == C.OnPeriodicSync(config, old(Snapshot()), e)
    {
      requests := requests + [C.CallIn(config.connectTimeMs, C.TriggerDesyncTask(e.syncHandle))];
    }

    method OnSyncLoss()
      modifies this
      ensures Snapshot() == C.PostNextState(old(Snapshot()))
    {
      requests := requests + [C.Call(C.NextStateTask)];
    }
  }
}
