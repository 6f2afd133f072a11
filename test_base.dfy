/** The base class of an older version of the coordinator: the console
    commands, the MAC entry, the state update that also derives the scanner
    and connecting flags, and the address matcher. Advertising, scanning and
    posting a callback are left to a subclass; the model records each call of
    those hooks. */
module TestBase {
  import opened Common
  import opened Hex
  import opened MacInput
  import opened BtTestState
  import Coordinator

  /** The subclass hooks the base class calls: `advertise()`, `scan()` and
      `call(fn)` with `fn` running `next_state()`. */
  datatype Hook = AdvertiseHook | ScanHook | CallNextState

  /** The base class's fields, then the console input not yet read, the hook
      calls so far and the states `update_state` has reported. */
  datatype Base = Base(state: State, isScanner: bool, isConnectingOrSyncing: bool, isPeriodic: bool,
                       targetMac: string, targetMacLen: nat,
                       console: string, hooks: seq<Hook>, reports: seq<State>)

  /** `update_state`: assign the state, derive the scanner flag (SCAN or
      CONNECT_MASTER) and the connecting flag (CONNECT_PERIPHERAL or
      CONNECT_MASTER), and report a change unless the new state is START. */
  function UpdateState(b: Base, s: State): Base
  {
    b.(state := s,
       isScanner := s == State.Scan || s == ConnectMain,
       isConnectingOrSyncing := s == ConnectPeripheral || s == ConnectMain,
       reports := b.reports + (if s != b.state && s != Start then [s] else []))
  }

  /** The flags as `update_state` leaves them, from the state alone. */
  predicate FlagsFollowState(b: Base)
  {
    (b.isScanner <==> b.state == State.Scan || b.state == ConnectMain)
    && (b.isConnectingOrSyncing <==> b.state == ConnectPeripheral || b.state == ConnectMain)
  }

  /** After `update_state` the flags follow the state, whatever they were; the
      update reports exactly a change to a state other than START. */
  lemma UpdateStateFlags(b: Base, s: State)
    ensures FlagsFollowState(UpdateState(b, s)) && UpdateState(b, s).state == s
    ensures UpdateState(b, s).isScanner ==> !UpdateState(b, s).isConnectingOrSyncing || s == ConnectMain
    ensures |UpdateState(b, s).reports| == |b.reports| + (if s != b.state && s != Start then 1 else 0)
    ensures UpdateState(b, s).reports[..|b.reports|] == b.reports
  {
  }

  /** `toggle_periodic`: the flag always flips; one `next_state` is posted. */
  function TogglePeriodic(b: Base): Base
  {
    b.(isPeriodic := !b.isPeriodic, hooks := b.hooks + [CallNextState])
  }

  lemma TogglePeriodicTwice(b: Base)
    ensures TogglePeriodic(TogglePeriodic(b)).isPeriodic == b.isPeriodic
    ensures TogglePeriodic(b).isPeriodic != b.isPeriodic
    ensures TogglePeriodic(TogglePeriodic(b)).hooks == b.hooks + [CallNextState, CallNextState]
  {
  }

  /** `read_target_mac`: as in the current coordinator, only exactly twelve
      digits replace the target. */
  function ReadTargetMac(b: Base): Base
  {
    var r := ReadMac(b.console, []);
    var b1 := b.(console := r.rest);
    var b2 := if |r.stored| == MacDigits then b1.(targetMac := r.stored, targetMacLen := MacDigits) else b1;
    if r.complete then b2.(hooks := b2.hooks + [CallNextState]) else b2
  }

  /** The target becomes the digits entered exactly when there are twelve;
      otherwise target and length stay as they were. */
  lemma ReadTargetMacEffect(b: Base)
    ensures var n := Consumed(b.console, []);
      var d := HexDigitsOf(b.console[..n]);
      var r := ReadTargetMac(b);
      r.console == b.console[n..]
      && (|d| == MacDigits ==> r.targetMac == d && r.targetMacLen == MacDigits)
      && (|d| != MacDigits ==> r.targetMac == b.targetMac && r.targetMacLen == b.targetMacLen)
      && r.hooks == b.hooks + (if ReadMac(b.console, []).complete then [CallNextState] else [])
  {
    ReadMacRest(b.console, []);
    ReadMacStored(b.console, []);
    assert [] + HexDigitsOf(b.console[..Consumed(b.console, [])]) == HexDigitsOf(b.console[..Consumed(b.console, [])]);
  }

  function Dispatch(c: char, b: Base): Base
  {
    if c == 'a' then b.(hooks := b.hooks + [AdvertiseHook])
    else if c == 's' then b.(hooks := b.hooks + [ScanHook])
    else if c == 'p' then TogglePeriodic(b)
    else ReadTargetMac(b)
  }

  /** `next_state`: START, then the same command loop as the current
      coordinator; a newline is skipped without a message, other characters
      with one, which the model does not record. */
  function NextState(b: Base): Base
  {
    var b1 := UpdateState(b, Start);
    var r := Coordinator.ReadCommand(b1.console);
    if r.0.None? then b1.(console := r.1) else Dispatch(r.0.value, b1.(console := r.1))
  }

  /** `next_state` leaves START with both flags clear, whatever the command, and
      calls at most one hook: exactly one when it returns. */
  lemma NextStateClearsFlags(b: Base)
    ensures var r := NextState(b);
      r.state == Start && !r.isScanner && !r.isConnectingOrSyncing && FlagsFollowState(r)
      && |r.hooks| == |b.hooks| + (if Coordinator.NextStateReturns(b.console) then 1 else 0)
      && r.hooks[..|b.hooks|] == b.hooks
  {
    var c := Coordinator.ReadCommand(b.console);
    if c.0.Some? && c.0.value == 'm' {
      ReadTargetMacEffect(UpdateState(b, Start).(console := c.1));
    }
  }

  /** `is_connecting_or_syncing(next)`: the setter. */
  function SetConnectingOrSyncing(b: Base, next: bool): Base
  {
    b.(isConnectingOrSyncing := next)
  }

  /** The getter returns what the setter stored, and the setter changes no
      other field. */
  lemma SetThenGet(b: Base, next: bool)
    ensures SetConnectingOrSyncing(b, next).isConnectingOrSyncing == next
    ensures SetConnectingOrSyncing(b, next).(isConnectingOrSyncing := b.isConnectingOrSyncing) == b
  {
  }

  /** `is_matching_mac_address(buffer)`: `strncmp` over the first twelve characters. */
  predicate IsMatchingString(b: Base, buffer: string)
  {
    StrNEqual(buffer, b.targetMac, MacDigits)
  }

  /** `is_matching_mac_address(data)`: the string overload on the reversed-byte
      rendering of the address, with its terminator. */
  predicate IsMatchingMacAddress(b: Base, a: MacAddress)
  {
    IsMatchingString(b, MacHex(a) + "\0")
  }

  /** The address matcher agrees with comparing the rendering with the twelve
      target characters, and so accepts exactly the address the target parses
      to. It does not look at the target length: with no target set it compares
      with whatever the buffer holds. */
  lemma IsMatchingMacAddressIff(b: Base, a: MacAddress)
    requires |b.targetMac| == MacDigits
    ensures IsMatchingMacAddress(b, a) <==> b.targetMac == MacHex(a)
    ensures IsLowerHexString(b.targetMac) ==>
      (IsMatchingMacAddress(b, a) <==> ParseMacHex(b.targetMac) == Some(a))
  {
    MacHexShape(a);
    var m := MacHex(a);
    var s := m + "\0";
    CStrOf(m, "\0");
    assert CStr(s) == m;
    if IsMatchingMacAddress(b, a) {
      var c := CStr(b.targetMac);
      assert Take(c, MacDigits) == m;
      assert c == m;
      assert b.targetMac == b.targetMac[..|c|];
    }
    if IsLowerHexString(b.targetMac) {
      if ParseMacHex(b.targetMac) == Some(a) {
        ParseMacHexRoundTrip(b.targetMac);
      }
      if b.targetMac == m {
        MacHexRoundTrip(a);
      }
    }
  }

  /** A C string followed by its terminator reads back as itself. */
  lemma {:induction false} CStrOf(s: string, rest: string)
    requires forall i :: 0 <= i < |s| ==> s[i] != '\0'
    requires |rest| > 0 && rest[0] == '\0'
    ensures CStr(s + rest) == s
    decreases |s|
  {
    if |s| == 0 {
      assert (s + rest)[0] == '\0';
    } else {
      assert (s + rest)[1..] == s[1..] + rest;
      assert forall i :: 0 <= i < |s| - 1 ==> s[1..][i] == s[i + 1];
      CStrOf(s[1..], rest);
      assert s == [s[0]] + s[1..];
    }
  }
}

/** The base class as an object updating its fields in place. */
module TestBaseClass {
  import opened Common
  import opened Hex
  import opened MacInput
  import opened BtTestState
  import Coordinator
  import B = TestBase

  class PowerConsumptionTestBase {
    var state: State
    var isScanner: bool
    var isConnectingOrSyncing: bool
    var isPeriodic: bool
    var targetMac: string
    var targetMacLen: nat
    var console: string
    var hooks: seq<B.Hook>
    var reports: seq<State>

    function Snapshot(): B.Base
      reads this
    {
      B.Base(state, isScanner, isConnectingOrSyncing, isPeriodic, targetMac, targetMacLen, console, hooks, reports)
    }

    /** `_state` and `_target_mac` start uninitialised: `junkState` and `junkMac`. */
    constructor (console: string, junkState: State, junkMac: string)
      requires |junkMac| == MacDigits
      ensures Snapshot() == B.Base(junkState, false, false, false, junkMac, 0, console, [], [])
    {
      state := junkState;
      isScanner := false;
      isConnectingOrSyncing := false;
      isPeriodic := false;
      targetMac := junkMac;
      targetMacLen := 0;
      this.console := console;
      hooks := [];
      reports := [];
    }

    method GetChar() returns (c: char)
      requires |console| > 0
      modifies this
      ensures c == old(console[0])
      ensures Snapshot() == old(Snapshot()).(console := old(console[1..]))
    {
      c := console[0];
      console := console[1..];
    }

    method UpdateState(s: State)
      modifies this
      ensures Snapshot() == B.UpdateState(old(Snapshot()), s)
    {
      if s != state && s != Start {
        reports := reports + [s];
      }
      state := s;
      isScanner := s == State.Scan || s == ConnectMain;
      isConnectingOrSyncing := s == ConnectPeripheral || s == ConnectMain;
    }

    method TogglePeriodic()
      modifies this
      ensures Snapshot() == B.TogglePeriodic(old(Snapshot()))
    {
      isPeriodic := !isPeriodic;
      hooks := hooks + [B.CallNextState];
    }

    method ReadTargetMac() returns (complete: bool)
      modifies this
      ensures Snapshot() == B.ReadTargetMac(old(Snapshot()))
      ensures complete == ReadMac(old(console), []).complete
    {
      ghost var input := console;
      ghost var b0 := Snapshot();
      var buffer: string := [];
      var stopped := false;
      while !stopped && |console| > 0
        invariant |buffer| <= MacDigits
        invariant !stopped ==> |buffer| < MacDigits && ReadMac(console, buffer) == ReadMac(input, [])
        invariant stopped ==> ReadMac(input, []) == MacRead(buffer, console, true)
        invariant Snapshot() == b0.(console := console)
        decreases |console|
      {
        ghost var before := console;
        var c := GetChar();
        c := ToLower(c);
        if c == '\n' {
          stopped := true;
        } else if IsXDigit(c) {
          buffer := buffer + [c];
        }
        if |buffer| == MacDigits {
          stopped := true;
        }
        assert before[1..] == console;
      }
      assert ReadMac(input, []) == MacRead(buffer, console, stopped);
      if |buffer| == MacDigits {
        targetMacLen := MacDigits;
        targetMac := buffer;
      }
      if stopped {
        hooks := hooks + [B.CallNextState];
      }
      complete := stopped;
    }

    method NextState() returns (complete: bool)
      modifies this
      ensures Snapshot() == B.NextState(old(Snapshot()))
      ensures complete == Coordinator.NextStateReturns(old(console))
    {
      UpdateState(Start);
      ghost var input := console;
      ghost var b1 := Snapshot();
      var cmd: Option<char> := None;
      while cmd.None? && |console| > 0
        invariant Snapshot() == b1.(console := console)
        invariant cmd.None? ==> Coordinator.ReadCommand(console) == Coordinator.ReadCommand(input)
        invariant cmd.Some? ==> Coordinator.ReadCommand(input) == (cmd, console)
        decreases |console|
      {
        var c := GetChar();
        var lc := ToLower(c);
        if Coordinator.IsCommand(lc) {
          cmd := Some(lc);
        }
      }
      if cmd.None? {
        complete := false;
      } else if cmd.value == 'a' {
        hooks := hooks + [B.AdvertiseHook];
        complete := true;
      } else if cmd.value == 's' {
        hooks := hooks + [B.ScanHook];
        complete := true;
      } else if cmd.value == 'p' {
        TogglePeriodic();
        complete := true;
      } else {
        complete := ReadTargetMac();
      }
    }

    method SetConnectingOrSyncing(next: bool)
      modifies this
      ensures Snapshot() == B.SetConnectingOrSyncing(old(Snapshot()), next)
    {
      isConnectingOrSyncing := next;
    }

    function IsConnectingOrSyncing(): bool
      reads this
    {
      isConnectingOrSyncing
    }

    /** `is_matching_mac_address(data)`: renders the address and compares. */
    method IsMatchingMacAddress(a: MacAddress) returns (m: bool)
      ensures m == B.IsMatchingMacAddress(Snapshot(), a)
    {
      var buffer := MacHex(a) + "\0";
      m := StrNEqual(buffer, targetMac, MacDigits);
    }
  }
}
