/** The benchmark's test state, `bt_test_state_t`, and its printing. */
module BtTestState {
  import opened Common

  /** The five states, in declaration order. The older test programs call the
      last one CONNECT_MASTER; it is the same state. */
  datatype State = Start | Scan | Advertise | ConnectPeripheral | ConnectMain

  /** The enumerator's underlying value: its position in the declaration. */
  function Ordinal(s: State): (n: nat)
    ensures n < 5
  {
    match s
    case Start => 0
    case Scan => 1
    case Advertise => 2
    case ConnectPeripheral => 3
    case ConnectMain => 4
  }

  /** The state with a given underlying value, if any. */
  function FromOrdinal(n: nat): Option<State>
  {
    if n == 0 then Some(Start)
    else if n == 1 then Some(Scan)
    else if n == 2 then Some(Advertise)
    else if n == 3 then Some(ConnectPeripheral)
    else if n == 4 then Some(ConnectMain)
    else None
  }

  /** Exactly five states: the underlying values are 0..4, and each names one state. */
  lemma OrdinalRoundTrip(s: State, n: nat)
    ensures FromOrdinal(Ordinal(s)) == Some(s)
    ensures FromOrdinal(n).Some? <==> n < 5
    ensures FromOrdinal(n).Some? ==> Ordinal(FromOrdinal(n).value) == n
  {
  }

  /** The string `print_bt_test_state` prints: the enumerator's own identifier. */
  function Name(s: State): string
  {
    match s
    case Start => "START"
    case Scan => "SCAN"
    case Advertise => "ADVERTISE"
    case ConnectPeripheral => "CONNECT_PERIPHERAL"
    case ConnectMain => "CONNECT_MAIN"
  }

  /** Reads a printed state name back. */
  function FromName(name: string): Option<State>
  {
    if name == "START" then Some(Start)
    else if name == "SCAN" then Some(Scan)
    else if name == "ADVERTISE" then Some(Advertise)
    else if name == "CONNECT_PERIPHERAL" then Some(ConnectPeripheral)
    else if name == "CONNECT_MAIN" then Some(ConnectMain)
    else None
  }

  /** Every state has a name, and the name identifies the state. */
  lemma NameRoundTrip(s: State)
    ensures FromName(Name(s)) == Some(s)
  {
  }

  /** Distinct states print distinct names. */
  lemma NameInjective(s: State, t: State)
    ensures Name(s) == Name(t) <==> s == t
  {
    if Name(s) == Name(t) {
      NameRoundTrip(s);
      NameRoundTrip(t);
    }
  }

  /** The strings `print_bt_test_state` passes to its `print` callback, in order:
      exactly one, from which the state can be read back. */
  function PrintCalls(s: State): (calls: seq<string>)
    ensures |calls| == 1 && FromName(calls[0]) == Some(s)
  {
    NameRoundTrip(s);
    [Name(s)]
  }
}
