/** Small value types shared by every part of the model: an optional value,
    the C integer widths the benchmark stores, and the 8-bit narrowing that C++
    applies when an `int32_t` is stored into a `uint8_t` field. */
module Common {

  datatype Option<+T> = None | Some(value: T)

  /** `uint8_t` */
  type byte = x: int | 0 <= x < 256

  /** `int32_t` */
  type int32 = x: int | -0x8000_0000 <= x < 0x8000_0000

  /** `uint32_t` */
  type uint32 = x: int | 0 <= x < 0x1_0000_0000

  /** A six-byte Bluetooth device address, byte 0 first (the order the radio
      stacks hand it over). */
  type MacAddress = s: seq<byte> | |s| == 6 witness [0, 0, 0, 0, 0, 0]

  /** One field of an advertising payload: its data type and its value bytes,
      read as characters. */
  datatype AdField = AdField(fieldType: byte, value: string)

  /** The platform's opaque `void*` handle for a connection or a periodic sync. */
  type Handle = nat

  /** Conversion of a signed value to `uint8_t`: reduction modulo 256 (C++
      integral conversion to an unsigned type). */
  function Narrow8(x: int): (r: byte)
    ensures (r - x) % 256 == 0
    ensures 0 <= x < 256 ==> r == x
  {
    x % 256
  }

  /** Two values that differ by a multiple of 256 narrow to the same byte, so
      the narrowing loses information outside 0..255. */
  lemma Narrow8Periodic(x: int, k: int)
    ensures Narrow8(x + 256 * k) == Narrow8(x)
  {
    var a, b := Narrow8(x + 256 * k), Narrow8(x);
    assert (a - b) % 256 == 0 by {
      assert a - b == (a - (x + 256 * k)) - (b - x) + 256 * k;
    }
    assert -256 < a - b < 256;
  }
}
