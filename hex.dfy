/** Character classes of the C library (`tolower`, `isxdigit`), the lowercase
    hexadecimal rendering `%02x` the benchmark uses to print and match peer
    addresses, its inverse, and the C string comparisons the matchers use. */
module Hex {
  import opened Common

  /** `tolower` in the "C" locale: only 'A'..'Z' change. */
  function ToLower(c: char): char
  {
    if 'A' <= c <= 'Z' then (c as int + 32) as char else c
  }

  /** `isxdigit` in the "C" locale. */
  predicate IsXDigit(c: char)
  {
    '0' <= c <= '9' || 'a' <= c <= 'f' || 'A' <= c <= 'F'
  }

  /** A digit as `%x` prints it. */
  predicate IsLowerHex(c: char)
  {
    '0' <= c <= '9' || 'a' <= c <= 'f'
  }

  predicate IsLowerHexString(s: string)
  {
    forall i :: 0 <= i < |s| ==> IsLowerHex(s[i])
  }

  /** A hex digit after `tolower` is a lowercase one, and only hex digits are. */
  lemma LoweredXDigit(c: char)
    ensures IsXDigit(ToLower(c)) <==> IsXDigit(c)
    ensures IsXDigit(ToLower(c)) ==> IsLowerHex(ToLower(c))
  {
  }

  /** The value of a lowercase hex digit. */
  function HexValue(c: char): (n: int)
    requires IsLowerHex(c)
    ensures 0 <= n < 16
  {
    if c <= '9' then c as int - '0' as int else c as int - 'a' as int + 10
  }

  /** The lowercase digit `%x` prints for `n`; its value is `n`. */
  function HexDigit(n: int): (c: char)
    requires 0 <= n < 16
    ensures IsLowerHex(c) && HexValue(c) == n
  {
    if n < 10 then ('0' as int + n) as char else ('a' as int + n - 10) as char
  }

  /** Each lowercase digit is the one HexDigit prints for its value. */
  lemma HexDigitOfValue(c: char)
    requires IsLowerHex(c)
    ensures HexDigit(HexValue(c)) == c
  {
  }

  /** `%02x` of one byte. */
  function ByteHex(b: byte): (s: string)
    ensures |s| == 2 && IsLowerHexString(s)
  {
    [HexDigit(b / 16), HexDigit(b % 16)]
  }

  /** Reads back two lowercase hex digits as a byte. */
  function ParseByte(s: string): byte
    requires |s| == 2 && IsLowerHexString(s)
  {
    16 * HexValue(s[0]) + HexValue(s[1])
  }

  lemma ByteHexRoundTrip(b: byte)
    ensures ParseByte(ByteHex(b)) == b
  {
  }

  lemma ParseByteRoundTrip(s: string)
    requires |s| == 2 && IsLowerHexString(s)
    ensures ByteHex(ParseByte(s)) == s
  {
    var b := ParseByte(s);
    assert b / 16 == HexValue(s[0]) && b % 16 == HexValue(s[1]);
    HexDigitOfValue(s[0]);
    HexDigitOfValue(s[1]);
  }

  /** `"%02x%02x%02x%02x%02x%02x"` applied to `a[5], a[4], ..., a[0]`: the peer
      address as the benchmark prints and matches it, most significant byte first. */
  function MacHex(a: MacAddress): string
  {
    ByteHex(a[5]) + ByteHex(a[4]) + ByteHex(a[3]) + ByteHex(a[2]) + ByteHex(a[1]) + ByteHex(a[0])
  }

  /** `"%02x:%02x:%02x:%02x:%02x:%02x"` applied to `a[5], ..., a[0]`. */
  function MacHexColon(a: MacAddress): string
  {
    ByteHex(a[5]) + ":" + (ByteHex(a[4]) + ":" + (ByteHex(a[3]) + ":" + (ByteHex(a[2]) + ":"
      + (ByteHex(a[1]) + ":" + ByteHex(a[0])))))
  }

  /** The inverse of MacHex: twelve lowercase hex digits, most significant byte first. */
  function ParseMacHex(s: string): Option<MacAddress>
  {
    if |s| == 12 && IsLowerHexString(s) then
      Some([ParseByte(s[10..12]), ParseByte(s[8..10]), ParseByte(s[6..8]),
            ParseByte(s[4..6]), ParseByte(s[2..4]), ParseByte(s[0..2])])
    else
      None
  }

  lemma MacHexShape(a: MacAddress)
    ensures |MacHex(a)| == 12 && IsLowerHexString(MacHex(a))
    ensures MacHex(a)[0..2] == ByteHex(a[5]) && MacHex(a)[2..4] == ByteHex(a[4])
    ensures MacHex(a)[4..6] == ByteHex(a[3]) && MacHex(a)[6..8] == ByteHex(a[2])
    ensures MacHex(a)[8..10] == ByteHex(a[1]) && MacHex(a)[10..12] == ByteHex(a[0])
  {
    var s := MacHex(a);
    forall i | 0 <= i < 12 ensures IsLowerHex(s[i]) {
      var k := i / 2;
      assert s[i] == ByteHex(a[5 - k])[i % 2];
    }
  }

  /** Rendering an address and reading it back gives the address. */
  lemma MacHexRoundTrip(a: MacAddress)
    ensures ParseMacHex(MacHex(a)) == Some(a)
  {
    MacHexShape(a);
    ByteHexRoundTrip(a[0]); ByteHexRoundTrip(a[1]); ByteHexRoundTrip(a[2]);
    ByteHexRoundTrip(a[3]); ByteHexRoundTrip(a[4]); ByteHexRoundTrip(a[5]);
    var s := MacHex(a);
    var r := [ParseByte(s[10..12]), ParseByte(s[8..10]), ParseByte(s[6..8]),
              ParseByte(s[4..6]), ParseByte(s[2..4]), ParseByte(s[0..2])];
    assert r == a;
  }

  /** Every string of twelve lowercase hex digits is the rendering of exactly
      the address ParseMacHex reads from it. */
  lemma ParseMacHexRoundTrip(s: string)
    requires |s| == 12 && IsLowerHexString(s)
    ensures ParseMacHex(s).Some? && MacHex(ParseMacHex(s).value) == s
  {
    assert IsLowerHexString(s[0..2]) && IsLowerHexString(s[2..4]) && IsLowerHexString(s[4..6]);
    assert IsLowerHexString(s[6..8]) && IsLowerHexString(s[8..10]) && IsLowerHexString(s[10..12]);
    ParseByteRoundTrip(s[0..2]); ParseByteRoundTrip(s[2..4]); ParseByteRoundTrip(s[4..6]);
    ParseByteRoundTrip(s[6..8]); ParseByteRoundTrip(s[8..10]); ParseByteRoundTrip(s[10..12]);
    assert s == s[0..2] + s[2..4] + s[4..6] + s[6..8] + s[8..10] + s[10..12];
  }

  /** Distinct addresses render differently. */
  lemma MacHexInjective(a: MacAddress, b: MacAddress)
    ensures MacHex(a) == MacHex(b) <==> a == b
  {
    if MacHex(a) == MacHex(b) {
      MacHexRoundTrip(a);
      MacHexRoundTrip(b);
    }
  }

  /** Colon grouping as the colon-storing MAC reader builds it: a ':' after
      each complete pair of digits, `n` of them at most. */
  function GroupedN(d: string, n: nat): string
    decreases |d|
  {
    if |d| < 2 then d
    else d[..2] + (if n > 0 then ":" else "") + GroupedN(d[2..], if n > 0 then n - 1 else 0)
  }

  /** A ':' after each of the first five pairs, none after the sixth. */
  function Grouped(d: string): string
  {
    GroupedN(d, 5)
  }

  /** The string without its ':' separators. */
  function RemoveColons(s: string): (r: string)
    ensures forall i :: 0 <= i < |r| ==> r[i] != ':'
    ensures |r| <= |s|
  {
    if |s| == 0 then []
    else (if s[0] == ':' then [] else [s[0]]) + RemoveColons(s[1..])
  }

  lemma RemoveColonsAppend(a: string, b: string)
    ensures RemoveColons(a + b) == RemoveColons(a) + RemoveColons(b)
  {
    if |a| == 0 {
      assert a + b == b;
    } else {
      assert (a + b)[0] == a[0];
      assert (a + b)[1..] == a[1..] + b;
      RemoveColonsAppend(a[1..], b);
    }
  }

  lemma RemoveColonsNone(s: string)
    requires forall i :: 0 <= i < |s| ==> s[i] != ':'
    ensures RemoveColons(s) == s
  {
    if |s| > 0 {
      RemoveColonsNone(s[1..]);
    }
  }

  /** Grouping only inserts separators: removing them gives the digits back. */
  lemma {:induction false} GroupedUngroup(d: string, n: nat)
    requires forall i :: 0 <= i < |d| ==> d[i] != ':'
    ensures RemoveColons(GroupedN(d, n)) == d
  {
    if |d| < 2 {
      RemoveColonsNone(d);
    } else {
      var sep := if n > 0 then ":" else "";
      var rest := GroupedN(d[2..], if n > 0 then n - 1 else 0);
      RemoveColonsAppend(d[..2] + sep, rest);
      RemoveColonsAppend(d[..2], sep);
      RemoveColonsNone(d[..2]);
      GroupedUngroup(d[2..], if n > 0 then n - 1 else 0);
      assert d == d[..2] + d[2..];
    }
  }

  /** The length of a grouping: one separator per complete pair, `n` at most. */
  lemma {:induction false} GroupedNLength(d: string, n: nat)
    ensures |GroupedN(d, n)| == |d| + (if |d| / 2 < n then |d| / 2 else n)
  {
    if |d| >= 2 {
      GroupedNLength(d[2..], if n > 0 then n - 1 else 0);
    }
  }

  /** Grouping a string that starts with a pair: the pair, its separator, and
      the grouping of the rest. */
  lemma GroupedNPair(p: string, r: string, n: nat)
    requires |p| == 2
    ensures GroupedN(p + r, n) == p + (if n > 0 then ":" else "") + GroupedN(r, if n > 0 then n - 1 else 0)
  {
    assert (p + r)[..2] == p && (p + r)[2..] == r;
  }

  /** The colon form of an address is the grouping of its plain form. */
  lemma MacHexColonGrouped(a: MacAddress)
    ensures MacHexColon(a) == Grouped(MacHex(a))
  {
    var b5, b4, b3, b2, b1, b0 := ByteHex(a[5]), ByteHex(a[4]), ByteHex(a[3]), ByteHex(a[2]), ByteHex(a[1]), ByteHex(a[0]);
    assert MacHex(a) == b5 + (b4 + (b3 + (b2 + (b1 + b0))));
    GroupedNPair(b0, [], 0);
    assert b0 + [] == b0 && b0 + "" + [] == b0 && GroupedN([], 0) == [];
    GroupedNPair(b1, b0, 1);
    GroupedNPair(b2, b1 + b0, 2);
    GroupedNPair(b3, b2 + (b1 + b0), 3);
    GroupedNPair(b4, b3 + (b2 + (b1 + b0)), 4);
    GroupedNPair(b5, b4 + (b3 + (b2 + (b1 + b0))), 5);
  }

  /** A stored colon-grouped target equals the colon rendering of an address
      exactly when its digits are that address's plain rendering. */
  lemma GroupedMatchesColon(d: string, a: MacAddress)
    requires IsLowerHexString(d)
    ensures Grouped(d) == MacHexColon(a) <==> d == MacHex(a)
  {
    MacHexColonGrouped(a);
    MacHexShape(a);
    if Grouped(d) == MacHexColon(a) {
      GroupedUngroup(d, 5);
      GroupedUngroup(MacHex(a), 5);
    }
  }

  /** The characters of a C string held in a buffer: everything before the first NUL. */
  function CStr(s: seq<char>): (r: seq<char>)
    ensures |r| <= |s| && r == s[..|r|]
    ensures forall i :: 0 <= i < |r| ==> r[i] != '\0'
    ensures |r| < |s| ==> s[|r|] == '\0'
  {
    if |s| == 0 || s[0] == '\0' then [] else [s[0]] + CStr(s[1..])
  }

  function Take(s: seq<char>, n: nat): seq<char>
  {
    if |s| <= n then s else s[..n]
  }

  /** `strncmp(a, b, n) == 0`: the strings agree up to their terminators, on
      the first `n` characters at most. */
  predicate StrNEqual(a: seq<char>, b: seq<char>, n: nat)
  {
    Take(CStr(a), n) == Take(CStr(b), n)
  }
}
