/** The console MAC-address readers. Each reads characters one at a time,
    lower-cases them, keeps the hex digits, and stops at a newline or when
    the buffer is full. The plain reader keeps twelve digits; the
    colon-storing reader of the mbed test program also stores a ':' after
    each pair, up to seventeen characters. A console that runs dry before
    the reader stops leaves the read waiting, which these functions report
    as an incomplete read. */
module MacInput {
  import opened Hex

  /** Twelve hex digits: six bytes of two digits each. */
  const MacDigits := 12
  /** Twelve digits and five ':' separators. */
  const MacColonLength := 17

  /** What a reader has stored, the console input it did not consume, and
      whether it stopped (`complete`) or is still waiting for input. */
  datatype MacRead = MacRead(stored: string, rest: string, complete: bool)

  /** The lower-cased hex digits of `s`, in order: what the readers keep. */
  function HexDigitsOf(s: string): (r: string)
    ensures |r| <= |s|
  {
    if |s| == 0 then []
    else HexDigitsOf(s[..|s| - 1]) + (if IsXDigit(ToLower(s[|s| - 1])) then [ToLower(s[|s| - 1])] else [])
  }

  lemma HexDigitsOfLower(s: string)
    ensures IsLowerHexString(HexDigitsOf(s))
  {
    if |s| > 0 {
      HexDigitsOfLower(s[..|s| - 1]);
      LoweredXDigit(s[|s| - 1]);
    }
  }

  /** The plain reader, continuing from the digits already stored. */
  function ReadMac(input: string, digits: string): (r: MacRead)
    requires |digits| < MacDigits
    ensures |digits| <= |r.stored| <= MacDigits && |r.rest| <= |input|
    decreases |input|
  {
    if |input| == 0 then MacRead(digits, [], false)
    else
      var c := ToLower(input[0]);
      if c == '\n' then MacRead(digits, input[1..], true)
      else
        var d := if IsXDigit(c) then digits + [c] else digits;
        if |d| == MacDigits then MacRead(d, input[1..], true) else ReadMac(input[1..], d)
  }

  /** The number of input characters ReadMac consumes. */
  function Consumed(input: string, digits: string): (n: nat)
    requires |digits| < MacDigits
    ensures n <= |input|
  {
    |input| - |ReadMac(input, digits).rest|
  }

  /** The reader consumes a prefix of its input, all of it when it is left waiting. */
  lemma {:induction false} ReadMacRest(input: string, digits: string)
    requires |digits| < MacDigits
    ensures var n := Consumed(input, digits);
      0 <= n <= |input| && ReadMac(input, digits).rest == input[n..]
      && (!ReadMac(input, digits).complete ==> n == |input|)
    decreases |input|
  {
    if |input| > 0 {
      var c := ToLower(input[0]);
      var d := if IsXDigit(c) then digits + [c] else digits;
      if c != '\n' && |d| != MacDigits {
        ReadMacRest(input[1..], d);
        assert input[1..][Consumed(input[1..], d)..] == input[Consumed(input[1..], d) + 1..];
      }
    }
  }

  /** The reader keeps exactly the lower-cased hex digits of what it consumed. */
  lemma {:induction false} ReadMacStored(input: string, digits: string)
    requires |digits| < MacDigits
    ensures var n := Consumed(input, digits);
      0 <= n <= |input| && ReadMac(input, digits).stored == digits + HexDigitsOf(input[..n])
    decreases |input|
  {
    if |input| == 0 {
      assert input[..0] == [] && digits + [] == digits;
    } else {
      var c := ToLower(input[0]);
      var x := if IsXDigit(c) then [c] else [];
      var d := digits + x;
      ConsumedStep(input, digits);
      if c != '\n' && |d| != MacDigits {
        ReadMacStored(input[1..], d);
        ReadMacStep(input, digits);
        StoredStep(input, digits, x, Consumed(input[1..], d));
      } else {
        ReadMacStep(input, digits);
        assert input[..1] == [input[0]] + [];
        HexDigitsOfPrepend(input[0], []);
        assert HexDigitsOf(input[..1]) == x;
      }
    }
  }

  lemma StoredStep(input: string, digits: string, x: string, n': nat)
    requires 0 < |input| && n' < |input|
    requires x == (if IsXDigit(ToLower(input[0])) then [ToLower(input[0])] else [])
    ensures (digits + x) + HexDigitsOf(input[1..][..n']) == digits + HexDigitsOf(input[..n' + 1])
  {
    var rest := input[1..][..n'];
    assert input[..n' + 1] == [input[0]] + rest;
    HexDigitsOfPrepend(input[0], rest);
  }

  /** The reader stops at the first newline or on the twelfth digit: no newline
      comes before its last consumed character, and it is complete exactly when
      that character is a newline or it has twelve digits. */
  lemma {:induction false} ReadMacStops(input: string, digits: string)
    requires |digits| < MacDigits
    ensures var n := Consumed(input, digits);
      var r := ReadMac(input, digits);
      0 <= n <= |input|
      && (forall i :: 0 <= i < n - 1 ==> input[i] != '\n')
      && (r.complete <==> n > 0 && (input[n - 1] == '\n' || |r.stored| == MacDigits))
    decreases |input|
  {
    ReadMacRest(input, digits);
    if |input| > 0 {
      var c := ToLower(input[0]);
      var d := if IsXDigit(c) then digits + [c] else digits;
      if c == '\n' {
        assert input[0] == '\n';
      } else if |d| != MacDigits {
        ReadMacStops(input[1..], d);
        var n' := Consumed(input[1..], d);
        assert forall i :: 1 <= i < n' ==> input[i] == input[1..][i - 1];
      }
    }
  }

  /** The reader does not stop early: before its last consumed character it
      held fewer than twelve digits. */
  lemma {:induction false} ReadMacNotFullBefore(input: string, digits: string)
    requires |digits| < MacDigits
    ensures var n := Consumed(input, digits);
      0 < n <= |input| ==> |digits + HexDigitsOf(input[..n - 1])| < MacDigits
    decreases |input|
  {
    if |input| > 0 {
      var c := ToLower(input[0]);
      var d := if IsXDigit(c) then digits + [c] else digits;
      var n := Consumed(input, digits);
      if c == '\n' || |d| == MacDigits {
        assert input[..n - 1] == [] by {
          ConsumedStep(input, digits);
        }
      } else {
        ReadMacNotFullBefore(input[1..], d);
        ConsumedStep(input, digits);
        NotFullStep(input, digits, d, Consumed(input[1..], d));
      }
    }
  }

  /** One step of the reader: a character that neither ends the read nor
      completes the address passes to the rest of the input. */
  lemma ReadMacStep(input: string, digits: string)
    requires |digits| < MacDigits && |input| > 0
    ensures var c := ToLower(input[0]);
      var d := digits + (if IsXDigit(c) then [c] else []);
      (c == '\n' ==> ReadMac(input, digits) == MacRead(digits, input[1..], true))
      && (c != '\n' && |d| == MacDigits ==> ReadMac(input, digits) == MacRead(d, input[1..], true))
      && (c != '\n' && |d| != MacDigits ==> ReadMac(input, digits) == ReadMac(input[1..], d))
  {
    var c := ToLower(input[0]);
    assert digits + [] == digits;
  }

  lemma ConsumedStep(input: string, digits: string)
    requires |digits| < MacDigits && |input| > 0
    ensures var c := ToLower(input[0]);
      var d := if IsXDigit(c) then digits + [c] else digits;
      (c == '\n' || |d| == MacDigits ==> Consumed(input, digits) == 1)
      && (c != '\n' && |d| != MacDigits ==> Consumed(input, digits) == Consumed(input[1..], d) + 1)
  {
  }

  lemma NotFullStep(input: string, digits: string, d: string, n': nat)
    requires |input| > 0 && 0 < n' + 1 <= |input|
    requires d == digits + (if IsXDigit(ToLower(input[0])) then [ToLower(input[0])] else [])
    requires n' > 0 ==> |d + HexDigitsOf(input[1..][..n' - 1])| < MacDigits
    requires |digits| < MacDigits
    ensures |digits + HexDigitsOf(input[..n'])| < MacDigits
  {
    if n' > 0 {
      var s := input[1..][..n' - 1];
      HexDigitsOfPrepend(input[0], s);
      assert [input[0]] + s == input[..n'];
      assert digits + HexDigitsOf(input[..n']) == d + HexDigitsOf(s);
    } else {
      assert input[..n'] == [];
    }
  }

  lemma {:induction false} HexDigitsOfPrepend(c: char, s: string)
    ensures HexDigitsOf([c] + s) == (if IsXDigit(ToLower(c)) then [ToLower(c)] else []) + HexDigitsOf(s)
    decreases |s|
  {
    if |s| == 0 {
      assert ([c] + s)[..0] == [];
    } else {
      var t := [c] + s;
      assert t[..|t| - 1] == [c] + s[..|s| - 1];
      assert t[|t| - 1] == s[|s| - 1];
      HexDigitsOfPrepend(c, s[..|s| - 1]);
    }
  }

  /** Stored digits are lowercase hex digits. */
  lemma ReadMacLower(input: string, digits: string)
    requires |digits| < MacDigits && IsLowerHexString(digits)
    ensures IsLowerHexString(ReadMac(input, digits).stored)
  {
    ReadMacStored(input, digits);
    HexDigitsOfLower(input[..Consumed(input, digits)]);
  }

  /** The colon-storing reader, continuing from the stored characters `target`;
      `pending` counts the digits since the last separator. */
  function ReadMacColon(input: string, target: string, pending: nat): MacRead
    requires |target| < MacColonLength
    decreases |input|
  {
    if |input| == 0 then MacRead(target, [], false)
    else
      var c := ToLower(input[0]);
      if c == '\n' then MacRead(target, input[1..], true)
      else
        var t1 := if IsXDigit(c) then target + [c] else target;
        var p1 := if IsXDigit(c) then pending + 1 else pending;
        var t2 := if p1 == 2 && |t1| < MacColonLength then t1 + [':'] else t1;
        var p2 := if p1 == 2 && |t1| < MacColonLength then 0 else p1;
        if |t2| >= MacColonLength then MacRead(t2, input[1..], true)
        else ReadMacColon(input[1..], t2, p2)
  }

  /** Appending one digit to a grouping adds the digit and, after a complete pair
      short of the limit, one separator. */
  lemma {:induction false} GroupedNSnoc(d: string, c: char, n: nat)
    ensures GroupedN(d + [c], n)
      == GroupedN(d, n) + [c] + (if (|d| + 1) % 2 == 0 && (|d| + 1) / 2 <= n then ":" else "")
    decreases |d|
  {
    var e := d + [c];
    if |d| < 2 {
      if |d| == 1 {
        assert e[..2] == e && e[2..] == [];
      }
    } else {
      var n' := if n > 0 then n - 1 else 0;
      assert e[..2] == d[..2];
      assert e[2..] == d[2..] + [c];
      GroupedNSnoc(d[2..], c, n');
    }
  }

  /** One step of the grouping reader on a character that is not a newline. */
  lemma ReadMacColonStep(input: string, target: string, pending: nat)
    requires |target| < MacColonLength && |input| > 0 && ToLower(input[0]) != '\n'
    ensures var c := ToLower(input[0]);
      var t1 := if IsXDigit(c) then target + [c] else target;
      var p1 := if IsXDigit(c) then pending + 1 else pending;
      var t2 := if p1 == 2 && |t1| < MacColonLength then t1 + [':'] else t1;
      var p2 := if p1 == 2 && |t1| < MacColonLength then 0 else p1;
      ReadMacColon(input, target, pending)
        == if |t2| >= MacColonLength then MacRead(t2, input[1..], true) else ReadMacColon(input[1..], t2, p2)
  {
  }

  /** The grouping reader's step on a digit keeps the grouping of the digits
      read so far, and reaches the full length exactly on the twelfth digit. */
  lemma GroupedDigit(digits: string, c: char)
    requires |digits| < MacDigits
    ensures var d := digits + [c];
      var t1 := Grouped(digits) + [c];
      var p1 := |digits| % 2 + 1;
      var t2 := if p1 == 2 && |t1| < MacColonLength then t1 + [':'] else t1;
      var p2 := if p1 == 2 && |t1| < MacColonLength then 0 else p1;
      t2 == Grouped(d) && (|t2| >= MacColonLength <==> |d| == MacDigits)
      && (|d| < MacDigits ==> p2 == |d| % 2)
  {
    var d := digits + [c];
    GroupedNLength(digits, 5);
    GroupedNSnoc(digits, c, 5);
    GroupedNLength(d, 5);
    assert |digits| / 2 <= 5;
    if |d| < MacDigits {
      assert |d| / 2 <= 5;
      assert Grouped(d) == Grouped(digits) + [c] + (if |d| % 2 == 0 then ":" else "");
    } else {
      assert |digits| == 11 && |Grouped(digits)| == 16;
      assert Grouped(d) == Grouped(digits) + [c];
    }
  }

  /** The colon-storing reader stores exactly the grouping of what the plain reader
      stores, consumes the same input and stops at the same point. */
  lemma {:induction false} ReadMacColonGrouped(input: string, digits: string)
    requires |digits| < MacDigits
    ensures |Grouped(digits)| < MacColonLength
    ensures var r := ReadMac(input, digits);
      ReadMacColon(input, Grouped(digits), |digits| % 2) == MacRead(Grouped(r.stored), r.rest, r.complete)
    decreases |input|
  {
    GroupedNLength(digits, 5);
    if |input| > 0 {
      var c := ToLower(input[0]);
      if c != '\n' {
        ReadMacStep(input, digits);
        ReadMacColonStep(input, Grouped(digits), |digits| % 2);
        if IsXDigit(c) {
          GroupedDigit(digits, c);
          if |digits| + 1 < MacDigits {
            ReadMacColonGrouped(input[1..], digits + [c]);
          }
        } else {
          assert digits + [] == digits;
          ReadMacColonGrouped(input[1..], digits);
        }
      }
    }
  }
}
