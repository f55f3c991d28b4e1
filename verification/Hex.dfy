/** `encoding/hex`: printing bytes as lower-case hex and reading either case back. */
module Hex {
  import opened MachineInts
  import opened Digits

  function HexEncode(b: Bytes): (s: string)
    ensures |s| == 2 * |b|
  {
    if |b| == 0 then "" else [DigitChar(b[0] / 16), DigitChar(b[0] % 16)] + HexEncode(b[1..])
  }

  function HexDigit(c: char): (d: Option<nat>)
    ensures d.Some? ==> d.value < 16
  {
    if '0' <= c <= '9' then Some(c as int - '0' as int)
    else if 'a' <= c <= 'f' then Some(c as int - 'a' as int + 10)
    else if 'A' <= c <= 'F' then Some(c as int - 'A' as int + 10)
    else None
  }

  function HexDecode(s: string): Option<Bytes> {
    if |s| == 0 then Some([])
    else if |s| == 1 then None
    else
      var hi, lo := HexDigit(s[0]), HexDigit(s[1]);
      if hi.None? || lo.None? then None
      else
        match HexDecode(s[2..])
        case None => None
        case Some(rest) => Some([16 * hi.value + lo.value] + rest)
  }

  lemma {:induction false} DecodeUndoesEncode(b: Bytes)
    ensures HexDecode(HexEncode(b)) == Some(b)
  {
    if |b| > 0 {
      DecodeUndoesEncode(b[1..]);
      assert HexEncode(b)[2..] == HexEncode(b[1..]);
      assert b == [b[0]] + b[1..];
    }
  }

  lemma {:induction false} EncodedDigits(b: Bytes, i: nat)
    requires i < |b|
    ensures HexEncode(b)[2 * i] == DigitChar(b[i] / 16) && HexEncode(b)[2 * i + 1] == DigitChar(b[i] % 16)
  {
    if i > 0 {
      EncodedDigits(b[1..], i - 1);
    }
  }

  predicate IsHexDigit(c: char) {
    '0' <= c <= '9' || 'a' <= c <= 'f' || 'A' <= c <= 'F'
  }

  /** Decoding takes just the strings of hex digits, either case, of even length. */
  lemma {:induction false} DecodesIff(s: string)
    ensures HexDecode(s).Some? <==> |s| % 2 == 0 && forall i :: 0 <= i < |s| ==> IsHexDigit(s[i])
    decreases |s|
  {
    if |s| >= 2 {
      DecodesIff(s[2..]);
      assert forall i :: 2 <= i < |s| ==> s[i] == s[2..][i - 2];
      assert forall i :: 0 <= i < |s[2..]| ==> s[2..][i] == s[i + 2];
    }
  }
}
