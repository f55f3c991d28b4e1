/** `strconv.FormatUint`, `strconv.FormatInt` and `strconv.ParseUint`: positional
    printing and parsing, and the proof that parsing undoes printing. */
module Digits {
  import opened MachineInts

  function DigitChar(d: nat): (c: char)
    requires d < 16
    ensures c != '-'
    ensures d < 10 ==> c as int == '0' as int + d
    ensures d >= 10 ==> c as int == 'a' as int + d - 10
  {
    "0123456789abcdef"[d]
  }

  function DecimalDigit(c: char): Option<nat> {
    if '0' <= c <= '9' then Some(c as int - '0' as int) else None
  }

  /** `strconv.FormatUint(n, 10)`, and `%d` of an unsigned value. */
  function FormatDecimal(n: nat): (s: string)
    ensures |s| > 0
    ensures '-' !in s
  {
    if n < 10 then [DigitChar(n)] else FormatDecimal(n / 10) + [DigitChar(n % 10)]
  }

  /** `strconv.FormatInt(n, 16)`, which agrees with FormatUint on what both can print. */
  function FormatHex(n: int): string
    decreases if n < 0 then 1 - n else n
  {
    if n < 0 then "-" + FormatHex(-n)
    else if n < 16 then [DigitChar(n)]
    else FormatHex(n / 16) + [DigitChar(n % 16)]
  }

  /** The value of a decimal numeral of any length. */
  function ParseNat(s: string): Option<nat> {
    if |s| == 0 then None
    else
      var last := DecimalDigit(s[|s| - 1]);
      if last.None? then None
      else if |s| == 1 then last
      else
        var rest := ParseNat(s[..|s| - 1]);
        if rest.None? then None else Some(10 * rest.value + last.value)
  }

  /** `strconv.ParseUint(s, 10, 64)`: numerals beyond 64 bits are refused. */
  function ParseUint(s: string): Option<u64> {
    match ParseNat(s)
    case None => None
    case Some(n) => if n < TWO_64 then Some(n) else None
  }

  lemma {:induction false} ParseUndoesFormat(n: nat)
    ensures ParseNat(FormatDecimal(n)) == Some(n)
  {
    var s := FormatDecimal(n);
    assert DecimalDigit(DigitChar(n % 10)) == Some(n % 10);
    if n >= 10 {
      ParseUndoesFormat(n / 10);
      assert s[..|s| - 1] == FormatDecimal(n / 10);
    }
  }

  lemma FormatInjective(m: nat, n: nat)
    requires FormatDecimal(m) == FormatDecimal(n)
    ensures m == n
  {
    ParseUndoesFormat(m);
    ParseUndoesFormat(n);
  }

  predicate AllDecimal(s: string) {
    forall i :: 0 <= i < |s| ==> '0' <= s[i] <= '9'
  }

  /** Parsing takes just the non-empty strings of digits. */
  lemma {:induction false} ParsesIff(s: string)
    ensures ParseNat(s).Some? <==> |s| > 0 && AllDecimal(s)
  {
    if |s| > 0 {
      var front := s[..|s| - 1];
      ParsesIff(front);
      assert s == front + [s[|s| - 1]];
      assert AllDecimal(s) <==> AllDecimal(front) && '0' <= s[|s| - 1] <= '9';
    }
  }

  /** And fails on the numbers a uint64 cannot hold. */
  lemma ParsesUintIff(s: string)
    ensures |s| == 0 || !AllDecimal(s) ==> ParseUint(s).None?
    ensures |s| > 0 && AllDecimal(s) ==>
      ParseNat(s).Some? && ParseUint(s) == if ParseNat(s).value < TWO_64 then Some(ParseNat(s).value) else None
  {
    ParsesIff(s);
  }
}
