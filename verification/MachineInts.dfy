/** Go's fixed-width integers, with the wrap-around of its `+` written out,
    and the Option type used where the Go code returns an error or a flag. */
module MachineInts {
  const TWO_32: int := 0x1_0000_0000
  const TWO_64: int := 0x1_0000_0000_0000_0000
  const MAX_I64: int := 0x7FFF_FFFF_FFFF_FFFF

  type u8 = x: int | 0 <= x < 0x100
  type u32 = x: int | 0 <= x < 0x1_0000_0000
  type u64 = x: int | 0 <= x < 0x1_0000_0000_0000_0000
  type i64 = x: int | -0x8000_0000_0000_0000 <= x <= 0x7FFF_FFFF_FFFF_FFFF

  /** A Go `[]byte`. A Go `string` is a Dafny string holding one byte per character. */
  type Bytes = seq<u8>

  datatype Option<+T> = None | Some(value: T)

  function Add64(a: u64, b: u64): u64 {
    if a + b < TWO_64 then a + b else a + b - TWO_64
  }

  /** A difference or sum of two int64 values, brought back into range. */
  function WrapI64(x: int): i64
    requires -TWO_64 < x < TWO_64
  {
    if x > MAX_I64 then x - TWO_64 else if x < -MAX_I64 - 1 then x + TWO_64 else x
  }

  /** Go's conversion uint32(x). */
  function ToU32(x: u64): u32 {
    x % TWO_32
  }

  predicate HasPrefix(s: string, prefix: string) {
    prefix <= s
  }

  /** A wrapped value differs from the true one by whole turns. */
  lemma WrapsByTurns(x: int)
    requires -TWO_64 < x < TWO_64
    ensures (WrapI64(x) - x) % TWO_64 == 0
  {
  }
}
