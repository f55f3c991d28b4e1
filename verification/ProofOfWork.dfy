/** What ValidatePoW accepts, in terms of the leading zero bits of the hash. */
module ProofOfWork {
  import opened MachineInts
  import opened Hex
  import opened Powers
  import opened Consensus

  /** The leading zero bits of one byte. */
  function ByteLeadingZeros(x: u8): nat {
    if x >= 128 then 0 else if x >= 64 then 1 else if x >= 32 then 2 else if x >= 16 then 3
    else if x >= 8 then 4 else if x >= 4 then 5 else if x >= 2 then 6 else if x >= 1 then 7 else 8
  }

  function LeadingZeroBits(b: Bytes): nat {
    if |b| == 0 then 0
    else if b[0] == 0 then 8 + LeadingZeroBits(b[1..])
    else ByteLeadingZeros(b[0])
  }

  lemma ByteLeadingZerosBound(x: u8, j: nat)
    requires j <= 8
    ensures x < Pow2(j) <==> ByteLeadingZeros(x) >= 8 - j
  {
    Pow2Bytes();
  }

  lemma ShiftUpByte(k: nat)
    ensures Pow2(k + 8) == 0x100 * Pow2(k)
  {
    Pow2Bytes();
    Pow2Adds(k, 8);
  }

  lemma {:induction false} BytesValueBound(b: Bytes)
    ensures BytesValue(b) < Pow2(8 * |b|)
  {
    if |b| > 0 {
      BytesValueBound(b[..|b| - 1]);
      ShiftUpByte(8 * (|b| - 1));
    }
  }

  /** The first byte weighs as much as the length of the rest says. */
  lemma {:induction false} LeadingByte(b: Bytes)
    requires |b| > 0
    ensures BytesValue(b) == b[0] * Pow2(8 * (|b| - 1)) + BytesValue(b[1..])
  {
    if |b| > 1 {
      var front := b[..|b| - 1];
      LeadingByte(front);
      ShiftUpByte(8 * (|b| - 2));
      assert b[1..][..|b| - 2] == front[1..];
      var p := Pow2(8 * (|b| - 2));
      assert 0x100 * (b[0] * p) == b[0] * (0x100 * p);
    } else {
      assert BytesValue(b[..0]) == 0 && BytesValue(b[1..]) == 0;
    }
  }

  /** A leading digit x over p: the whole is below m * p exactly when x is below m. */
  lemma LeadingDigitDecides(x: nat, p: nat, r: nat, m: nat)
    requires r < p
    ensures x * p + r < m * p <==> x < m
  {
    if x < m {
      assert (m - x) * p == m * p - x * p;
      MultipleAtLeast(m - x, p);
    } else {
      assert (x - m) * p == x * p - m * p;
    }
  }

  lemma {:induction false} ValueBelowPowerIffZeros(b: Bytes, k: nat)
    requires k <= 8 * |b|
    ensures BytesValue(b) < Pow2(k) <==> LeadingZeroBits(b) >= 8 * |b| - k
  {
    if |b| > 0 {
      var rest, low := b[1..], 8 * (|b| - 1);
      LeadingByte(b);
      BytesValueBound(rest);
      if k <= low {
        ValueBelowPowerIffZeros(rest, k);
        Pow2Monotone(k, low);
        if b[0] > 0 {
          MultipleAtLeast(b[0], Pow2(low));
        }
      } else {
        Pow2Adds(k - low, low);
        LeadingDigitDecides(b[0], Pow2(low), BytesValue(rest), Pow2(k - low));
        ByteLeadingZerosBound(b[0], k - low);
      }
    }
  }

  /** An all-ones number shifted right is the shorter all-ones number. */
  lemma {:induction false} ShiftedMask(k: nat, d: nat)
    ensures Shifted(Pow2(k) - 1, d) == if d <= k then Pow2(k - d) - 1 else 0
  {
    if d > 0 {
      ShiftedMask(k, d - 1);
    }
  }

  lemma PowLimitIsMask()
    ensures POW_LIMIT == Pow2(236) - 1
  {
    Pow2Bytes();
    Pow2Adds(8, 8);
    assert Pow2(16) == 0x10000;
    Pow2Adds(16, 16);
    assert Pow2(32) == 0x1_0000_0000;
    Pow2Adds(32, 32);
    assert Pow2(64) == 0x1_0000_0000_0000_0000;
    Pow2Adds(64, 32);
    Pow2Adds(96, 8);
    Pow2Adds(104, 4);
    Pow2Adds(108, 64);
    Pow2Adds(172, 64);
  }

  /** The zero bits a difficulty asks for. */
  function RequiredZeros(difficulty: u64): nat {
    var asked := 20 + if difficulty > 1 then difficulty else 0;
    if asked < 256 then asked else 256
  }

  lemma TargetIsMask(difficulty: u64)
    ensures Target(difficulty) == Pow2(256 - RequiredZeros(difficulty)) - 1
  {
    PowLimitIsMask();
    if difficulty > 1 {
      ShiftedMask(236, difficulty);
    }
  }

  /** Proof of work is a count of leading zero bits, for every 32-byte hash and every difficulty. */
  lemma PowCountsZeros(hash: Bytes, difficulty: u64)
    requires |hash| == 32
    ensures ValidatePoW(HexEncode(hash), difficulty) <==> LeadingZeroBits(hash) >= RequiredZeros(difficulty)
  {
    DecodeUndoesEncode(hash);
    TargetIsMask(difficulty);
    PowLimitIsMask();
    var k := 256 - RequiredZeros(difficulty);
    Pow2Monotone(k, 236);
    ValueBelowPowerIffZeros(hash, k);
  }

  /** The test as a bound, for hashes of every length. */
  lemma PowIsBound(hash: Bytes, difficulty: u64)
    ensures ValidatePoW(HexEncode(hash), difficulty) <==> BytesValue(hash) < Pow2(256 - RequiredZeros(difficulty))
  {
    DecodeUndoesEncode(hash);
    TargetIsMask(difficulty);
    PowLimitIsMask();
    Pow2Monotone(256 - RequiredZeros(difficulty), 236);
  }

  /** A hash good enough for a difficulty is good enough for every lower one, whatever its length. */
  lemma PowAntitone(hash: Bytes, low: u64, high: u64)
    requires low <= high
    requires ValidatePoW(HexEncode(hash), high)
    ensures ValidatePoW(HexEncode(hash), low)
  {
    DecodeUndoesEncode(hash);
    TargetIsMask(low);
    TargetIsMask(high);
    Pow2Monotone(256 - RequiredZeros(high), 256 - RequiredZeros(low));
  }
}
