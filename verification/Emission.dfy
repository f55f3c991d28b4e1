/** The coins issued by the halving schedule, summed exactly. */
module Emission {
  import opened MachineInts
  import opened Consensus

  /** The number of one bits. */
  function OneBits(x: nat): nat {
    if x == 0 then 0 else x % 2 + OneBits(x / 2)
  }

  /** The rewards of the heights below n, added up. */
  function Emitted(n: nat): nat
    requires n <= TWO_64
  {
    if n == 0 then 0 else Emitted(n - 1) + CalculateBlockReward(n - 1)
  }

  /** One reward of each of the first e epochs: b + b/2 + ... */
  function HalvingSum(b: nat, e: nat): nat {
    if e == 0 then 0 else HalvingSum(b, e - 1) + Shifted(b, e - 1)
  }

  lemma HalvingLosesLowBit(x: nat)
    ensures OneBits(x) == OneBits(x / 2) + x % 2
    ensures x == 2 * (x / 2) + x % 2
  {
  }

  /** Halving loses one bit at a time, so the sum telescopes. */
  lemma {:induction false} HalvingSumClosedForm(b: nat, e: nat)
    ensures HalvingSum(b, e) == 2 * (b - Shifted(b, e)) - (OneBits(b) - OneBits(Shifted(b, e)))
  {
    if e > 0 {
      HalvingSumClosedForm(b, e - 1);
      HalvingLosesLowBit(Shifted(b, e - 1));
    }
  }

  lemma {:induction false} ShiftedAdds(x: nat, a: nat, b: nat)
    ensures Shifted(Shifted(x, a), b) == Shifted(x, a + b)
  {
    if b > 0 {
      ShiftedAdds(x, a, b - 1);
    }
  }

  lemma {:induction false} ShiftedZero(n: nat)
    ensures Shifted(0, n) == 0
  {
    if n > 0 {
      ShiftedZero(n - 1);
    }
  }

  lemma RewardAfter16()
    ensures Shifted(BLOCK_REWARD, 16) == 76293
  {
    var b := BLOCK_REWARD;
    assert Shifted(b, 4) == 312500000;
    ShiftedAdds(b, 4, 4);
    assert Shifted(312500000, 4) == 19531250;
    ShiftedAdds(b, 8, 4);
    assert Shifted(19531250, 4) == 1220703;
    ShiftedAdds(b, 12, 4);
    assert Shifted(1220703, 4) == 76293;
  }

  lemma SmallExhausted(x: nat)
    requires x == 76293
    ensures Shifted(x, 17) == 0
  {
    assert Shifted(x, 4) == 4768;
    ShiftedAdds(x, 4, 4);
    assert Shifted(4768, 4) == 298;
    ShiftedAdds(x, 8, 4);
    assert Shifted(298, 4) == 18;
    ShiftedAdds(x, 12, 5);
    assert Shifted(18, 5) == 0;
  }

  /** The reward fits in 33 bits, so the 33rd halving leaves nothing. */
  lemma RewardExhausted(e: nat)
    requires e >= 33
    ensures Shifted(BLOCK_REWARD, e) == 0
  {
    RewardAfter16();
    SmallExhausted(76293);
    ShiftedAdds(BLOCK_REWARD, 16, 17);
    ShiftedAdds(BLOCK_REWARD, 33, e - 33);
    ShiftedZero(e - 33);
  }

  /** The 64-halving guard of the schedule never changes a reward. */
  lemma RewardIsShift(i: u64)
    ensures CalculateBlockReward(i) == Shifted(BLOCK_REWARD, i / HALVING_INTERVAL)
  {
    if i / HALVING_INTERVAL >= 64 {
      RewardExhausted(i / HALVING_INTERVAL);
    }
  }

  /** Stepping one height on either stays in the epoch or opens the next. */
  lemma EpochStep(n: nat)
    requires n > 0
    ensures
      var e, r := (n - 1) / HALVING_INTERVAL, (n - 1) % HALVING_INTERVAL;
      if r + 1 < HALVING_INTERVAL
      then n / HALVING_INTERVAL == e && n % HALVING_INTERVAL == r + 1
      else n / HALVING_INTERVAL == e + 1 && n % HALVING_INTERVAL == 0
  {
  }

  /** e whole epochs and r blocks of the next. */
  function ByEpoch(e: nat, r: nat): nat {
    HALVING_INTERVAL * HalvingSum(BLOCK_REWARD, e) + r * Shifted(BLOCK_REWARD, e)
  }

  lemma ByEpochStep(e: nat, r: nat)
    ensures ByEpoch(e, r + 1) == ByEpoch(e, r) + Shifted(BLOCK_REWARD, e)
    ensures ByEpoch(e, HALVING_INTERVAL) == ByEpoch(e + 1, 0)
  {
    var s := Shifted(BLOCK_REWARD, e);
    assert (r + 1) * s == r * s + s;
    assert HalvingSum(BLOCK_REWARD, e + 1) == HalvingSum(BLOCK_REWARD, e) + s;
  }

  lemma {:induction false} EmittedByEpoch(n: nat)
    requires n <= TWO_64
    ensures Emitted(n) == ByEpoch(n / HALVING_INTERVAL, n % HALVING_INTERVAL)
  {
    if n > 0 {
      EmittedByEpoch(n - 1);
      RewardIsShift(n - 1);
      EpochStep(n);
      ByEpochStep((n - 1) / HALVING_INTERVAL, (n - 1) % HALVING_INTERVAL);
    }
  }

  /** The emission below any height, without a sum: B' is the reward of the epoch the height is in. */
  lemma EmissionClosedForm(n: nat)
    requires n <= TWO_64
    ensures
      var b' := Shifted(BLOCK_REWARD, n / HALVING_INTERVAL);
      Emitted(n) ==
        HALVING_INTERVAL * (2 * (BLOCK_REWARD - b') - (OneBits(BLOCK_REWARD) - OneBits(b')))
        + n % HALVING_INTERVAL * b'
  {
    EmittedByEpoch(n);
    HalvingSumClosedForm(BLOCK_REWARD, n / HALVING_INTERVAL);
  }

  lemma OneBitsAppend(x: nat, b: nat)
    requires b < 2
    ensures OneBits(2 * x + b) == OneBits(x) + b
  {
    assert (2 * x + b) / 2 == x && (2 * x + b) % 2 == b;
  }

  lemma OneBitsPair(q: nat, b1: nat, b0: nat)
    requires b1 < 2 && b0 < 2
    ensures OneBits(4 * q + 2 * b1 + b0) == OneBits(q) + b1 + b0
  {
    OneBitsAppend(q, b1);
    OneBitsAppend(2 * q + b1, b0);
    assert 2 * (2 * q + b1) + b0 == 4 * q + 2 * b1 + b0;
  }

  lemma OneBitsNibble(q: nat, b3: nat, b2: nat, b1: nat, b0: nat)
    requires b3 < 2 && b2 < 2 && b1 < 2 && b0 < 2
    ensures OneBits(16 * q + 8 * b3 + 4 * b2 + 2 * b1 + b0) == OneBits(q) + b3 + b2 + b1 + b0
  {
    var h := 4 * q + 2 * b3 + b2;
    assert OneBits(h) == OneBits(q) + b3 + b2 by {
      OneBitsPair(q, b3, b2);
    }
    assert OneBits(4 * h + 2 * b1 + b0) == OneBits(h) + b1 + b0 by {
      OneBitsPair(h, b1, b0);
    }
    assert 4 * h + 2 * b1 + b0 == 16 * q + 8 * b3 + 4 * b2 + 2 * b1 + b0;
  }

  /** The initial reward is 0x12A05F200: the bits of its first five hex digits, then of the last four. */
  lemma OneBitsHigh(x: nat)
    requires x == 0x12A05
    ensures OneBits(x) == 6
  {
    OneBitsAppend(0, 1);
    OneBitsNibble(x / 0x10000, 0, 0, 1, 0);
    OneBitsNibble(x / 0x1000, 1, 0, 1, 0);
    OneBitsNibble(x / 0x100, 0, 0, 0, 0);
    OneBitsNibble(x / 0x10, 0, 1, 0, 1);
  }

  lemma OneBitsLow(q: nat)
    ensures OneBits(0x10000 * q + 0xF200) == OneBits(q) + 5
  {
    OneBitsNibble(q, 1, 1, 1, 1);
    OneBitsNibble(0x10 * q + 0xF, 0, 0, 1, 0);
    OneBitsNibble(0x100 * q + 0xF2, 0, 0, 0, 0);
    OneBitsNibble(0x1000 * q + 0xF20, 0, 0, 0, 0);
  }

  lemma OneBitsOfReward()
    ensures OneBits(BLOCK_REWARD) == 11
  {
    OneBitsHigh(0x12A05);
    OneBitsLow(0x12A05);
    assert BLOCK_REWARD == 0x10000 * 0x12A05 + 0xF200;
  }

  lemma {:induction false} EmittedMonotone(m: nat, n: nat)
    requires m <= n <= TWO_64
    ensures Emitted(m) <= Emitted(n)
    decreases n
  {
    if m < n {
      EmittedMonotone(m, n - 1);
    }
  }

  /** What the schedule withholds from MaxSupply for good: one interval for each one bit of the
      initial reward. */
  const UNISSUED: nat := 86_350_000

  const LAST_REWARDED_HEIGHT: nat := 259_050_000

  lemma EmissionFinal(n: nat)
    requires LAST_REWARDED_HEIGHT <= n <= TWO_64
    ensures Emitted(n) == MAX_SUPPLY - UNISSUED
    ensures n < TWO_64 ==> CalculateBlockReward(n) == 0
  {
    var e := n / HALVING_INTERVAL;
    assert e >= 33;
    RewardExhausted(e);
    OneBitsOfReward();
    EmissionClosedForm(n);
    if n < TWO_64 {
      RewardIsShift(n);
    }
  }

  /** No height gets the schedule above the final emission, so the cap is never within reach. */
  lemma EmissionCapped(n: nat)
    requires n <= TWO_64
    ensures Emitted(n) <= MAX_SUPPLY - UNISSUED
  {
    EmittedMonotone(n, TWO_64);
    EmissionFinal(TWO_64);
  }
}
