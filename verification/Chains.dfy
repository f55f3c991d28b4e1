/** Chains of validated blocks and what holds along all of them. */
module Chains {
  import opened MachineInts
  import opened Consensus
  import opened Emission
  import opened Blocks
  import opened Validator

  const GENESIS_TIMESTAMP: i64 := 1770249600
  const PSZ_TIMESTAMP: string := "anjayyy"

  /** The genesis block before mining. */
  function GenesisDraft(difficulty: u32): LedgerBlock {
    LedgerBlock(0, GENESIS_TIMESTAMP, seq(64, i => 0), [], [], SYSTEM_GENESIS, 0, difficulty, GENESIS_BITS,
                CalculateBlockReward(0), MAX_SUPPLY, HALVING_INTERVAL, PSZ_TIMESTAMP)
  }

  predicate IsGenesis(b: LedgerBlock) {
    b == GenesisDraft(b.difficulty).(nonce := b.nonce, hash := b.hash)
  }

  /** Genesis in plain values. */
  lemma GenesisIs(b: LedgerBlock)
    requires IsGenesis(b)
    ensures b.index == 0 && b.timestamp == 1770249600 && b.transfers == [] && b.miner == "SYSTEM_GENESIS"
    ensures |b.prevHash| == 64 && forall i :: 0 <= i < 64 ==> b.prevHash[i] == 0
    ensures b.bits == 0x1e0ffff0 && b.reward == 5_000_000_000 && b.message == "anjayyy"
    ensures b.maxSupply == 78_500_000_000_000_000 && b.halvingInterval == 7_850_000
  {
    assert CalculateBlockReward(0) == BLOCK_REWARD;
  }

  /** The true sum of the rewards of a chain. */
  function SupplyOf(chain: seq<LedgerBlock>): nat {
    if |chain| == 0 then 0 else SupplyOf(chain[..|chain| - 1]) + chain[|chain| - 1].reward
  }

  /** GetTotalCirculatingSupply: the same sum in a uint64. */
  function CirculatingSupply(chain: seq<LedgerBlock>): u64 {
    if |chain| == 0 then 0 else Add64(CirculatingSupply(chain[..|chain| - 1]), chain[|chain| - 1].reward)
  }

  /** The validator accepts block i on top of what precedes it. */
  predicate AcceptedAt(json: Json, chain: seq<LedgerBlock>, i: nat)
    requires 0 < i < |chain|
  {
    Accepts(json, chain[i], chain[i - 1], CirculatingSupply(chain[..i]))
  }

  /** Genesis, then blocks each accepted by the validator on top of what precedes it. */
  predicate ValidChain(json: Json, chain: seq<LedgerBlock>) {
    && |chain| > 0
    && IsGenesis(chain[0])
    && forall i :: 0 < i < |chain| ==> AcceptedAt(json, chain, i)
  }

  function Tip(chain: seq<LedgerBlock>): LedgerBlock
    requires |chain| > 0
  {
    chain[|chain| - 1]
  }

  lemma PrefixOfPrefix<T>(xs: seq<T>, m: nat, n: nat)
    requires m <= n <= |xs|
    ensures xs[..n][..m] == xs[..m]
  {
  }

  lemma ValidPrefix(json: Json, chain: seq<LedgerBlock>, n: nat)
    requires ValidChain(json, chain)
    requires 1 <= n <= |chain|
    ensures ValidChain(json, chain[..n])
  {
    forall i | 0 < i < n ensures AcceptedAt(json, chain[..n], i) {
      assert AcceptedAt(json, chain, i);
      PrefixOfPrefix(chain, i, n);
    }
  }

  /** A valid chain grows by a block exactly when the validator accepts it on the tip. */
  lemma ChainExtends(json: Json, chain: seq<LedgerBlock>, b: LedgerBlock)
    requires ValidChain(json, chain)
    ensures ValidChain(json, chain + [b]) <==> Accepts(json, b, Tip(chain), CirculatingSupply(chain))
  {
    var all, n := chain + [b], |chain|;
    assert all[..n] == chain;
    assert AcceptedAt(json, all, n) <==> Accepts(json, b, Tip(chain), CirculatingSupply(chain));
    forall i | 0 < i < n ensures AcceptedAt(json, all, i) {
      assert AcceptedAt(json, chain, i);
      PrefixOfPrefix(all, i, n);
    }
  }

  /** How block i stands to the block before it. */
  predicate LinkedAt(chain: seq<LedgerBlock>, i: nat)
    requires 0 < i < |chain|
  {
    && chain[i].index == Add64(chain[i - 1].index, 1)
    && chain[i].timestamp > chain[i - 1].timestamp
    && chain[i].prevHash == chain[i - 1].hash
    && chain[i].reward == RewardDue(chain[i].index, CirculatingSupply(chain[..i]))
  }

  ghost predicate Linked(chain: seq<LedgerBlock>) {
    && |chain| > 0
    && IsGenesis(chain[0])
    && forall i :: 0 < i < |chain| ==> LinkedAt(chain, i)
  }

  lemma AcceptedIsLinked(json: Json, chain: seq<LedgerBlock>, i: nat)
    requires 0 < i < |chain| && AcceptedAt(json, chain, i)
    ensures LinkedAt(chain, i)
  {
  }

  lemma ValidIsLinked(json: Json, chain: seq<LedgerBlock>)
    requires ValidChain(json, chain)
    ensures Linked(chain)
  {
    forall i | 0 < i < |chain| ensures LinkedAt(chain, i) {
      AcceptedIsLinked(json, chain, i);
    }
  }

  /** Timestamps climb from genesis, so they bound the height of a chain. */
  lemma {:induction false} HeightAt(chain: seq<LedgerBlock>, i: nat)
    requires Linked(chain) && i < |chain|
    ensures chain[i].timestamp >= GENESIS_TIMESTAMP + i
    ensures i < TWO_64 - 2
    ensures chain[i].index == i
  {
    if i > 0 {
      HeightAt(chain, i - 1);
      assert LinkedAt(chain, i);
    }
  }

  lemma ChainHeight(json: Json, chain: seq<LedgerBlock>)
    requires ValidChain(json, chain)
    ensures Tip(chain).timestamp >= GENESIS_TIMESTAMP + |chain| - 1
    ensures |chain| < TWO_64 - 1
    ensures Tip(chain).index == |chain| - 1
  {
    ValidIsLinked(json, chain);
    HeightAt(chain, |chain| - 1);
  }

  /** With the schedule's emission issued so far, the reward due is never cut off. */
  lemma CapNeverFires(n: nat)
    requires n < TWO_64
    ensures Emitted(n) <= MAX_SUPPLY - UNISSUED
    ensures RewardDue(n, Emitted(n)) == CalculateBlockReward(n)
  {
    EmissionCapped(n);
    EmissionCapped(n + 1);
    assert Emitted(n + 1) == Emitted(n) + CalculateBlockReward(n);
  }

  lemma {:induction false} SupplyIsEmission(chain: seq<LedgerBlock>, n: nat)
    requires Linked(chain) && 1 <= n <= |chain| < TWO_64
    ensures SupplyOf(chain[..n]) == CirculatingSupply(chain[..n]) == Emitted(n)
    ensures chain[n - 1].reward == CalculateBlockReward(n - 1)
  {
    CapNeverFires(n - 1);
    CapNeverFires(n);
    assert chain[..n][..n - 1] == chain[..n - 1];
    if n > 1 {
      SupplyIsEmission(chain, n - 1);
      HeightAt(chain, n - 1);
      assert LinkedAt(chain, n - 1);
    } else {
      assert chain[..0] == [];
    }
    assert Emitted(n) == Emitted(n - 1) + CalculateBlockReward(n - 1);
  }

  lemma LinkedSupply(chain: seq<LedgerBlock>)
    requires Linked(chain) && |chain| < TWO_64
    ensures SupplyOf(chain) == CirculatingSupply(chain) == Emitted(|chain|) <= MAX_SUPPLY - UNISSUED
  {
    SupplyIsEmission(chain, |chain|);
    assert chain[..|chain|] == chain;
    CapNeverFires(|chain|);
  }

  /** The supply of a valid chain is the schedule's emission, and the next reward due is the
      schedule's: neither the cap nor the wrapping sum ever shows. */
  lemma ChainSupply(json: Json, chain: seq<LedgerBlock>)
    requires ValidChain(json, chain)
    ensures |chain| < TWO_64
    ensures SupplyOf(chain) == CirculatingSupply(chain) == Emitted(|chain|) <= MAX_SUPPLY - UNISSUED
    ensures RewardDue(|chain|, CirculatingSupply(chain)) == CalculateBlockReward(|chain|)
  {
    ChainHeight(json, chain);
    ValidIsLinked(json, chain);
    LinkedSupply(chain);
    CapNeverFires(|chain|);
  }

  /** What holds at every height of a valid chain. */
  ghost predicate WellFormedAt(chain: seq<LedgerBlock>, i: nat)
    requires i < |chain| < TWO_64
  {
    && chain[i].index == i
    && chain[i].reward == CalculateBlockReward(i)
    && (i > 0 ==>
          && chain[i].timestamp > chain[i - 1].timestamp
          && chain[i].prevHash == chain[i - 1].hash)
  }

  /** Indices count, timestamps strictly increase, hashes link, every reward is the schedule's. */
  lemma ChainWellFormed(json: Json, chain: seq<LedgerBlock>)
    requires ValidChain(json, chain)
    ensures |chain| < TWO_64
    ensures IsGenesis(chain[0])
    ensures forall i :: 0 <= i < |chain| ==> WellFormedAt(chain, i)
  {
    ChainHeight(json, chain);
    ValidIsLinked(json, chain);
    forall i | 0 <= i < |chain| ensures WellFormedAt(chain, i) {
      HeightAt(chain, i);
      SupplyIsEmission(chain, i + 1);
      assert i > 0 ==> LinkedAt(chain, i);
    }
  }
}
