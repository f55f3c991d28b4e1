/** What the validator accepts, in plain terms, and that every block of every chain meets it. */
module Acceptance {
  import opened MachineInts
  import opened Hex
  import opened Transfers
  import opened Powers
  import opened Consensus
  import opened Emission
  import opened ProofOfWork
  import opened Blocks
  import opened Validator
  import opened Chains
  import opened Runs

  // ---- The reward schedule ----

  lemma HalvingBrackets(y: nat, x: nat, p: nat)
    requires y * p <= x < (y + 1) * p
    ensures (y / 2) * (2 * p) <= x < (y / 2 + 1) * (2 * p)
  {
    var h := y / 2;
    assert h * (2 * p) == (2 * h) * p && (h + 1) * (2 * p) == (2 * h + 2) * p;
    if y == 2 * h {
      assert (y + 2) * p == (y + 1) * p + p;
    } else {
      assert y == 2 * h + 1;
      assert y * p == (2 * h) * p + p;
    }
  }

  lemma {:induction false} ShiftIsQuotient(x: nat, n: nat)
    ensures Shifted(x, n) * Pow2(n) <= x < (Shifted(x, n) + 1) * Pow2(n)
  {
    if n > 0 {
      ShiftIsQuotient(x, n - 1);
      HalvingBrackets(Shifted(x, n - 1), x, Pow2(n - 1));
    }
  }

  /** The reward at a height is 50 coins divided by two once per 7,850,000 blocks, rounded down. */
  lemma RewardIsHalved(height: u64)
    ensures
      var r, p := CalculateBlockReward(height), Pow2(height / 7_850_000);
      r * p <= 5_000_000_000 < (r + 1) * p
  {
    RewardIsShift(height);
    ShiftIsQuotient(BLOCK_REWARD, height / HALVING_INTERVAL);
  }

  /** The reward due is the schedule's, but never more than is left to issue. */
  lemma RewardDueIs(height: u64, supply: u64)
    ensures
      var left := if supply < 78_500_000_000_000_000 then 78_500_000_000_000_000 - supply else 0;
      RewardDue(height, supply) == if CalculateBlockReward(height) < left then CalculateBlockReward(height) else left
  {
  }

  // ---- The rules for a block on its parent ----

  /** What does not depend on the parent. */
  predicate MeetsStandards(json: Json, b: LedgerBlock, supply: u64) {
    && (b.index > 0 ==> b.miner == "SYSTEM_GENESIS" || "xcosh" <= b.miner)
    && BytesValue(b.hash) < Pow2(256 - RequiredZeros(b.difficulty))
    && b.maxSupply in {0, 78_500_000_000_000_000}
    && b.halvingInterval in {0, 7_850_000}
    && |json.block(b)| <= 4_194_304
    && (supply >= 78_500_000_000_000_000 ==> b.reward == 0)
    && (supply < 78_500_000_000_000_000 ==>
          b.reward == if supply + CalculateBlockReward(b.index) <= 78_500_000_000_000_000
                      then CalculateBlockReward(b.index) else 78_500_000_000_000_000 - supply)
  }

  predicate Follows(b: LedgerBlock, parent: LedgerBlock) {
    && b.index == (parent.index + 1) % TWO_64
    && b.timestamp > parent.timestamp
    && b.prevHash == parent.hash
  }

  /** The validator accepts a block on a parent exactly when it follows the parent and meets the
      standards. */
  lemma AcceptedIff(json: Json, b: LedgerBlock, parent: LedgerBlock, supply: u64)
    ensures Accepts(json, b, parent, supply) <==> Follows(b, parent) && MeetsStandards(json, b, supply)
  {
    StandardsIff(json, b, supply);
    PositionIff(b, parent);
    SplitVerdict(json, b, Some(parent), supply);
  }

  /** And one without a parent exactly when it is at height 0 and meets them. */
  lemma AcceptedAloneIff(json: Json, b: LedgerBlock, supply: u64)
    ensures
      ValidateBlockConsensus(json, b, None, supply) == Valid <==> b.index == 0 && MeetsStandards(json, b, supply)
  {
    StandardsIff(json, b, supply);
    SplitVerdict(json, b, None, supply);
  }

  /** The checks after the position, in the validator's own terms. */
  predicate PassesRest(json: Json, b: LedgerBlock, supply: u64) {
    && (b.index > 0 && b.miner != SYSTEM_GENESIS ==> HasPrefix(b.miner, ADDRESS_PREFIX))
    && ValidatePoW(HexEncode(b.hash), b.difficulty)
    && OrMaxSupply(b.maxSupply) == MAX_SUPPLY
    && OrHalvingInterval(b.halvingInterval) == HALVING_INTERVAL
    && |json.block(b)| <= MAX_BLOCK_SIZE_BYTES
    && b.reward == RewardDue(b.index, supply)
  }

  lemma SplitVerdict(json: Json, b: LedgerBlock, parent: Option<LedgerBlock>, supply: u64)
    ensures
      ValidateBlockConsensus(json, b, parent, supply) == Valid <==>
      CheckPosition(b, parent) == Valid && PassesRest(json, b, supply)
  {
  }

  lemma PositionIff(b: LedgerBlock, parent: LedgerBlock)
    ensures CheckPosition(b, Some(parent)) == Valid <==> Follows(b, parent)
  {
  }

  lemma StandardsIff(json: Json, b: LedgerBlock, supply: u64)
    ensures PassesRest(json, b, supply) <==> MeetsStandards(json, b, supply)
  {
    PowIsBound(b.hash, b.difficulty);
    RewardDueIs(b.index, supply);
  }

  /** Every refusal names a rule the block breaks. */
  lemma RefusalIsRight(json: Json, b: LedgerBlock, parent: Option<LedgerBlock>, supply: u64)
    ensures
      match ValidateBlockConsensus(json, b, parent, supply)
      case Valid => true
      case WrongIndex => parent.Some? && b.index != (parent.value.index + 1) % TWO_64
      case TimestampNotAfterParent => parent.Some? && b.timestamp <= parent.value.timestamp
      case BrokenLink => parent.Some? && b.prevHash != parent.value.hash
      case NonZeroGenesisIndex => parent.None? && b.index != 0
      case BadMinerPrefix => b.index > 0 && b.miner != "SYSTEM_GENESIS" && !("xcosh" <= b.miner)
      case BadProofOfWork => BytesValue(b.hash) >= Pow2(256 - RequiredZeros(b.difficulty))
      case WrongMaxSupply => b.maxSupply !in {0, 78_500_000_000_000_000}
      case WrongHalvingInterval => b.halvingInterval !in {0, 7_850_000}
      case BlockTooLarge => |json.block(b)| > 4_194_304
      case WrongReward => b.reward != RewardDue(b.index, supply)
  {
    PowIsBound(b.hash, b.difficulty);
  }

  // ---- Chains and runs ----

  /** Block i follows the block before and meets the standards at the supply issued by then. */
  predicate RuledAt(json: Json, chain: seq<LedgerBlock>, i: nat)
    requires 0 < i < |chain|
  {
    Follows(chain[i], chain[i - 1]) && MeetsStandards(json, chain[i], CirculatingSupply(chain[..i]))
  }

  /** Valid chains are genesis and blocks that keep the rules. */
  lemma ValidChainIff(json: Json, chain: seq<LedgerBlock>)
    ensures
      ValidChain(json, chain) <==>
      |chain| > 0 && IsGenesis(chain[0]) && forall i :: 0 < i < |chain| ==> RuledAt(json, chain, i)
  {
    forall i | 0 < i < |chain| ensures AcceptedAt(json, chain, i) <==> RuledAt(json, chain, i) {
      AcceptedIff(json, chain[i], chain[i - 1], CirculatingSupply(chain[..i]));
    }
  }

  /** After every run from an empty disk every block on the chain of a running node keeps the rules. */
  lemma EveryRunKeepsRules(w: World, steps: seq<Step>)
    requires Possible(w, Down(map[]), steps) && Behaved(w, Down(map[]), steps)
    ensures
      var n := Run(w, Down(map[]), steps);
      n.Up? ==>
        && |n.l.chain| > 0 && IsGenesis(n.l.chain[0])
        && forall i :: 0 < i < |n.l.chain| ==> RuledAt(w.json, n.l.chain, i)
  {
    EveryRunIsReplay(w, steps);
    var n := Run(w, Down(map[]), steps);
    if n.Up? {
      ValidChainIff(w.json, n.l.chain);
    }
  }
}
