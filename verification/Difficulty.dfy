/** The difficulty rule along whole mined chains. */
module Difficulty {
  import opened MachineInts
  import opened Transfers
  import opened Blocks
  import opened Chains
  import opened Mining

  predicate FollowsRule(parent: LedgerBlock, b: LedgerBlock) {
    b.difficulty == NextDifficulty(parent, b.timestamp)
  }

  /** A chain all of whose blocks carry the difficulty MineBlock would give them. */
  predicate Retargeted(chain: seq<LedgerBlock>) {
    forall i :: 0 < i < |chain| ==> FollowsRule(chain[i - 1], chain[i])
  }

  lemma MinedBlockFollowsRule(w: World, chain: seq<LedgerBlock>, transfers: seq<Transfer>, miner: string, engineBits: u32, now: i64, nonce: u64)
    requires |chain| > 0 && Retargeted(chain)
    ensures Retargeted(chain + [Finish(w, Draft(chain, transfers, miner, engineBits, now), engineBits, nonce)])
  {
    var all := chain + [Finish(w, Draft(chain, transfers, miner, engineBits, now), engineBits, nonce)];
    forall i | 0 < i < |all| ensures FollowsRule(all[i - 1], all[i]) {
      assert i < |chain| ==> FollowsRule(chain[i - 1], chain[i]);
    }
  }

  /** The difference of two int64 timestamps as the code computes it. */
  function Elapsed(parent: LedgerBlock, timestamp: i64): i64 {
    WrapI64(timestamp - parent.timestamp)
  }

  /** The timestamps let the rule change the difficulty: it keeps it on a parent at time zero and on a
      clock that has not moved. */
  predicate ClockAdvanced(parent: LedgerBlock, timestamp: i64) {
    parent.timestamp != 0 && timestamp > parent.timestamp
  }

  /** One retarget, for every parent and every timestamp: up below 35 seconds, down above 70 but
      never below 1. */
  lemma RetargetStep(parent: LedgerBlock, timestamp: i64)
    ensures
      var d, d' := parent.difficulty, NextDifficulty(parent, timestamp);
      var elapsed := Elapsed(parent, timestamp);
      d' == if ClockAdvanced(parent, timestamp) && elapsed < 35 then (d + 1) % TWO_32
            else if ClockAdvanced(parent, timestamp) && elapsed > 70 && d > 1 then d - 1
            else if d == 0 then 1 else d
    ensures 0 <= parent.timestamp < timestamp ==> Elapsed(parent, timestamp) == timestamp - parent.timestamp
  {
  }

  /** The next difficulty is at least 1 unless the cast to uint32 drops a carry. */
  lemma RetargetPositiveIff(parent: LedgerBlock, timestamp: i64)
    ensures
      NextDifficulty(parent, timestamp) >= 1 <==>
      !(parent.difficulty == TWO_32 - 1 && ClockAdvanced(parent, timestamp) && Elapsed(parent, timestamp) < 35)
  {
    RetargetStep(parent, timestamp);
  }

  /** The difficulty the clock asks for on top of a block: up when the clock stands within 35 seconds of
      it, before it included, down when it stands more than 70 after it. */
  function DifficultyAtClock(parent: LedgerBlock, now: i64): u32 {
    var t, d := parent.timestamp, parent.difficulty;
    if now < t + 35 then (d + 1) % TWO_32
    else if now > t + 70 && d > 1 then d - 1
    else if d == 0 then 1 else d
  }

  /** The timestamp rule and the difficulty rule together ask for just that. */
  lemma ClockRetargets(parent: LedgerBlock, now: i64)
    requires 0 < parent.timestamp < MAX_I64
    ensures NextDifficulty(parent, BlockTime(parent, now)) == DifficultyAtClock(parent, now)
  {
    RetargetStep(parent, BlockTime(parent, now));
  }

  lemma DraftDifficulty(chain: seq<LedgerBlock>, transfers: seq<Transfer>, miner: string, engineBits: u32, now: i64)
    requires |chain| > 0 && 0 < Tip(chain).timestamp < MAX_I64
    ensures Draft(chain, transfers, miner, engineBits, now).difficulty == DifficultyAtClock(Tip(chain), now)
  {
    ClockRetargets(Tip(chain), now);
  }

  /** So is that of a mined block. */
  lemma MinedDifficulty(w: World, chain: seq<LedgerBlock>, transfers: seq<Transfer>, miner: string, engineBits: u32, now: i64, nonce: u64)
    requires |chain| > 0 && 0 < Tip(chain).timestamp < MAX_I64
    ensures
      Finish(w, Draft(chain, transfers, miner, engineBits, now), engineBits, nonce).difficulty ==
      DifficultyAtClock(Tip(chain), now)
  {
    DraftDifficulty(chain, transfers, miner, engineBits, now);
    FinishKeeps(w, Draft(chain, transfers, miner, engineBits, now), engineBits, nonce);
  }

  predicate Climbs(chain: seq<LedgerBlock>) {
    && |chain| > 0
    && chain[0].timestamp == GENESIS_TIMESTAMP
    && forall i :: 0 < i < |chain| ==> chain[i - 1].timestamp < chain[i].timestamp
  }

  lemma {:induction false} DifficultyAt(chain: seq<LedgerBlock>, i: nat)
    requires Climbs(chain) && Retargeted(chain)
    requires chain[0].difficulty >= 1
    requires i < |chain| && chain[0].difficulty + i < TWO_32
    ensures 1 <= chain[i].difficulty <= chain[0].difficulty + i
    ensures i > 0 ==> -1 <= chain[i].difficulty - chain[i - 1].difficulty <= 1
    ensures 71 * (chain[0].difficulty - chain[i].difficulty) <= chain[i].timestamp - chain[0].timestamp
    ensures chain[i].timestamp >= GENESIS_TIMESTAMP
  {
    if i > 0 {
      DifficultyAt(chain, i - 1);
      assert FollowsRule(chain[i - 1], chain[i]);
      RetargetStep(chain[i - 1], chain[i].timestamp);
    }
  }

  /** Over a mined chain no longer than the room above the initial difficulty: the difficulty stays
      at least 1, moves by at most 1, climbs no faster than the height, and to fall by k it takes
      more than 70 seconds k times. */
  lemma DifficultyBounds(json: Json, chain: seq<LedgerBlock>)
    requires ValidChain(json, chain) && Retargeted(chain)
    requires chain[0].difficulty >= 1 && chain[0].difficulty + |chain| <= TWO_32
    ensures forall i :: 0 <= i < |chain| ==> 1 <= chain[i].difficulty <= chain[0].difficulty + i
    ensures forall i :: 0 < i < |chain| ==> -1 <= chain[i].difficulty - chain[i - 1].difficulty <= 1
    ensures forall i :: 0 <= i < |chain| ==>
      71 * (chain[0].difficulty - chain[i].difficulty) <= chain[i].timestamp - chain[0].timestamp
  {
    ChainWellFormed(json, chain);
    assert Climbs(chain) by {
      forall i | 0 < i < |chain| ensures chain[i - 1].timestamp < chain[i].timestamp {
        assert WellFormedAt(chain, i);
      }
    }
    forall i | 0 <= i < |chain|
      ensures 1 <= chain[i].difficulty <= chain[0].difficulty + i
      ensures i > 0 ==> -1 <= chain[i].difficulty - chain[i - 1].difficulty <= 1
      ensures 71 * (chain[0].difficulty - chain[i].difficulty) <= chain[i].timestamp - chain[0].timestamp
    {
      DifficultyAt(chain, i);
    }
  }
}
