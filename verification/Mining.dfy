/** The unlocked middle of MineBlock: building, mining and self-checking the next block. */
module Mining {
  import opened MachineInts
  import opened Transfers
  import opened Consensus
  import opened Blocks
  import opened Accounts
  import opened Validator
  import opened Chains
  import NonceSearch

  /** The clock reading, moved past the parent when it is not already. The addition wraps. */
  function BlockTime(parent: LedgerBlock, now: i64): i64 {
    if now <= parent.timestamp then WrapI64(parent.timestamp + 1) else now
  }

  function NextDifficulty(parent: LedgerBlock, timestamp: i64): u32 {
    ToU32(CalculateNextDifficulty(parent.timestamp, timestamp, parent.difficulty))
  }

  /** The block handed to the nonce search. */
  function Draft(chain: seq<LedgerBlock>, transfers: seq<Transfer>, miner: string, engineBits: u32, now: i64): LedgerBlock
    requires |chain| > 0
  {
    var parent := Tip(chain);
    var index := Add64(parent.index, 1);
    var time := BlockTime(parent, now);
    LedgerBlock(index, time, parent.hash, [], transfers, miner, 0, NextDifficulty(parent, time), engineBits,
                RewardDue(index, CirculatingSupply(chain)), MAX_SUPPLY, HALVING_INTERVAL, "")
  }

  /** The draft after Mine has filled it in and the nonce, the hash and the reward have been set. */
  function Finish(w: World, draft: LedgerBlock, engineBits: u32, nonce: u64): LedgerBlock {
    var filled := FillDefaults(draft, engineBits);
    filled.(nonce := nonce, hash := HashAt(w, filled, nonce), reward := draft.reward)
  }

  /** The nonces the search may deliver for a draft. The engine's target is the draft's difficulty. */
  predicate Delivers(w: World, draft: LedgerBlock, engineBits: u32, nonce: u64) {
    Wins(w, FillDefaults(draft, engineBits), draft.difficulty, nonce)
  }

  /** What the search for a draft, over any number of workers and in any interleaving, hands to Mine
      is a nonce it may deliver, and the hash it sends along is the finished block's. */
  lemma SearchDelivers(w: World, draft: LedgerBlock, engineBits: u32, workers: nat, steps: seq<NonceSearch.Step>)
    requires workers * 1000000000 < TWO_64
    requires
      var search := NonceSearch.Task(w, FillDefaults(draft, engineBits), draft.difficulty);
      && NonceSearch.Possible(search, NonceSearch.Start(workers), steps)
      && NonceSearch.Run(search, NonceSearch.Start(workers), steps).delivered.Some?
    ensures
      var search := NonceSearch.Task(w, FillDefaults(draft, engineBits), draft.difficulty);
      var found := NonceSearch.Run(search, NonceSearch.Start(workers), steps).delivered.value;
      && Delivers(w, draft, engineBits, found.nonce)
      && Finish(w, draft, engineBits, found.nonce).hash == found.hash
  {
    NonceSearch.DeliveryWins(NonceSearch.Task(w, FillDefaults(draft, engineBits), draft.difficulty), workers, steps);
  }

  predicate MayMine(miner: string) {
    miner == SYSTEM_GENESIS || HasPrefix(miner, ADDRESS_PREFIX)
  }

  /** Mine fills in only fields that are zero: the schedule's reward above genesis, the supply, the
      halving interval, and the engine's bits. */
  lemma FillsZeros(b: LedgerBlock, engineBits: u32)
    ensures
      var f := FillDefaults(b, engineBits);
      && f.(reward := b.reward, maxSupply := b.maxSupply, halvingInterval := b.halvingInterval, bits := b.bits) == b
      && (b.reward > 0 || b.index == 0 ==> f.reward == b.reward)
      && (b.reward == 0 < b.index ==> f.reward == CalculateBlockReward(b.index))
      && (b.maxSupply > 0 ==> f.maxSupply == b.maxSupply)
      && (b.maxSupply == 0 ==> f.maxSupply == 78_500_000_000_000_000)
      && (b.halvingInterval > 0 ==> f.halvingInterval == b.halvingInterval)
      && (b.halvingInterval == 0 ==> f.halvingInterval == 7_850_000)
      && f.bits == (if b.bits > 0 then b.bits else engineBits)
  {
  }

  /** What searching and completing a draft leaves as it was. */
  lemma FinishKeeps(w: World, draft: LedgerBlock, engineBits: u32, nonce: u64)
    ensures
      var b := Finish(w, draft, engineBits, nonce);
      && b.index == draft.index && b.timestamp == draft.timestamp && b.prevHash == draft.prevHash
      && b.transfers == draft.transfers && b.miner == draft.miner && b.difficulty == draft.difficulty
      && b.reward == draft.reward && b.message == draft.message && b.nonce == nonce
      && (draft.bits == engineBits ==> b.bits == engineBits)
      && (draft.maxSupply > 0 ==> b.maxSupply == draft.maxSupply)
      && (draft.halvingInterval > 0 ==> b.halvingInterval == draft.halvingInterval)
  {
  }

  /** The time of a draft: the clock's reading when that is past the tip, one second past the tip when it
      is not, except that the last int64 second is followed by the first. */
  lemma DraftTime(chain: seq<LedgerBlock>, transfers: seq<Transfer>, miner: string, engineBits: u32, now: i64)
    requires |chain| > 0
    ensures
      var time := Draft(chain, transfers, miner, engineBits, now).timestamp;
      var t := Tip(chain).timestamp;
      && (now > t ==> time == now)
      && (now <= t < MAX_I64 ==> time == t + 1)
      && (t == MAX_I64 ==> time == -MAX_I64 - 1)
  {
  }

  lemma DraftFields(chain: seq<LedgerBlock>, transfers: seq<Transfer>, miner: string, engineBits: u32, now: i64)
    requires |chain| > 0
    ensures
      var draft := Draft(chain, transfers, miner, engineBits, now);
      && draft.prevHash == Tip(chain).hash && draft.index == (Tip(chain).index + 1) % TWO_64
      && draft.transfers == transfers && draft.miner == miner && draft.bits == engineBits
      && draft.maxSupply == 78_500_000_000_000_000 && draft.halvingInterval == 7_850_000 && draft.message == ""
  {
  }

  /** The stamp of a mined block. */
  lemma MinedTime(w: World, chain: seq<LedgerBlock>, transfers: seq<Transfer>, miner: string, engineBits: u32, now: i64, nonce: u64)
    requires |chain| > 0
    ensures
      var b := Finish(w, Draft(chain, transfers, miner, engineBits, now), engineBits, nonce);
      var t := Tip(chain).timestamp;
      && (now > t ==> b.timestamp == now)
      && (now <= t < MAX_I64 ==> b.timestamp == t + 1)
      && (t == MAX_I64 ==> b.timestamp == -MAX_I64 - 1)
  {
    DraftTime(chain, transfers, miner, engineBits, now);
    FinishKeeps(w, Draft(chain, transfers, miner, engineBits, now), engineBits, nonce);
  }

  /** The other fields of a mined block. */
  lemma MinedFields(w: World, chain: seq<LedgerBlock>, transfers: seq<Transfer>, miner: string, engineBits: u32, now: i64, nonce: u64)
    requires |chain| > 0
    ensures
      var b := Finish(w, Draft(chain, transfers, miner, engineBits, now), engineBits, nonce);
      && b.prevHash == Tip(chain).hash && b.index == (Tip(chain).index + 1) % TWO_64
      && b.transfers == transfers && b.miner == miner && b.nonce == nonce && b.bits == engineBits
      && b.maxSupply == 78_500_000_000_000_000 && b.halvingInterval == 7_850_000 && b.message == ""
  {
    DraftFields(chain, transfers, miner, engineBits, now);
    FinishKeeps(w, Draft(chain, transfers, miner, engineBits, now), engineBits, nonce);
  }

  /** Mine's fallback for a zero reward changes nothing on a valid chain. */
  lemma FillKeepsReward(json: Json, chain: seq<LedgerBlock>, transfers: seq<Transfer>, miner: string, engineBits: u32, now: i64)
    requires ValidChain(json, chain)
    ensures |chain| < TWO_64
    ensures
      var draft := Draft(chain, transfers, miner, engineBits, now);
      FillDefaults(draft, engineBits).reward == draft.reward == CalculateBlockReward(|chain|)
  {
    ChainHeight(json, chain);
    ChainSupply(json, chain);
  }

  /** Every mined block's stored hash is the hash of the block as stored, at its stored nonce. */
  lemma MinedBlockHashes(w: World, chain: seq<LedgerBlock>, transfers: seq<Transfer>, miner: string, engineBits: u32, now: i64, nonce: u64)
    requires ValidChain(w.json, chain)
    ensures HashesTo(w, Finish(w, Draft(chain, transfers, miner, engineBits, now), engineBits, nonce))
  {
    FillKeepsReward(w.json, chain, transfers, miner, engineBits, now);
    var draft := Draft(chain, transfers, miner, engineBits, now);
    var b := Finish(w, draft, engineBits, nonce);
    assert BlockData(b, nonce) == BlockData(FillDefaults(draft, engineBits), nonce);
  }

  /** Mine leaves the genesis draft as it is. */
  lemma GenesisFilled(difficulty: u32, engineBits: u32)
    ensures FillDefaults(GenesisDraft(difficulty), engineBits) == GenesisDraft(difficulty)
  {
  }

  lemma GenesisHashes(w: World, difficulty: u32, engineBits: u32, nonce: u64)
    ensures
      var b := Finish(w, GenesisDraft(difficulty), engineBits, nonce);
      IsGenesis(b) && b.difficulty == difficulty && HashesTo(w, b)
  {
    GenesisFilled(difficulty, engineBits);
  }

  /** Genesis credits nobody. */
  lemma GenesisReplay(b: LedgerBlock)
    requires IsGenesis(b)
    ensures Replay([b]) == map[]
  {
    ReplayGrows(map[], [], b);
    assert [] + [b] == [b];
  }

  /** The verdict of the self-check on a mined block, in full: it panics only at the end of int64
      time or when the block outgrows the size limit. */
  lemma SelfCheckVerdict(w: World, chain: seq<LedgerBlock>, transfers: seq<Transfer>, miner: string, engineBits: u32, now: i64, nonce: u64)
    requires ValidChain(w.json, chain) && MayMine(miner)
    requires Delivers(w, Draft(chain, transfers, miner, engineBits, now), engineBits, nonce)
    ensures
      var b := Finish(w, Draft(chain, transfers, miner, engineBits, now), engineBits, nonce);
      ValidateBlockConsensus(w.json, b, Some(Tip(chain)), CirculatingSupply(chain)) ==
        if Tip(chain).timestamp == MAX_I64 then TimestampNotAfterParent
        else if |w.json.block(b)| > MAX_BLOCK_SIZE_BYTES then BlockTooLarge
        else Valid
  {
    FillKeepsReward(w.json, chain, transfers, miner, engineBits, now);
    ChainHeight(w.json, chain);
    ChainSupply(w.json, chain);
  }
}
