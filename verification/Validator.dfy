/** core/validator.go: the chain of checks every block must pass. */
module Validator {
  import opened MachineInts
  import opened Hex
  import opened Transfers
  import opened Consensus
  import opened Blocks

  datatype Verdict =
    | Valid
    | WrongIndex | TimestampNotAfterParent | BrokenLink | NonZeroGenesisIndex
    | BadMinerPrefix | BadProofOfWork | WrongMaxSupply | WrongHalvingInterval
    | BlockTooLarge | WrongReward

  /** The reward due at a height when so much has been issued: the schedule, cut off at MaxSupply. */
  function RewardDue(index: u64, supply: u64): u64 {
    var reward := CalculateBlockReward(index);
    if supply >= MAX_SUPPLY then 0
    else if Add64(supply, reward) > MAX_SUPPLY then MAX_SUPPLY - supply
    else reward
  }

  function CheckPosition(block: LedgerBlock, parent: Option<LedgerBlock>): Verdict {
    match parent
    case None => if block.index != 0 then NonZeroGenesisIndex else Valid
    case Some(p) =>
      if block.index != Add64(p.index, 1) then WrongIndex
      else if block.timestamp <= p.timestamp then TimestampNotAfterParent
      else if block.prevHash != p.hash then BrokenLink
      else Valid
  }

  function ValidateBlockConsensus(json: Json, block: LedgerBlock, parent: Option<LedgerBlock>, supply: u64): Verdict {
    var position := CheckPosition(block, parent);
    if position != Valid then position
    else if block.index > 0 && block.miner != SYSTEM_GENESIS && !HasPrefix(block.miner, ADDRESS_PREFIX) then BadMinerPrefix
    else if !ValidatePoW(HexEncode(block.hash), block.difficulty) then BadProofOfWork
    else if OrMaxSupply(block.maxSupply) != MAX_SUPPLY then WrongMaxSupply
    else if OrHalvingInterval(block.halvingInterval) != HALVING_INTERVAL then WrongHalvingInterval
    else if |json.block(block)| > MAX_BLOCK_SIZE_BYTES then BlockTooLarge
    else if block.reward != RewardDue(block.index, supply) then WrongReward
    else Valid
  }

  predicate Accepts(json: Json, block: LedgerBlock, parent: LedgerBlock, supply: u64) {
    ValidateBlockConsensus(json, block, Some(parent), supply) == Valid
  }

  /** An accepted block with another nonce, hash, difficulty, bits and message is accepted if and only
      if its hash meets its difficulty and it is not too large: the validator hashes nothing, and
      nothing ties the difficulty to the parent's. */
  lemma VerdictReadsHashOnce(json: Json, b: LedgerBlock, parent: LedgerBlock, supply: u64,
                             nonce: u64, hash: Bytes, difficulty: u32, bits: u32, message: string)
    requires Accepts(json, b, parent, supply)
    ensures
      var other := b.(nonce := nonce, hash := hash, difficulty := difficulty, bits := bits, message := message);
      Accepts(json, other, parent, supply) <==>
      ValidatePoW(HexEncode(hash), difficulty) && |json.block(other)| <= MAX_BLOCK_SIZE_BYTES
  {
  }

  /** Of the miner it reads the prefix only. */
  lemma VerdictOnOtherMiner(json: Json, b: LedgerBlock, parent: LedgerBlock, supply: u64, miner: string)
    requires Accepts(json, b, parent, supply) && b.index > 0
    ensures
      var other := b.(miner := miner);
      Accepts(json, other, parent, supply) <==>
      && (miner == SYSTEM_GENESIS || HasPrefix(miner, ADDRESS_PREFIX))
      && |json.block(other)| <= MAX_BLOCK_SIZE_BYTES
  {
  }
}
