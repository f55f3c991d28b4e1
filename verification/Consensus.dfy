/** internal/consensus/consensus.go: the constants, the halving schedule, the difficulty
    rule, the proof-of-work test and the genesis checkpoint. */
module Consensus {
  import opened MachineInts
  import opened Hex

  const MAX_SUPPLY: u64 := 785_000_000 * 100_000_000
  const BLOCK_REWARD: u64 := 50 * 100_000_000
  const HALVING_INTERVAL: u64 := 7_850_000
  const GENESIS_BITS: u32 := 0x1e0ffff0
  const MAX_BLOCK_SIZE_BYTES: u64 := 4 * 1024 * 1024
  const TARGET_BLOCK_TIME_SEC: i64 := 35
  const EXPECTED_GENESIS_HASH: string := "00000cac47528e27627a256f5ba877e4768d22417fd873532ffdea8d0c7be77a"

  /** The reward of a block at a height: the initial reward shifted right once per halving. */
  function CalculateBlockReward(blockIndex: u64): (r: u64)
    ensures r <= BLOCK_REWARD
  {
    var halvings := blockIndex / HALVING_INTERVAL;
    if halvings >= 64 then 0 else Shifted(BLOCK_REWARD, halvings)
  }

  /** x >> n */
  function Shifted(x: nat, n: nat): (r: nat)
    ensures r <= x
  {
    if n == 0 then x else Shifted(x, n - 1) / 2
  }

  function CalculateNextDifficulty(prevTimestamp: i64, timestamp: i64, prevDifficulty: u64): u64 {
    if prevTimestamp == 0 || timestamp <= prevTimestamp then
      if prevDifficulty < 1 then 1 else prevDifficulty
    else
      var elapsed := WrapI64(timestamp - prevTimestamp);
      var next :=
        if elapsed < TARGET_BLOCK_TIME_SEC then Add64(prevDifficulty, 1)
        else if elapsed > TARGET_BLOCK_TIME_SEC * 2 && prevDifficulty > 1 then prevDifficulty - 1
        else prevDifficulty;
      if next < 1 then 1 else next
  }

  /** The big-endian value of a byte string (`big.Int.SetBytes`). */
  function BytesValue(b: Bytes): nat {
    if |b| == 0 then 0 else 0x100 * BytesValue(b[..|b| - 1]) + b[|b| - 1]
  }

  const POW_LIMIT: nat := 0x00000fffffffffffffffffffffffffffffffffffffffffffffffffffffffffff

  function Target(difficultyBits: u64): nat {
    if difficultyBits > 1 then Shifted(POW_LIMIT, difficultyBits) else POW_LIMIT
  }

  predicate ValidatePoW(blockHashHex: string, difficultyBits: u64) {
    match HexDecode(blockHashHex)
    case None => false
    case Some(hash) =>
      var value := BytesValue(hash);
      value <= POW_LIMIT && value <= Target(difficultyBits)
  }

  /** VerifyCheckpoint: the table holds the genesis hash only. */
  predicate VerifyCheckpoint(height: nat, blockHash: Bytes) {
    height == 0 ==> HexEncode(blockHash) == EXPECTED_GENESIS_HASH
  }
}
