/** core/block.go: the block record, the bytes its hash is taken over, and the engine that
    completes a block. Hashing, signature checks and JSON are foreign code: a World supplies them. */
module Blocks {
  import opened MachineInts
  import opened Digits
  import opened Hex
  import opened Transfers
  import opened Consensus

  datatype LedgerBlock = LedgerBlock(
    index: u64,
    timestamp: i64,
    prevHash: Bytes,
    hash: Bytes,
    transfers: seq<Transfer>,
    miner: string,
    nonce: u64,
    difficulty: u32,
    bits: u32,
    reward: u64,
    maxSupply: u64,
    halvingInterval: u64,
    message: string)

  const SYSTEM_GENESIS: string := "SYSTEM_GENESIS"

  /** The two marshalled forms the node uses, and unmarshalling of blocks. */
  datatype Json = Json(
    block: LedgerBlock -> string,
    transfer: Transfer -> string,
    parseBlock: string -> Option<LedgerBlock>)

  datatype World = World(json: Json, keccak: Bytes -> Bytes, verify: Transfer -> bool)

  /** A block the JSON round trip keeps as it is. */
  predicate RoundTrips(json: Json, b: LedgerBlock) {
    json.parseBlock(json.block(b)) == Some(b)
  }

  function Signatures(txs: seq<Transfer>): Bytes {
    if |txs| == 0 then [] else Signatures(txs[..|txs| - 1]) + txs[|txs| - 1].signature
  }

  function OrMaxSupply(x: u64): u64 {
    if x == 0 then MAX_SUPPLY else x
  }

  function OrHalvingInterval(x: u64): u64 {
    if x == 0 then HALVING_INTERVAL else x
  }

  function HexBytes(n: int): Bytes {
    ToBytes(FormatHex(n))
  }

  /** `bytes.Join` with an empty separator. */
  function Join(parts: seq<Bytes>): Bytes {
    if |parts| == 0 then [] else Join(parts[..|parts| - 1]) + parts[|parts| - 1]
  }

  /** The pieces AssembleBlockData joins. */
  function Parts(b: LedgerBlock, nonce: u64): seq<Bytes> {
    [ b.prevHash,
      Signatures(b.transfers),
      HexBytes(b.index),
      HexBytes(b.timestamp),
      HexBytes(b.reward),
      HexBytes(OrMaxSupply(b.maxSupply)),
      HexBytes(OrHalvingInterval(b.halvingInterval)),
      HexBytes(b.difficulty),
      HexBytes(nonce),
      ToBytes(b.message)]
  }

  /** What AssembleBlockData returns. */
  function BlockData(b: LedgerBlock, nonce: u64): Bytes {
    Join(Parts(b, nonce))
  }

  function HashAt(w: World, b: LedgerBlock, nonce: u64): Bytes {
    w.keccak(BlockData(b, nonce))
  }

  /** The stored hash is the hash of the stored block at the stored nonce. */
  predicate HashesTo(w: World, b: LedgerBlock) {
    b.hash == HashAt(w, b, b.nonce)
  }

  /** The engine's check of a candidate hash (validateHash). */
  predicate MeetsTarget(hash: Bytes, difficulty: u32) {
    ValidatePoW(HexEncode(hash), difficulty)
  }

  /** A nonce the search on this block may deliver. */
  predicate Wins(w: World, b: LedgerBlock, difficulty: u32, nonce: u64) {
    MeetsTarget(HashAt(w, b, nonce), difficulty)
  }

  /** The fields Mine fills in before it searches. */
  function FillDefaults(b: LedgerBlock, engineBits: u32): LedgerBlock {
    b.(reward := if b.reward == 0 && b.index > 0 then CalculateBlockReward(b.index) else b.reward,
       maxSupply := OrMaxSupply(b.maxSupply),
       halvingInterval := OrHalvingInterval(b.halvingInterval),
       bits := if b.bits == 0 then engineBits else b.bits)
  }

  class ConsensusEngine {
    var TargetDifficulty: u32
    var Bits: u32

    constructor (difficulty: u32)
      ensures TargetDifficulty == difficulty && Bits == GENESIS_BITS
    {
      TargetDifficulty := difficulty;
      Bits := GENESIS_BITS;
    }

    method AssembleBlockData(b: LedgerBlock, nonce: u64) returns (data: Bytes)
      ensures data == BlockData(b, nonce)
    {
      var rawTxData: Bytes := [];
      for i := 0 to |b.transfers|
        invariant rawTxData == Signatures(b.transfers[..i])
      {
        rawTxData := rawTxData + b.transfers[i].signature;
        assert b.transfers[..i + 1][..i] == b.transfers[..i];
      }
      assert b.transfers[..|b.transfers|] == b.transfers;
      var blockMaxSupply := b.maxSupply;
      if blockMaxSupply == 0 {
        blockMaxSupply := MAX_SUPPLY;
      }
      var blockHalvingInterval := b.halvingInterval;
      if blockHalvingInterval == 0 {
        blockHalvingInterval := HALVING_INTERVAL;
      }
      data := Join([
        b.prevHash,
        rawTxData,
        HexBytes(b.index),
        HexBytes(b.timestamp),
        HexBytes(b.reward),
        HexBytes(blockMaxSupply),
        HexBytes(blockHalvingInterval),
        HexBytes(b.difficulty),
        HexBytes(nonce),
        ToBytes(b.message)]);
    }

    /** Mine, given the nonce that the parallel search delivers on the filled block: one that Wins,
        as module NonceSearch shows of every delivery. */
    method Mine(w: World, b: LedgerBlock, found: u64) returns (filled: LedgerBlock, nonce: u64, hash: Bytes)
      ensures filled == FillDefaults(b, Bits)
      ensures nonce == found && hash == HashAt(w, filled, nonce)
    {
      filled := b;
      if filled.reward == 0 && filled.index > 0 {
        filled := filled.(reward := CalculateBlockReward(filled.index));
      }
      if filled.maxSupply == 0 {
        filled := filled.(maxSupply := MAX_SUPPLY);
      }
      if filled.halvingInterval == 0 {
        filled := filled.(halvingInterval := HALVING_INTERVAL);
      }
      if filled.bits == 0 {
        filled := filled.(bits := Bits);
      }
      var data := AssembleBlockData(filled, found);
      nonce, hash := found, w.keccak(data);
    }
  }
}
