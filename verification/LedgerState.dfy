/** The ledger's whole state as a value, and what each operation of node/ledger.go makes of it. */
module LedgerState {
  import opened MachineInts
  import opened Transfers
  import opened Consensus
  import opened Blocks
  import opened Accounts
  import opened Validator
  import opened Chains
  import opened Selection
  import opened Mining
  import opened Storage

  datatype Ledger = Ledger(
    chain: seq<LedgerBlock>,
    state: Accounts,
    mempool: seq<Transfer>,
    kv: Store,
    difficulty: u32,
    bits: u32,
    miner: string)

  // ---- Genesis, loading, starting ----

  function GenesisBlock(w: World, difficulty: u32, bits: u32, nonce: u64): LedgerBlock {
    Finish(w, GenesisDraft(difficulty), bits, nonce)
  }

  /** A nonce the search may deliver for the genesis block. */
  predicate GenesisDelivers(w: World, difficulty: u32, bits: u32, nonce: u64) {
    Delivers(w, GenesisDraft(difficulty), bits, nonce)
  }

  function SpawnGenesisOn(w: World, l: Ledger, nonce: u64): Ledger {
    var genesis := GenesisBlock(w, l.difficulty, l.bits, nonce);
    l.(chain := l.chain + [genesis], kv := Saved(l.kv, w.json, 0, genesis))
  }

  /** The stored genesis block carries the parameters compiled into the node. */
  predicate ParametersCurrent(genesis: LedgerBlock) {
    && genesis.message == PSZ_TIMESTAMP
    && genesis.timestamp == GENESIS_TIMESTAMP
    && genesis.bits == GENESIS_BITS
    && genesis.reward == BLOCK_REWARD
    && genesis.maxSupply == MAX_SUPPLY
    && genesis.halvingInterval == HALVING_INTERVAL
  }

  /** VerifyConsensusIntegrity does not panic. */
  predicate Integral(chain: seq<LedgerBlock>) {
    |chain| > 0 ==> VerifyCheckpoint(0, chain[0].hash) && CirculatingSupply(chain) <= MAX_SUPPLY
  }

  datatype LoadOutcome = Loaded(found: bool) | LoadPanic

  function LoadOn(w: World, l: Ledger, nonce: u64): (Ledger, LoadOutcome) {
    match LastIndex(l.kv)
    case None => (l, Loaded(false))
    case Some(last) =>
      var blocks := ReadFrom(w.json, l.kv, 0, last);
      var l1 := l.(chain := l.chain + blocks, state := ReplayOnto(l.state, blocks));
      if |l1.chain| > 0 && !ParametersCurrent(l1.chain[0]) then
        (SpawnGenesisOn(w, l1.(chain := [], state := map[], kv := map[]), nonce), Loaded(true))
      else if !Integral(l1.chain) then (l1, LoadPanic)
      else (l1, Loaded(|l1.chain| > 0))
  }

  /** InitializeLedger turns a zero into the default difficulty. */
  function FirstDifficulty(initialDifficulty: u32): u32 {
    if initialDifficulty == 0 then 1 else initialDifficulty
  }

  function Opened(kv: Store, initialDifficulty: u32, miner: string): Ledger {
    Ledger([], map[], [], kv, FirstDifficulty(initialDifficulty), GENESIS_BITS, miner)
  }

  /** Loading, or a genesis block where there is nothing to load; None stands for a panic. */
  function StartedOn(w: World, l: Ledger, nonce: u64): Option<Ledger> {
    var (l1, outcome) := LoadOn(w, l, nonce);
    match outcome
    case LoadPanic => None
    case Loaded(found) => Some(if found then l1 else SpawnGenesisOn(w, l1, nonce))
  }

  /** InitializeLedger on a database. */
  function Initialized(w: World, kv: Store, initialDifficulty: u32, miner: string, nonce: u64): Option<Ledger> {
    StartedOn(w, Opened(kv, initialDifficulty, miner), nonce)
  }

  // ---- Mining ----

  /** After the first locked section. */
  function CollectOn(json: Json, l: Ledger): Ledger {
    l.(state := Collect(json, l.state, l.mempool).state, mempool := Remaining(json, l.state, l.mempool))
  }

  function DraftOn(l: Ledger, transfers: seq<Transfer>, now: i64): LedgerBlock
    requires |l.chain| > 0
  {
    Draft(l.chain, transfers, l.miner, l.bits, now)
  }

  function MinedOn(w: World, l: Ledger, transfers: seq<Transfer>, now: i64, nonce: u64): LedgerBlock
    requires |l.chain| > 0
  {
    Finish(w, DraftOn(l, transfers, now), l.bits, nonce)
  }

  predicate DeliversOn(w: World, l: Ledger, transfers: seq<Transfer>, now: i64, nonce: u64)
    requires |l.chain| > 0
  {
    Delivers(w, DraftOn(l, transfers, now), l.bits, nonce)
  }

  function SelfCheck(json: Json, chain: seq<LedgerBlock>, b: LedgerBlock): Verdict
    requires |chain| > 0
  {
    ValidateBlockConsensus(json, b, Some(Tip(chain)), CirculatingSupply(chain))
  }

  /** After the second locked section. */
  function CommitOn(json: Json, l: Ledger, b: LedgerBlock, fees: u64): Ledger {
    l.(chain := l.chain + [b],
       kv := Saved(l.kv, json, b.index, b),
       state := Credit(l.state, l.miner, Add64(b.reward, fees)))
  }

  datatype MineOutcome = Mined | BadMiner | SelfCheckPanic(verdict: Verdict)

  function MineOn(w: World, l: Ledger, now: i64, nonce: u64): (Ledger, MineOutcome)
    requires |l.chain| > 0
  {
    if !MayMine(l.miner) then (l, BadMiner)
    else
      var taken := Collect(w.json, l.state, l.mempool);
      var b := MinedOn(w, l, taken.transfers, now, nonce);
      var l1 := CollectOn(w.json, l).(difficulty := b.difficulty);
      var verdict := SelfCheck(w.json, l.chain, b);
      if verdict != Valid then (l1, SelfCheckPanic(verdict))
      else (CommitOn(w.json, l1, b, taken.fees), Mined)
  }

  // ---- The mempool ----

  /** AddToMempool once the prefix and the signature have passed; `queue` is the sorted queue. */
  function SubmitOn(l: Ledger, tx: Transfer, queue: seq<Transfer>): Ledger {
    var sender := Sender(tx);
    var s1 := if sender in l.state then l.state else l.state[sender := Account(0, tx.nonce)];
    l.(state := s1[sender := s1[sender].(nonce := tx.nonce)], mempool := queue)
  }

  predicate Submittable(w: World, tx: Transfer) {
    HasPrefix(tx.recipient, ADDRESS_PREFIX) && w.verify(tx)
  }

  // ---- Reorganisation ----

  function Reversed<T>(xs: seq<T>): seq<T> {
    if |xs| == 0 then [] else [xs[|xs| - 1]] + Reversed(xs[..|xs| - 1])
  }

  function RollbackOn(l: Ledger): Option<Ledger> {
    if |l.chain| <= 1 then None
    else
      var tip := Tip(l.chain);
      var rest := l.chain[..|l.chain| - 1];
      Some(l.(chain := rest,
              mempool := Reversed(tip.transfers) + l.mempool,
              kv := Deleted(l.kv, tip.index),
              state := Replay(rest)))
  }

  /** AppendBlockDirectly lets a block through. */
  predicate Appendable(json: Json, l: Ledger, b: LedgerBlock) {
    var parent := if |l.chain| == 0 then None else Some(Tip(l.chain));
    && (parent.Some? ==> b.prevHash == parent.value.hash)
    && ValidateBlockConsensus(json, b, parent, CirculatingSupply(l.chain)) == Valid
  }

  function AppendOn(json: Json, l: Ledger, b: LedgerBlock): Option<Ledger> {
    if !Appendable(json, l, b) then None
    else
      Some(l.(chain := l.chain + [b],
              kv := Saved(l.kv, json, b.index, b),
              state := RebuildBlock(l.state, b)))
  }
}
