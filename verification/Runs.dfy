/** Runs of a node: mining split at its locks, queue arrivals in between, reorganisations, crashes
    between any two writes to disk, and restarts; and what every run keeps. */
module Runs {
  import opened MachineInts
  import opened Hex
  import opened Transfers
  import opened Consensus
  import opened Emission
  import opened Blocks
  import opened Accounts
  import opened Validator
  import opened Chains
  import opened Selection
  import opened Mempool
  import opened Mining
  import opened Storage
  import opened LedgerState

  /** What MineBlock carries from its first locked section to its second. */
  datatype Flight = Flight(transfers: seq<Transfer>, fees: u64)

  /** A node is a process over its disk, or only the disk. */
  datatype Node = Up(l: Ledger, flight: Option<Flight>) | Down(kv: Store)

  datatype Step =
    | Begin
    | Commit(now: i64, nonce: u64)
    | Arrive(queue: seq<Transfer>)
    | Submit(tx: Transfer, sorted: seq<Transfer>)
    | Rollback
    | Append(b: LedgerBlock)
    | Restart(difficulty: u32, miner: string, nonce: u64)
    | Crash
    | CrashInCommit(now: i64, nonce: u64)
    | CrashInRollback
    | CrashInAppend(b: LedgerBlock)
    | CrashInRestart(difficulty: u32, miner: string, nonce: u64)

  function InFlight(w: World, n: Node, now: i64, nonce: u64): LedgerBlock
    requires n.Up? && n.flight.Some? && |n.l.chain| > 0
  {
    MinedOn(w, n.l, n.flight.value.transfers, now, nonce)
  }

  /** The process can do this: it runs or it does not, mining is under way or it is not, and the
      nonce is one the search may deliver. */
  predicate Enabled(w: World, n: Node, step: Step) {
    match step
    case Begin => n.Up? && n.flight.None? && |n.l.chain| > 0
    case Commit(now, nonce) =>
      n.Up? && n.flight.Some? && |n.l.chain| > 0 && DeliversOn(w, n.l, n.flight.value.transfers, now, nonce)
    case CrashInCommit(now, nonce) =>
      && n.Up? && n.flight.Some? && |n.l.chain| > 0 && DeliversOn(w, n.l, n.flight.value.transfers, now, nonce)
      && SelfCheck(w.json, n.l.chain, InFlight(w, n, now, nonce)) == Valid
    case Arrive(queue) => n.Up?
    case Submit(tx, sorted) => n.Up? && Submittable(w, tx) && SortsTo(n.l.mempool + [tx], sorted)
    case Rollback => n.Up? && n.flight.None? && RollbackOn(n.l).Some?
    case CrashInRollback => n.Up? && n.flight.None? && RollbackOn(n.l).Some?
    case Append(b) => n.Up? && n.flight.None? && AppendOn(w.json, n.l, b).Some?
    case CrashInAppend(b) => n.Up? && n.flight.None? && AppendOn(w.json, n.l, b).Some?
    case Restart(difficulty, miner, nonce) =>
      n.Down? && GenesisDelivers(w, FirstDifficulty(difficulty), GENESIS_BITS, nonce)
    case CrashInRestart(difficulty, miner, nonce) =>
      && n.Down? && GenesisDelivers(w, FirstDifficulty(difficulty), GENESIS_BITS, nonce)
      && ReadChain(w.json, n.kv) == []
    case Crash => n.Up?
  }

  function Next(w: World, n: Node, step: Step): Node
    requires Enabled(w, n, step)
  {
    match step
    case Begin =>
      if !MayMine(n.l.miner) then Down(n.l.kv)
      else
        var so := Collect(w.json, n.l.state, n.l.mempool);
        Up(CollectOn(w.json, n.l), Some(Flight(so.transfers, so.fees)))
    case Commit(now, nonce) =>
      var b := InFlight(w, n, now, nonce);
      if SelfCheck(w.json, n.l.chain, b) != Valid then Down(n.l.kv)
      else Up(CommitOn(w.json, n.l.(difficulty := b.difficulty), b, n.flight.value.fees), None)
    case CrashInCommit(now, nonce) =>
      var b := InFlight(w, n, now, nonce);
      Down(PutBlock(n.l.kv, w.json, b.index, b))
    case Arrive(queue) => n.(l := n.l.(mempool := queue))
    case Submit(tx, sorted) => n.(l := SubmitOn(n.l, tx, sorted))
    case Rollback => n.(l := RollbackOn(n.l).value)
    case CrashInRollback => Down(RemoveBlock(n.l.kv, Tip(n.l.chain).index))
    case Append(b) => n.(l := AppendOn(w.json, n.l, b).value)
    case CrashInAppend(b) => Down(PutBlock(n.l.kv, w.json, b.index, b))
    case Restart(difficulty, miner, nonce) =>
      (match Initialized(w, n.kv, difficulty, miner, nonce)
       case None => n
       case Some(l) => Up(l, None))
    case CrashInRestart(difficulty, miner, nonce) =>
      Down(PutBlock(n.kv, w.json, 0, GenesisBlock(w, FirstDifficulty(difficulty), GENESIS_BITS, nonce)))
    case Crash => Down(n.l.kv)
  }

  /** What is asked of the surroundings: blocks survive the JSON round trip, and the node does not mine
      for SYSTEM_GENESIS. */
  predicate WellBehaved(w: World, n: Node, step: Step)
    requires Enabled(w, n, step)
  {
    match step
    case Append(b) => RoundTrips(w.json, b)
    case CrashInAppend(b) => RoundTrips(w.json, b)
    case Commit(now, nonce) => RoundTrips(w.json, InFlight(w, n, now, nonce))
    case CrashInCommit(now, nonce) => RoundTrips(w.json, InFlight(w, n, now, nonce))
    case Restart(difficulty, miner, nonce) =>
      miner != SYSTEM_GENESIS && RoundTrips(w.json, GenesisBlock(w, FirstDifficulty(difficulty), GENESIS_BITS, nonce))
    case CrashInRestart(difficulty, miner, nonce) =>
      RoundTrips(w.json, GenesisBlock(w, FirstDifficulty(difficulty), GENESIS_BITS, nonce))
    case _ => true
  }

  predicate Possible(w: World, n: Node, steps: seq<Step>)
    decreases |steps|
  {
    |steps| > 0 ==> Enabled(w, n, steps[0]) && Possible(w, Next(w, n, steps[0]), steps[1..])
  }

  function Run(w: World, n: Node, steps: seq<Step>): Node
    requires Possible(w, n, steps)
    decreases |steps|
  {
    if |steps| == 0 then n else Run(w, Next(w, n, steps[0]), steps[1..])
  }

  /** The run's surroundings behave at every step. */
  predicate Behaved(w: World, n: Node, steps: seq<Step>)
    requires Possible(w, n, steps)
    decreases |steps|
  {
    |steps| > 0 ==> WellBehaved(w, n, steps[0]) && Behaved(w, Next(w, n, steps[0]), steps[1..])
  }

  /** The chain of a node: in memory, or what its disk holds. */
  function ChainOf(w: World, n: Node): seq<LedgerBlock> {
    match n
    case Up(l, _) => l.chain
    case Down(kv) => ReadChain(w.json, kv)
  }

  // ---- The invariant ----

  ghost predicate GoodChain(json: Json, chain: seq<LedgerBlock>) {
    && AllRoundTrip(json, chain)
    && (|chain| > 0 ==> ValidChain(json, chain))
  }

  /** The store holds a good chain. */
  ghost predicate Kept(json: Json, kv: Store, chain: seq<LedgerBlock>) {
    GoodChain(json, chain) && Durable(json, kv, chain)
  }

  function FlightTransfers(flight: Option<Flight>): seq<Transfer> {
    if flight.None? then [] else flight.value.transfers
  }

  /** The accounts are the chain's replay, plus the transfers in flight. */
  function Expected(l: Ledger, flight: Option<Flight>): Accounts {
    ApplyTransfers(Replay(l.chain), FlightTransfers(flight))
  }

  ghost predicate FlightOk(l: Ledger, flight: Option<Flight>) {
    && Funded(Replay(l.chain), FlightTransfers(flight))
    && (flight.Some? ==> HasPrefix(l.miner, ADDRESS_PREFIX) && flight.value.fees == FeeTotal(flight.value.transfers))
  }

  ghost predicate Sound(w: World, n: Node) {
    match n
    case Down(kv) => Kept(w.json, kv, ReadChain(w.json, kv))
    case Up(l, flight) =>
      && Kept(w.json, l.kv, l.chain) && |l.chain| > 0
      && l.miner != SYSTEM_GENESIS
      && FlightOk(l, flight)
      && SameBalances(l.state, Expected(l, flight))
  }

  /** A crash leaves what the store holds. */
  lemma KeptDown(w: World, kv: Store, chain: seq<LedgerBlock>)
    requires Kept(w.json, kv, chain)
    ensures Sound(w, Down(kv)) && ReadChain(w.json, kv) == chain
  {
    ReadBack(w.json, kv, chain);
  }

  lemma RoundTripsGrow(json: Json, chain: seq<LedgerBlock>, b: LedgerBlock)
    requires AllRoundTrip(json, chain) && RoundTrips(json, b)
    ensures AllRoundTrip(json, chain + [b])
  {
    forall i | 0 <= i < |chain| + 1 ensures RoundTrips(json, (chain + [b])[i]) {
      assert i < |chain| ==> RoundTrips(json, chain[i]);
    }
  }

  lemma GoodGrows(json: Json, chain: seq<LedgerBlock>, b: LedgerBlock)
    requires GoodChain(json, chain) && |chain| > 0
    requires Accepts(json, b, Tip(chain), CirculatingSupply(chain))
    requires RoundTrips(json, b)
    ensures GoodChain(json, chain + [b])
    ensures b.index == |chain| < TWO_64 - 1
    ensures Replay(chain + [b]) == RebuildBlock(Replay(chain), b)
  {
    ChainExtends(json, chain, b);
    ChainHeight(json, chain);
    ChainHeight(json, chain + [b]);
    ReplayGrows(map[], chain, b);
    RoundTripsGrow(json, chain, b);
  }

  lemma RoundTripsPrefix(json: Json, chain: seq<LedgerBlock>, n: nat)
    requires AllRoundTrip(json, chain) && n <= |chain|
    ensures AllRoundTrip(json, chain[..n])
  {
    forall i | 0 <= i < n ensures RoundTrips(json, chain[..n][i]) {
      assert RoundTrips(json, chain[i]);
    }
  }

  lemma GoodShrinks(json: Json, chain: seq<LedgerBlock>)
    requires GoodChain(json, chain) && |chain| > 1
    ensures GoodChain(json, chain[..|chain| - 1])
    ensures Tip(chain).index == |chain| - 1
  {
    ValidPrefix(json, chain, |chain| - 1);
    ChainHeight(json, chain);
    RoundTripsPrefix(json, chain, |chain| - 1);
  }

  lemma GenesisGood(w: World, difficulty: u32, bits: u32, nonce: u64)
    requires RoundTrips(w.json, GenesisBlock(w, difficulty, bits, nonce))
    ensures
      var g := GenesisBlock(w, difficulty, bits, nonce);
      GoodChain(w.json, [g]) && g.index == 0 && Replay([g]) == map[]
  {
    var g := GenesisBlock(w, difficulty, bits, nonce);
    GenesisHashes(w, difficulty, bits, nonce);
    GenesisReplay(g);
  }

  // ---- Every step keeps it ----

  lemma BeginKeeps(w: World, n: Node)
    requires Sound(w, n) && Enabled(w, n, Begin)
    ensures Sound(w, Next(w, n, Begin))
  {
    var l := n.l;
    if MayMine(l.miner) {
      var _ := CollectCharacterised(w.json, l.state, l.mempool);
      var so := Collect(w.json, l.state, l.mempool);
      ApplyTransfersCongruence(l.state, Replay(l.chain), so.transfers);
    } else {
      KeptDown(w, l.kv, l.chain);
    }
  }

  lemma SaveKeeps(w: World, kv: Store, chain: seq<LedgerBlock>, b: LedgerBlock)
    requires Kept(w.json, kv, chain)
    requires GoodChain(w.json, chain + [b]) && b.index == |chain| < TWO_64 - 1
    ensures Kept(w.json, Saved(kv, w.json, b.index, b), chain + [b])
    ensures Sound(w, Down(PutBlock(kv, w.json, b.index, b)))
    ensures ReadChain(w.json, PutBlock(kv, w.json, b.index, b)) in {chain, chain + [b]}
  {
    SaveIsAtomic(w.json, kv, chain, b);
    var half := PutBlock(kv, w.json, b.index, b);
    if Durable(w.json, half, chain) {
      KeptDown(w, half, chain);
    } else {
      KeptDown(w, half, chain + [b]);
    }
  }

  lemma MinedBlockGood(w: World, n: Node, now: i64, nonce: u64)
    requires Sound(w, n) && Enabled(w, n, Commit(now, nonce)) && WellBehaved(w, n, Commit(now, nonce))
    requires SelfCheck(w.json, n.l.chain, InFlight(w, n, now, nonce)) == Valid
    ensures
      var b := InFlight(w, n, now, nonce);
      && GoodChain(w.json, n.l.chain + [b])
      && b.index == |n.l.chain| < TWO_64 - 1
      && Replay(n.l.chain + [b]) == RebuildBlock(Replay(n.l.chain), b)
      && b.transfers == n.flight.value.transfers && b.miner == n.l.miner
      && IsCredited(b.miner)
  {
    var b := InFlight(w, n, now, nonce);
    GoodGrows(w.json, n.l.chain, b);
  }

  lemma CommitKeeps(w: World, n: Node, now: i64, nonce: u64)
    requires Sound(w, n) && Enabled(w, n, Commit(now, nonce)) && WellBehaved(w, n, Commit(now, nonce))
    ensures Sound(w, Next(w, n, Commit(now, nonce)))
  {
    var l, b := n.l, InFlight(w, n, now, nonce);
    if SelfCheck(w.json, l.chain, b) == Valid {
      MinedBlockGood(w, n, now, nonce);
      SaveKeeps(w, l.kv, l.chain, b);
      DepositCongruence(l.state, Expected(l, n.flight), l.miner, Add64(b.reward, n.flight.value.fees));
    } else {
      KeptDown(w, l.kv, l.chain);
    }
  }

  lemma SubmitReads(l: Ledger, tx: Transfer, queue: seq<Transfer>, a: string)
    ensures Balance(SubmitOn(l, tx, queue).state, a) == Balance(l.state, a)
  {
  }

  /** A submission sets the sender's nonce to the transfer's, and changes nothing else of any account. */
  lemma SubmitSetsNonce(l: Ledger, tx: Transfer, queue: seq<Transfer>, a: string)
    ensures NonceOf(SubmitOn(l, tx, queue).state, a) == if a == Sender(tx) then tx.nonce else NonceOf(l.state, a)
    ensures Balance(SubmitOn(l, tx, queue).state, a) == Balance(l.state, a)
    ensures SubmitOn(l, tx, queue).mempool == queue && SubmitOn(l, tx, queue).chain == l.chain
  {
  }

  lemma SubmitKeeps(w: World, n: Node, tx: Transfer, sorted: seq<Transfer>)
    requires Sound(w, n) && Enabled(w, n, Submit(tx, sorted))
    ensures Sound(w, Next(w, n, Submit(tx, sorted)))
  {
    var l' := SubmitOn(n.l, tx, sorted);
    forall a ensures Balance(l'.state, a) == Balance(Expected(n.l, n.flight), a) {
      SubmitReads(n.l, tx, sorted, a);
    }
  }

  lemma SoundQuiet(w: World, l: Ledger)
    requires Kept(w.json, l.kv, l.chain) && |l.chain| > 0
    requires l.miner != SYSTEM_GENESIS
    requires SameBalances(l.state, Replay(l.chain))
    ensures Sound(w, Up(l, None))
  {
  }

  lemma RollbackDisk(w: World, n: Node)
    requires Sound(w, n) && Enabled(w, n, Rollback)
    ensures
      var rest := n.l.chain[..|n.l.chain| - 1];
      && Kept(w.json, Deleted(n.l.kv, Tip(n.l.chain).index), rest)
      && Kept(w.json, RemoveBlock(n.l.kv, Tip(n.l.chain).index), rest)
  {
    GoodShrinks(w.json, n.l.chain);
    DeleteIsAtomic(w.json, n.l.kv, n.l.chain);
  }

  lemma RollbackKeeps(w: World, n: Node)
    requires Sound(w, n) && Enabled(w, n, Rollback)
    ensures Sound(w, Next(w, n, Rollback))
  {
    RollbackDisk(w, n);
    SoundQuiet(w, RollbackOn(n.l).value);
  }

  /** A rollback interrupted between its two writes is done as far as the disk goes. */
  lemma CrashInRollbackKeeps(w: World, n: Node)
    requires Sound(w, n) && Enabled(w, n, CrashInRollback)
    ensures Sound(w, Next(w, n, CrashInRollback))
    ensures ReadChain(w.json, Next(w, n, CrashInRollback).kv) == n.l.chain[..|n.l.chain| - 1]
  {
    RollbackDisk(w, n);
    KeptDown(w, RemoveBlock(n.l.kv, Tip(n.l.chain).index), n.l.chain[..|n.l.chain| - 1]);
  }

  lemma AppendedGood(json: Json, l: Ledger, b: LedgerBlock)
    requires GoodChain(json, l.chain) && |l.chain| > 0
    requires Appendable(json, l, b)
    requires RoundTrips(json, b)
    ensures GoodChain(json, l.chain + [b])
    ensures b.index == |l.chain| < TWO_64 - 1
    ensures Replay(l.chain + [b]) == RebuildBlock(Replay(l.chain), b)
  {
    GoodGrows(json, l.chain, b);
  }

  lemma AppendKeeps(w: World, n: Node, b: LedgerBlock)
    requires Sound(w, n) && Enabled(w, n, Append(b)) && WellBehaved(w, n, Append(b))
    ensures Sound(w, Next(w, n, Append(b)))
  {
    AppendedGood(w.json, n.l, b);
    SaveKeeps(w, n.l.kv, n.l.chain, b);
    RebuildCongruence(n.l.state, Replay(n.l.chain), b);
    SoundQuiet(w, AppendOn(w.json, n.l, b).value);
  }

  /** An append interrupted between its two writes is, as far as the disk goes, done or not done. */
  lemma CrashInAppendKeeps(w: World, n: Node, b: LedgerBlock)
    requires Sound(w, n) && Enabled(w, n, CrashInAppend(b)) && WellBehaved(w, n, CrashInAppend(b))
    ensures Sound(w, Next(w, n, CrashInAppend(b)))
    ensures ReadChain(w.json, Next(w, n, CrashInAppend(b)).kv) in {n.l.chain, n.l.chain + [b]}
  {
    AppendedGood(w.json, n.l, b);
    SaveKeeps(w, n.l.kv, n.l.chain, b);
  }

  /** A restart over a good chain reproduces it with its replay and never wipes, unless the genesis
      hash is not the checkpoint's: then, and only then, the node does not come up. */
  lemma RestartReproduces(w: World, kv: Store, chain: seq<LedgerBlock>, difficulty: u32, miner: string, nonce: u64)
    requires Kept(w.json, kv, chain) && |chain| > 0
    ensures Initialized(w, kv, difficulty, miner, nonce) ==
      if HexEncode(chain[0].hash) == EXPECTED_GENESIS_HASH
      then Some(Opened(kv, difficulty, miner).(chain := chain, state := Replay(chain)))
      else None
  {
    ReadBack(w.json, kv, chain);
    GoodGenesis(w.json, chain);
    LoadReproduces(w, kv, chain, difficulty, miner, nonce);
  }

  lemma GoodGenesis(json: Json, chain: seq<LedgerBlock>)
    requires ValidChain(json, chain)
    ensures ParametersCurrent(chain[0]) && CirculatingSupply(chain) <= MAX_SUPPLY
  {
    ChainWellFormed(json, chain);
    ChainSupply(json, chain);
    GenesisParameters(chain[0]);
  }

  /** Loading a store that reads as a chain with current parameters. */
  lemma LoadReproduces(w: World, kv: Store, chain: seq<LedgerBlock>, difficulty: u32, miner: string, nonce: u64)
    requires ReadChain(w.json, kv) == chain && |chain| > 0
    requires ParametersCurrent(chain[0]) && CirculatingSupply(chain) <= MAX_SUPPLY
    ensures
      var l := Opened(kv, difficulty, miner);
      LoadOn(w, l, nonce) ==
        (l.(chain := chain, state := Replay(chain)),
         if HexEncode(chain[0].hash) == EXPECTED_GENESIS_HASH then Loaded(true) else LoadPanic)
  {
    var l := Opened(kv, difficulty, miner);
    AppendToNothing(chain);
  }

  lemma AppendToNothing<T>(xs: seq<T>)
    ensures [] + xs == xs
  {
  }

  lemma GenesisParameters(g: LedgerBlock)
    requires IsGenesis(g)
    ensures ParametersCurrent(g)
  {
    assert CalculateBlockReward(0) == BLOCK_REWARD;
  }

  /** What a start makes of every store, of blocks it has written or of any others: without blocks, and
      where the first block carries other parameters than the node's, a new genesis, in the latter
      case on an emptied store; else the blocks and their replay, unless the first hash is not the
      checkpoint's or the rewards exceed the cap. */
  lemma StartOutcome(w: World, kv: Store, difficulty: u32, miner: string, nonce: u64)
    ensures
      var c := ReadChain(w.json, kv);
      var d: u32 := if difficulty == 0 then 1 else difficulty;
      var g := GenesisBlock(w, d, 0x1e0ffff0, nonce);
      Initialized(w, kv, difficulty, miner, nonce) ==
        if |c| == 0 then Some(Ledger([g], map[], [], Saved(kv, w.json, 0, g), d, 0x1e0ffff0, miner))
        else if c[0].message != "anjayyy" || c[0].timestamp != 1770249600 || c[0].bits != 0x1e0ffff0
                || c[0].reward != 5_000_000_000 || c[0].maxSupply != 78_500_000_000_000_000
                || c[0].halvingInterval != 7_850_000
        then Some(Ledger([g], map[], [], Saved(map[], w.json, 0, g), d, 0x1e0ffff0, miner))
        else if HexEncode(c[0].hash) == EXPECTED_GENESIS_HASH && CirculatingSupply(c) <= 78_500_000_000_000_000
        then Some(Ledger(c, Replay(c), [], kv, d, 0x1e0ffff0, miner))
        else None
  {
    var c := ReadChain(w.json, kv);
    if |c| == 0 {
      RestartSpawns(w, kv, difficulty, miner, nonce);
      AppendToNothing([GenesisBlock(w, FirstDifficulty(difficulty), GENESIS_BITS, nonce)]);
    } else {
      LoadAny(w, kv, difficulty, miner, nonce);
    }
  }

  lemma LoadAny(w: World, kv: Store, difficulty: u32, miner: string, nonce: u64)
    requires |ReadChain(w.json, kv)| > 0
    ensures
      var c := ReadChain(w.json, kv);
      var d := FirstDifficulty(difficulty);
      var g := GenesisBlock(w, d, GENESIS_BITS, nonce);
      Initialized(w, kv, difficulty, miner, nonce) ==
        if !ParametersCurrent(c[0]) then Some(Ledger([g], map[], [], Saved(map[], w.json, 0, g), d, GENESIS_BITS, miner))
        else if Integral(c) then Some(Ledger(c, Replay(c), [], kv, d, GENESIS_BITS, miner))
        else None
  {
    AppendToNothing(ReadChain(w.json, kv));
    AppendToNothing([GenesisBlock(w, FirstDifficulty(difficulty), GENESIS_BITS, nonce)]);
  }

  /** Over a store without blocks a restart spawns genesis. */
  lemma RestartSpawns(w: World, kv: Store, difficulty: u32, miner: string, nonce: u64)
    requires ReadChain(w.json, kv) == []
    ensures Initialized(w, kv, difficulty, miner, nonce) == Some(SpawnGenesisOn(w, Opened(kv, difficulty, miner), nonce))
  {
    var none: seq<LedgerBlock> := [];
    assert none + none == none;
  }

  lemma StartedSound(w: World, kv: Store, difficulty: u32, miner: string, nonce: u64)
    requires Kept(w.json, kv, ReadChain(w.json, kv)) && miner != SYSTEM_GENESIS
    requires RoundTrips(w.json, GenesisBlock(w, FirstDifficulty(difficulty), GENESIS_BITS, nonce))
    ensures
      var result := Initialized(w, kv, difficulty, miner, nonce);
      result.Some? ==> Sound(w, Up(result.value, None))
  {
    if ReadChain(w.json, kv) == [] {
      SpawnedSound(w, kv, difficulty, miner, nonce);
    } else {
      LoadedSound(w, kv, ReadChain(w.json, kv), difficulty, miner, nonce);
    }
  }

  lemma SpawnedSound(w: World, kv: Store, difficulty: u32, miner: string, nonce: u64)
    requires Kept(w.json, kv, []) && ReadChain(w.json, kv) == [] && miner != SYSTEM_GENESIS
    requires RoundTrips(w.json, GenesisBlock(w, FirstDifficulty(difficulty), GENESIS_BITS, nonce))
    ensures
      var result := Initialized(w, kv, difficulty, miner, nonce);
      result.Some? && Sound(w, Up(result.value, None))
  {
    RestartSpawns(w, kv, difficulty, miner, nonce);
    GenesisKeeps(w, kv, FirstDifficulty(difficulty), GENESIS_BITS, nonce);
    var l := Opened(kv, difficulty, miner);
    assert l.chain + [GenesisBlock(w, l.difficulty, l.bits, nonce)] == [GenesisBlock(w, l.difficulty, l.bits, nonce)];
    SoundQuiet(w, SpawnGenesisOn(w, l, nonce));
  }

  lemma LoadedSound(w: World, kv: Store, chain: seq<LedgerBlock>, difficulty: u32, miner: string, nonce: u64)
    requires Kept(w.json, kv, chain) && |chain| > 0 && miner != SYSTEM_GENESIS
    ensures
      var result := Initialized(w, kv, difficulty, miner, nonce);
      result.Some? ==> Sound(w, Up(result.value, None))
  {
    RestartReproduces(w, kv, chain, difficulty, miner, nonce);
    SoundQuiet(w, Opened(kv, difficulty, miner).(chain := chain, state := Replay(chain)));
  }

  lemma RestartKeeps(w: World, n: Node, difficulty: u32, miner: string, nonce: u64)
    requires Sound(w, n) && Enabled(w, n, Restart(difficulty, miner, nonce))
    requires WellBehaved(w, n, Restart(difficulty, miner, nonce))
    ensures Sound(w, Next(w, n, Restart(difficulty, miner, nonce)))
  {
    StartedSound(w, n.kv, difficulty, miner, nonce);
  }

  lemma GenesisKeeps(w: World, kv: Store, difficulty: u32, bits: u32, nonce: u64)
    requires Kept(w.json, kv, [])
    requires RoundTrips(w.json, GenesisBlock(w, difficulty, bits, nonce))
    ensures
      var g := GenesisBlock(w, difficulty, bits, nonce);
      && Kept(w.json, Saved(kv, w.json, 0, g), [g]) && Replay([g]) == map[]
      && Sound(w, Down(PutBlock(kv, w.json, 0, g)))
      && ReadChain(w.json, PutBlock(kv, w.json, 0, g)) in {[], [g]}
  {
    var g := GenesisBlock(w, difficulty, bits, nonce);
    GenesisGood(w, difficulty, bits, nonce);
    SaveKeeps(w, kv, [], g);
    assert [] + [g] == [g];
  }

  /** Every step of a node keeps the invariant. */
  lemma StepKeepsSound(w: World, n: Node, step: Step)
    requires Sound(w, n) && Enabled(w, n, step) && WellBehaved(w, n, step)
    ensures Sound(w, Next(w, n, step))
  {
    match step {
      case Begin => BeginKeeps(w, n);
      case Commit(now, nonce) => CommitKeeps(w, n, now, nonce);
      case CrashInCommit(now, nonce) =>
        MinedBlockGood(w, n, now, nonce);
        SaveKeeps(w, n.l.kv, n.l.chain, InFlight(w, n, now, nonce));
      case Arrive(queue) =>
      case Submit(tx, sorted) => SubmitKeeps(w, n, tx, sorted);
      case Rollback => RollbackKeeps(w, n);
      case CrashInRollback => CrashInRollbackKeeps(w, n);
      case Append(b) => AppendKeeps(w, n, b);
      case CrashInAppend(b) => CrashInAppendKeeps(w, n, b);
      case Restart(difficulty, miner, nonce) => RestartKeeps(w, n, difficulty, miner, nonce);
      case CrashInRestart(difficulty, miner, nonce) => GenesisKeeps(w, n.kv, FirstDifficulty(difficulty), GENESIS_BITS, nonce);
      case Crash => KeptDown(w, n.l.kv, n.l.chain);
    }
  }

  lemma {:induction false} RunKeepsSound(w: World, n: Node, steps: seq<Step>)
    requires Sound(w, n) && Possible(w, n, steps) && Behaved(w, n, steps)
    ensures Sound(w, Run(w, n, steps))
    decreases |steps|
  {
    if |steps| > 0 {
      StepKeepsSound(w, n, steps[0]);
      RunKeepsSound(w, Next(w, n, steps[0]), steps[1..]);
    }
  }

  lemma EmptyDisk(w: World)
    ensures Sound(w, Down(map[]))
  {
  }

  /** The main theorem about runs, from an empty disk and whatever is queued, appended, rolled back and
      interrupted: the accounts are the replay of the chain (plus what is in flight), the chain is
      valid, the supply is the emission, and the disk reads back as the chain. */
  lemma EveryRunIsReplay(w: World, steps: seq<Step>)
    requires Possible(w, Down(map[]), steps) && Behaved(w, Down(map[]), steps)
    ensures
      var n := Run(w, Down(map[]), steps);
      && Sound(w, n)
      && (n.Up? ==>
            && SameBalances(n.l.state, Expected(n.l, n.flight))
            && CirculatingSupply(n.l.chain) == SupplyOf(n.l.chain) == Emitted(|n.l.chain|) <= MAX_SUPPLY - UNISSUED
            && ValidChain(w.json, n.l.chain)
            && ReadChain(w.json, n.l.kv) == n.l.chain)
  {
    EmptyDisk(w);
    RunKeepsSound(w, Down(map[]), steps);
    var n := Run(w, Down(map[]), steps);
    if n.Up? {
      ChainSupply(w.json, n.l.chain);
      ReadBack(w.json, n.l.kv, n.l.chain);
    }
  }

  /** MineBlock refuses a miner without the prefix, SYSTEM_GENESIS excepted, and nothing changes. */
  lemma MineRefusesIff(w: World, l: Ledger, now: i64, nonce: u64)
    requires |l.chain| > 0
    ensures
      var (l', outcome) := MineOn(w, l, now, nonce);
      && (outcome == BadMiner <==> l.miner != "SYSTEM_GENESIS" && !("xcosh" <= l.miner))
      && (outcome == BadMiner ==> l' == l)
  {
  }

  /** Mining leaves the engine at the difficulty of the block, whether or not the self-check passes, and
      touches neither bits nor miner. */
  lemma MineSetsDifficulty(w: World, l: Ledger, now: i64, nonce: u64)
    requires |l.chain| > 0 && MayMine(l.miner)
    ensures
      var (l', outcome) := MineOn(w, l, now, nonce);
      && l'.difficulty == NextDifficulty(Tip(l.chain), BlockTime(Tip(l.chain), now))
      && l'.bits == l.bits && l'.miner == l.miner
  {
  }

  /** MineBlock left alone is its two locked sections one after the other. */
  lemma MineIsBeginThenCommit(w: World, l: Ledger, now: i64, nonce: u64)
    requires |l.chain| > 0 && MayMine(l.miner)
    requires DeliversOn(w, l, Collect(w.json, l.state, l.mempool).transfers, now, nonce)
    ensures Enabled(w, Up(l, None), Begin)
    ensures Enabled(w, Next(w, Up(l, None), Begin), Commit(now, nonce))
    ensures
      var (l', outcome) := MineOn(w, l, now, nonce);
      Next(w, Next(w, Up(l, None), Begin), Commit(now, nonce)) ==
        if outcome == Mined then Up(l', None) else Down(l.kv)
  {
    var so := Collect(w.json, l.state, l.mempool);
    assert DraftOn(CollectOn(w.json, l), so.transfers, now) == DraftOn(l, so.transfers, now);
  }
}
