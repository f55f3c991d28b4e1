/** What runs keep beyond the accounts: hashes, difficulties, nonces, the order of the queue and the
    exact contents of the disk. */
module Histories {
  import opened MachineInts
  import opened Consensus
  import opened Blocks
  import opened Accounts
  import opened Validator
  import opened Chains
  import opened Selection
  import opened Mempool
  import opened Mining
  import opened Difficulty
  import opened Storage
  import opened LedgerState
  import opened Runs

  /** The block a step may put on the chain. */
  function Offered(w: World, n: Node, step: Step): Option<LedgerBlock>
    requires Enabled(w, n, step)
  {
    match step
    case Commit(now, nonce) => Some(InFlight(w, n, now, nonce))
    case CrashInCommit(now, nonce) => Some(InFlight(w, n, now, nonce))
    case Append(b) => Some(b)
    case CrashInAppend(b) => Some(b)
    case Restart(difficulty, miner, nonce) => Some(GenesisBlock(w, FirstDifficulty(difficulty), GENESIS_BITS, nonce))
    case CrashInRestart(difficulty, miner, nonce) => Some(GenesisBlock(w, FirstDifficulty(difficulty), GENESIS_BITS, nonce))
    case _ => None
  }

  ghost predicate Moved(c: seq<LedgerBlock>, c': seq<LedgerBlock>, offered: Option<LedgerBlock>) {
    c' <= c || (offered.Some? && c' == c + [offered.value])
  }

  ghost predicate StepMoves(w: World, n: Node, step: Step)
    requires Enabled(w, n, step)
  {
    Moved(ChainOf(w, n), ChainOf(w, Next(w, n, step)), Offered(w, n, step))
  }

  lemma CommitMoves(w: World, n: Node, step: Step)
    requires Sound(w, n) && Enabled(w, n, step) && WellBehaved(w, n, step)
    requires step.Commit?
    ensures StepMoves(w, n, step)
  {
    if SelfCheck(w.json, n.l.chain, InFlight(w, n, step.now, step.nonce)) != Valid {
      KeptDown(w, n.l.kv, n.l.chain);
    }
  }

  lemma CrashInCommitMoves(w: World, n: Node, step: Step)
    requires Sound(w, n) && Enabled(w, n, step) && WellBehaved(w, n, step)
    requires step.CrashInCommit?
    ensures StepMoves(w, n, step)
  {
    MinedBlockGood(w, n, step.now, step.nonce);
    SaveKeeps(w, n.l.kv, n.l.chain, InFlight(w, n, step.now, step.nonce));
  }

  lemma CrashBetweenMoves(w: World, n: Node, step: Step)
    requires Sound(w, n) && Enabled(w, n, step) && WellBehaved(w, n, step)
    requires step.CrashInRollback? || step.CrashInAppend?
    ensures StepMoves(w, n, step)
  {
    if step.CrashInRollback? {
      CrashInRollbackKeeps(w, n);
    } else {
      CrashInAppendKeeps(w, n, step.b);
    }
  }

  lemma StopMoves(w: World, n: Node, step: Step)
    requires Sound(w, n) && Enabled(w, n, step)
    requires step.Begin? || step.Crash?
    ensures StepMoves(w, n, step)
  {
    KeptDown(w, n.l.kv, n.l.chain);
  }

  lemma LiveMoves(w: World, n: Node, step: Step)
    requires Enabled(w, n, step)
    requires step.Arrive? || step.Submit? || step.Rollback? || step.Append?
    ensures StepMoves(w, n, step)
  {
  }

  lemma RestartStepMoves(w: World, n: Node, difficulty: u32, miner: string, nonce: u64)
    requires Sound(w, n) && Enabled(w, n, Restart(difficulty, miner, nonce))
    ensures StepMoves(w, n, Restart(difficulty, miner, nonce))
  {
    RestartMoves(w, n.kv, difficulty, miner, nonce);
  }

  lemma CrashInRestartMoves(w: World, n: Node, difficulty: u32, miner: string, nonce: u64)
    requires Sound(w, n) && Enabled(w, n, CrashInRestart(difficulty, miner, nonce))
    requires WellBehaved(w, n, CrashInRestart(difficulty, miner, nonce))
    ensures StepMoves(w, n, CrashInRestart(difficulty, miner, nonce))
  {
    GenesisKeeps(w, n.kv, FirstDifficulty(difficulty), GENESIS_BITS, nonce);
  }

  /** A step leaves the chain, shortens it, or puts its one block on it. */
  lemma ChainMoves(w: World, n: Node, step: Step)
    requires Sound(w, n) && Enabled(w, n, step) && WellBehaved(w, n, step)
    ensures StepMoves(w, n, step)
  {
    if step.Commit? {
      CommitMoves(w, n, step);
    } else if step.CrashInCommit? {
      CrashInCommitMoves(w, n, step);
    } else if step.CrashInRollback? || step.CrashInAppend? {
      CrashBetweenMoves(w, n, step);
    } else if step.Begin? || step.Crash? {
      StopMoves(w, n, step);
    } else if step.Restart? {
      RestartStepMoves(w, n, step.difficulty, step.miner, step.nonce);
    } else if step.CrashInRestart? {
      CrashInRestartMoves(w, n, step.difficulty, step.miner, step.nonce);
    } else {
      LiveMoves(w, n, step);
    }
  }

  /** Genesis is only ever put on an empty chain. */
  lemma GenesisFirst(w: World, n: Node, step: Step)
    requires Sound(w, n) && Enabled(w, n, step) && WellBehaved(w, n, step)
    requires step.Restart? || step.CrashInRestart?
    requires !(ChainOf(w, Next(w, n, step)) <= ChainOf(w, n))
    ensures ChainOf(w, n) == []
  {
    if step.Restart? {
      RestartMoves(w, n.kv, step.difficulty, step.miner, step.nonce);
    }
  }

  lemma RestartMoves(w: World, kv: Store, difficulty: u32, miner: string, nonce: u64)
    requires Kept(w.json, kv, ReadChain(w.json, kv))
    ensures
      var c, result := ReadChain(w.json, kv), Initialized(w, kv, difficulty, miner, nonce);
      result.Some? ==>
        || result.value.chain == c
        || (c == [] && result.value.chain == c + [GenesisBlock(w, FirstDifficulty(difficulty), GENESIS_BITS, nonce)])
  {
    var c := ReadChain(w.json, kv);
    if c == [] {
      RestartSpawns(w, kv, difficulty, miner, nonce);
    } else {
      RestartReproduces(w, kv, c, difficulty, miner, nonce);
    }
  }

  // ---- Hashes ----

  ghost predicate Authentic(w: World, chain: seq<LedgerBlock>) {
    forall i :: 0 <= i < |chain| ==> HashesTo(w, chain[i])
  }

  /** The block a step brings in from outside. */
  function BroughtBy(step: Step): set<LedgerBlock> {
    match step
    case Append(b) => {b}
    case CrashInAppend(b) => {b}
    case _ => {}
  }

  /** The blocks a run brings in from outside. */
  function Brought(steps: seq<Step>): set<LedgerBlock> {
    if |steps| == 0 then {} else BroughtBy(steps[0]) + Brought(steps[1..])
  }

  predicate HashesOrBrought(w: World, outside: set<LedgerBlock>, b: LedgerBlock) {
    HashesTo(w, b) || b in outside
  }

  /** The blocks that do not come from outside are stored with their own hash. */
  ghost predicate OwnHashes(w: World, outside: set<LedgerBlock>, chain: seq<LedgerBlock>) {
    forall i :: 0 <= i < |chain| ==> HashesOrBrought(w, outside, chain[i])
  }

  /** Every block the node makes itself is what it hashes to. */
  lemma OfferedHashes(w: World, n: Node, step: Step)
    requires Sound(w, n) && Enabled(w, n, step)
    requires Offered(w, n, step).Some?
    ensures HashesOrBrought(w, BroughtBy(step), Offered(w, n, step).value)
  {
    match step {
      case Commit(now, nonce) =>
        MinedBlockHashes(w, n.l.chain, n.flight.value.transfers, n.l.miner, n.l.bits, now, nonce);
      case CrashInCommit(now, nonce) =>
        MinedBlockHashes(w, n.l.chain, n.flight.value.transfers, n.l.miner, n.l.bits, now, nonce);
      case Restart(difficulty, miner, nonce) =>
        var l := Opened(n.kv, difficulty, miner);
        GenesisHashes(w, l.difficulty, l.bits, nonce);
      case CrashInRestart(difficulty, miner, nonce) =>
        var l := Opened(n.kv, difficulty, miner);
        GenesisHashes(w, l.difficulty, l.bits, nonce);
      case _ =>
    }
  }

  /** What holds of every block holds after a move that offers a block of the kind. */
  lemma EveryMoved(c: seq<LedgerBlock>, c': seq<LedgerBlock>, offered: Option<LedgerBlock>, good: LedgerBlock -> bool)
    requires Moved(c, c', offered)
    requires forall i :: 0 <= i < |c| ==> good(c[i])
    requires offered.Some? ==> good(offered.value)
    ensures forall i :: 0 <= i < |c'| ==> good(c'[i])
  {
  }

  lemma StepKeepsHashes(w: World, n: Node, step: Step, outside: set<LedgerBlock>)
    requires Sound(w, n) && Enabled(w, n, step) && WellBehaved(w, n, step)
    requires OwnHashes(w, outside, ChainOf(w, n)) && BroughtBy(step) <= outside
    ensures OwnHashes(w, outside, ChainOf(w, Next(w, n, step)))
  {
    ChainMoves(w, n, step);
    if Offered(w, n, step).Some? {
      OfferedHashes(w, n, step);
    }
    EveryMoved(ChainOf(w, n), ChainOf(w, Next(w, n, step)), Offered(w, n, step), b => HashesOrBrought(w, outside, b));
  }

  lemma {:induction false} RunKeepsHashes(w: World, n: Node, steps: seq<Step>, outside: set<LedgerBlock>)
    requires Sound(w, n) && Possible(w, n, steps) && Behaved(w, n, steps)
    requires OwnHashes(w, outside, ChainOf(w, n)) && Brought(steps) <= outside
    ensures OwnHashes(w, outside, ChainOf(w, Run(w, n, steps)))
    decreases |steps|
  {
    if |steps| > 0 {
      StepKeepsHashes(w, n, steps[0], outside);
      StepKeepsSound(w, n, steps[0]);
      RunKeepsHashes(w, Next(w, n, steps[0]), steps[1..], outside);
    }
  }

  /** The blocks of a chain that a run brought in are what they hash to. */
  ghost predicate BroughtHash(w: World, outside: set<LedgerBlock>, chain: seq<LedgerBlock>) {
    forall i :: 0 <= i < |chain| && chain[i] in outside ==> HashesTo(w, chain[i])
  }

  lemma AuthenticIff(w: World, outside: set<LedgerBlock>, chain: seq<LedgerBlock>)
    requires OwnHashes(w, outside, chain)
    ensures Authentic(w, chain) <==> BroughtHash(w, outside, chain)
  {
    assert forall i :: 0 <= i < |chain| ==> HashesOrBrought(w, outside, chain[i]);
  }

  /** After every run from an empty disk, every block on the chain is stored with its own hash if and
      only if the ones brought in from outside are. */
  lemma EveryRunAuthenticIff(w: World, steps: seq<Step>)
    requires Possible(w, Down(map[]), steps) && Behaved(w, Down(map[]), steps)
    ensures
      var chain := ChainOf(w, Run(w, Down(map[]), steps));
      Authentic(w, chain) <==> BroughtHash(w, Brought(steps), chain)
  {
    EmptyDisk(w);
    RunKeepsHashes(w, Down(map[]), steps, Brought(steps));
    AuthenticIff(w, Brought(steps), ChainOf(w, Run(w, Down(map[]), steps)));
  }

  /** A block put on an authentic chain keeps it authentic exactly when it is what it hashes to. */
  lemma AuthenticGrowsIff(w: World, chain: seq<LedgerBlock>, b: LedgerBlock)
    requires Authentic(w, chain)
    ensures Authentic(w, chain + [b]) <==> HashesTo(w, b)
  {
    assert (chain + [b])[|chain|] == b;
  }

  // ---- Difficulties ----

  /** Every difficulty is the rule's, from a first one that is positive. */
  ghost predicate RightDifficulties(chain: seq<LedgerBlock>) {
    Retargeted(chain) && (|chain| > 0 ==> chain[0].difficulty >= 1)
  }

  predicate FollowsOrBrought(outside: set<LedgerBlock>, parent: LedgerBlock, b: LedgerBlock) {
    FollowsRule(parent, b) || b in outside
  }

  /** The blocks that do not come from outside carry the difficulty MineBlock gives on their parent. */
  ghost predicate OwnDifficulties(outside: set<LedgerBlock>, chain: seq<LedgerBlock>) {
    && (|chain| > 0 ==> chain[0].difficulty >= 1)
    && forall i :: 0 < i < |chain| ==> FollowsOrBrought(outside, chain[i - 1], chain[i])
  }

  lemma OwnDifficultiesGrow(outside: set<LedgerBlock>, chain: seq<LedgerBlock>, b: LedgerBlock)
    requires OwnDifficulties(outside, chain)
    requires if |chain| == 0 then b.difficulty >= 1 else FollowsOrBrought(outside, Tip(chain), b)
    ensures OwnDifficulties(outside, chain + [b])
  {
    var all := chain + [b];
    forall i | 0 < i < |all| ensures FollowsOrBrought(outside, all[i - 1], all[i]) {
      assert i < |chain| ==> FollowsOrBrought(outside, chain[i - 1], chain[i]);
    }
  }

  lemma OwnDifficultiesPrefix(outside: set<LedgerBlock>, c: seq<LedgerBlock>, c': seq<LedgerBlock>)
    requires OwnDifficulties(outside, c) && c' <= c
    ensures OwnDifficulties(outside, c')
  {
    forall i | 0 < i < |c'| ensures FollowsOrBrought(outside, c'[i - 1], c'[i]) {
      assert FollowsOrBrought(outside, c[i - 1], c[i]);
    }
  }

  /** Every block the node makes follows the rule on top of its chain. */
  lemma OfferedFollows(w: World, n: Node, step: Step)
    requires Sound(w, n) && Enabled(w, n, step)
    requires Offered(w, n, step).Some?
    ensures
      var b := Offered(w, n, step).value;
      if n.Down? then b.difficulty >= 1 else |n.l.chain| > 0 && FollowsOrBrought(BroughtBy(step), Tip(n.l.chain), b)
  {
  }

  lemma StepKeepsDifficulties(w: World, n: Node, step: Step, outside: set<LedgerBlock>)
    requires Sound(w, n) && Enabled(w, n, step) && WellBehaved(w, n, step)
    requires OwnDifficulties(outside, ChainOf(w, n)) && BroughtBy(step) <= outside
    ensures OwnDifficulties(outside, ChainOf(w, Next(w, n, step)))
  {
    ChainMoves(w, n, step);
    var c, c' := ChainOf(w, n), ChainOf(w, Next(w, n, step));
    if c' <= c {
      OwnDifficultiesPrefix(outside, c, c');
    } else {
      OfferedFollows(w, n, step);
      if n.Down? {
        GenesisFirst(w, n, step);
      }
      OwnDifficultiesGrow(outside, c, Offered(w, n, step).value);
    }
  }

  lemma {:induction false} RunKeepsDifficulties(w: World, n: Node, steps: seq<Step>, outside: set<LedgerBlock>)
    requires Sound(w, n) && Possible(w, n, steps) && Behaved(w, n, steps)
    requires OwnDifficulties(outside, ChainOf(w, n)) && Brought(steps) <= outside
    ensures OwnDifficulties(outside, ChainOf(w, Run(w, n, steps))) && Sound(w, Run(w, n, steps))
    decreases |steps|
  {
    if |steps| > 0 {
      StepKeepsDifficulties(w, n, steps[0], outside);
      StepKeepsSound(w, n, steps[0]);
      RunKeepsDifficulties(w, Next(w, n, steps[0]), steps[1..], outside);
    }
  }

  /** The blocks of a chain that a run brought in follow the rule where they stand. */
  ghost predicate BroughtFollow(outside: set<LedgerBlock>, chain: seq<LedgerBlock>) {
    forall i :: 0 < i < |chain| && chain[i] in outside ==> FollowsRule(chain[i - 1], chain[i])
  }

  lemma RightDifficultiesIff(outside: set<LedgerBlock>, chain: seq<LedgerBlock>)
    requires OwnDifficulties(outside, chain)
    ensures RightDifficulties(chain) <==> BroughtFollow(outside, chain)
  {
    assert forall i :: 0 < i < |chain| ==> FollowsOrBrought(outside, chain[i - 1], chain[i]);
  }

  /** After every run from an empty disk, every difficulty on the chain is the rule's if and only if
      those of the blocks brought in from outside are. */
  lemma EveryRunRetargetedIff(w: World, steps: seq<Step>)
    requires Possible(w, Down(map[]), steps) && Behaved(w, Down(map[]), steps)
    ensures
      var chain := ChainOf(w, Run(w, Down(map[]), steps));
      RightDifficulties(chain) <==> BroughtFollow(Brought(steps), chain)
    ensures Sound(w, Run(w, Down(map[]), steps))
  {
    EmptyDisk(w);
    RunKeepsDifficulties(w, Down(map[]), steps, Brought(steps));
    RightDifficultiesIff(Brought(steps), ChainOf(w, Run(w, Down(map[]), steps)));
  }

  /** A block put on a retargeted chain keeps it so exactly when it follows the rule on the tip. */
  lemma RetargetedGrowsIff(chain: seq<LedgerBlock>, b: LedgerBlock)
    requires |chain| > 0 && Retargeted(chain)
    ensures Retargeted(chain + [b]) <==> FollowsRule(Tip(chain), b)
  {
    var all := chain + [b];
    assert all[|chain| - 1] == Tip(chain) && all[|chain|] == b;
    if FollowsRule(Tip(chain), b) {
      forall i | 0 < i < |all| ensures FollowsRule(all[i - 1], all[i]) {
        assert i < |chain| ==> FollowsRule(chain[i - 1], chain[i]);
      }
    }
  }

  /** Bounds over a chain no longer than the room a uint32 leaves above its first difficulty. */
  ghost predicate DifficultyBounded(c: seq<LedgerBlock>) {
    |c| > 0 && c[0].difficulty + |c| <= TWO_32 ==>
      && (forall i :: 0 <= i < |c| ==>
            && 1 <= c[i].difficulty <= c[0].difficulty + i
            && 71 * (c[0].difficulty - c[i].difficulty) <= c[i].timestamp - c[0].timestamp)
      && (forall i :: 0 < i < |c| ==> -1 <= c[i].difficulty - c[i - 1].difficulty <= 1)
  }

  lemma RightDifficultiesBound(json: Json, c: seq<LedgerBlock>)
    requires GoodChain(json, c) && RightDifficulties(c)
    ensures DifficultyBounded(c)
  {
    if |c| > 0 && c[0].difficulty + |c| <= TWO_32 {
      DifficultyBounds(json, c);
    }
  }

  lemma SoundBounds(w: World, n: Node)
    requires Sound(w, n) && RightDifficulties(ChainOf(w, n))
    ensures DifficultyBounded(ChainOf(w, n))
  {
    RightDifficultiesBound(w.json, ChainOf(w, n));
  }

  /** The difficulty bounds hold over the chain of every run from an empty disk whose blocks from
      outside follow the rule where they stand on it. */
  lemma EveryRunBoundsDifficulty(w: World, steps: seq<Step>)
    requires Possible(w, Down(map[]), steps) && Behaved(w, Down(map[]), steps)
    requires BroughtFollow(Brought(steps), ChainOf(w, Run(w, Down(map[]), steps)))
    ensures DifficultyBounded(ChainOf(w, Run(w, Down(map[]), steps)))
  {
    EveryRunRetargetedIff(w, steps);
    SoundBounds(w, Run(w, Down(map[]), steps));
  }

  // ---- Account nonces ----

  /** The nonces too are the replay's. */
  ghost predicate NoncesReplayed(n: Node) {
    n.Up? ==> SameNonces(n.l.state, Expected(n.l, n.flight))
  }

  lemma StepKeepsNonces(w: World, n: Node, step: Step)
    requires Sound(w, n) && Enabled(w, n, step) && WellBehaved(w, n, step)
    requires NoncesReplayed(n) && !step.Submit?
    ensures NoncesReplayed(Next(w, n, step))
  {
    match step {
      case Begin => BeginKeepsNonces(w, n);
      case Commit(now, nonce) => CommitKeepsNonces(w, n, now, nonce);
      case Append(b) =>
        AppendedGood(w.json, n.l, b);
        RebuildCongruence(n.l.state, Replay(n.l.chain), b);
      case Restart(difficulty, miner, nonce) => RestartReplays(w, n.kv, difficulty, miner, nonce);
      case _ =>
    }
  }

  lemma BeginKeepsNonces(w: World, n: Node)
    requires Sound(w, n) && Enabled(w, n, Begin) && NoncesReplayed(n)
    ensures NoncesReplayed(Next(w, n, Begin))
  {
    var _ := CollectCharacterised(w.json, n.l.state, n.l.mempool);
    ApplyTransfersCongruence(n.l.state, Replay(n.l.chain), Collect(w.json, n.l.state, n.l.mempool).transfers);
  }

  lemma CommitKeepsNonces(w: World, n: Node, now: i64, nonce: u64)
    requires Sound(w, n) && Enabled(w, n, Commit(now, nonce)) && WellBehaved(w, n, Commit(now, nonce))
    requires NoncesReplayed(n)
    ensures NoncesReplayed(Next(w, n, Commit(now, nonce)))
  {
    var b := InFlight(w, n, now, nonce);
    if SelfCheck(w.json, n.l.chain, b) == Valid {
      MinedBlockGood(w, n, now, nonce);
      DepositCongruence(n.l.state, Expected(n.l, n.flight), n.l.miner, Add64(b.reward, n.flight.value.fees));
    }
  }

  lemma RestartReplays(w: World, kv: Store, difficulty: u32, miner: string, nonce: u64)
    requires Kept(w.json, kv, ReadChain(w.json, kv))
    ensures
      var result := Initialized(w, kv, difficulty, miner, nonce);
      result.Some? ==> result.value.state == Replay(result.value.chain)
  {
    if ReadChain(w.json, kv) == [] {
      RestartSpawns(w, kv, difficulty, miner, nonce);
      var l := Opened(kv, difficulty, miner);
      GenesisHashes(w, l.difficulty, l.bits, nonce);
      GenesisReplay(GenesisBlock(w, l.difficulty, l.bits, nonce));
      assert l.chain + [GenesisBlock(w, l.difficulty, l.bits, nonce)] == [GenesisBlock(w, l.difficulty, l.bits, nonce)];
    } else {
      RestartReproduces(w, kv, ReadChain(w.json, kv), difficulty, miner, nonce);
    }
  }

  predicate NeverSubmits(steps: seq<Step>) {
    |steps| > 0 ==> !steps[0].Submit? && NeverSubmits(steps[1..])
  }

  /** In every run without AddToMempool the live accounts are the replay in nonces as in balances. */
  lemma {:induction false} RunKeepsNonces(w: World, n: Node, steps: seq<Step>)
    requires Sound(w, n) && Possible(w, n, steps) && Behaved(w, n, steps)
    requires NoncesReplayed(n) && NeverSubmits(steps)
    ensures NoncesReplayed(Run(w, n, steps))
    decreases |steps|
  {
    if |steps| > 0 {
      StepKeepsNonces(w, n, steps[0]);
      StepKeepsSound(w, n, steps[0]);
      RunKeepsNonces(w, Next(w, n, steps[0]), steps[1..]);
    }
  }

  // ---- The order of the queue ----

  ghost predicate QueueInOrder(n: Node) {
    n.Up? ==> SortedByFee(n.l.mempool)
  }

  /** Steps that reach the queue only through AddToMempool and MineBlock. */
  predicate KeepsQueue(step: Step) {
    !step.Arrive? && !step.Rollback?
  }

  lemma RestartEmptiesQueue(w: World, kv: Store, difficulty: u32, miner: string, nonce: u64)
    ensures
      var result := Initialized(w, kv, difficulty, miner, nonce);
      result.Some? ==> result.value.mempool == []
  {
  }

  lemma StepKeepsQueue(w: World, n: Node, step: Step)
    requires Enabled(w, n, step) && QueueInOrder(n) && KeepsQueue(step)
    ensures QueueInOrder(Next(w, n, step))
  {
    match step {
      case Begin => CollectKeepsOrder(w.json, n.l.state, n.l.mempool);
      case Restart(difficulty, miner, nonce) => RestartEmptiesQueue(w, n.kv, difficulty, miner, nonce);
      case _ =>
    }
  }

  lemma {:induction false} RunKeepsQueue(w: World, n: Node, steps: seq<Step>)
    requires Possible(w, n, steps) && QueueInOrder(n)
    requires forall i :: 0 <= i < |steps| ==> KeepsQueue(steps[i])
    ensures QueueInOrder(Run(w, n, steps))
    decreases |steps|
  {
    if |steps| > 0 {
      StepKeepsQueue(w, n, steps[0]);
      RunKeepsQueue(w, Next(w, n, steps[0]), steps[1..]);
    }
  }

  // ---- The disk ----

  /** The disk holds the chain and nothing else, or nothing at all before the first genesis. */
  ghost predicate DiskExact(w: World, n: Node) {
    match n
    case Up(l, _) => HoldsExactly(w.json, l.kv, l.chain)
    case Down(kv) => kv == map[] || HoldsExactly(w.json, kv, ReadChain(w.json, kv))
  }

  predicate BetweenWrites(step: Step) {
    step.CrashInCommit? || step.CrashInAppend? || step.CrashInRollback? || step.CrashInRestart?
  }

  predicate NeverBetweenWrites(steps: seq<Step>) {
    |steps| > 0 ==> !BetweenWrites(steps[0]) && NeverBetweenWrites(steps[1..])
  }

  lemma ExactDown(w: World, kv: Store, chain: seq<LedgerBlock>)
    requires Kept(w.json, kv, chain) && HoldsExactly(w.json, kv, chain)
    ensures DiskExact(w, Down(kv))
  {
    ReadBack(w.json, kv, chain);
  }

  lemma RestartExact(w: World, kv: Store, difficulty: u32, miner: string, nonce: u64)
    requires Kept(w.json, kv, ReadChain(w.json, kv))
    requires kv == map[] || HoldsExactly(w.json, kv, ReadChain(w.json, kv))
    ensures
      var result := Initialized(w, kv, difficulty, miner, nonce);
      result.Some? ==> HoldsExactly(w.json, result.value.kv, result.value.chain)
  {
    var l := Opened(kv, difficulty, miner);
    if ReadChain(w.json, kv) == [] {
      RestartSpawns(w, kv, difficulty, miner, nonce);
      SaveExactly(w.json, kv, [], GenesisBlock(w, l.difficulty, l.bits, nonce));
    } else {
      RestartReproduces(w, kv, ReadChain(w.json, kv), difficulty, miner, nonce);
    }
  }

  lemma CommitKeepsDisk(w: World, n: Node, now: i64, nonce: u64)
    requires Sound(w, n) && Enabled(w, n, Commit(now, nonce)) && WellBehaved(w, n, Commit(now, nonce))
    requires DiskExact(w, n)
    ensures DiskExact(w, Next(w, n, Commit(now, nonce)))
  {
    var b := InFlight(w, n, now, nonce);
    if SelfCheck(w.json, n.l.chain, b) == Valid {
      MinedBlockGood(w, n, now, nonce);
      SaveExactly(w.json, n.l.kv, n.l.chain, b);
    } else {
      ExactDown(w, n.l.kv, n.l.chain);
    }
  }

  lemma BeginKeepsDisk(w: World, n: Node)
    requires Sound(w, n) && Enabled(w, n, Begin)
    requires DiskExact(w, n)
    ensures DiskExact(w, Next(w, n, Begin))
  {
    ExactDown(w, n.l.kv, n.l.chain);
  }

  lemma RollbackKeepsDisk(w: World, n: Node)
    requires Sound(w, n) && Enabled(w, n, Rollback)
    requires DiskExact(w, n)
    ensures DiskExact(w, Next(w, n, Rollback))
  {
    GoodShrinks(w.json, n.l.chain);
    DeleteExactly(w.json, n.l.kv, n.l.chain);
  }

  lemma AppendKeepsDisk(w: World, n: Node, b: LedgerBlock)
    requires Sound(w, n) && Enabled(w, n, Append(b)) && WellBehaved(w, n, Append(b))
    requires DiskExact(w, n)
    ensures DiskExact(w, Next(w, n, Append(b)))
  {
    AppendedGood(w.json, n.l, b);
    SaveExactly(w.json, n.l.kv, n.l.chain, b);
  }

  lemma StepKeepsDisk(w: World, n: Node, step: Step)
    requires Sound(w, n) && Enabled(w, n, step) && WellBehaved(w, n, step)
    requires DiskExact(w, n) && !BetweenWrites(step)
    ensures DiskExact(w, Next(w, n, step))
  {
    match step {
      case Begin => BeginKeepsDisk(w, n);
      case Crash => ExactDown(w, n.l.kv, n.l.chain);
      case Commit(now, nonce) => CommitKeepsDisk(w, n, now, nonce);
      case Append(b) => AppendKeepsDisk(w, n, b);
      case Rollback => RollbackKeepsDisk(w, n);
      case Restart(difficulty, miner, nonce) => RestartExact(w, n.kv, difficulty, miner, nonce);
      case _ =>
    }
  }

  /** In every run whose crashes fall between operations the disk holds exactly block_0 to
      block_{n-1} of the chain and last_index n-1. */
  lemma {:induction false} RunKeepsDisk(w: World, n: Node, steps: seq<Step>)
    requires Sound(w, n) && Possible(w, n, steps) && Behaved(w, n, steps)
    requires DiskExact(w, n) && NeverBetweenWrites(steps)
    ensures DiskExact(w, Run(w, n, steps))
    decreases |steps|
  {
    if |steps| > 0 {
      StepKeepsDisk(w, n, steps[0]);
      StepKeepsSound(w, n, steps[0]);
      RunKeepsDisk(w, Next(w, n, steps[0]), steps[1..]);
    }
  }
}
