/** The coins of whole runs: what the balances add up to after every run, and when that is what the
    chain has issued. */
module Coins {
  import opened MachineInts
  import opened Transfers
  import opened Consensus
  import opened Emission
  import opened Blocks
  import opened Accounts
  import opened Totals
  import opened Chains
  import opened Selection
  import opened Mempool
  import opened Mining
  import opened LedgerState
  import opened Runs
  import opened Histories

  // ---- Every chain ----

  /** The coins the blocks after genesis make beyond their rewards, less those they lose. */
  function Imbalance(chain: seq<LedgerBlock>): int {
    if |chain| <= 1 then 0
    else
      var front := chain[..|chain| - 1];
      Imbalance(front) + BlockImbalance(Replay(front), Tip(chain))
  }

  lemma GenesisTotal(chain: seq<LedgerBlock>)
    requires |chain| == 1 && IsGenesis(chain[0])
    ensures Total(Replay(chain)) == 0 && SupplyOf(chain) == BLOCK_REWARD
  {
    assert chain == [chain[0]];
    GenesisReplay(chain[0]);
    assert SupplyOf(chain[..0]) == 0;
    assert CalculateBlockReward(0) == BLOCK_REWARD;
  }

  /** The balances after replaying any chain that starts with genesis, whoever mined its blocks and
      whatever they move. */
  lemma {:induction false} ReplayTotal(chain: seq<LedgerBlock>)
    requires |chain| > 0 && IsGenesis(chain[0])
    ensures Total(Replay(chain)) == SupplyOf(chain) - BLOCK_REWARD + Imbalance(chain)
  {
    if |chain| == 1 {
      GenesisTotal(chain);
    } else {
      var front := chain[..|chain| - 1];
      ReplayTotal(front);
      ReplayIssues(Replay(front), Tip(chain));
    }
  }

  function FeesInFlight(flight: Option<Flight>): u64 {
    if flight.None? then 0 else flight.value.fees
  }

  /** What the transfers in flight have added to the balances besides taking their fees. */
  function FlightWraps(l: Ledger, flight: Option<Flight>): int {
    TransfersWraps(Replay(l.chain), FlightTransfers(flight))
  }

  lemma FlightTotal(l: Ledger, flight: Option<Flight>)
    requires FlightOk(l, flight)
    ensures Total(Expected(l, flight)) ==
            Total(Replay(l.chain)) - FeeSum(FlightTransfers(flight)) + FlightWraps(l, flight) * TWO_64
  {
    TransfersAccounting(Replay(l.chain), FlightTransfers(flight));
    FundedIffNoShortfall(Replay(l.chain), FlightTransfers(flight));
  }

  /** The balances of every sound node, between the locks of MineBlock as well. */
  lemma SoundTotal(w: World, n: Node)
    requires Sound(w, n) && n.Up?
    ensures
      Total(n.l.state) + FeeSum(FlightTransfers(n.flight)) ==
      CirculatingSupply(n.l.chain) - BLOCK_REWARD + Imbalance(n.l.chain) + FlightWraps(n.l, n.flight) * TWO_64
  {
    ChainSupply(w.json, n.l.chain);
    ReplayTotal(n.l.chain);
    FlightTotal(n.l, n.flight);
    TotalOfSameBalances(n.l.state, Expected(n.l, n.flight));
  }

  /** After every run from an empty disk, whatever blocks were appended and whatever was queued: the
      balances and fees in flight are the issued supply, less the genesis reward, which nobody gets,
      plus the imbalance of the chain. With nothing in flight coins are conserved if and only if
      the imbalances of the blocks cancel out. */
  lemma EveryRunConservesIff(w: World, steps: seq<Step>)
    requires Possible(w, Down(map[]), steps) && Behaved(w, Down(map[]), steps)
    requires Run(w, Down(map[]), steps).Up?
    ensures
      var n := Run(w, Down(map[]), steps);
      && Total(n.l.state) + FeeSum(FlightTransfers(n.flight)) ==
         CirculatingSupply(n.l.chain) - BLOCK_REWARD + Imbalance(n.l.chain) + FlightWraps(n.l, n.flight) * TWO_64
      && (n.flight.None? ==>
            (Total(n.l.state) == CirculatingSupply(n.l.chain) - BLOCK_REWARD <==> Imbalance(n.l.chain) == 0))
  {
    EmptyDisk(w);
    RunKeepsSound(w, Down(map[]), steps);
    SoundTotal(w, Run(w, Down(map[]), steps));
  }

  /** How far the balances are from the issued supply. */
  ghost function Gap(l: Ledger): int {
    Total(l.state) - (SupplyOf(l.chain) - BLOCK_REWARD)
  }

  lemma AppendMovesGap(json: Json, l: Ledger, b: LedgerBlock)
    requires AppendOn(json, l, b).Some?
    ensures Gap(AppendOn(json, l, b).value) == Gap(l) + BlockImbalance(l.state, b)
  {
    assert (l.chain + [b])[..|l.chain|] == l.chain;
    ReplayIssues(l.state, b);
  }

  /** Whether an accepted block keeps the coin equation, on any ledger, whoever mined it and whatever
      it moves; the validator itself never looks. */
  lemma AppendConservesIff(json: Json, l: Ledger, b: LedgerBlock)
    requires AppendOn(json, l, b).Some?
    ensures
      Gap(AppendOn(json, l, b).value) == Gap(l) <==>
      ShortfallSum(l.state, b.transfers) + BlockWraps(l.state, b) * TWO_64 == Uncredited(b)
  {
    AppendMovesGap(json, l, b);
  }

  /** An accepted block whose additions have no net wraps keeps the coin equation exactly when every
      sender in it can pay, if its miner is credited; if not, exactly when the shortfalls add up to
      its fees and reward. */
  lemma AppendConservesIffFunded(json: Json, l: Ledger, b: LedgerBlock)
    requires AppendOn(json, l, b).Some?
    requires BlockWraps(l.state, b) == 0
    ensures
      Gap(AppendOn(json, l, b).value) == Gap(l) <==>
      if IsCredited(b.miner) then Funded(l.state, b.transfers)
      else ShortfallSum(l.state, b.transfers) == FeeSum(b.transfers) + b.reward
  {
    AppendMovesGap(json, l, b);
    FundedIffNoShortfall(l.state, b.transfers);
  }

  // ---- Chains that spend rightly ----

  /** A block that spends only what is there, with honest costs, for a miner's credit. */
  predicate SpendsRightly(state: Accounts, b: LedgerBlock) {
    IsCredited(b.miner) && AllCostsFit(b.transfers) && Funded(state, b.transfers)
  }

  ghost predicate Solvent(chain: seq<LedgerBlock>) {
    forall i :: 0 < i < |chain| ==> SpendsRightly(Replay(chain[..i]), chain[i])
  }

  lemma SolventGrows(chain: seq<LedgerBlock>, b: LedgerBlock)
    requires Solvent(chain) && SpendsRightly(Replay(chain), b)
    ensures Solvent(chain + [b])
  {
    var all := chain + [b];
    forall i | 0 < i < |all| ensures SpendsRightly(Replay(all[..i]), all[i]) {
      if i < |chain| {
        assert all[..i] == chain[..i];
        assert SpendsRightly(Replay(chain[..i]), chain[i]);
      } else {
        assert all[..i] == chain;
      }
    }
  }

  lemma {:induction false} SupplyMonotone(chain: seq<LedgerBlock>, n: nat)
    requires n <= |chain|
    ensures SupplyOf(chain[..n]) <= SupplyOf(chain)
  {
    if n == |chain| {
      assert chain[..n] == chain;
    } else {
      SupplyMonotone(chain[..|chain| - 1], n);
      assert chain[..|chain| - 1][..n] == chain[..n];
    }
  }

  lemma PrefixGrows(chain: seq<LedgerBlock>, n: nat)
    requires 1 <= n <= |chain|
    ensures Replay(chain[..n]) == RebuildBlock(Replay(chain[..n - 1]), chain[n - 1])
    ensures SupplyOf(chain[..n]) == SupplyOf(chain[..n - 1]) + chain[n - 1].reward
  {
    assert chain[..n][..n - 1] == chain[..n - 1];
  }

  lemma {:induction false} PrefixTotal(chain: seq<LedgerBlock>, n: nat)
    requires Solvent(chain) && 1 <= n <= |chain| && IsGenesis(chain[0])
    requires SupplyOf(chain) < TWO_64
    ensures Total(Replay(chain[..n])) == SupplyOf(chain[..n]) - chain[0].reward
  {
    PrefixGrows(chain, n);
    if n == 1 {
      GenesisReplay(chain[0]);
      assert chain[..1] == [chain[0]];
      assert SupplyOf(chain[..0]) == 0;
    } else {
      PrefixTotal(chain, n - 1);
      SupplyMonotone(chain, n);
      assert SpendsRightly(Replay(chain[..n - 1]), chain[n - 1]);
      FundedBlockTotal(Replay(chain[..n - 1]), chain[n - 1]);
    }
  }

  lemma SolventTotal(json: Json, chain: seq<LedgerBlock>)
    requires ValidChain(json, chain) && Solvent(chain)
    ensures Total(Replay(chain)) == SupplyOf(chain) - BLOCK_REWARD <= MAX_SUPPLY
    ensures Imbalance(chain) == 0
  {
    ReplayTotal(chain);
    ChainSupply(json, chain);
    ValidIsLinked(json, chain);
    assert CalculateBlockReward(0) == BLOCK_REWARD;
    PrefixTotal(chain, |chain|);
    assert chain[..|chain|] == chain;
  }

  // ---- Runs that spend rightly ----

  /** What is asked besides: transfers' costs do not wrap, and appended blocks spend rightly. */
  predicate Thrifty(w: World, n: Node, step: Step)
    requires Enabled(w, n, step)
  {
    match step
    case Arrive(queue) => AllCostsFit(queue)
    case Submit(tx, _) => CostFits(tx)
    case Append(b) => SpendsRightly(Replay(n.l.chain), b)
    case CrashInAppend(b) => SpendsRightly(Replay(n.l.chain), b)
    case _ => true
  }

  predicate ThriftyRun(w: World, n: Node, steps: seq<Step>)
    requires Possible(w, n, steps)
    decreases |steps|
  {
    |steps| > 0 ==> Thrifty(w, n, steps[0]) && ThriftyRun(w, Next(w, n, steps[0]), steps[1..])
  }

  /** The costs of the transfers a node holds outside its chain do not wrap. */
  ghost predicate HeldCostsFit(n: Node) {
    n.Up? ==> AllCostsFit(n.l.mempool) && AllCostsFit(FlightTransfers(n.flight))
  }

  ghost predicate Paying(w: World, n: Node) {
    Sound(w, n) && Solvent(ChainOf(w, n)) && HeldCostsFit(n)
  }

  lemma {:induction false} ReversedMembers<T>(xs: seq<T>)
    ensures forall x :: x in Reversed(xs) <==> x in xs
  {
    if |xs| > 0 {
      ReversedMembers(xs[..|xs| - 1]);
      assert xs == xs[..|xs| - 1] + [xs[|xs| - 1]];
    }
  }

  lemma TipSpendsRightly(chain: seq<LedgerBlock>)
    requires Solvent(chain) && |chain| > 1
    ensures SpendsRightly(Replay(chain[..|chain| - 1]), Tip(chain))
  {
  }

  lemma ReturnedCostsFit(transfers: seq<Transfer>, mempool: seq<Transfer>)
    requires AllCostsFit(transfers) && AllCostsFit(mempool)
    ensures AllCostsFit(Reversed(transfers) + mempool)
  {
    ReversedMembers(transfers);
  }

  lemma SolventFront(c: seq<LedgerBlock>, c': seq<LedgerBlock>)
    requires Solvent(c) && c' <= c
    ensures Solvent(c')
  {
    forall i | 0 < i < |c'| ensures SpendsRightly(Replay(c'[..i]), c'[i]) {
      assert c'[..i] == c[..i];
      assert SpendsRightly(Replay(c[..i]), c[i]);
    }
  }

  /** The block a step may put on a chain spends rightly there, unless it is genesis. */
  lemma OfferedSpends(w: World, n: Node, step: Step)
    requires Paying(w, n) && Enabled(w, n, step) && Thrifty(w, n, step)
    requires Offered(w, n, step).Some? && n.Up?
    ensures SpendsRightly(Replay(n.l.chain), Offered(w, n, step).value)
  {
  }

  lemma StepKeepsSolvent(w: World, n: Node, step: Step)
    requires Paying(w, n) && Enabled(w, n, step) && WellBehaved(w, n, step) && Thrifty(w, n, step)
    ensures Solvent(ChainOf(w, Next(w, n, step)))
  {
    ChainMoves(w, n, step);
    var c, c' := ChainOf(w, n), ChainOf(w, Next(w, n, step));
    if c' <= c {
      SolventFront(c, c');
    } else if n.Down? {
      GenesisFirst(w, n, step);
    } else {
      OfferedSpends(w, n, step);
      SolventGrows(c, Offered(w, n, step).value);
    }
  }

  lemma SortedCostsFit(q: seq<Transfer>, sorted: seq<Transfer>)
    requires SortsTo(q, sorted) && AllCostsFit(q)
    ensures AllCostsFit(sorted)
  {
    forall x | x in sorted ensures CostFits(x) {
      assert x in multiset(sorted);
    }
  }

  lemma BeginKeepsCosts(w: World, n: Node)
    requires Paying(w, n) && Enabled(w, n, Begin)
    ensures HeldCostsFit(Next(w, n, Begin))
  {
    CollectMembers(w.json, n.l.state, n.l.mempool);
  }

  lemma RollbackKeepsCosts(w: World, n: Node)
    requires Paying(w, n) && Enabled(w, n, Rollback)
    ensures HeldCostsFit(Next(w, n, Rollback))
  {
    TipSpendsRightly(n.l.chain);
    ReturnedCostsFit(Tip(n.l.chain).transfers, n.l.mempool);
  }

  lemma RestartKeepsCosts(w: World, n: Node, difficulty: u32, miner: string, nonce: u64)
    requires Enabled(w, n, Restart(difficulty, miner, nonce))
    ensures HeldCostsFit(Next(w, n, Restart(difficulty, miner, nonce)))
  {
    RestartEmptiesQueue(w, n.kv, difficulty, miner, nonce);
  }

  lemma StepKeepsCosts(w: World, n: Node, step: Step)
    requires Paying(w, n) && Enabled(w, n, step) && Thrifty(w, n, step)
    ensures HeldCostsFit(Next(w, n, step))
  {
    match step {
      case Begin => BeginKeepsCosts(w, n);
      case Submit(tx, sorted) => SortedCostsFit(n.l.mempool + [tx], sorted);
      case Rollback => RollbackKeepsCosts(w, n);
      case Restart(difficulty, miner, nonce) => RestartKeepsCosts(w, n, difficulty, miner, nonce);
      case _ =>
    }
  }

  lemma StepKeepsPaying(w: World, n: Node, step: Step)
    requires Paying(w, n) && Enabled(w, n, step) && WellBehaved(w, n, step) && Thrifty(w, n, step)
    ensures Paying(w, Next(w, n, step))
  {
    StepKeepsSound(w, n, step);
    StepKeepsSolvent(w, n, step);
    StepKeepsCosts(w, n, step);
  }

  lemma {:induction false} RunKeepsPaying(w: World, n: Node, steps: seq<Step>)
    requires Paying(w, n) && Possible(w, n, steps) && Behaved(w, n, steps) && ThriftyRun(w, n, steps)
    ensures Paying(w, Run(w, n, steps))
    decreases |steps|
  {
    if |steps| > 0 {
      StepKeepsPaying(w, n, steps[0]);
      RunKeepsPaying(w, Next(w, n, steps[0]), steps[1..]);
    }
  }

  /** The coins: balances plus the fees in flight are what the chain has issued, less the reward of
      genesis, which nobody gets; so every sum stays far below a uint64. */
  lemma PayingConserves(w: World, n: Node)
    requires Paying(w, n) && n.Up?
    ensures
      var l := n.l;
      && Total(l.state) + FeesInFlight(n.flight) == CirculatingSupply(l.chain) - BLOCK_REWARD
      && CirculatingSupply(l.chain) == SupplyOf(l.chain) <= MAX_SUPPLY - UNISSUED
      && FeesInFlight(n.flight) == FeeSum(FlightTransfers(n.flight))
  {
    var l := n.l;
    ChainSupply(w.json, l.chain);
    SolventTotal(w.json, l.chain);
    TotalOfSameBalances(l.state, Expected(l, n.flight));
    FundedTransfersTotal(Replay(l.chain), FlightTransfers(n.flight));
    FeeTotalWraps(FlightTransfers(n.flight));
  }

  /** No account holds more than MaxSupply, and no addition of the first locked section wraps. */
  lemma CollectNeverWraps(w: World, n: Node)
    requires Paying(w, n) && n.Up?
    ensures forall a :: Balance(n.l.state, a) + FeesInFlight(n.flight) <= MAX_SUPPLY
    ensures NeverWraps(n.l.state, Collect(w.json, n.l.state, n.l.mempool).transfers)
    ensures FeeSum(Collect(w.json, n.l.state, n.l.mempool).transfers) <= MAX_SUPPLY
  {
    var taken := Collect(w.json, n.l.state, n.l.mempool).transfers;
    PayingConserves(w, n);
    forall a ensures Balance(n.l.state, a) + FeesInFlight(n.flight) <= MAX_SUPPLY {
      BalanceWithinTotal(n.l.state, a);
    }
    var _ := CollectCharacterised(w.json, n.l.state, n.l.mempool);
    CollectMembers(w.json, n.l.state, n.l.mempool);
    FundedTransfersTotal(n.l.state, taken);
    FundedTransfersNeverWrap(n.l.state, taken);
  }

  lemma MinedReward(w: World, l: Ledger, transfers: seq<Transfer>, now: i64, nonce: u64)
    requires |l.chain| > 0
    ensures MinedOn(w, l, transfers, now, nonce).reward <= BLOCK_REWARD
  {
  }

  /** Nor does the credit of the second: reward, fees and the miner's balance stay within MaxSupply. */
  lemma CommitNeverWraps(w: World, n: Node, now: i64, nonce: u64)
    requires Paying(w, n) && Enabled(w, n, Commit(now, nonce))
    ensures
      Balance(n.l.state, n.l.miner) + InFlight(w, n, now, nonce).reward + n.flight.value.fees <= MAX_SUPPLY
  {
    PayingConserves(w, n);
    BalanceWithinTotal(n.l.state, n.l.miner);
    MinedReward(w, n.l, n.flight.value.transfers, now, nonce);
  }

  lemma PrefixNeverWraps(json: Json, chain: seq<LedgerBlock>, i: nat)
    requires ValidChain(json, chain) && Solvent(chain) && 0 < i < |chain|
    ensures RebuildNeverWraps(Replay(chain[..i]), chain[i])
  {
    ChainSupply(json, chain);
    ValidIsLinked(json, chain);
    SupplyMonotone(chain, i);
    PrefixTotal(chain, i);
    assert SpendsRightly(Replay(chain[..i]), chain[i]);
    assert LinkedAt(chain, i);
    FundedBlockNeverWraps(Replay(chain[..i]), chain[i]);
  }

  /** Nor does any addition of the replays that a rollback and a restart make of the chain. */
  lemma ReplayNeverWraps(w: World, n: Node)
    requires Paying(w, n)
    ensures
      var chain := ChainOf(w, n);
      forall i :: 0 < i < |chain| ==> RebuildNeverWraps(Replay(chain[..i]), chain[i])
  {
    var chain := ChainOf(w, n);
    forall i | 0 < i < |chain| ensures RebuildNeverWraps(Replay(chain[..i]), chain[i]) {
      PrefixNeverWraps(w.json, chain, i);
    }
  }

  lemma AppendedReward(json: Json, l: Ledger, b: LedgerBlock)
    requires Appendable(json, l, b)
    ensures b.reward <= BLOCK_REWARD
  {
  }

  lemma SpendsNeverWraps(s: Accounts, t: Accounts, b: LedgerBlock)
    requires SameBalances(s, t) && SpendsRightly(t, b)
    requires Total(s) + b.reward < TWO_64
    ensures RebuildNeverWraps(s, b)
  {
    ApplyTransfersCongruence(s, t, b.transfers);
    FundedBlockNeverWraps(s, b);
  }

  /** Nor does any addition of an append to the live accounts. */
  lemma AppendNeverWraps(w: World, n: Node, b: LedgerBlock)
    requires Paying(w, n) && Enabled(w, n, Append(b)) && Thrifty(w, n, Append(b))
    ensures RebuildNeverWraps(n.l.state, b)
  {
    PayingConserves(w, n);
    AppendedReward(w.json, n.l, b);
    SpendsNeverWraps(n.l.state, Replay(n.l.chain), b);
  }

  /** From an empty disk, through steps that spend rightly, coins are conserved at every point of a run. */
  lemma EveryRunConserves(w: World, steps: seq<Step>)
    requires Possible(w, Down(map[]), steps) && Behaved(w, Down(map[]), steps)
    requires ThriftyRun(w, Down(map[]), steps)
    ensures
      var n := Run(w, Down(map[]), steps);
      && Paying(w, n)
      && (n.Up? ==> Total(n.l.state) + FeesInFlight(n.flight) == CirculatingSupply(n.l.chain) - BLOCK_REWARD)
  {
    EmptyDisk(w);
    RunKeepsPaying(w, Down(map[]), steps);
    if Run(w, Down(map[]), steps).Up? {
      PayingConserves(w, Run(w, Down(map[]), steps));
    }
  }
}
