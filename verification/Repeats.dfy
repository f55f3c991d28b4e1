/** How often a transfer is applied. Nothing compares a transfer's nonce with its sender's, so a signed
    transfer counts once exactly as long as there is one copy of it in all of the chain, the block
    being mined and the queue. */
module Repeats {
  import opened MachineInts
  import opened Transfers
  import opened Consensus
  import opened Blocks
  import opened Accounts
  import opened Chains
  import opened Selection
  import opened Mempool
  import opened Mining
  import opened Storage
  import opened LedgerState
  import opened Runs
  import opened Histories
  import opened Reorg

  /** The transfers on a chain, as often as they are applied. */
  function OnChain(chain: seq<LedgerBlock>): multiset<Transfer> {
    if |chain| == 0 then multiset{} else OnChain(chain[..|chain| - 1]) + multiset(chain[|chain| - 1].transfers)
  }

  /** Every copy of a transfer that a node has on its chain, in flight or queued. */
  function Copies(w: World, n: Node): multiset<Transfer> {
    match n
    case Up(l, flight) => OnChain(l.chain) + multiset(FlightTransfers(flight)) + multiset(l.mempool)
    case Down(kv) => OnChain(ReadChain(w.json, kv))
  }

  predicate Single(m: multiset<Transfer>) {
    forall x :: x in m ==> m[x] == 1
  }

  /** More copies that keep every transfer single. */
  predicate Fresh(held: multiset<Transfer>, more: multiset<Transfer>) {
    forall x :: x in more ==> more[x] == 1 && x !in held
  }

  lemma SingleSum(held: multiset<Transfer>, more: multiset<Transfer>)
    requires Single(held)
    ensures Single(held + more) <==> Fresh(held, more)
  {
    if Single(held + more) {
      forall x | x in more ensures more[x] == 1 && x !in held {
        assert (held + more)[x] == held[x] + more[x];
      }
    }
  }

  lemma SinglePart(some: multiset<Transfer>, all: multiset<Transfer>)
    requires Single(all) && some <= all
    ensures Single(some)
  {
    forall x | x in some ensures some[x] == 1 {
      assert some[x] <= all[x];
    }
  }

  // ---- Copies moved about ----

  lemma OnChainGrows(chain: seq<LedgerBlock>, b: LedgerBlock)
    ensures OnChain(chain + [b]) == OnChain(chain) + multiset(b.transfers)
  {
    assert (chain + [b])[..|chain|] == chain;
  }

  lemma {:induction false} OnChainPrefix(c: seq<LedgerBlock>, c': seq<LedgerBlock>)
    requires c' <= c
    ensures OnChain(c') <= OnChain(c)
    decreases |c|
  {
    if |c'| < |c| {
      var m := |c| - 1;
      assert c' <= c[..m];
      OnChainPrefix(c[..m], c');
    } else {
      assert c' == c;
    }
  }

  /** A rollback puts the last transfer of the block first. */
  lemma {:induction false} ReversedAt<T>(xs: seq<T>, i: nat)
    requires i < |xs|
    ensures |Reversed(xs)| == |xs| && Reversed(xs)[i] == xs[|xs| - 1 - i]
  {
    if |xs| > 1 {
      ReversedAt(xs[..|xs| - 1], if i > 0 then i - 1 else 0);
    }
  }

  lemma {:induction false} ReversedCopies<T>(xs: seq<T>)
    ensures multiset(Reversed(xs)) == multiset(xs)
  {
    if |xs| > 0 {
      var m := |xs| - 1;
      ReversedCopies(xs[..m]);
      assert xs == xs[..m] + [xs[m]];
    }
  }

  /** A rollback moves the tip's transfers from the chain to the queue. */
  lemma RollbackMovesCopies(w: World, l: Ledger)
    requires |l.chain| > 1
    ensures Copies(w, Up(RollbackOn(l).value, None)) == Copies(w, Up(l, None))
  {
    ReversedCopies(Tip(l.chain).transfers);
  }

  /** An append puts the block's transfers on the chain and leaves the queue alone. */
  lemma AppendAddsCopies(w: World, l: Ledger, b: LedgerBlock)
    requires AppendOn(w.json, l, b).Some?
    ensures Copies(w, Up(AppendOn(w.json, l, b).value, None)) == Copies(w, Up(l, None)) + multiset(b.transfers)
  {
    OnChainGrows(l.chain, b);
  }

  /** So blocks rolled back and appended again have their transfers on the chain and in the queue. */
  lemma ReappendDoublesCopies(w: World, l: Ledger)
    requires |l.chain| > 1 && AppendOn(w.json, RollbackOn(l).value, Tip(l.chain)).Some?
    ensures
      var again := AppendOn(w.json, RollbackOn(l).value, Tip(l.chain)).value;
      Copies(w, Up(again, None)) == Copies(w, Up(l, None)) + multiset(Tip(l.chain).transfers)
  {
    RollbackMovesCopies(w, l);
    AppendAddsCopies(w, RollbackOn(l).value, Tip(l.chain));
  }

  lemma OneTaken(json: Json, state: Accounts, tx: Transfer)
    requires CanPay(state, tx) && Fits(json, RESERVED_BYTES, tx)
    ensures Collect(json, state, [tx]).transfers == [tx]
  {
    var so := Selected(state, [], 0, RESERVED_BYTES);
    assert [tx][0..] == [tx];
    SelectFrom(json, so, [tx], 0);
    SelectFrom(json, Consider(json, so, tx), [tx], 1);
  }

  /** MineBlock takes a queued transfer whether or not it is on the chain already. */
  lemma MinedAgain(w: World, l: Ledger, tx: Transfer, now: i64, nonce: u64)
    requires ValidChain(w.json, l.chain) && MayMine(l.miner) && Tip(l.chain).timestamp < MAX_I64
    requires l.mempool == [tx] && CanPay(l.state, tx) && Fits(w.json, RESERVED_BYTES, tx)
    requires DeliversOn(w, l, [tx], now, nonce)
    requires |w.json.block(MinedOn(w, l, [tx], now, nonce))| <= MAX_BLOCK_SIZE_BYTES
    ensures
      var (l', outcome) := MineOn(w, l, now, nonce);
      outcome == Mined && OnChain(l'.chain) == OnChain(l.chain) + multiset{tx}
  {
    OneTaken(w.json, l.state, tx);
    SelfCheckVerdict(w, l.chain, [tx], l.miner, l.bits, now, nonce);
    OnChainGrows(l.chain, MinedOn(w, l, [tx], now, nonce));
    MinedTransfers(w, l, [tx], now, nonce);
  }

  lemma MinedTransfers(w: World, l: Ledger, transfers: seq<Transfer>, now: i64, nonce: u64)
    requires |l.chain| > 0
    ensures MinedOn(w, l, transfers, now, nonce).transfers == transfers
  {
  }

  /** The ledger after its tip has been rolled back and appended again. */
  function Reappended(json: Json, l: Ledger): Option<Ledger>
    requires |l.chain| > 1
  {
    AppendOn(json, RollbackOn(l).value, Tip(l.chain))
  }

  lemma FrontAndTip(chain: seq<LedgerBlock>)
    requires |chain| > 0
    ensures chain[..|chain| - 1] + [Tip(chain)] == chain
  {
  }

  lemma ReappendedIs(json: Json, l: Ledger)
    requires ValidChain(json, l.chain) && |l.chain| > 1
    ensures Reappended(json, l).Some?
    ensures
      var again := Reappended(json, l).value;
      && again.chain == l.chain && again.state == Replay(l.chain)
      && again.mempool == Reversed(Tip(l.chain).transfers) + l.mempool
      && again.miner == l.miner && again.bits == l.bits
  {
    var back := RollbackOn(l).value;
    FrontAndTip(l.chain);
    ValidPrefix(json, l.chain, |l.chain| - 1);
    RollbackReplays(l);
    AppendIffValid(json, back, Tip(l.chain));
    AppendReplays(json, back, Tip(l.chain));
    AppendExtends(json, back, Tip(l.chain));
  }

  lemma OneReturned(tx: Transfer)
    ensures Reversed([tx]) + [] == [tx]
  {
    assert Reversed([tx]) == [tx] + Reversed([]);
  }

  /** A node that rolls back its tip and appends it again mines its transfer a second time, provided its
      sender can still pay. */
  lemma ReappendedIsMinedAgain(w: World, l: Ledger, tx: Transfer, now: i64, nonce: u64)
    requires ValidChain(w.json, l.chain) && |l.chain| > 1 && MayMine(l.miner) && Tip(l.chain).timestamp < MAX_I64
    requires Tip(l.chain).transfers == [tx] && l.mempool == []
    requires CanPay(Replay(l.chain), tx) && Fits(w.json, RESERVED_BYTES, tx)
    requires DeliversOn(w, l, [tx], now, nonce)
    requires |w.json.block(MinedOn(w, l, [tx], now, nonce))| <= MAX_BLOCK_SIZE_BYTES
    ensures Reappended(w.json, l).Some?
    ensures
      var (l', outcome) := MineOn(w, Reappended(w.json, l).value, now, nonce);
      outcome == Mined && OnChain(l'.chain) == OnChain(l.chain) + multiset{tx}
  {
    ReappendedIs(w.json, l);
    OneReturned(tx);
    var again := Reappended(w.json, l).value;
    assert DraftOn(again, [tx], now) == DraftOn(l, [tx], now);
    MinedAgain(w, again, tx, now, nonce);
  }

  // ---- When a step keeps every transfer single ----

  /** What a step has to meet for no transfer to get a second copy: what comes in is new, and the
      selection takes the front of the queue, passing over nothing it drops. */
  predicate AddsNoCopy(w: World, n: Node, step: Step)
    requires Enabled(w, n, step)
  {
    match step
    case Begin => Collect(w.json, n.l.state, n.l.mempool).transfers <= n.l.mempool
    case Arrive(queue) => Fresh(OnChain(n.l.chain) + multiset(FlightTransfers(n.flight)), multiset(queue))
    case Submit(tx, _) => tx !in Copies(w, n)
    case Append(b) => Fresh(Copies(w, n), multiset(b.transfers))
    case CrashInAppend(b) => Fresh(Copies(w, n), multiset(b.transfers))
    case _ => true
  }

  lemma LateTaken(pool: seq<Transfer>, marks: seq<bool>, n: nat) returns (j: nat)
    requires n <= |marks| <= |pool| && |Taken(pool, marks, n)| < |Taken(pool, marks, |marks|)|
    ensures n <= j < |marks| && pool[j] in Taken(pool, marks, |marks|)
  {
    j := NextTaken(pool, marks, n);
    TakenStep(pool, marks, j);
    TakenPrefix(pool, marks, j + 1, |marks|);
    var at := |Taken(pool, marks, j)|;
    assert Taken(pool, marks, j + 1)[at] == pool[j];
  }

  lemma FewerBefore(json: Json, state: Accounts, pool: seq<Transfer>, marks: seq<bool>)
    requires Explains(json, state, pool, marks)
    requires !(Taken(pool, marks, |marks|) <= pool)
    ensures
      var n := |Taken(pool, marks, |marks|)|;
      n <= |marks| && |Taken(pool, marks, n)| < n
  {
    TakenIsPrefixIff(json, state, pool, marks);
    var n := |Taken(pool, marks, |marks|)|;
    var skipped := FirstSkip(marks, n);
    SkippedAreFewer(pool, marks, n, skipped);
  }

  /** A selection that passes over an entry it drops takes one it leaves in the queue. */
  lemma TakenAndLeft(json: Json, state: Accounts, pool: seq<Transfer>) returns (x: Transfer)
    requires !(Collect(json, state, pool).transfers <= pool)
    ensures x in Collect(json, state, pool).transfers && x in Remaining(json, state, pool)
  {
    var marks := CollectCharacterised(json, state, pool);
    FewerBefore(json, state, pool, marks);
    x := LeftBeyond(pool, marks, |Collect(json, state, pool).transfers|);
  }

  lemma LeftBeyond(pool: seq<Transfer>, marks: seq<bool>, n: nat) returns (x: Transfer)
    requires n <= |marks| <= |pool| && |Taken(pool, marks, n)| < |Taken(pool, marks, |marks|)|
    ensures x in Taken(pool, marks, |marks|) && x in pool[n..]
  {
    var j := LateTaken(pool, marks, n);
    x := pool[j];
    assert pool[n..][j - n] == x;
  }

  lemma SkippedAreFewer(pool: seq<Transfer>, marks: seq<bool>, n: nat, skipped: nat)
    requires skipped < n <= |marks| <= |pool| && !marks[skipped]
    ensures |Taken(pool, marks, n)| < n
  {
    PickedLength(pool[..n], marks[..n]);
    assert !marks[..n][skipped];
  }

  lemma SelectionIff(held: multiset<Transfer>, taken: seq<Transfer>, pool: seq<Transfer>)
    requires |taken| <= |pool| && Single(held + multiset(pool))
    requires taken <= pool || exists x :: x in taken && x in pool[|taken|..]
    ensures Single(held + multiset(taken) + multiset(pool[|taken|..])) <==> taken <= pool
  {
    var rest := pool[|taken|..];
    if taken <= pool {
      assert pool == taken + rest;
      assert held + multiset(taken) + multiset(rest) == held + multiset(pool);
    } else {
      var x :| x in taken && x in rest;
      assert (held + multiset(taken) + multiset(rest))[x] >= 2;
    }
  }

  lemma BeginIff(w: World, l: Ledger)
    requires |l.chain| > 0 && MayMine(l.miner)
    requires Single(Copies(w, Up(l, None)))
    ensures Single(Copies(w, Next(w, Up(l, None), Begin))) <==> AddsNoCopy(w, Up(l, None), Begin)
  {
    var taken := Collect(w.json, l.state, l.mempool).transfers;
    var _ := CollectCharacterised(w.json, l.state, l.mempool);
    if !(taken <= l.mempool) {
      var x := TakenAndLeft(w.json, l.state, l.mempool);
    }
    BeginCopies(w, l);
    SelectionIff(OnChain(l.chain), taken, l.mempool);
  }

  lemma BeginCopies(w: World, l: Ledger)
    requires |l.chain| > 0 && MayMine(l.miner)
    ensures |Collect(w.json, l.state, l.mempool).transfers| <= |l.mempool|
    ensures
      var taken := Collect(w.json, l.state, l.mempool).transfers;
      && Copies(w, Up(l, None)) == OnChain(l.chain) + multiset(l.mempool)
      && Copies(w, Next(w, Up(l, None), Begin)) ==
         OnChain(l.chain) + multiset(taken) + multiset(l.mempool[|taken|..])
  {
    var _ := CollectCharacterised(w.json, l.state, l.mempool);
  }

  lemma SubmitCopies(w: World, n: Node, tx: Transfer, sorted: seq<Transfer>)
    requires Enabled(w, n, Submit(tx, sorted))
    ensures Copies(w, Next(w, n, Submit(tx, sorted))) == Copies(w, n) + multiset{tx}
  {
    assert multiset(n.l.mempool + [tx]) == multiset(n.l.mempool) + multiset{tx};
  }

  /** A commit moves the transfers in flight to the chain. */
  lemma CommitCopies(w: World, n: Node, now: i64, nonce: u64)
    requires Enabled(w, n, Commit(now, nonce)) && Next(w, n, Commit(now, nonce)).Up?
    ensures Copies(w, Next(w, n, Commit(now, nonce))) == Copies(w, n)
  {
    OnChainGrows(n.l.chain, InFlight(w, n, now, nonce));
    MinedTransfers(w, n.l, n.flight.value.transfers, now, nonce);
  }

  /** While the node is up, a step keeps every transfer single if and only if it adds no copy. */
  lemma StepKeepsSingleIff(w: World, n: Node, step: Step)
    requires Enabled(w, n, step) && n.Up? && Next(w, n, step).Up?
    requires Single(Copies(w, n))
    ensures Single(Copies(w, Next(w, n, step))) <==> AddsNoCopy(w, n, step)
  {
    match step {
      case Begin => BeginIff(w, n.l);
      case Commit(now, nonce) => CommitCopies(w, n, now, nonce);
      case Arrive(queue) =>
        var held := OnChain(n.l.chain) + multiset(FlightTransfers(n.flight));
        SinglePart(held, Copies(w, n));
        SingleSum(held, multiset(queue));
      case Submit(tx, sorted) =>
        SubmitCopies(w, n, tx, sorted);
        SingleSum(Copies(w, n), multiset{tx});
      case Rollback => RollbackMovesCopies(w, n.l);
      case Append(b) =>
        AppendAddsCopies(w, n.l, b);
        SingleSum(Copies(w, n), multiset(b.transfers));
    }
  }

  // ---- Whole runs ----

  /** A node that stops or starts keeps no more copies than it had, and what its block brings. */
  lemma StopOrStartCopies(w: World, n: Node, step: Step)
    requires Sound(w, n) && Enabled(w, n, step) && WellBehaved(w, n, step)
    requires n.Down? || Next(w, n, step).Down?
    ensures Copies(w, Next(w, n, step)) <= Copies(w, n) + if step.CrashInAppend? then multiset(step.b.transfers) else multiset{}
  {
    ChainMoves(w, n, step);
    var c, c' := ChainOf(w, n), ChainOf(w, Next(w, n, step));
    CopiesAtRest(w, n, step);
    if c' <= c {
      OnChainPrefix(c, c');
    } else {
      var b := Offered(w, n, step).value;
      OnChainGrows(c, b);
      OfferedTransfers(w, n, step);
    }
  }

  /** A node that is down, or just up again, has copies on its chain only. */
  lemma CopiesAtRest(w: World, n: Node, step: Step)
    requires Enabled(w, n, step)
    requires n.Down? || Next(w, n, step).Down?
    ensures Copies(w, Next(w, n, step)) == OnChain(ChainOf(w, Next(w, n, step)))
    ensures OnChain(ChainOf(w, n)) <= Copies(w, n)
  {
    if step.Restart? {
      RestartEmptiesQueue(w, n.kv, step.difficulty, step.miner, step.nonce);
    }
  }

  lemma OfferedTransfers(w: World, n: Node, step: Step)
    requires Enabled(w, n, step) && Offered(w, n, step).Some?
    requires n.Down? || Next(w, n, step).Down?
    ensures
      OnChain(ChainOf(w, n)) + multiset(Offered(w, n, step).value.transfers) <=
      Copies(w, n) + if step.CrashInAppend? then multiset(step.b.transfers) else multiset{}
  {
  }

  lemma StepKeepsSingle(w: World, n: Node, step: Step)
    requires Sound(w, n) && Enabled(w, n, step) && WellBehaved(w, n, step)
    requires Single(Copies(w, n)) && AddsNoCopy(w, n, step)
    ensures Single(Copies(w, Next(w, n, step)))
  {
    if n.Up? && Next(w, n, step).Up? {
      StepKeepsSingleIff(w, n, step);
    } else {
      StopOrStartCopies(w, n, step);
      var more := if step.CrashInAppend? then multiset(step.b.transfers) else multiset{};
      SingleSum(Copies(w, n), more);
      SinglePart(Copies(w, Next(w, n, step)), Copies(w, n) + more);
    }
  }

  predicate NeverAddsCopy(w: World, n: Node, steps: seq<Step>)
    requires Possible(w, n, steps)
    decreases |steps|
  {
    |steps| > 0 ==> AddsNoCopy(w, n, steps[0]) && NeverAddsCopy(w, Next(w, n, steps[0]), steps[1..])
  }

  lemma {:induction false} RunKeepsSingle(w: World, n: Node, steps: seq<Step>)
    requires Sound(w, n) && Possible(w, n, steps) && Behaved(w, n, steps)
    requires Single(Copies(w, n)) && NeverAddsCopy(w, n, steps)
    ensures Single(Copies(w, Run(w, n, steps)))
    decreases |steps|
  {
    if |steps| > 0 {
      StepKeepsSingle(w, n, steps[0]);
      StepKeepsSound(w, n, steps[0]);
      RunKeepsSingle(w, Next(w, n, steps[0]), steps[1..]);
    }
  }

  /** From an empty disk, in every run whose steps add no copy, crashes and reorganisations included,
      no transfer is applied twice. */
  lemma EveryRunAppliesOnce(w: World, steps: seq<Step>, tx: Transfer)
    requires Possible(w, Down(map[]), steps) && Behaved(w, Down(map[]), steps)
    requires NeverAddsCopy(w, Down(map[]), steps)
    ensures OnChain(ChainOf(w, Run(w, Down(map[]), steps)))[tx] <= 1
  {
    EmptyDisk(w);
    assert ReadChain(w.json, map[]) == [];
    RunKeepsSingle(w, Down(map[]), steps);
    var n := Run(w, Down(map[]), steps);
    assert OnChain(ChainOf(w, n)) <= Copies(w, n);
    SinglePart(OnChain(ChainOf(w, n)), Copies(w, n));
  }
}
