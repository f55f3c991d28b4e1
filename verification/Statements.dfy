/** Account statements: every balance and every nonce from what the chain holds about the account. */
module Statements {
  import opened MachineInts
  import opened Transfers
  import opened Blocks
  import opened Accounts
  import opened Totals
  import opened Chains
  import opened Runs
  import opened Coins

  // ---- What transfers and blocks say about an account ----

  /** What an account is paid by transfers. */
  function Received(txs: seq<Transfer>, a: string): nat {
    if |txs| == 0 then 0 else (if txs[0].recipient == a then txs[0].value else 0) + Received(txs[1..], a)
  }

  /** What it spends in them, fees included. */
  function Spent(txs: seq<Transfer>, a: string): nat {
    if |txs| == 0 then 0 else (if Sender(txs[0]) == a then txs[0].value + txs[0].fee else 0) + Spent(txs[1..], a)
  }

  /** How many of them it signs. */
  function Signed(txs: seq<Transfer>, a: string): nat {
    if |txs| == 0 then 0 else (if Sender(txs[0]) == a then 1 else 0) + Signed(txs[1..], a)
  }

  /** What it lacks for its own transfers when their turns come. */
  function Lacking(s: Accounts, txs: seq<Transfer>, a: string): nat
    decreases |txs|
  {
    if |txs| == 0 then 0
    else (if Sender(txs[0]) == a then Shortfall(s, txs[0]) else 0) + Lacking(ApplyTransfer(s, txs[0]), txs[1..], a)
  }

  /** What it earns by mining a block: reward and fees. */
  function Earned(b: LedgerBlock, a: string): nat {
    if b.miner == a && a != "SYSTEM_GENESIS" && a != "" then b.reward + FeeSum(b.transfers) else 0
  }

  function AllReceived(chain: seq<LedgerBlock>, a: string): nat {
    if |chain| == 0 then 0
    else AllReceived(chain[..|chain| - 1], a) + Received(Tip(chain).transfers, a)
  }

  function AllSpent(chain: seq<LedgerBlock>, a: string): nat {
    if |chain| == 0 then 0 else AllSpent(chain[..|chain| - 1], a) + Spent(Tip(chain).transfers, a)
  }

  function AllSigned(chain: seq<LedgerBlock>, a: string): nat {
    if |chain| == 0 then 0 else AllSigned(chain[..|chain| - 1], a) + Signed(Tip(chain).transfers, a)
  }

  function AllEarned(chain: seq<LedgerBlock>, a: string): nat {
    if |chain| == 0 then 0 else AllEarned(chain[..|chain| - 1], a) + Earned(Tip(chain), a)
  }

  function AllLacking(chain: seq<LedgerBlock>, a: string): nat {
    if |chain| == 0 then 0
    else
      var front := chain[..|chain| - 1];
      AllLacking(front, a) + Lacking(Replay(front), Tip(chain).transfers, a)
  }

  // ---- One transfer ----

  lemma AddIsModular(x: u64, y: u64)
    ensures Add64(x, y) == (x + y) % TWO_64
  {
  }

  /** One replayed transfer, for every account: the sender's balance less the wrapped cost, or nothing,
      and then the recipient's plus the value, which may be the same account. */
  lemma TransferReads(s: Accounts, tx: Transfer, a: string)
    ensures
      var cost := (tx.value + tx.fee) % TWO_64;
      var left := if Sender(tx) != a then Balance(s, a) else if Balance(s, a) >= cost then Balance(s, a) - cost else 0;
      Balance(ApplyTransfer(s, tx), a) == if tx.recipient == a then (left + tx.value) % TWO_64 else left
  {
    var s1 := Debit(s, Sender(tx), Cost(tx));
    AddIsModular(tx.value, tx.fee);
    AddIsModular(Balance(s1, a), tx.value);
    DebitReads(s, Sender(tx), Cost(tx), a);
    DepositReads(s1, tx.recipient, tx.value, a);
  }

  /** The sender's nonce moves by one, nobody else's at all. */
  lemma TransferNonce(s: Accounts, tx: Transfer, a: string)
    ensures
      NonceOf(ApplyTransfer(s, tx), a) ==
        if Sender(tx) != a then NonceOf(s, a) else if NonceOf(s, a) + 1 == TWO_64 then 0 else NonceOf(s, a) + 1
  {
    DebitReads(s, Sender(tx), Cost(tx), a);
    DepositReads(Debit(s, Sender(tx), Cost(tx)), tx.recipient, tx.value, a);
  }

  /** Its statement, up to whole turns of a uint64. */
  lemma TransferStatement(s: Accounts, tx: Transfer, a: string) returns (k: int)
    ensures
      Balance(ApplyTransfer(s, tx), a) + (if Sender(tx) == a then tx.value + tx.fee else 0) ==
      Balance(s, a) + (if tx.recipient == a then tx.value else 0)
      + (if Sender(tx) == a then Shortfall(s, tx) else 0) + k * TWO_64
    ensures
      (&& CostFits(tx) && Balance(s, Sender(tx)) >= Cost(tx)
       && Balance(Debit(s, Sender(tx), Cost(tx)), tx.recipient) + tx.value < TWO_64) ==> k == 0
  {
    DebitReads(s, Sender(tx), Cost(tx), a);
    DepositReads(Debit(s, Sender(tx), Cost(tx)), tx.recipient, tx.value, a);
    k := 0;
    if Sender(tx) == a && !CostFits(tx) {
      k := k + 1;
    }
    if tx.recipient == a && Balance(Debit(s, Sender(tx), Cost(tx)), a) + tx.value >= TWO_64 {
      k := k - 1;
    }
  }

  // ---- The transfers of a block ----

  lemma {:induction false} TransfersStatement(s: Accounts, txs: seq<Transfer>, a: string) returns (k: int)
    ensures
      Balance(ApplyTransfers(s, txs), a) + Spent(txs, a) ==
      Balance(s, a) + Received(txs, a) + Lacking(s, txs, a) + k * TWO_64
    ensures Funded(s, txs) && NeverWraps(s, txs) ==> k == 0 && Lacking(s, txs, a) == 0
    decreases |txs|
  {
    k := 0;
    if |txs| > 0 {
      var k0 := TransferStatement(s, txs[0], a);
      var k1 := TransfersStatement(ApplyTransfer(s, txs[0]), txs[1..], a);
      k := k0 + k1;
    }
  }

  lemma {:induction false} TransfersNonce(s: Accounts, txs: seq<Transfer>, a: string) returns (k: nat)
    ensures NonceOf(ApplyTransfers(s, txs), a) + k * TWO_64 == NonceOf(s, a) + Signed(txs, a)
    decreases |txs|
  {
    k := 0;
    if |txs| > 0 {
      TransferNonce(s, txs[0], a);
      k := TransfersNonce(ApplyTransfer(s, txs[0]), txs[1..], a);
      if Sender(txs[0]) == a && NonceOf(s, a) + 1 == TWO_64 {
        k := k + 1;
      }
    }
  }

  lemma CreditStatement(s: Accounts, b: LedgerBlock, a: string) returns (k: int)
    requires IsCredited(b.miner)
    ensures
      Balance(Credit(s, b.miner, Add64(b.reward, FeeTotal(b.transfers))), a) ==
      Balance(s, a) + Earned(b, a) + k * TWO_64
    ensures Balance(s, b.miner) + b.reward + FeeSum(b.transfers) < TWO_64 ==> k == 0
  {
    var amount := Add64(b.reward, FeeTotal(b.transfers));
    FeeTotalWraps(b.transfers);
    DepositReads(s, b.miner, amount, a);
    k := 0;
    if b.miner == a {
      k := -(FeeWraps(b.transfers) as int) - Wrap(b.reward, FeeTotal(b.transfers)) - Wrap(Balance(s, a), amount);
    }
  }

  lemma BlockStatement(s: Accounts, b: LedgerBlock, a: string) returns (k: int)
    ensures
      Balance(RebuildBlock(s, b), a) + Spent(b.transfers, a) ==
      Balance(s, a) + Received(b.transfers, a) + Earned(b, a) + Lacking(s, b.transfers, a) + k * TWO_64
    ensures Funded(s, b.transfers) && RebuildNeverWraps(s, b) ==> k == 0 && Lacking(s, b.transfers, a) == 0
  {
    k := TransfersStatement(s, b.transfers, a);
    if IsCredited(b.miner) {
      var kc := CreditStatement(ApplyTransfers(s, b.transfers), b, a);
      k := k + kc;
    }
  }

  // ---- Chains ----

  /** Every balance after replaying any chain whatever: what the account received and earned, plus what
      it lacked for its own transfers, less what it spent, up to whole turns of a uint64. */
  lemma {:induction false} ChainStatement(chain: seq<LedgerBlock>, a: string) returns (k: int)
    ensures
      Balance(Replay(chain), a) + AllSpent(chain, a) ==
      AllReceived(chain, a) + AllEarned(chain, a) + AllLacking(chain, a) + k * TWO_64
  {
    if |chain| == 0 {
      k := 0;
    } else {
      var front := chain[..|chain| - 1];
      var k0 := ChainStatement(front, a);
      var k1 := BlockStatement(Replay(front), Tip(chain), a);
      k := k0 + k1;
    }
  }

  lemma NonceKept(s: Accounts, b: LedgerBlock, a: string)
    ensures NonceOf(RebuildBlock(s, b), a) == NonceOf(ApplyTransfers(s, b.transfers), a)
  {
    DepositReads(ApplyTransfers(s, b.transfers), b.miner, Add64(b.reward, FeeTotal(b.transfers)), a);
  }

  lemma {:induction false} ChainNonceTurns(chain: seq<LedgerBlock>, a: string) returns (k: nat)
    ensures NonceOf(Replay(chain), a) + k * TWO_64 == AllSigned(chain, a)
  {
    if |chain| == 0 {
      k := 0;
    } else {
      var front := chain[..|chain| - 1];
      var k0 := ChainNonceTurns(front, a);
      var k1 := TransfersNonce(Replay(front), Tip(chain).transfers, a);
      NonceKept(Replay(front), Tip(chain), a);
      k := k0 + k1;
    }
  }

  lemma RemainderIs(x: u64, k: nat, y: nat)
    requires x + k * TWO_64 == y
    ensures x == y % TWO_64
  {
  }

  /** Every nonce is the number of transfers the account has signed on the chain. */
  lemma ChainNonce(chain: seq<LedgerBlock>, a: string)
    ensures NonceOf(Replay(chain), a) == AllSigned(chain, a) % TWO_64
  {
    var k := ChainNonceTurns(chain, a);
    RemainderIs(NonceOf(Replay(chain), a), k, AllSigned(chain, a));
  }

  /** On a chain that spends rightly the statement is exact. */
  lemma {:induction false} SolventStatement(chain: seq<LedgerBlock>, n: nat, a: string)
    requires 1 <= n <= |chain| && IsGenesis(chain[0])
    requires forall i :: 0 < i < |chain| ==>
      Funded(Replay(chain[..i]), chain[i].transfers) && RebuildNeverWraps(Replay(chain[..i]), chain[i])
    ensures
      var c := chain[..n];
      Balance(Replay(c), a) + AllSpent(c, a) == AllReceived(c, a) + AllEarned(c, a)
  {
    var c := chain[..n];
    assert c[..n - 1] == chain[..n - 1] && Tip(c) == chain[n - 1];
    if n == 1 {
      assert c == [chain[0]] && c[..0] == [];
      GenesisAlone(chain[0]);
      NothingSaid(a);
    } else {
      SolventStatement(chain, n - 1, a);
      var k := BlockStatement(Replay(chain[..n - 1]), chain[n - 1], a);
    }
  }

  lemma GenesisAlone(g: LedgerBlock)
    requires IsGenesis(g)
    ensures Replay([g]) == map[] && g.transfers == [] && g.miner == "SYSTEM_GENESIS"
  {
    ReplayGrows(map[], [], g);
    assert [] + [g] == [g];
  }

  lemma NothingSaid(a: string)
    ensures AllReceived([], a) == AllSpent([], a) == AllEarned([], a) == 0
  {
  }

  /** In every run that spends rightly, with nothing in flight, the live balance of every account is what
      the chain says it received and earned less what it spent. */
  lemma EveryRunStatement(w: World, steps: seq<Step>, a: string)
    requires Possible(w, Down(map[]), steps) && Behaved(w, Down(map[]), steps)
    requires ThriftyRun(w, Down(map[]), steps)
    requires Run(w, Down(map[]), steps).Up? && Run(w, Down(map[]), steps).flight.None?
    ensures
      var l := Run(w, Down(map[]), steps).l;
      Balance(l.state, a) + AllSpent(l.chain, a) == AllReceived(l.chain, a) + AllEarned(l.chain, a)
  {
    EmptyDisk(w);
    RunKeepsPaying(w, Down(map[]), steps);
    PayingStatement(w, Run(w, Down(map[]), steps), a);
  }

  lemma PayingStatement(w: World, n: Node, a: string)
    requires Paying(w, n) && n.Up? && n.flight.None?
    ensures Balance(n.l.state, a) + AllSpent(n.l.chain, a) == AllReceived(n.l.chain, a) + AllEarned(n.l.chain, a)
  {
    var chain := n.l.chain;
    ReplayNeverWraps(w, n);
    forall i | 0 < i < |chain|
      ensures Funded(Replay(chain[..i]), chain[i].transfers) && RebuildNeverWraps(Replay(chain[..i]), chain[i])
    {
      assert SpendsRightly(Replay(chain[..i]), chain[i]);
    }
    SolventStatement(chain, |chain|, a);
    assert chain[..|chain|] == chain;
    assert Balance(n.l.state, a) == Balance(Expected(n.l, n.flight), a);
  }
}
