/** The account map and RebuildState: replaying finished blocks. */
module Accounts {
  import opened MachineInts
  import opened Transfers
  import opened Blocks

  datatype Account = Account(balance: u64, nonce: u64)

  type Accounts = map<string, Account>

  /** Absent accounts read as zero. */
  function Balance(s: Accounts, a: string): u64 {
    if a in s then s[a].balance else 0
  }

  function NonceOf(s: Accounts, a: string): u64 {
    if a in s then s[a].nonce else 0
  }

  function Touch(s: Accounts, a: string): Accounts {
    if a in s then s else s[a := Account(0, 0)]
  }

  /** Takes the cost of a transfer from its sender; a sender who cannot pay is emptied. */
  function Debit(s: Accounts, sender: string, cost: u64): Accounts {
    var s1 := Touch(s, sender);
    var left := if s1[sender].balance >= cost then s1[sender].balance - cost else 0;
    s1[sender := Account(left, Add64(s1[sender].nonce, 1))]
  }

  function Deposit(s: Accounts, a: string, amount: u64): Accounts {
    var s1 := Touch(s, a);
    s1[a := s1[a].(balance := Add64(s1[a].balance, amount))]
  }

  /** One transfer as RebuildState replays it. */
  function ApplyTransfer(s: Accounts, tx: Transfer): Accounts {
    Deposit(Debit(s, Sender(tx), Cost(tx)), tx.recipient, tx.value)
  }

  function ApplyTransfers(s: Accounts, txs: seq<Transfer>): Accounts
    decreases |txs|
  {
    if |txs| == 0 then s else ApplyTransfers(ApplyTransfer(s, txs[0]), txs[1..])
  }

  /** The fee counter of a block, wrapping as the uint64 it is. */
  function FeeTotal(txs: seq<Transfer>): u64 {
    if |txs| == 0 then 0 else Add64(FeeTotal(txs[..|txs| - 1]), txs[|txs| - 1].fee)
  }

  predicate IsCredited(miner: string) {
    miner != SYSTEM_GENESIS && miner != ""
  }

  function Credit(s: Accounts, miner: string, amount: u64): Accounts {
    if amount == 0 then s else Deposit(s, miner, amount)
  }

  /** RebuildState as a function of the account map. */
  function RebuildBlock(s: Accounts, b: LedgerBlock): Accounts {
    var s1 := ApplyTransfers(s, b.transfers);
    if IsCredited(b.miner) then Credit(s1, b.miner, Add64(b.reward, FeeTotal(b.transfers))) else s1
  }

  /** RebuildState over several blocks in order. */
  function ReplayOnto(s: Accounts, chain: seq<LedgerBlock>): Accounts {
    if |chain| == 0 then s else RebuildBlock(ReplayOnto(s, chain[..|chain| - 1]), chain[|chain| - 1])
  }

  function Replay(chain: seq<LedgerBlock>): Accounts {
    ReplayOnto(map[], chain)
  }

  lemma ReplayGrows(s: Accounts, chain: seq<LedgerBlock>, b: LedgerBlock)
    ensures ReplayOnto(s, chain + [b]) == RebuildBlock(ReplayOnto(s, chain), b)
  {
    assert (chain + [b])[..|chain|] == chain;
  }

  // ---- Funded transfers ----

  /** What a sender lacks. */
  function Shortfall(s: Accounts, tx: Transfer): nat {
    if Cost(tx) > Balance(s, Sender(tx)) then Cost(tx) - Balance(s, Sender(tx)) else 0
  }

  function ShortfallSum(s: Accounts, txs: seq<Transfer>): nat
    decreases |txs|
  {
    if |txs| == 0 then 0 else Shortfall(s, txs[0]) + ShortfallSum(ApplyTransfer(s, txs[0]), txs[1..])
  }

  /** Every sender can pay when its turn comes. */
  predicate Funded(s: Accounts, txs: seq<Transfer>)
    decreases |txs|
  {
    |txs| > 0 ==>
      Balance(s, Sender(txs[0])) >= Cost(txs[0]) && Funded(ApplyTransfer(s, txs[0]), txs[1..])
  }

  lemma {:induction false} FundedIffNoShortfall(s: Accounts, txs: seq<Transfer>)
    ensures Funded(s, txs) <==> ShortfallSum(s, txs) == 0
    decreases |txs|
  {
    if |txs| > 0 {
      FundedIffNoShortfall(ApplyTransfer(s, txs[0]), txs[1..]);
    }
  }

  lemma {:induction false} ApplyTransfersSplits(s: Accounts, xs: seq<Transfer>, ys: seq<Transfer>)
    ensures ApplyTransfers(s, xs + ys) == ApplyTransfers(ApplyTransfers(s, xs), ys)
    ensures Funded(s, xs + ys) <==> Funded(s, xs) && Funded(ApplyTransfers(s, xs), ys)
    decreases |xs|
  {
    if |xs| == 0 {
      assert xs + ys == ys;
    } else {
      assert (xs + ys)[1..] == xs[1..] + ys;
      ApplyTransfersSplits(ApplyTransfer(s, xs[0]), xs[1..], ys);
    }
  }

  // ---- Account maps that agree on what they say of every address ----

  ghost predicate SameBalances(s: Accounts, t: Accounts) {
    forall a :: Balance(s, a) == Balance(t, a)
  }

  ghost predicate SameNonces(s: Accounts, t: Accounts) {
    forall a :: NonceOf(s, a) == NonceOf(t, a)
  }

  lemma DebitReads(s: Accounts, sender: string, cost: u64, a: string)
    ensures Balance(Debit(s, sender, cost), a) ==
            if a != sender then Balance(s, a) else if Balance(s, a) >= cost then Balance(s, a) - cost else 0
    ensures NonceOf(Debit(s, sender, cost), a) == if a != sender then NonceOf(s, a) else Add64(NonceOf(s, a), 1)
  {
  }

  lemma DepositReads(s: Accounts, to: string, amount: u64, a: string)
    ensures Balance(Deposit(s, to, amount), a) == if a != to then Balance(s, a) else Add64(Balance(s, a), amount)
    ensures NonceOf(Deposit(s, to, amount), a) == NonceOf(s, a)
  {
  }

  /** A block that credits nothing, or nobody, opens no account for its miner. */
  lemma NothingCredited(s: Accounts, b: LedgerBlock)
    requires b.miner == "SYSTEM_GENESIS" || b.miner == "" || b.reward + FeeTotal(b.transfers) in {0, TWO_64}
    ensures RebuildBlock(s, b) == ApplyTransfers(s, b.transfers)
  {
  }

  lemma DepositCongruence(s: Accounts, t: Accounts, to: string, amount: u64)
    ensures SameBalances(s, t) ==> SameBalances(Deposit(s, to, amount), Deposit(t, to, amount))
    ensures SameNonces(s, t) ==> SameNonces(Deposit(s, to, amount), Deposit(t, to, amount))
  {
    forall a
      ensures SameBalances(s, t) ==> Balance(Deposit(s, to, amount), a) == Balance(Deposit(t, to, amount), a)
      ensures SameNonces(s, t) ==> NonceOf(Deposit(s, to, amount), a) == NonceOf(Deposit(t, to, amount), a)
    {
      DepositReads(s, to, amount, a);
      DepositReads(t, to, amount, a);
    }
  }

  lemma TransferCongruence(s: Accounts, t: Accounts, tx: Transfer)
    ensures SameBalances(s, t) ==> SameBalances(ApplyTransfer(s, tx), ApplyTransfer(t, tx))
    ensures SameNonces(s, t) ==> SameNonces(ApplyTransfer(s, tx), ApplyTransfer(t, tx))
  {
    var s1, t1 := Debit(s, Sender(tx), Cost(tx)), Debit(t, Sender(tx), Cost(tx));
    forall a
      ensures SameBalances(s, t) ==> Balance(s1, a) == Balance(t1, a)
      ensures SameNonces(s, t) ==> NonceOf(s1, a) == NonceOf(t1, a)
    {
      DebitReads(s, Sender(tx), Cost(tx), a);
      DebitReads(t, Sender(tx), Cost(tx), a);
    }
    DepositCongruence(s1, t1, tx.recipient, tx.value);
  }

  lemma {:induction false} ApplyTransfersCongruence(s: Accounts, t: Accounts, txs: seq<Transfer>)
    ensures SameBalances(s, t) ==> SameBalances(ApplyTransfers(s, txs), ApplyTransfers(t, txs))
    ensures SameBalances(s, t) ==> (Funded(s, txs) <==> Funded(t, txs))
    ensures SameNonces(s, t) ==> SameNonces(ApplyTransfers(s, txs), ApplyTransfers(t, txs))
    decreases |txs|
  {
    if |txs| > 0 {
      TransferCongruence(s, t, txs[0]);
      ApplyTransfersCongruence(ApplyTransfer(s, txs[0]), ApplyTransfer(t, txs[0]), txs[1..]);
    }
  }

  lemma RebuildCongruence(s: Accounts, t: Accounts, b: LedgerBlock)
    ensures SameBalances(s, t) ==> SameBalances(RebuildBlock(s, b), RebuildBlock(t, b))
    ensures SameNonces(s, t) ==> SameNonces(RebuildBlock(s, b), RebuildBlock(t, b))
  {
    ApplyTransfersCongruence(s, t, b.transfers);
    DepositCongruence(ApplyTransfers(s, b.transfers), ApplyTransfers(t, b.transfers),
                      b.miner, Add64(b.reward, FeeTotal(b.transfers)));
  }
}
