/** The sum of all balances, and the exact accounting of RebuildState. */
module Totals {
  import opened MachineInts
  import opened Transfers
  import opened Blocks
  import opened Accounts

  ghost function SomeKey(s: Accounts): (a: string)
    requires |s| > 0
    ensures a in s
  {
    var a :| a in s;
    a
  }

  ghost function Total(s: Accounts): nat
    decreases |s|
  {
    if |s| == 0 then 0 else s[SomeKey(s)].balance + Total(s - {SomeKey(s)})
  }

  lemma {:induction false} TotalRemove(s: Accounts, a: string)
    requires a in s
    ensures Total(s) == s[a].balance + Total(s - {a})
    decreases |s|
  {
    var b := SomeKey(s);
    if a != b {
      TotalRemove(s - {b}, a);
      TotalRemove(s - {a}, b);
      assert (s - {a}) - {b} == (s - {b}) - {a};
    }
  }

  lemma TotalUpdate(s: Accounts, a: string, acc: Account)
    ensures Total(s[a := acc]) == Total(s) - Balance(s, a) + acc.balance
  {
    var t := s[a := acc];
    TotalRemove(t, a);
    assert t - {a} == s - {a};
    if a in s {
      TotalRemove(s, a);
    } else {
      assert s - {a} == s;
    }
  }

  lemma BalanceWithinTotal(s: Accounts, a: string)
    ensures Balance(s, a) <= Total(s)
  {
    if a in s {
      TotalRemove(s, a);
    }
  }

  lemma BalanceWithout(s: Accounts, a: string, b: string)
    ensures Balance(s - {a}, b) == if a == b then 0 else Balance(s, b)
    ensures Total(s - {a}) == Total(s) - Balance(s, a)
  {
    if a in s {
      TotalRemove(s, a);
    } else {
      assert s - {a} == s;
    }
  }

  lemma {:induction false} TotalOfSameBalances(s: Accounts, t: Accounts)
    requires SameBalances(s, t)
    ensures Total(s) == Total(t)
    decreases |s|
  {
    if |s| == 0 {
      ZeroTotal(t);
    } else {
      var a :| a in s;
      forall b ensures Balance(s - {a}, b) == Balance(t - {a}, b) {
        BalanceWithout(s, a, b);
        BalanceWithout(t, a, b);
        assert Balance(s, b) == Balance(t, b);
      }
      BalanceWithout(s, a, a);
      BalanceWithout(t, a, a);
      assert Balance(s, a) == Balance(t, a);
      TotalOfSameBalances(s - {a}, t - {a});
    }
  }

  lemma {:induction false} ZeroTotal(s: Accounts)
    requires forall a :: Balance(s, a) == 0
    ensures Total(s) == 0
    decreases |s|
  {
    if |s| > 0 {
      var a := SomeKey(s);
      assert Balance(s, a) == 0;
      forall b ensures Balance(s - {a}, b) == 0 {
        assert Balance(s, b) == 0;
      }
      ZeroTotal(s - {a});
    }
  }

  lemma TotalTouch(s: Accounts, a: string)
    ensures Total(Touch(s, a)) == Total(s)
  {
    TotalUpdate(s, a, Account(0, 0));
  }

  function ValueSum(txs: seq<Transfer>): nat {
    if |txs| == 0 then 0 else txs[0].value + ValueSum(txs[1..])
  }

  function FeeSum(txs: seq<Transfer>): nat {
    if |txs| == 0 then 0 else FeeSum(txs[..|txs| - 1]) + txs[|txs| - 1].fee
  }

  lemma {:induction false} FeeSumFront(txs: seq<Transfer>)
    requires |txs| > 0
    ensures FeeSum(txs) == txs[0].fee + FeeSum(txs[1..])
  {
    if |txs| > 1 {
      var front := txs[..|txs| - 1];
      FeeSumFront(front);
      assert front[1..] == txs[1..][..|txs| - 2];
    }
  }

  /** How often the fee counter wraps. */
  function FeeWraps(txs: seq<Transfer>): nat {
    if |txs| == 0 then 0
    else
      var front := txs[..|txs| - 1];
      FeeWraps(front) + Wrap(FeeTotal(front), txs[|txs| - 1].fee)
  }

  /** 1 when a uint64 addition wraps. */
  function Wrap(x: u64, y: u64): nat {
    if x + y < TWO_64 then 0 else 1
  }

  lemma {:induction false} FeeTotalWraps(txs: seq<Transfer>)
    ensures FeeTotal(txs) + FeeWraps(txs) * TWO_64 == FeeSum(txs)
    ensures FeeSum(txs) < TWO_64 ==> FeeWraps(txs) == 0
  {
    if |txs| > 0 {
      FeeTotalWraps(txs[..|txs| - 1]);
    }
  }

  lemma DebitTotal(s: Accounts, sender: string, cost: u64)
    ensures Total(Debit(s, sender, cost)) ==
            Total(s) - (if Balance(s, sender) >= cost then cost else Balance(s, sender))
  {
    var s1 := Touch(s, sender);
    TotalTouch(s, sender);
    TotalUpdate(s1, sender, Debit(s, sender, cost)[sender]);
  }

  lemma DepositTotal(s: Accounts, a: string, amount: u64)
    ensures Total(Deposit(s, a, amount)) ==
            Total(s) + amount - (if Balance(s, a) + amount >= TWO_64 then TWO_64 else 0)
  {
    var s1 := Touch(s, a);
    TotalTouch(s, a);
    TotalUpdate(s1, a, Deposit(s, a, amount)[a]);
  }

  /** The wraps of one replayed transfer: one of the cost adds a whole 2^64 to the total, one of the
      recipient's balance takes it off. */
  function TransferWraps(s: Accounts, tx: Transfer): int {
    Wrap(tx.value, tx.fee) - Wrap(Balance(Debit(s, Sender(tx), Cost(tx)), tx.recipient), tx.value)
  }

  function TransfersWraps(s: Accounts, txs: seq<Transfer>): int
    decreases |txs|
  {
    if |txs| == 0 then 0 else TransferWraps(s, txs[0]) + TransfersWraps(ApplyTransfer(s, txs[0]), txs[1..])
  }

  /** One replayed transfer, for any accounts and any transfer: the fee leaves the total and the
      shortfall enters it, up to the wraps; there is none when the sums fit. */
  lemma TransferAccounting(s: Accounts, tx: Transfer)
    ensures Total(ApplyTransfer(s, tx)) == Total(s) - tx.fee + Shortfall(s, tx) + TransferWraps(s, tx) * TWO_64
    ensures Total(s) + tx.value + tx.fee < TWO_64 ==> TransferWraps(s, tx) == 0
  {
    var s1 := Debit(s, Sender(tx), Cost(tx));
    DebitTotal(s, Sender(tx), Cost(tx));
    DepositTotal(s1, tx.recipient, tx.value);
    BalanceWithinTotal(s, Sender(tx));
    BalanceWithinTotal(s1, tx.recipient);
  }

  lemma {:induction false} TransfersAccounting(s: Accounts, txs: seq<Transfer>)
    ensures Total(ApplyTransfers(s, txs)) ==
            Total(s) - FeeSum(txs) + ShortfallSum(s, txs) + TransfersWraps(s, txs) * TWO_64
    ensures Total(s) + ValueSum(txs) + FeeSum(txs) < TWO_64 ==>
      TransfersWraps(s, txs) == 0 && Total(ApplyTransfers(s, txs)) <= Total(s) + ValueSum(txs)
    decreases |txs|
  {
    if |txs| > 0 {
      FeeSumFront(txs);
      TransferAccounting(s, txs[0]);
      TransfersAccounting(ApplyTransfer(s, txs[0]), txs[1..]);
    }
  }

  lemma CreditAccounting(s: Accounts, miner: string, amount: u64)
    ensures Total(Credit(s, miner, amount)) == Total(s) + amount - Wrap(Balance(s, miner), amount) * TWO_64
    ensures Total(s) + amount < TWO_64 ==> Wrap(Balance(s, miner), amount) == 0
  {
    DepositTotal(s, miner, amount);
    BalanceWithinTotal(s, miner);
  }

  /** What replaying a block adds to the total when no sum wraps. */
  function BlockDelta(s: Accounts, b: LedgerBlock): int {
    (if IsCredited(b.miner) then b.reward as int else -(FeeSum(b.transfers) as int))
    + ShortfallSum(s, b.transfers)
  }

  /** The amounts a block moves, added up. */
  function Turnover(b: LedgerBlock): nat {
    ValueSum(b.transfers) + FeeSum(b.transfers) + b.reward
  }

  /** The wraps of the miner's credit: of the fee counter, of reward plus fees, of the balance. */
  function CreditWraps(s: Accounts, b: LedgerBlock): nat {
    var fees := FeeTotal(b.transfers);
    FeeWraps(b.transfers) + Wrap(b.reward, fees) + Wrap(Balance(s, b.miner), Add64(b.reward, fees))
  }

  /** The wraps of a whole block, those that add to the total less those that take from it. */
  function BlockWraps(s: Accounts, b: LedgerBlock): int {
    TransfersWraps(s, b.transfers)
    - if IsCredited(b.miner) then CreditWraps(ApplyTransfers(s, b.transfers), b) else 0
  }

  /** RebuildState's accounting for arbitrary accounts and an arbitrary block. */
  lemma BlockAccounting(s: Accounts, b: LedgerBlock)
    ensures Total(RebuildBlock(s, b)) == Total(s) + BlockDelta(s, b) + BlockWraps(s, b) * TWO_64
    ensures Total(s) + Turnover(b) < TWO_64 ==> BlockWraps(s, b) == 0
  {
    var s1 := ApplyTransfers(s, b.transfers);
    TransfersAccounting(s, b.transfers);
    FeeTotalWraps(b.transfers);
    CreditAccounting(s1, b.miner, Add64(b.reward, FeeTotal(b.transfers)));
  }

  /** What a block lacks for replaying it to issue exactly its reward: a block that is not credited
      would have to put its own fees and reward into the accounts. */
  function Uncredited(b: LedgerBlock): nat {
    if IsCredited(b.miner) then 0 else FeeSum(b.transfers) + b.reward
  }

  /** The coins a block makes beyond its reward, or loses: its senders' shortfalls and the wraps of its
      additions, less what is not credited. */
  function BlockImbalance(s: Accounts, b: LedgerBlock): int {
    ShortfallSum(s, b.transfers) + BlockWraps(s, b) * TWO_64 - Uncredited(b)
  }

  lemma ReplayIssues(s: Accounts, b: LedgerBlock)
    ensures Total(RebuildBlock(s, b)) == Total(s) + b.reward + BlockImbalance(s, b)
  {
    BlockAccounting(s, b);
  }

  /** Replaying a block issues exactly its reward if and only if the shortfalls of its senders and
      the wraps of its additions make up for what is not credited. */
  lemma ReplayIssuesRewardIff(s: Accounts, b: LedgerBlock)
    ensures
      Total(RebuildBlock(s, b)) == Total(s) + b.reward <==>
      ShortfallSum(s, b.transfers) + BlockWraps(s, b) * TWO_64 == Uncredited(b)
  {
    ReplayIssues(s, b);
  }

  /** Without net wraps it does if and only if every sender can pay, where the miner is credited;
      where he is not, if and only if the shortfalls add up to the fees and the reward. */
  lemma ReplayIssuesRewardIffFunded(s: Accounts, b: LedgerBlock)
    requires BlockWraps(s, b) == 0
    ensures
      Total(RebuildBlock(s, b)) == Total(s) + b.reward <==>
      if IsCredited(b.miner) then Funded(s, b.transfers)
      else ShortfallSum(s, b.transfers) == FeeSum(b.transfers) + b.reward
  {
    ReplayIssuesRewardIff(s, b);
    FundedIffNoShortfall(s, b.transfers);
  }

  /** Funded transfers of honest cost need no bound on the amounts: the total carries them. */
  lemma {:induction false} FundedTransfersTotal(s: Accounts, txs: seq<Transfer>)
    requires Total(s) < TWO_64
    requires Funded(s, txs) && AllCostsFit(txs)
    ensures FeeSum(txs) <= Total(s)
    ensures Total(ApplyTransfers(s, txs)) == Total(s) - FeeSum(txs)
    decreases |txs|
  {
    if |txs| > 0 {
      FeeSumFront(txs);
      assert txs[0] in txs;
      FundedTransferTotal(s, txs[0]);
      FundedTransfersTotal(ApplyTransfer(s, txs[0]), txs[1..]);
    }
  }

  lemma FundedTransferTotal(s: Accounts, tx: Transfer)
    requires Total(s) < TWO_64
    requires Balance(s, Sender(tx)) >= Cost(tx) && CostFits(tx)
    ensures tx.fee <= Total(s)
    ensures Total(ApplyTransfer(s, tx)) == Total(s) - tx.fee
  {
    var s1 := Debit(s, Sender(tx), Cost(tx));
    BalanceWithinTotal(s, Sender(tx));
    DebitTotal(s, Sender(tx), Cost(tx));
    BalanceWithinTotal(s1, tx.recipient);
    DepositTotal(s1, tx.recipient, tx.value);
  }

  /** Replaying the transfers, every addition is exact: no cost and no recipient's balance wraps. */
  predicate NeverWraps(s: Accounts, txs: seq<Transfer>)
    decreases |txs|
  {
    |txs| > 0 ==>
      && CostFits(txs[0])
      && Balance(Debit(s, Sender(txs[0]), Cost(txs[0])), txs[0].recipient) + txs[0].value < TWO_64
      && NeverWraps(ApplyTransfer(s, txs[0]), txs[1..])
  }

  lemma FundedTransferFits(s: Accounts, tx: Transfer)
    requires Total(s) < TWO_64
    requires Balance(s, Sender(tx)) >= Cost(tx) && CostFits(tx)
    ensures Balance(Debit(s, Sender(tx), Cost(tx)), tx.recipient) + tx.value < TWO_64
  {
    DebitTotal(s, Sender(tx), Cost(tx));
    BalanceWithinTotal(Debit(s, Sender(tx), Cost(tx)), tx.recipient);
  }

  lemma {:induction false} FundedTransfersNeverWrap(s: Accounts, txs: seq<Transfer>)
    requires Total(s) < TWO_64
    requires Funded(s, txs) && AllCostsFit(txs)
    ensures NeverWraps(s, txs)
    decreases |txs|
  {
    if |txs| > 0 {
      assert txs[0] in txs;
      FundedTransferFits(s, txs[0]);
      FundedTransferTotal(s, txs[0]);
      FundedTransfersNeverWrap(ApplyTransfer(s, txs[0]), txs[1..]);
    }
  }

  /** A funded transfer moves coins without making or losing any if and only if its cost does not
      wrap (or the wrap is undone by one in the recipient's balance). */
  lemma FundedTransferConservesIff(s: Accounts, tx: Transfer)
    requires Total(s) < TWO_64
    requires Balance(s, Sender(tx)) >= Cost(tx)
    ensures
      Total(ApplyTransfer(s, tx)) == Total(s) - tx.fee <==>
      CostFits(tx) || Balance(Debit(s, Sender(tx), Cost(tx)), tx.recipient) + tx.value >= TWO_64
  {
    if CostFits(tx) {
      FundedTransferTotal(s, tx);
    } else {
      DebitTotal(s, Sender(tx), Cost(tx));
      DepositTotal(Debit(s, Sender(tx), Cost(tx)), tx.recipient, tx.value);
    }
  }

  /** A funded block of honest costs, credited to a miner, adds exactly its reward. */
  lemma FundedBlockTotal(s: Accounts, b: LedgerBlock)
    requires Funded(s, b.transfers) && AllCostsFit(b.transfers) && IsCredited(b.miner)
    requires Total(s) + b.reward < TWO_64
    ensures Total(RebuildBlock(s, b)) == Total(s) + b.reward
    ensures FeeTotal(b.transfers) == FeeSum(b.transfers) <= Total(s)
  {
    FundedTransfersTotal(s, b.transfers);
    FeeTotalWraps(b.transfers);
    CreditAccounting(ApplyTransfers(s, b.transfers), b.miner, Add64(b.reward, FeeTotal(b.transfers)));
  }

  /** Every addition of RebuildState on the block is exact: the costs, the recipients' balances, the
      fee counter, the reward with the fees, and the miner's balance. */
  predicate RebuildNeverWraps(s: Accounts, b: LedgerBlock) {
    && NeverWraps(s, b.transfers)
    && Balance(ApplyTransfers(s, b.transfers), b.miner) + b.reward + FeeSum(b.transfers) < TWO_64
  }

  lemma FundedBlockNeverWraps(s: Accounts, b: LedgerBlock)
    requires Funded(s, b.transfers) && AllCostsFit(b.transfers)
    requires Total(s) + b.reward < TWO_64
    ensures RebuildNeverWraps(s, b)
  {
    FundedTransfersNeverWrap(s, b.transfers);
    FundedTransfersTotal(s, b.transfers);
    BalanceWithinTotal(ApplyTransfers(s, b.transfers), b.miner);
  }
}
