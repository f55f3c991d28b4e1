/** Chain reorganisation: RollbackBlock and AppendBlockDirectly in sequence. */
module Reorg {
  import opened MachineInts
  import opened Transfers
  import opened Blocks
  import opened Accounts
  import opened Chains
  import opened Mining
  import opened Storage
  import opened LedgerState

  /** k rollbacks, each of which must succeed. */
  function RollbackTimes(l: Ledger, k: nat): Option<Ledger>
    decreases k
  {
    if k == 0 then Some(l)
    else
      match RollbackOn(l)
      case None => None
      case Some(l1) => RollbackTimes(l1, k - 1)
  }

  /** Appends in order, each of which must be accepted. */
  function AppendAll(json: Json, l: Ledger, blocks: seq<LedgerBlock>): Option<Ledger> {
    if |blocks| == 0 then Some(l)
    else
      match AppendAll(json, l, blocks[..|blocks| - 1])
      case None => None
      case Some(l1) => AppendOn(json, l1, blocks[|blocks| - 1])
  }

  lemma RollbackDropsTip(l: Ledger)
    requires |l.chain| > 1
    ensures RollbackOn(l).Some? && RollbackOn(l).value.chain == l.chain[..|l.chain| - 1]
  {
  }

  lemma {:induction false} RollbackTimesChain(l: Ledger, k: nat, m: nat)
    requires k + m == |l.chain| && m > 0
    ensures RollbackTimes(l, k).Some? && RollbackTimes(l, k).value.chain == l.chain[..m]
    decreases k
  {
    if k > 0 {
      RollbackDropsTip(l);
      RollbackTimesChain(RollbackOn(l).value, k - 1, m);
      PrefixOfPrefix(l.chain, m, |l.chain| - 1);
    } else {
      assert l.chain[..m] == l.chain;
    }
  }

  /** The accounts are the replay of the chain. */
  predicate Replayed(l: Ledger) {
    l.state == Replay(l.chain)
  }

  lemma {:induction false} RollbackTimesReplayed(l: Ledger, k: nat)
    requires k < |l.chain| && RollbackTimes(l, k).Some?
    requires k > 0 || Replayed(l)
    ensures Replayed(RollbackTimes(l, k).value)
    decreases k
  {
    if k > 0 {
      RollbackReplays(l);
      RollbackTimesReplayed(RollbackOn(l).value, k - 1);
    }
  }

  lemma RollbackReplays(l: Ledger)
    requires RollbackOn(l).Some?
    ensures Replayed(RollbackOn(l).value)
  {
  }

  lemma AppendReplays(json: Json, l: Ledger, b: LedgerBlock)
    requires AppendOn(json, l, b).Some? && Replayed(l)
    ensures Replayed(AppendOn(json, l, b).value)
  {
    ReplayGrows(map[], l.chain, b);
  }

  /** Appending a block is allowed exactly when it keeps the chain valid. */
  lemma AppendIffValid(json: Json, l: Ledger, b: LedgerBlock)
    requires ValidChain(json, l.chain)
    ensures AppendOn(json, l, b).Some? <==> ValidChain(json, l.chain + [b])
  {
    ChainExtends(json, l.chain, b);
  }

  lemma SumGrows(chain: seq<LedgerBlock>, branch: seq<LedgerBlock>)
    ensures
      chain + branch ==
        if |branch| == 0 then chain else (chain + branch[..|branch| - 1]) + [branch[|branch| - 1]]
  {
  }

  lemma FrontOfSum(chain: seq<LedgerBlock>, branch: seq<LedgerBlock>, m: nat)
    requires m <= |branch|
    ensures (chain + branch)[..|chain| + m] == chain + branch[..m]
  {
  }

  lemma ValidFront(json: Json, chain: seq<LedgerBlock>, branch: seq<LedgerBlock>, m: nat)
    requires |chain| > 0 && m <= |branch|
    requires ValidChain(json, chain + branch)
    ensures ValidChain(json, chain + branch[..m])
  {
    FrontOfSum(chain, branch, m);
    ValidPrefix(json, chain + branch, |chain| + m);
  }

  lemma AppendExtends(json: Json, l: Ledger, b: LedgerBlock)
    requires AppendOn(json, l, b).Some?
    ensures AppendOn(json, l, b).value.chain == l.chain + [b]
  {
  }

  lemma {:induction false} AppendAllChain(json: Json, l: Ledger, branch: seq<LedgerBlock>)
    requires AppendAll(json, l, branch).Some?
    ensures AppendAll(json, l, branch).value.chain == l.chain + branch
  {
    if |branch| > 0 {
      var front, last := branch[..|branch| - 1], branch[|branch| - 1];
      AppendAllChain(json, l, front);
      AppendExtends(json, AppendAll(json, l, front).value, last);
    }
    SumGrows(l.chain, branch);
  }

  lemma {:induction false} AppendAllReplayed(json: Json, l: Ledger, branch: seq<LedgerBlock>)
    requires AppendAll(json, l, branch).Some? && Replayed(l)
    ensures Replayed(AppendAll(json, l, branch).value)
  {
    if |branch| > 0 {
      var front := branch[..|branch| - 1];
      AppendAllReplayed(json, l, front);
      AppendReplays(json, AppendAll(json, l, front).value, branch[|branch| - 1]);
    }
  }

  /** A branch is accepted as a whole exactly when chain and branch together are valid. */
  lemma {:induction false} AppendAllIffValid(json: Json, l: Ledger, branch: seq<LedgerBlock>)
    requires ValidChain(json, l.chain)
    ensures AppendAll(json, l, branch).Some? <==> ValidChain(json, l.chain + branch)
  {
    if |branch| == 0 {
      assert l.chain + branch == l.chain;
    } else {
      var front, last := branch[..|branch| - 1], branch[|branch| - 1];
      assert l.chain + branch == (l.chain + front) + [last];
      if ValidChain(json, l.chain + branch) {
        ValidFront(json, l.chain, branch, |branch| - 1);
      }
      AppendAllIffValid(json, l, front);
      if ValidChain(json, l.chain + front) {
        AppendAllChain(json, l, front);
        AppendIffValid(json, AppendAll(json, l, front).value, last);
      }
    }
  }

  lemma RolledBack(l: Ledger, k: nat, m: nat)
    requires k + m == |l.chain| && k > 0 && m > 0
    ensures
      var result := RollbackTimes(l, k);
      result.Some? && result.value.chain == l.chain[..m] && Replayed(result.value)
  {
    RollbackTimesChain(l, k, m);
    RollbackTimesReplayed(l, k);
  }

  lemma BranchTaken(json: Json, base: Ledger, branch: seq<LedgerBlock>)
    requires ValidChain(json, base.chain) && Replayed(base)
    ensures
      var result := AppendAll(json, base, branch);
      && (result.Some? <==> ValidChain(json, base.chain + branch))
      && (result.Some? ==> result.value.chain == base.chain + branch && Replayed(result.value))
  {
    AppendAllIffValid(json, base, branch);
    if AppendAll(json, base, branch).Some? {
      AppendAllChain(json, base, branch);
      AppendAllReplayed(json, base, branch);
    }
  }

  /** Whatever the accounts were before: after rolling back at least one block and appending a
      branch, they are the replay of the new chain from genesis, and the branch is taken if and only
      if the new chain is valid. */
  lemma ReorgIsPathIndependent(json: Json, l: Ledger, k: nat, branch: seq<LedgerBlock>)
    requires ValidChain(json, l.chain) && 1 <= k < |l.chain|
    ensures RollbackTimes(l, k).Some?
    ensures
      var result := AppendAll(json, RollbackTimes(l, k).value, branch);
      var chain := l.chain[..|l.chain| - k] + branch;
      && (result.Some? <==> ValidChain(json, chain))
      && (result.Some? ==> result.value.chain == chain && Replayed(result.value))
  {
    var m := |l.chain| - k;
    RolledBack(l, k, m);
    ValidPrefix(json, l.chain, m);
    BranchTaken(json, RollbackTimes(l, k).value, branch);
  }

  /** Appending the block just rolled back writes back what was deleted. */
  lemma ReappendRestoresStore(json: Json, l: Ledger, again: Ledger)
    requires HoldsExactly(json, l.kv, l.chain) && |l.chain| > 1 && Tip(l.chain).index == |l.chain| - 1
    requires again.kv == RollbackOn(l).value.kv
    requires AppendOn(json, again, Tip(l.chain)).Some?
    ensures AppendOn(json, again, Tip(l.chain)).value.kv == l.kv
  {
    SaveUndoesDelete(json, l.kv, l.chain);
  }

  predicate IndexedByHeight(chain: seq<LedgerBlock>) {
    forall i :: 0 <= i < |chain| ==> chain[i].index == i
  }

  lemma RollbackStaysExact(json: Json, l: Ledger)
    requires IndexedByHeight(l.chain) && |l.chain| > 1
    requires HoldsExactly(json, l.kv, l.chain)
    ensures
      var l1 := RollbackOn(l).value;
      IndexedByHeight(l1.chain) && HoldsExactly(json, l1.kv, l1.chain)
  {
    DeleteExactly(json, l.kv, l.chain);
  }

  /** The blocks from m on are those of the chain without its tip, and the tip. */
  lemma LastBlocks(chain: seq<LedgerBlock>, m: nat)
    requires m < |chain|
    ensures
      var blocks := chain[m..];
      |blocks| > 0 && blocks[|blocks| - 1] == Tip(chain) && blocks[..|blocks| - 1] == chain[..|chain| - 1][m..]
  {
  }

  /** Appending the blocks from m on to `base` ends with appending the tip. */
  lemma AppendAllEndsWithTip(json: Json, base: Ledger, chain: seq<LedgerBlock>, m: nat, again: Ledger)
    requires m < |chain| && AppendAll(json, base, chain[m..]) == Some(again)
    ensures AppendAll(json, base, chain[..|chain| - 1][m..]).Some?
    ensures AppendOn(json, AppendAll(json, base, chain[..|chain| - 1][m..]).value, Tip(chain)) == Some(again)
  {
    LastBlocks(chain, m);
  }

  /** `base` is the ledger rolled back k times to height m, `again` what comes of appending the k
      blocks to it. */
  lemma {:induction false} ReappendRestoresDisk(json: Json, l: Ledger, k: nat, m: nat, base: Ledger, again: Ledger)
    requires IndexedByHeight(l.chain) && k + m == |l.chain| && m > 0
    requires HoldsExactly(json, l.kv, l.chain)
    requires RollbackTimes(l, k) == Some(base)
    requires AppendAll(json, base, l.chain[m..]) == Some(again)
    ensures again.kv == l.kv
    decreases k
  {
    if k > 0 {
      RollbackDropsTip(l);
      RollbackStaysExact(json, l);
      AppendAllEndsWithTip(json, base, l.chain, m, again);
      var l1 := RollbackOn(l).value;
      var before := AppendAll(json, base, l1.chain[m..]).value;
      ReappendRestoresDisk(json, l1, k - 1, m, base, before);
      ReappendRestoresStore(json, l, before);
    }
  }

  /** Rolling k blocks back and appending the same k blocks is always accepted and restores the
      chain and every stored byte; the accounts are the replay of the chain. */
  lemma ReappendRestores(json: Json, l: Ledger, k: nat)
    requires ValidChain(json, l.chain) && 1 <= k < |l.chain|
    requires HoldsExactly(json, l.kv, l.chain)
    ensures RollbackTimes(l, k).Some?
    ensures
      var result := AppendAll(json, RollbackTimes(l, k).value, l.chain[|l.chain| - k..]);
      && result.Some?
      && result.value.chain == l.chain && result.value.kv == l.kv
      && Replayed(result.value)
  {
    ReorgIsPathIndependent(json, l, k, l.chain[|l.chain| - k..]);
    assert l.chain[..|l.chain| - k] + l.chain[|l.chain| - k..] == l.chain;
    ChainWellFormed(json, l.chain);
    assert IndexedByHeight(l.chain) by {
      forall i | 0 <= i < |l.chain| ensures l.chain[i].index == i {
        assert WellFormedAt(l.chain, i);
      }
    }
    var base := RollbackTimes(l, k).value;
    var blocks := l.chain[|l.chain| - k..];
    ReappendRestoresDisk(json, l, k, |l.chain| - k, base, AppendAll(json, base, blocks).value);
  }

  /** Rollback right after an append gives back the chain and the disk and puts the block's transfers,
      last first, before the queue; it gives back the accounts if and only if they were the replay. */
  lemma RollbackUndoesAppend(json: Json, l: Ledger, b: LedgerBlock)
    requires ValidChain(json, l.chain) && HoldsExactly(json, l.kv, l.chain)
    requires AppendOn(json, l, b).Some?
    ensures
      var back := RollbackOn(AppendOn(json, l, b).value);
      && back.Some?
      && back.value.chain == l.chain && back.value.kv == l.kv
      && back.value.mempool == Reversed(b.transfers) + l.mempool
      && (back.value.state == l.state <==> Replayed(l))
  {
    ChainHeight(json, l.chain);
    AppendIffValid(json, l, b);
    ChainHeight(json, l.chain + [b]);
    assert (l.chain + [b])[..|l.chain|] == l.chain;
    DeleteUndoesSave(json, l.kv, l.chain, b);
  }

  /** Live mining agrees with replay if and only if the miner is one that replay credits, or there
      was nothing to credit: blocks mined for SYSTEM_GENESIS lose their reward at the next replay. */
  lemma LiveAgreesIffCredited(w: World, l: Ledger, transfers: seq<Transfer>, b: LedgerBlock)
    requires MayMine(l.miner)
    requires b.miner == l.miner && b.transfers == transfers
    requires SameBalances(l.state, ApplyTransfers(Replay(l.chain), transfers))
    ensures
      SameBalances(CommitOn(w.json, l, b, FeeTotal(transfers)).state, Replay(l.chain + [b])) <==>
      l.miner != SYSTEM_GENESIS || Add64(b.reward, FeeTotal(transfers)) == 0
  {
    var amount := Add64(b.reward, FeeTotal(transfers));
    var replayed := ApplyTransfers(Replay(l.chain), transfers);
    ReplayGrows(map[], l.chain, b);
    DepositCongruence(l.state, replayed, l.miner, amount);
    if l.miner == SYSTEM_GENESIS && amount > 0 {
      DepositReads(l.state, l.miner, amount, l.miner);
      assert Balance(l.state, l.miner) == Balance(replayed, l.miner);
    }
  }
}
