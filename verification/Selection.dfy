/** The first locked section of MineBlock: taking transfers off the mempool into a block. */
module Selection {
  import opened MachineInts
  import opened Transfers
  import opened Consensus
  import opened Blocks
  import opened Accounts

  /** What MineBlock sets aside for everything but the transfers. */
  const RESERVED_BYTES: nat := 512

  datatype Selected = Selected(state: Accounts, transfers: seq<Transfer>, fees: u64, bytes: nat)

  function TransferSize(json: Json, tx: Transfer): nat {
    |json.transfer(tx)|
  }

  /** One affordable transfer as MineBlock applies it live. */
  function LiveTransfer(s: Accounts, tx: Transfer): Accounts
    requires Balance(s, Sender(tx)) >= Cost(tx)
  {
    var s1 := Touch(s, Sender(tx));
    var acc := s1[Sender(tx)];
    var s2 := s1[Sender(tx) := Account(acc.balance - Cost(tx), Add64(acc.nonce, 1))];
    if tx.recipient !in s2 then s2[tx.recipient := Account(tx.value, 0)]
    else s2[tx.recipient := s2[tx.recipient].(balance := Add64(s2[tx.recipient].balance, tx.value))]
  }

  predicate Fits(json: Json, bytes: nat, tx: Transfer) {
    bytes + TransferSize(json, tx) <= MAX_BLOCK_SIZE_BYTES
  }

  predicate CanPay(s: Accounts, tx: Transfer) {
    Balance(s, Sender(tx)) >= Cost(tx)
  }

  /** The loop over the mempool, from a point where `so` has been gathered: it stops at the first
      transfer that does not fit and passes over the ones whose sender cannot pay. */
  function Select(json: Json, so: Selected, pool: seq<Transfer>): Selected
    decreases |pool|
  {
    if |pool| == 0 || !Fits(json, so.bytes, pool[0]) then so
    else Select(json, Consider(json, so, pool[0]), pool[1..])
  }

  /** One turn of the loop. */
  function Consider(json: Json, so: Selected, tx: Transfer): Selected {
    if !CanPay(so.state, tx) then so.(state := Touch(so.state, Sender(tx)))
    else Selected(LiveTransfer(so.state, tx), so.transfers + [tx], Add64(so.fees, tx.fee),
                  so.bytes + TransferSize(json, tx))
  }

  function Collect(json: Json, state: Accounts, mempool: seq<Transfer>): Selected {
    Select(json, Selected(state, [], 0, RESERVED_BYTES), mempool)
  }

  /** The mempool afterwards: as many entries dropped from its front as were taken. */
  function Remaining(json: Json, state: Accounts, mempool: seq<Transfer>): seq<Transfer> {
    var n := |Collect(json, state, mempool).transfers|;
    if n <= |mempool| then mempool[n..] else []
  }

  /** Live application and replay are two different pieces of code with one effect on a payer. */
  lemma LiveIsReplay(s: Accounts, tx: Transfer)
    requires CanPay(s, tx)
    ensures LiveTransfer(s, tx) == ApplyTransfer(s, tx)
  {
  }

  /** A transfer considered opens an account for its sender, an empty one if it is passed over. */
  lemma ConsiderOpensAccount(json: Json, so: Selected, tx: Transfer)
    ensures Sender(tx) in Consider(json, so, tx).state
    ensures !CanPay(so.state, tx) && Sender(tx) !in so.state ==>
      Consider(json, so, tx) == so.(state := so.state[Sender(tx) := Account(0, 0)])
  {
  }

  // ---- What the loop selects, said without the loop ----

  /** The elements at the marked positions. */
  function Picked<T>(xs: seq<T>, marks: seq<bool>): seq<T>
    requires |xs| == |marks|
  {
    if |xs| == 0 then []
    else Picked(xs[..|xs| - 1], marks[..|xs| - 1]) + if marks[|xs| - 1] then [xs[|xs| - 1]] else []
  }

  lemma {:induction false} PickedLength<T>(xs: seq<T>, marks: seq<bool>)
    requires |xs| == |marks|
    ensures |Picked(xs, marks)| <= |xs|
    ensures |Picked(xs, marks)| == |xs| <==> forall i :: 0 <= i < |marks| ==> marks[i]
  {
    if |xs| > 0 {
      PickedLength(xs[..|xs| - 1], marks[..|xs| - 1]);
      assert forall i :: 0 <= i < |xs| - 1 ==> marks[..|xs| - 1][i] == marks[i];
    }
  }

  function SizeSum(json: Json, txs: seq<Transfer>): nat {
    if |txs| == 0 then 0 else SizeSum(json, txs[..|txs| - 1]) + TransferSize(json, txs[|txs| - 1])
  }

  /** The transfers taken among the first i of the mempool. */
  function Taken(pool: seq<Transfer>, marks: seq<bool>, i: nat): seq<Transfer>
    requires i <= |marks| <= |pool|
  {
    Picked(pool[..i], marks[..i])
  }

  /** marks is the record of a selection: every transfer before its end fits after the ones taken
      before it, is taken exactly when its sender can pay then, and the one at its end, if there is
      one, does not fit. */
  ghost predicate Explains(json: Json, state: Accounts, pool: seq<Transfer>, marks: seq<bool>) {
    && |marks| <= |pool|
    && (forall i :: 0 <= i < |marks| ==> Decided(json, state, pool, marks, i))
    && (|marks| < |pool| ==>
          !Fits(json, RESERVED_BYTES + SizeSum(json, Taken(pool, marks, |marks|)), pool[|marks|]))
  }

  predicate Decided(json: Json, state: Accounts, pool: seq<Transfer>, marks: seq<bool>, i: nat)
    requires i < |marks| <= |pool|
  {
    && Fits(json, RESERVED_BYTES + SizeSum(json, Taken(pool, marks, i)), pool[i])
    && (marks[i] <==> CanPay(ApplyTransfers(state, Taken(pool, marks, i)), pool[i]))
  }

  /** What the loop has gathered reads as a replay. */
  ghost predicate Gathered(json: Json, state: Accounts, so: Selected) {
    && so.fees == FeeTotal(so.transfers)
    && so.bytes == RESERVED_BYTES + SizeSum(json, so.transfers)
    && so.bytes <= MAX_BLOCK_SIZE_BYTES
    && Funded(state, so.transfers)
    && SameBalances(so.state, ApplyTransfers(state, so.transfers))
    && SameNonces(so.state, ApplyTransfers(state, so.transfers))
  }

  /** Where the loop stands when it has decided about the first |marks| transfers. */
  ghost predicate Reached(json: Json, state: Accounts, pool: seq<Transfer>, marks: seq<bool>, so: Selected) {
    && |marks| <= |pool|
    && (forall i :: 0 <= i < |marks| ==> Decided(json, state, pool, marks, i))
    && so.transfers == Taken(pool, marks, |marks|)
    && Gathered(json, state, so)
  }

  lemma TakenGrows(pool: seq<Transfer>, marks: seq<bool>, mark: bool)
    requires |marks| < |pool|
    ensures
      var more := marks + [mark];
      && (forall i :: 0 <= i <= |marks| ==> Taken(pool, more, i) == Taken(pool, marks, i))
      && Taken(pool, more, |more|) ==
           Taken(pool, marks, |marks|) + if mark then [pool[|marks|]] else []
  {
    var more := marks + [mark];
    forall i | 0 <= i <= |marks| ensures Taken(pool, more, i) == Taken(pool, marks, i) {
      assert more[..i] == marks[..i];
    }
    var n := |marks|;
    assert pool[..n + 1][..n] == pool[..n];
    assert more[..n + 1] == more && more[..n + 1][..n] == marks[..n];
  }

  lemma GatheredSkips(json: Json, state: Accounts, so: Selected, tx: Transfer)
    requires Gathered(json, state, so) && !CanPay(so.state, tx)
    ensures Gathered(json, state, Consider(json, so, tx))
  {
    var next := Consider(json, so, tx);
    var t := ApplyTransfers(state, so.transfers);
    forall a
      ensures Balance(next.state, a) == Balance(t, a) && NonceOf(next.state, a) == NonceOf(t, a)
    {
      TouchReads(so.state, Sender(tx), a);
      assert Balance(so.state, a) == Balance(t, a) && NonceOf(so.state, a) == NonceOf(t, a);
    }
  }

  lemma GatheredTakes(json: Json, state: Accounts, so: Selected, tx: Transfer)
    requires Gathered(json, state, so) && CanPay(so.state, tx) && Fits(json, so.bytes, tx)
    ensures Gathered(json, state, Consider(json, so, tx))
  {
    var next := Consider(json, so, tx);
    var t := ApplyTransfers(state, so.transfers);
    assert Balance(so.state, Sender(tx)) == Balance(t, Sender(tx));
    LiveIsReplay(so.state, tx);
    TransferCongruence(so.state, t, tx);
    ApplyTransfersSplits(state, so.transfers, [tx]);
    assert ApplyTransfers(t, [tx]) == ApplyTransfer(t, tx);
    assert next.transfers[..|next.transfers| - 1] == so.transfers;
  }

  lemma ReachedSteps(json: Json, state: Accounts, pool: seq<Transfer>, marks: seq<bool>, so: Selected)
    requires Reached(json, state, pool, marks, so)
    requires |marks| < |pool| && Fits(json, so.bytes, pool[|marks|])
    ensures Reached(json, state, pool, marks + [CanPay(so.state, pool[|marks|])], Consider(json, so, pool[|marks|]))
  {
    var tx := pool[|marks|];
    var pays := CanPay(so.state, tx);
    if pays {
      GatheredTakes(json, state, so, tx);
    } else {
      GatheredSkips(json, state, so, tx);
    }
    TakenGrows(pool, marks, pays);
    assert CanPay(ApplyTransfers(state, so.transfers), tx) == pays by {
      assert Balance(so.state, Sender(tx)) == Balance(ApplyTransfers(state, so.transfers), Sender(tx));
    }
    forall i | 0 <= i < |marks| + 1 ensures Decided(json, state, pool, marks + [pays], i) {
      assert i < |marks| ==> Decided(json, state, pool, marks, i);
    }
  }

  lemma TouchReads(s: Accounts, touched: string, a: string)
    ensures Balance(Touch(s, touched), a) == Balance(s, a) && NonceOf(Touch(s, touched), a) == NonceOf(s, a)
  {
  }

  /** The loop at position n of the mempool. */
  lemma SelectFrom(json: Json, so: Selected, pool: seq<Transfer>, n: nat)
    requires n <= |pool|
    ensures Select(json, so, pool[n..]) ==
            if n == |pool| || !Fits(json, so.bytes, pool[n]) then so
            else Select(json, Consider(json, so, pool[n]), pool[n + 1..])
  {
    if n < |pool| {
      assert pool[n..][1..] == pool[n + 1..];
    }
  }

  lemma {:induction false} SelectExplained(json: Json, state: Accounts, pool: seq<Transfer>, marks: seq<bool>, so: Selected)
    returns (all: seq<bool>)
    requires Reached(json, state, pool, marks, so)
    ensures Explains(json, state, pool, all)
    ensures Reached(json, state, pool, all, Select(json, so, pool[|marks|..]))
    decreases |pool| - |marks|
  {
    var n := |marks|;
    SelectFrom(json, so, pool, n);
    if n == |pool| || !Fits(json, so.bytes, pool[n]) {
      all := marks;
    } else {
      ReachedSteps(json, state, pool, marks, so);
      all := SelectExplained(json, state, pool, marks + [CanPay(so.state, pool[n])], Consider(json, so, pool[n]));
    }
  }

  /** What the selection loop returns, for every state and mempool: the transfers taken are exactly
      those a record explains, they fit the byte budget, every one is funded in turn, and the live
      account map reads as their replay. */
  lemma CollectCharacterised(json: Json, state: Accounts, mempool: seq<Transfer>) returns (marks: seq<bool>)
    ensures Explains(json, state, mempool, marks)
    ensures
      var so := Collect(json, state, mempool);
      && so.transfers == Taken(mempool, marks, |marks|)
      && so.fees == FeeTotal(so.transfers)
      && RESERVED_BYTES + SizeSum(json, so.transfers) <= MAX_BLOCK_SIZE_BYTES
      && Funded(state, so.transfers)
      && SameBalances(so.state, ApplyTransfers(state, so.transfers))
      && SameNonces(so.state, ApplyTransfers(state, so.transfers))
      && |so.transfers| <= |mempool|
  {
    var so := Selected(state, [], 0, RESERVED_BYTES);
    assert Reached(json, state, mempool, [], so);
    assert mempool[0..] == mempool;
    marks := SelectExplained(json, state, mempool, [], so);
    PickedLength(mempool[..|marks|], marks[..|marks|]);
  }

  lemma {:induction false} ExplanationsAgree(json: Json, state: Accounts, pool: seq<Transfer>, m1: seq<bool>, m2: seq<bool>, n: nat)
    requires Explains(json, state, pool, m1) && Explains(json, state, pool, m2)
    requires n <= |m1| && n <= |m2|
    ensures m1[..n] == m2[..n]
  {
    if n > 0 {
      ExplanationsAgree(json, state, pool, m1, m2, n - 1);
      assert Decided(json, state, pool, m1, n - 1) && Decided(json, state, pool, m2, n - 1);
      assert m1[..n] == m1[..n - 1] + [m1[n - 1]];
      assert m2[..n] == m2[..n - 1] + [m2[n - 1]];
    }
  }

  lemma NoLongerExplanation(json: Json, state: Accounts, pool: seq<Transfer>, m1: seq<bool>, m2: seq<bool>)
    requires Explains(json, state, pool, m1) && Explains(json, state, pool, m2)
    ensures |m1| >= |m2|
  {
    if |m1| < |m2| {
      var n := |m1|;
      assert Decided(json, state, pool, m2, n);
      assert !Fits(json, RESERVED_BYTES + SizeSum(json, Taken(pool, m1, n)), pool[n]);
      ExplanationsAgree(json, state, pool, m1, m2, n);
      assert false;
    }
  }

  /** Only one record explains a mempool, so CollectCharacterised determines the selection. */
  lemma ExplanationUnique(json: Json, state: Accounts, pool: seq<Transfer>, m1: seq<bool>, m2: seq<bool>)
    requires Explains(json, state, pool, m1) && Explains(json, state, pool, m2)
    ensures m1 == m2
  {
    NoLongerExplanation(json, state, pool, m1, m2);
    NoLongerExplanation(json, state, pool, m2, m1);
    ExplanationsAgree(json, state, pool, m1, m2, |m1|);
    assert m1[..|m1|] == m1 && m2[..|m1|] == m2;
  }

  lemma DecidedMeans(json: Json, state: Accounts, pool: seq<Transfer>, marks: seq<bool>, i: nat)
    requires i < |marks| <= |pool| && Decided(json, state, pool, marks, i)
    ensures
      var before, tx := Taken(pool, marks, i), pool[i];
      && 512 + SizeSum(json, before) + |json.transfer(tx)| <= 4_194_304
      && (marks[i] <==> Balance(ApplyTransfers(state, before), Sender(tx)) >= (tx.value + tx.fee) % TWO_64)
  {
  }

  /** What a record of the selection means: an entry before its end left room, and was taken exactly when
      its sender's balance, after the transfers taken before it, covered value and fee. */
  lemma RecordMeans(json: Json, state: Accounts, pool: seq<Transfer>, marks: seq<bool>)
    requires Explains(json, state, pool, marks)
    ensures forall i :: 0 <= i < |marks| ==>
      var before, tx := Taken(pool, marks, i), pool[i];
      && 512 + SizeSum(json, before) + |json.transfer(tx)| <= 4_194_304
      && (marks[i] <==> Balance(ApplyTransfers(state, before), Sender(tx)) >= (tx.value + tx.fee) % TWO_64)
  {
    forall i | 0 <= i < |marks|
      ensures
        var before, tx := Taken(pool, marks, i), pool[i];
        && 512 + SizeSum(json, before) + |json.transfer(tx)| <= 4_194_304
        && (marks[i] <==> Balance(ApplyTransfers(state, before), Sender(tx)) >= (tx.value + tx.fee) % TWO_64)
    {
      DecidedMeans(json, state, pool, marks, i);
    }
  }
}
