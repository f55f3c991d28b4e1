/** The order of the mempool and what MineBlock's prefix drop leaves in it. */
module Mempool {
  import opened MachineInts
  import opened Transfers
  import opened Blocks
  import opened Accounts
  import opened Selection

  predicate SortedByFee(q: seq<Transfer>) {
    forall i, j :: 0 <= i < j < |q| ==> q[i].fee >= q[j].fee
  }

  /** What sort.Slice may leave: it is not stable, so any fee-ordered rearrangement. */
  predicate SortsTo(q: seq<Transfer>, sorted: seq<Transfer>) {
    SortedByFee(sorted) && multiset(sorted) == multiset(q)
  }

  lemma {:induction false} InsertPosition(q: seq<Transfer>, fee: u64) returns (i: nat)
    requires SortedByFee(q)
    ensures i <= |q|
    ensures forall j :: 0 <= j < i ==> q[j].fee >= fee
    ensures forall j :: i <= j < |q| ==> q[j].fee < fee
  {
    if |q| == 0 || q[|q| - 1].fee >= fee {
      i := |q|;
    } else {
      i := InsertPosition(q[..|q| - 1], fee);
    }
  }

  lemma InsertByFee(q: seq<Transfer>, tx: Transfer) returns (r: seq<Transfer>)
    requires SortedByFee(q)
    ensures SortsTo(q + [tx], r)
  {
    var i := InsertPosition(q, tx.fee);
    r := q[..i] + [tx] + q[i..];
    assert q == q[..i] + q[i..];
    assert multiset(r) == multiset(q[..i]) + multiset{tx} + multiset(q[i..]);
  }

  /** Every mempool can be put in fee order. */
  lemma {:induction false} SortExists(q: seq<Transfer>) returns (sorted: seq<Transfer>)
    ensures SortsTo(q, sorted)
  {
    if |q| == 0 {
      sorted := [];
    } else {
      var front := SortExists(q[..|q| - 1]);
      sorted := InsertByFee(front, q[|q| - 1]);
      assert multiset(front + [q[|q| - 1]]) == multiset(front) + multiset{q[|q| - 1]};
      assert q == q[..|q| - 1] + [q[|q| - 1]];
    }
  }

  /** The reported highest fee is the maximum when the queue is in fee order. */
  lemma HighestFeeIsMaximum(q: seq<Transfer>, tx: Transfer)
    requires SortedByFee(q) && tx in q
    ensures tx.fee <= q[0].fee
  {
    var i :| 0 <= i < |q| && q[i] == tx;
  }

  lemma {:induction false} PickedMembers<T>(xs: seq<T>, marks: seq<bool>)
    requires |xs| == |marks|
    ensures forall x :: x in Picked(xs, marks) ==> x in xs
  {
    if |xs| > 0 {
      PickedMembers(xs[..|xs| - 1], marks[..|xs| - 1]);
    }
  }

  lemma {:induction false} PickedSorted(q: seq<Transfer>, marks: seq<bool>)
    requires |q| == |marks| && SortedByFee(q)
    ensures SortedByFee(Picked(q, marks))
  {
    if |q| > 0 {
      var front := q[..|q| - 1];
      PickedSorted(front, marks[..|q| - 1]);
      PickedMembers(front, marks[..|q| - 1]);
      var p := Picked(front, marks[..|q| - 1]);
      forall i | 0 <= i < |p| ensures p[i].fee >= q[|q| - 1].fee {
        assert p[i] in front;
      }
    }
  }

  /** From a queue in fee order a block's transfers come in fee order and the queue stays so. */
  lemma CollectKeepsOrder(json: Json, state: Accounts, mempool: seq<Transfer>)
    requires SortedByFee(mempool)
    ensures SortedByFee(Collect(json, state, mempool).transfers)
    ensures SortedByFee(Remaining(json, state, mempool))
  {
    var marks := CollectCharacterised(json, state, mempool);
    PickedSorted(mempool[..|marks|], marks[..|marks|]);
  }

  lemma CollectMembers(json: Json, state: Accounts, mempool: seq<Transfer>)
    ensures forall tx :: tx in Collect(json, state, mempool).transfers ==> tx in mempool
    ensures forall tx :: tx in Remaining(json, state, mempool) ==> tx in mempool
  {
    var marks := CollectCharacterised(json, state, mempool);
    PickedMembers(mempool[..|marks|], marks[..|marks|]);
  }

  // ---- When dropping a prefix removes the transfers taken ----

  lemma TakenStep(pool: seq<Transfer>, marks: seq<bool>, i: nat)
    requires i < |marks| <= |pool|
    ensures Taken(pool, marks, i + 1) == Taken(pool, marks, i) + if marks[i] then [pool[i]] else []
  {
    assert pool[..i + 1][..i] == pool[..i];
    assert marks[..i + 1][..i] == marks[..i];
  }

  lemma {:induction false} TakenPrefix(pool: seq<Transfer>, marks: seq<bool>, i: nat, n: nat)
    requires i <= n <= |marks| <= |pool|
    ensures Taken(pool, marks, i) <= Taken(pool, marks, n)
    ensures |Taken(pool, marks, n)| <= |Taken(pool, marks, i)| + (n - i)
    decreases n
  {
    if i < n {
      TakenPrefix(pool, marks, i, n - 1);
      TakenStep(pool, marks, n - 1);
    }
  }

  lemma {:induction false} TakenWhileMarked(pool: seq<Transfer>, marks: seq<bool>, n: nat)
    requires n <= |marks| <= |pool|
    requires forall i :: 0 <= i < n ==> marks[i]
    ensures Taken(pool, marks, n) == pool[..n]
  {
    if n > 0 {
      TakenWhileMarked(pool, marks, n - 1);
      TakenStep(pool, marks, n - 1);
    }
  }

  /** The next transfer taken from position i on. */
  lemma {:induction false} NextTaken(pool: seq<Transfer>, marks: seq<bool>, i: nat) returns (j: nat)
    requires i <= |marks| <= |pool|
    requires |Taken(pool, marks, i)| < |Taken(pool, marks, |marks|)|
    ensures i <= j < |marks| && marks[j] && Taken(pool, marks, j) == Taken(pool, marks, i)
    decreases |marks| - i
  {
    TakenStep(pool, marks, i);
    if marks[i] {
      j := i;
    } else {
      j := NextTaken(pool, marks, i + 1);
    }
  }

  /** A skipped transfer is never equal to the next one taken: the same accounts refused it. */
  lemma SkipShows(json: Json, state: Accounts, pool: seq<Transfer>, marks: seq<bool>, i: nat)
    requires Explains(json, state, pool, marks)
    requires i < |marks| && !marks[i] && forall h :: 0 <= h < i ==> marks[h]
    requires i < |Taken(pool, marks, |marks|)|
    ensures Taken(pool, marks, |marks|)[i] != pool[i]
  {
    TakenWhileMarked(pool, marks, i);
    var j := NextTaken(pool, marks, i);
    TakenStep(pool, marks, j);
    TakenPrefix(pool, marks, j + 1, |marks|);
    assert Taken(pool, marks, |marks|)[i] == pool[j];
    assert Decided(json, state, pool, marks, i) && Decided(json, state, pool, marks, j);
  }

  lemma PrefixSplit<T>(p: seq<T>, xs: seq<T>)
    requires |p| <= |xs|
    ensures p + xs[|p|..] == xs <==> p == xs[..|p|]
  {
    assert (p + xs[|p|..])[..|p|] == p;
    assert xs[..|p|] + xs[|p|..] == xs;
  }

  /** Dropping as many entries as were taken removes exactly the transfers taken if and only if
      none of the entries dropped was passed over for want of funds. */
  lemma PrefixDropExact(json: Json, state: Accounts, mempool: seq<Transfer>, marks: seq<bool>)
    requires Explains(json, state, mempool, marks)
    ensures
      var taken := Collect(json, state, mempool).transfers;
      && |taken| <= |marks|
      && (taken + Remaining(json, state, mempool) == mempool <==> forall i :: 0 <= i < |taken| ==> marks[i])
  {
    var m := CollectCharacterised(json, state, mempool);
    ExplanationUnique(json, state, mempool, marks, m);
    TakenIsPrefixIff(json, state, mempool, marks);
    PrefixSplit(Collect(json, state, mempool).transfers, mempool);
  }

  lemma TakenIsPrefixIff(json: Json, state: Accounts, pool: seq<Transfer>, marks: seq<bool>)
    requires Explains(json, state, pool, marks)
    ensures
      var taken := Taken(pool, marks, |marks|);
      && |taken| <= |marks|
      && (taken == pool[..|taken|] <==> forall i :: 0 <= i < |taken| ==> marks[i])
  {
    var n := |Taken(pool, marks, |marks|)|;
    PickedLength(pool[..|marks|], marks[..|marks|]);
    if forall i :: 0 <= i < n ==> marks[i] {
      TakenWhileMarked(pool, marks, n);
      TakenPrefix(pool, marks, n, |marks|);
    } else {
      var i := FirstSkip(marks, n);
      SkipShows(json, state, pool, marks, i);
    }
  }

  lemma {:induction false} FirstSkip(marks: seq<bool>, n: nat) returns (i: nat)
    requires n <= |marks| && exists h :: 0 <= h < n && !marks[h]
    ensures i < n && !marks[i] && forall h :: 0 <= h < i ==> marks[h]
  {
    if h :| 0 <= h < n - 1 && !marks[h] {
      i := FirstSkip(marks, n - 1);
    } else {
      i := n - 1;
    }
  }

  // ---- The prefix drop without regard to order ----

  /** The entries among the first n that were not taken. */
  function PassedOver(pool: seq<Transfer>, marks: seq<bool>, n: nat): multiset<Transfer>
    requires n <= |marks| <= |pool|
  {
    if n == 0 then multiset{}
    else PassedOver(pool, marks, n - 1) + if marks[n - 1] then multiset{} else multiset{pool[n - 1]}
  }

  lemma OneMore<T>(front: seq<T>, taken: seq<T>, passed: multiset<T>, x: T, mark: bool)
    requires multiset(front) == multiset(taken) + passed
    ensures
      multiset(front + [x]) ==
      multiset(taken + if mark then [x] else []) + (passed + if mark then multiset{} else multiset{x})
  {
    assert multiset(taken + []) == multiset(taken);
  }

  lemma FrontAndNext<T>(xs: seq<T>, n: nat)
    requires n < |xs|
    ensures xs[..n + 1] == xs[..n] + [xs[n]]
  {
  }

  lemma {:induction false} FrontIsTakenOrPassed(pool: seq<Transfer>, marks: seq<bool>, n: nat)
    requires n <= |marks| <= |pool|
    ensures multiset(pool[..n]) == multiset(Taken(pool, marks, n)) + PassedOver(pool, marks, n)
  {
    if n > 0 {
      var m := n - 1;
      FrontIsTakenOrPassed(pool, marks, m);
      TakenStep(pool, marks, m);
      FrontAndNext(pool, m);
      OneMore(pool[..m], Taken(pool, marks, m), PassedOver(pool, marks, m), pool[m], marks[m]);
    }
  }

  /** Of a queue of `early`, `passed` and the rest, what was taken leaves just the rest when beyond
      `early` it is `passed`. */
  lemma LeavesRestIff<T>(taken: multiset<T>, early: multiset<T>, passed: multiset<T>, rest: multiset<T>, all: multiset<T>)
    requires early <= taken && all == (early + passed) + rest
    ensures taken + rest == all <==> passed == taken - early
  {
    if taken + rest == all {
      forall x ensures passed[x] == (taken - early)[x] {
        assert (taken + rest)[x] == all[x];
      }
    }
  }

  lemma PrefixIsSubmultiset<T>(xs: seq<T>, ys: seq<T>)
    requires xs <= ys
    ensures multiset(xs) <= multiset(ys)
  {
    assert ys == xs + ys[|xs|..];
  }

  lemma FrontAndRest<T>(xs: seq<T>, n: nat)
    requires n <= |xs|
    ensures multiset(xs) == multiset(xs[..n]) + multiset(xs[n..])
  {
    assert xs == xs[..n] + xs[n..];
  }

  /** Whatever the order, every transfer leaves the queue as often as it was taken if and only if the
      entries passed over among those dropped are just the ones taken beyond them. */
  lemma PrefixDropAsMultiset(json: Json, state: Accounts, mempool: seq<Transfer>, marks: seq<bool>)
    requires Explains(json, state, mempool, marks)
    ensures
      var taken := Collect(json, state, mempool).transfers;
      && |taken| <= |marks|
      && (multiset(taken) + multiset(Remaining(json, state, mempool)) == multiset(mempool) <==>
            PassedOver(mempool, marks, |taken|) ==
            multiset(taken) - multiset(Taken(mempool, marks, |taken|)))
  {
    var m := CollectCharacterised(json, state, mempool);
    ExplanationUnique(json, state, mempool, marks, m);
    TakenIsPrefixIff(json, state, mempool, marks);
    var taken := Collect(json, state, mempool).transfers;
    TakenAsMultiset(mempool, marks, taken, |taken|);
  }

  lemma TakenAsMultiset(pool: seq<Transfer>, marks: seq<bool>, taken: seq<Transfer>, n: nat)
    requires n <= |marks| <= |pool| && taken == Taken(pool, marks, |marks|)
    ensures
      multiset(taken) + multiset(pool[n..]) == multiset(pool) <==>
      PassedOver(pool, marks, n) == multiset(taken) - multiset(Taken(pool, marks, n))
  {
    TakenPrefix(pool, marks, n, |marks|);
    PrefixIsSubmultiset(Taken(pool, marks, n), taken);
    FrontAndRest(pool, n);
    FrontIsTakenOrPassed(pool, marks, n);
    LeavesRestIff(multiset(taken), multiset(Taken(pool, marks, n)), PassedOver(pool, marks, n),
                  multiset(pool[n..]), multiset(pool));
  }
}
