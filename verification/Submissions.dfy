/** What AddToMempool lets in, followed through the queue and onto the chain. */
module Submissions {
  import opened MachineInts
  import opened Transfers
  import opened Blocks
  import opened Selection
  import opened Mempool
  import opened Mining
  import opened Storage
  import opened LedgerState
  import opened Runs
  import opened Repeats

  /** The signature verifies and the recipient has the prefix. */
  predicate Admissible(w: World, tx: Transfer) {
    w.verify(tx) && "xcosh" <= tx.recipient
  }

  /** The transfers a step brings in past AddToMempool: into the queue directly, or in a block. */
  function BroughtIn(step: Step): set<Transfer> {
    match step
    case Arrive(queue) => set x | x in queue
    case Append(b) => set x | x in b.transfers
    case CrashInAppend(b) => set x | x in b.transfers
    case _ => {}
  }

  function AllBroughtIn(steps: seq<Step>): set<Transfer> {
    if |steps| == 0 then {} else BroughtIn(steps[0]) + AllBroughtIn(steps[1..])
  }

  predicate AdmissibleOrOutside(w: World, outside: set<Transfer>, tx: Transfer) {
    Admissible(w, tx) || tx in outside
  }

  /** Every transfer a node holds, queued, in flight or on its chain, is admissible or from outside. */
  ghost predicate HeldAdmissible(w: World, outside: set<Transfer>, n: Node) {
    forall x :: x in Copies(w, n) ==> AdmissibleOrOutside(w, outside, x)
  }

  /** The copies of a node after a step were there before, submitted, or brought in. */
  lemma CopiesComeFrom(w: World, n: Node, step: Step, x: Transfer)
    requires Sound(w, n) && Enabled(w, n, step) && WellBehaved(w, n, step)
    requires x in Copies(w, Next(w, n, step))
    ensures x in Copies(w, n) || x in BroughtIn(step) || (step.Submit? && x == step.tx)
  {
    if n.Down? || Next(w, n, step).Down? {
      StopOrStartCopies(w, n, step);
      OutsideOrNot(w, n, step, x);
    } else {
      LiveCopiesComeFrom(w, n, step, x);
    }
  }

  lemma OutsideOrNot(w: World, n: Node, step: Step, x: Transfer)
    requires Enabled(w, n, step) && x in Copies(w, Next(w, n, step))
    requires Copies(w, Next(w, n, step)) <= Copies(w, n) + if step.CrashInAppend? then multiset(step.b.transfers) else multiset{}
    ensures x in Copies(w, n) || x in BroughtIn(step)
  {
    if x !in Copies(w, n) {
      assert step.CrashInAppend? && x in multiset(step.b.transfers);
    }
  }

  lemma BeginComesFrom(w: World, l: Ledger, x: Transfer)
    requires |l.chain| > 0 && MayMine(l.miner) && x in Copies(w, Next(w, Up(l, None), Begin))
    ensures x in Copies(w, Up(l, None))
  {
    BeginCopies(w, l);
    CollectMembers(w.json, l.state, l.mempool);
    var taken := Collect(w.json, l.state, l.mempool).transfers;
    if x in multiset(l.mempool[|taken|..]) || x in multiset(taken) {
      assert x in l.mempool;
    }
  }

  lemma LiveCopiesComeFrom(w: World, n: Node, step: Step, x: Transfer)
    requires Enabled(w, n, step) && n.Up? && Next(w, n, step).Up?
    requires x in Copies(w, Next(w, n, step))
    ensures x in Copies(w, n) || x in BroughtIn(step) || (step.Submit? && x == step.tx)
  {
    match step {
      case Begin => BeginComesFrom(w, n.l, x);
      case Commit(now, nonce) => CommitCopies(w, n, now, nonce);
      case Arrive(queue) =>
      case Submit(tx, sorted) => SubmitCopies(w, n, tx, sorted);
      case Rollback => RollbackMovesCopies(w, n.l);
      case Append(b) => AppendAddsCopies(w, n.l, b);
    }
  }

  lemma StepKeepsAdmissible(w: World, n: Node, step: Step, outside: set<Transfer>)
    requires Sound(w, n) && Enabled(w, n, step) && WellBehaved(w, n, step)
    requires HeldAdmissible(w, outside, n) && BroughtIn(step) <= outside
    ensures HeldAdmissible(w, outside, Next(w, n, step))
  {
    forall x | x in Copies(w, Next(w, n, step)) ensures AdmissibleOrOutside(w, outside, x) {
      CopiesComeFrom(w, n, step, x);
      if x in Copies(w, n) {
        assert AdmissibleOrOutside(w, outside, x);
      } else if step.Submit? && x == step.tx {
        SubmittedIsAdmissible(w, n, x, step.sorted);
      }
    }
  }

  lemma SubmittedIsAdmissible(w: World, n: Node, tx: Transfer, sorted: seq<Transfer>)
    requires Enabled(w, n, Submit(tx, sorted))
    ensures Admissible(w, tx)
  {
  }

  lemma {:induction false} RunKeepsAdmissible(w: World, n: Node, steps: seq<Step>, outside: set<Transfer>)
    requires Sound(w, n) && Possible(w, n, steps) && Behaved(w, n, steps)
    requires HeldAdmissible(w, outside, n) && AllBroughtIn(steps) <= outside
    ensures HeldAdmissible(w, outside, Run(w, n, steps))
    decreases |steps|
  {
    if |steps| > 0 {
      StepKeepsAdmissible(w, n, steps[0], outside);
      StepKeepsSound(w, n, steps[0]);
      RunKeepsAdmissible(w, Next(w, n, steps[0]), steps[1..], outside);
    }
  }

  /** After every run from an empty disk, whatever a node holds has a verified signature and the prefix,
      or came in past AddToMempool. */
  lemma EveryRunHoldsAdmissible(w: World, steps: seq<Step>, tx: Transfer)
    requires Possible(w, Down(map[]), steps) && Behaved(w, Down(map[]), steps)
    requires tx in Copies(w, Run(w, Down(map[]), steps))
    ensures tx in AllBroughtIn(steps) || (w.verify(tx) && "xcosh" <= tx.recipient)
  {
    EmptyDisk(w);
    NothingHeld(w);
    RunKeepsAdmissible(w, Down(map[]), steps, AllBroughtIn(steps));
    assert AdmissibleOrOutside(w, AllBroughtIn(steps), tx);
  }

  lemma NothingHeld(w: World)
    ensures Copies(w, Down(map[])) == multiset{}
  {
    assert ReadChain(w.json, map[]) == [];
  }
}
