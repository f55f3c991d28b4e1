/** The byte budget of MineBlock against the size the validator measures. */
module BlockSize {
  import opened MachineInts
  import opened Transfers
  import opened Consensus
  import opened Blocks
  import opened Accounts
  import opened Selection
  import opened Mempool
  import opened Validator
  import opened Chains
  import opened Mining

  function Commas(n: nat): nat {
    if n == 0 then 0 else n - 1
  }

  /** The size of a block without its transfers. */
  function Envelope(json: Json, b: LedgerBlock): nat {
    |json.block(b.(transfers := []))|
  }

  /** A JSON array takes its elements and the commas between them. */
  ghost predicate SizeLaw(json: Json) {
    forall b ::
      |json.block(b)| == Envelope(json, b) + SizeSum(json, b.transfers) + Commas(|b.transfers|)
  }

  /** The self-check of a block collected from the mempool passes if and only if the envelope and
      the commas fit in what the transfers leave; 512 bytes for both is always enough. */
  lemma SelfCheckFits(w: World, chain: seq<LedgerBlock>, state: Accounts, mempool: seq<Transfer>,
                      miner: string, engineBits: u32, now: i64, nonce: u64)
    requires SizeLaw(w.json) && ValidChain(w.json, chain) && MayMine(miner)
    requires
      Delivers(w, Draft(chain, Collect(w.json, state, mempool).transfers, miner, engineBits, now), engineBits, nonce)
    ensures
      var taken := Collect(w.json, state, mempool).transfers;
      var b := Finish(w, Draft(chain, taken, miner, engineBits, now), engineBits, nonce);
      var room := MAX_BLOCK_SIZE_BYTES - SizeSum(w.json, taken);
      && room >= RESERVED_BYTES
      && (Accepts(w.json, b, Tip(chain), CirculatingSupply(chain)) <==>
            Tip(chain).timestamp < MAX_I64 && Envelope(w.json, b) + Commas(|taken|) <= room)
  {
    var taken := Collect(w.json, state, mempool).transfers;
    var _ := CollectCharacterised(w.json, state, mempool);
    SelfCheckVerdict(w, chain, taken, miner, engineBits, now, nonce);
    var b := Finish(w, Draft(chain, taken, miner, engineBits, now), engineBits, nonce);
    assert b.transfers == taken;
    assert |w.json.block(b)| == Envelope(w.json, b) + SizeSum(w.json, b.transfers) + Commas(|b.transfers|);
  }

  function Copies(tx: Transfer, n: nat): (q: seq<Transfer>)
    ensures |q| == n
  {
    seq(n, i => tx)
  }

  lemma {:induction false} CopiesSize(json: Json, tx: Transfer, n: nat)
    ensures SizeSum(json, Copies(tx, n)) == n * TransferSize(json, tx)
  {
    if n > 0 {
      CopiesSize(json, tx, n - 1);
      assert Copies(tx, n)[..n - 1] == Copies(tx, n - 1);
    }
  }

  /** 512 free transfers of 8191 bytes fill the budget to the last byte. */
  lemma CopiesAllTaken(json: Json, state: Accounts, tx: Transfer)
    requires tx.value == 0 && tx.fee == 0
    requires TransferSize(json, tx) == 8191
    ensures Collect(json, state, Copies(tx, 512)).transfers == Copies(tx, 512)
  {
    var pool := Copies(tx, 512);
    var marks := seq(512, i => true);
    forall i | 0 <= i < 512 ensures Decided(json, state, pool, marks, i) {
      TakenWhileMarked(pool, marks, i);
      CopiesSize(json, tx, i);
      assert pool[..i] == Copies(tx, i);
    }
    TakenWhileMarked(pool, marks, 512);
    var m := CollectCharacterised(json, state, pool);
    ExplanationUnique(json, state, pool, marks, m);
    assert pool[..512] == pool;
  }

  /** The budget forgets the commas: on any chain and any accounts, a queue of 512 free transfers
      of 8191 bytes each makes MineBlock build a block its own self-check refuses. */
  lemma FullBudgetFailsSelfCheck(w: World, chain: seq<LedgerBlock>, state: Accounts, tx: Transfer,
                                 miner: string, engineBits: u32, now: i64, nonce: u64)
    requires SizeLaw(w.json) && ValidChain(w.json, chain) && MayMine(miner)
    requires tx.value == 0 && tx.fee == 0 && TransferSize(w.json, tx) == 8191
    requires Tip(chain).timestamp < MAX_I64
    requires
      var draft := Draft(chain, Collect(w.json, state, Copies(tx, 512)).transfers, miner, engineBits, now);
      && Delivers(w, draft, engineBits, nonce)
      && Envelope(w.json, Finish(w, draft, engineBits, nonce)) >= 2
    ensures
      var draft := Draft(chain, Collect(w.json, state, Copies(tx, 512)).transfers, miner, engineBits, now);
      ValidateBlockConsensus(w.json, Finish(w, draft, engineBits, nonce), Some(Tip(chain)), CirculatingSupply(chain))
        == BlockTooLarge
  {
    CopiesAllTaken(w.json, state, tx);
    CopiesSize(w.json, tx, 512);
    SelfCheckFits(w, chain, state, Copies(tx, 512), miner, engineBits, now, nonce);
    SelfCheckVerdict(w, chain, Copies(tx, 512), miner, engineBits, now, nonce);
  }
}
