/** Concrete inputs on which the code does less than it promises. The exact conditions under which
    it keeps its promises are proved beside the functions concerned. */
module Counterexamples {
  import opened MachineInts
  import opened Hex
  import opened Transfers
  import opened Consensus
  import opened ProofOfWork
  import opened Blocks
  import opened Accounts
  import opened Totals
  import opened Validator
  import opened Chains
  import opened Selection
  import opened Mining
  import opened Difficulty
  import opened BlockSize
  import opened Storage
  import opened LedgerState
  import opened Runs
  import opened Commitments
  import Repeats

  const MINER: string := "xcosh"

  /** A transfer to the miner from an account nobody has paid into. */
  function Pay(value: u64, fee: u64): Transfer {
    Transfer(seq(14, i => 0), MINER, value, fee, 0, [])
  }

  function ZeroHash(): Bytes {
    seq(32, i => 0)
  }

  /** The genesis block at difficulty 1 under the hash function below. */
  function Genesis(): LedgerBlock {
    GenesisDraft(1).(hash := ZeroHash())
  }

  /** Every transfer takes 8191 bytes and an empty block two. */
  function SizedJson(): Json {
    Json((b: LedgerBlock) => seq(2 + 8191 * |b.transfers| + Commas(|b.transfers|), i => 'x'),
         (tx: Transfer) => seq(8191, i => 'x'),
         (text: string) => Some(Genesis()))
  }

  /** A hash function under which every nonce wins. */
  function ZeroWorld(): World {
    World(SizedJson(), (data: Bytes) => ZeroHash(), (tx: Transfer) => true)
  }

  function Start(miner: string, mempool: seq<Transfer>): Ledger {
    Ledger([Genesis()], map[], mempool, map[], 1, GENESIS_BITS, miner)
  }

  lemma {:induction false} ZerosLead(b: Bytes, k: nat)
    requires k <= |b| && forall i :: 0 <= i < k ==> b[i] == 0
    ensures LeadingZeroBits(b) >= 8 * k
  {
    if k > 0 {
      ZerosLead(b[1..], k - 1);
    }
  }

  lemma {:induction false} ZerosPrint(b: Bytes, k: nat)
    requires k < 2 * |b| && forall i :: 0 <= i < |b| ==> b[i] == 0
    ensures HexEncode(b)[k] == '0'
  {
    if k > 1 {
      ZerosPrint(b[1..], k - 2);
    }
  }

  lemma ZerosWin(hash: Bytes, difficulty: u32)
    requires |hash| == 32 && forall i :: 0 <= i < |hash| ==> hash[i] == 0
    ensures MeetsTarget(hash, difficulty)
  {
    ZerosLead(hash, 32);
    PowCountsZeros(hash, difficulty);
  }

  lemma ZerosMissCheckpoint(hash: Bytes)
    requires |hash| == 32 && forall i :: 0 <= i < |hash| ==> hash[i] == 0
    ensures HexEncode(hash) != EXPECTED_GENESIS_HASH
  {
    ZerosPrint(hash, 63);
    assert EXPECTED_GENESIS_HASH[63] == 'a';
  }

  lemma ZeroHashWins(difficulty: u32)
    ensures MeetsTarget(ZeroHash(), difficulty)
  {
    ZerosWin(ZeroHash(), difficulty);
  }

  lemma GenesisStands()
    ensures GenesisBlock(ZeroWorld(), 1, GENESIS_BITS, 0) == Genesis()
    ensures ValidChain(SizedJson(), [Genesis()])
  {
    GenesisFilled(1, GENESIS_BITS);
  }

  lemma {:induction false} SizedSum(txs: seq<Transfer>)
    ensures SizeSum(SizedJson(), txs) == 8191 * |txs|
  {
    if |txs| > 0 {
      SizedSum(txs[..|txs| - 1]);
    }
  }

  lemma SizedLaw()
    ensures SizeLaw(SizedJson())
  {
    forall b: LedgerBlock
      ensures |SizedJson().block(b)| == Envelope(SizedJson(), b) + SizeSum(SizedJson(), b.transfers) + Commas(|b.transfers|)
    {
      SizedSum(b.transfers);
    }
  }

  lemma EveryNonceDelivers(draft: LedgerBlock, engineBits: u32, nonce: u64)
    ensures Delivers(ZeroWorld(), draft, engineBits, nonce)
  {
    ZeroHashWins(draft.difficulty);
  }

  lemma FullQueuePanics(w: World, l: Ledger, tx: Transfer, now: i64, nonce: u64)
    requires SizeLaw(w.json) && ValidChain(w.json, l.chain) && MayMine(l.miner)
    requires tx.value == 0 && tx.fee == 0 && TransferSize(w.json, tx) == 8191 && l.mempool == Copies(tx, 512)
    requires Tip(l.chain).timestamp < MAX_I64
    requires
      var taken := Collect(w.json, l.state, l.mempool).transfers;
      DeliversOn(w, l, taken, now, nonce) && Envelope(w.json, MinedOn(w, l, taken, now, nonce)) >= 2
    ensures MineOn(w, l, now, nonce).1 == SelfCheckPanic(BlockTooLarge)
  {
    FullBudgetFailsSelfCheck(w, l.chain, l.state, tx, l.miner, l.bits, now, nonce);
  }

  lemma ZeroWorldPanics(w: World, l: Ledger, tx: Transfer, now: i64, nonce: u64)
    requires w == ZeroWorld() && l.chain == [Genesis()] && MayMine(l.miner)
    requires tx.value == 0 && tx.fee == 0 && l.mempool == Copies(tx, 512)
    ensures MineOn(w, l, now, nonce).1 == SelfCheckPanic(BlockTooLarge)
  {
    GenesisStands();
    SizedLaw();
    EveryNonceDelivers(DraftOn(l, Collect(w.json, l.state, l.mempool).transfers, now), l.bits, nonce);
    FullQueuePanics(w, l, tx, now, nonce);
  }

  /** With 512 free transfers in the queue MineBlock panics, whatever the clock says. */
  lemma MineBlockPanics(now: i64, nonce: u64)
    ensures
      MineOn(ZeroWorld(), Start(MINER, Copies(Pay(0, 0), 512)), now, nonce).1 == SelfCheckPanic(BlockTooLarge)
  {
    ZeroWorldPanics(ZeroWorld(), Start(MINER, Copies(Pay(0, 0), 512)), Pay(0, 0), now, nonce);
  }

  /** A transfer passed over at the front of the queue is dropped, and the one taken stays queued. */
  lemma PrefixDropKeepsTheWrongOne()
    ensures Collect(SizedJson(), map[], [Pay(1, 0), Pay(0, 0)]).transfers == [Pay(0, 0)]
    ensures Remaining(SizedJson(), map[], [Pay(1, 0), Pay(0, 0)]) == [Pay(0, 0)]
  {
    var json, pool := SizedJson(), [Pay(1, 0), Pay(0, 0)];
    var so := Selected(map[], [], 0, RESERVED_BYTES);
    var so1 := Consider(json, so, pool[0]);
    assert pool[0..] == pool;
    SelectFrom(json, so, pool, 0);
    SelectFrom(json, so1, pool, 1);
    SelectFrom(json, Consider(json, so1, pool[1]), pool, 2);
  }

  lemma LoopOverThree(json: Json, state: Accounts, a: Transfer, b: Transfer)
    requires TransferSize(json, a) + TransferSize(json, b) <= 16384
    requires !CanPay(state, a) && CanPay(Touch(state, Sender(a)), b)
    requires CanPay(LiveTransfer(Touch(state, Sender(a)), b), a)
    ensures Collect(json, state, [a, b, a]).transfers == [b, a]
    ensures Remaining(json, state, [a, b, a]) == [a]
  {
    var pool := [a, b, a];
    var so := Selected(state, [], 0, RESERVED_BYTES);
    var so1 := Consider(json, so, a);
    var so2 := Consider(json, so1, b);
    assert pool[0..] == pool;
    SelectFrom(json, so, pool, 0);
    SelectFrom(json, so1, pool, 1);
    SelectFrom(json, so2, pool, 2);
    SelectFrom(json, Consider(json, so2, a), pool, 3);
  }

  /** A transfer of one coin by another account, and a payment that lets that account make it. */
  function Later(): Transfer {
    Transfer(seq(14, i => 1), MINER, 1, 0, 0, [])
  }

  function Enabling(): Transfer {
    Pay(1, 0).(recipient := Sender(Later()))
  }

  lemma SendersDiffer()
    ensures Sender(Later()) != Sender(Pay(1, 0))
  {
    var x, y := Later().senderPubKey[..14], Pay(1, 0).senderPubKey[..14];
    assert x[0] == 1 && y[0] == 0;
    DecodeUndoesEncode(x);
    DecodeUndoesEncode(y);
    assert Sender(Later())[5..] == HexEncode(x) && Sender(Pay(1, 0))[5..] == HexEncode(y);
  }

  /** An entry passed over and dropped is taken again further on: the queue loses just the transfers
      taken, but not in their order. */
  lemma PrefixDropLosesOrderOnly()
    ensures
      var a, b := Later(), Enabling();
      var state: Accounts := map[Sender(b) := Account(1, 0)];
      && Collect(SizedJson(), state, [a, b, a]).transfers == [b, a]
      && Remaining(SizedJson(), state, [a, b, a]) == [a]
  {
    SendersDiffer();
    LoopOverThree(SizedJson(), map[Sender(Enabling()) := Account(1, 0)], Later(), Enabling());
  }

  /** A block on genesis, one second later. */
  function Second(transfers: seq<Transfer>, miner: string, hash: Bytes, difficulty: u32): LedgerBlock {
    LedgerBlock(1, GENESIS_TIMESTAMP + 1, ZeroHash(), hash, transfers, miner, 0, difficulty, GENESIS_BITS,
                BLOCK_REWARD, MAX_SUPPLY, HALVING_INTERVAL, "")
  }

  lemma FirstSupply()
    ensures CirculatingSupply([Genesis()]) == SupplyOf([Genesis()]) == BLOCK_REWARD
    ensures RewardDue(1, CirculatingSupply([Genesis()])) == BLOCK_REWARD
  {
    GenesisStands();
    ChainSupply(SizedJson(), [Genesis()]);
    assert CalculateBlockReward(0) == CalculateBlockReward(1) == BLOCK_REWARD;
    assert [Genesis()][..0] == [];
  }

  lemma SecondAccepted(transfers: seq<Transfer>, miner: string, hash: Bytes, difficulty: u32)
    requires MayMine(miner) && |transfers| <= 1 && MeetsTarget(hash, difficulty)
    ensures Accepts(SizedJson(), Second(transfers, miner, hash, difficulty), Genesis(), CirculatingSupply([Genesis()]))
  {
    FirstSupply();
  }

  lemma AcceptedIsAppended(json: Json, l: Ledger, b: LedgerBlock)
    requires |l.chain| > 0 && Accepts(json, b, Tip(l.chain), CirculatingSupply(l.chain))
    ensures
      var result := AppendOn(json, l, b);
      result.Some? && result.value.chain == l.chain + [b] && result.value.state == RebuildBlock(l.state, b)
  {
  }

  /** AppendBlockDirectly takes such a block on a fresh node; the supply grows by its reward. */
  lemma SecondAppended(transfers: seq<Transfer>, miner: string, hash: Bytes, difficulty: u32)
    requires MayMine(miner) && |transfers| <= 1 && MeetsTarget(hash, difficulty)
    ensures
      var b := Second(transfers, miner, hash, difficulty);
      var result := AppendOn(SizedJson(), Start(MINER, []), b);
      && result.Some?
      && result.value.chain == [Genesis(), b]
      && result.value.state == RebuildBlock(map[], b)
      && SupplyOf(result.value.chain) - BLOCK_REWARD == BLOCK_REWARD
  {
    var b, l := Second(transfers, miner, hash, difficulty), Start(MINER, []);
    SecondAccepted(transfers, miner, hash, difficulty);
    AcceptedIsAppended(SizedJson(), l, b);
    FirstSupply();
    assert [Genesis(), b][..1] == [Genesis()];
  }

  lemma LonePayment(tx: Transfer)
    ensures ShortfallSum(map[], [tx]) == Cost(tx) && (Funded(map[], [tx]) <==> Cost(tx) == 0)
    ensures ValueSum([tx]) == tx.value && FeeSum([tx]) == tx.fee
  {
    assert [tx][1..] == [] && [tx][..0] == [];
    assert Funded(ApplyTransfer(map[], tx), []) && ShortfallSum(ApplyTransfer(map[], tx), []) == 0;
  }

  lemma OneCoinShort(b: LedgerBlock, tx: Transfer)
    requires b.transfers == [tx] && tx.value == 1 && tx.fee == 0
    requires IsCredited(b.miner) && b.reward == BLOCK_REWARD
    ensures Total(RebuildBlock(map[], b)) == BLOCK_REWARD + 1
  {
    LonePayment(tx);
    BlockAccounting(map[], b);
  }

  /** The validator lets a block through whose one sender has nothing: a coin appears. */
  lemma AppendMintsCoin()
    ensures
      var b := Second([Pay(1, 0)], MINER, ZeroHash(), 1);
      var result := AppendOn(SizedJson(), Start(MINER, []), b);
      && result.Some?
      && !Funded(map[], b.transfers)
      && Total(result.value.state) == SupplyOf(result.value.chain) - BLOCK_REWARD + 1
  {
    ZeroHashWins(1);
    SecondAppended([Pay(1, 0)], MINER, ZeroHash(), 1);
    LonePayment(Pay(1, 0));
    OneCoinShort(Second([Pay(1, 0)], MINER, ZeroHash(), 1), Pay(1, 0));
  }

  /** It lets SYSTEM_GENESIS mine: the supply grows by a reward that nobody gets. */
  lemma AppendLosesReward()
    ensures
      var b := Second([], SYSTEM_GENESIS, ZeroHash(), 1);
      var result := AppendOn(SizedJson(), Start(MINER, []), b);
      && result.Some?
      && Funded(map[], b.transfers)
      && Total(result.value.state) == SupplyOf(result.value.chain) - BLOCK_REWARD - BLOCK_REWARD
  {
    ZeroHashWins(1);
    SecondAppended([], SYSTEM_GENESIS, ZeroHash(), 1);
    BlockAccounting(map[], Second([], SYSTEM_GENESIS, ZeroHash(), 1));
  }

  const OTHER_MINER: string := "xcosh1"

  lemma WrappedBlock(b: LedgerBlock, tx: Transfer)
    requires b.transfers == [tx] && tx.value == TWO_64 - 1 && tx.fee == 1
    requires IsCredited(b.miner) && b.miner != tx.recipient && b.reward == BLOCK_REWARD
    ensures Funded(map[], b.transfers)
    ensures Total(RebuildBlock(map[], b)) == BLOCK_REWARD + TWO_64
  {
    var s := ApplyTransfer(map[], tx);
    LonePayment(tx);
    assert b.transfers[1..] == [] && b.transfers[..0] == [];
    DebitReads(map[], Sender(tx), Cost(tx), tx.recipient);
    DebitReads(map[], Sender(tx), Cost(tx), b.miner);
    DepositReads(Debit(map[], Sender(tx), Cost(tx)), tx.recipient, tx.value, b.miner);
    assert TransfersWraps(s, []) == 0 && ApplyTransfers(s, []) == s;
    assert FeeTotal(b.transfers) == 1 && FeeWraps(b.transfers) == 0;
    assert BlockWraps(map[], b) == 1;
    BlockAccounting(map[], b);
  }

  /** And a block whose sender can pay a cost that has wrapped to nothing: 2^64 coins appear. */
  lemma AppendMintsWrappedCost()
    ensures
      var b := Second([Pay(TWO_64 - 1, 1)], OTHER_MINER, ZeroHash(), 1);
      var result := AppendOn(SizedJson(), Start(MINER, []), b);
      && result.Some?
      && Funded(map[], b.transfers)
      && Total(result.value.state) == SupplyOf(result.value.chain) - BLOCK_REWARD + TWO_64
  {
    var tx := Pay(TWO_64 - 1, 1);
    ZeroHashWins(1);
    SecondAppended([tx], OTHER_MINER, ZeroHash(), 1);
    WrappedBlock(Second([tx], OTHER_MINER, ZeroHash(), 1), tx);
  }

  function ForgedHash(): Bytes {
    seq(31, i => 0) + [1]
  }

  lemma ForgedHashWins(difficulty: u32)
    requires difficulty <= 200
    ensures MeetsTarget(ForgedHash(), difficulty)
  {
    ZerosLead(ForgedHash(), 31);
    PowCountsZeros(ForgedHash(), difficulty);
  }

  lemma ForgedIsNotHashed(b: LedgerBlock)
    requires b.hash == ForgedHash()
    ensures !HashesTo(ZeroWorld(), b)
  {
    assert ForgedHash()[31] == 1;
  }

  lemma ForgedIsNotRetargeted(parent: LedgerBlock, b: LedgerBlock)
    requires 0 < parent.timestamp < b.timestamp < parent.timestamp + 35
    requires parent.difficulty == 1 && b.difficulty == 7
    ensures !FollowsRule(parent, b)
  {
    RetargetStep(parent, b.timestamp);
  }

  /** It lets a block through whose hash is made up and whose difficulty is not the rule's. */
  lemma AppendTakesForgedBlock()
    ensures
      var b := Second([], MINER, ForgedHash(), 7);
      && AppendOn(SizedJson(), Start(MINER, []), b).Some?
      && !HashesTo(ZeroWorld(), b)
      && !FollowsRule(Genesis(), b)
  {
    var b := Second([], MINER, ForgedHash(), 7);
    ForgedHashWins(7);
    SecondAppended([], MINER, ForgedHash(), 7);
    ForgedIsNotHashed(b);
    ForgedIsNotRetargeted(Genesis(), b);
  }

  lemma OtherWinningHash(own: Bytes, difficulty: u32) returns (hash: Bytes)
    requires difficulty <= 200
    ensures hash != own && MeetsTarget(hash, difficulty)
  {
    assert ForgedHash()[31] != ZeroHash()[31];
    hash := if own == ZeroHash() then ForgedHash() else ZeroHash();
    ZeroHashWins(difficulty);
    ForgedHashWins(difficulty);
  }

  /** In every world, any accepted block can be replaced by one whose hash is not its own and whose
      difficulty is not the rule's; it is accepted exactly when it fits the size limit. */
  lemma EveryBlockCanBeForged(w: World, b: LedgerBlock, parent: LedgerBlock, supply: u64) returns (forged: LedgerBlock)
    requires Accepts(w.json, b, parent, supply)
    ensures forged == b.(hash := forged.hash, difficulty := forged.difficulty)
    ensures !HashesTo(w, forged) && !FollowsRule(parent, forged)
    ensures Accepts(w.json, forged, parent, supply) <==> |w.json.block(forged)| <= MAX_BLOCK_SIZE_BYTES
  {
    var difficulty: u32 := if NextDifficulty(parent, b.timestamp) == 7 then 8 else 7;
    var plain := b.(difficulty := difficulty);
    var hash := OtherWinningHash(HashAt(w, plain, b.nonce), difficulty);
    forged := plain.(hash := hash);
    HashIgnores(w, plain, forged, b.nonce);
    VerdictReadsHashOnce(w.json, b, parent, supply, b.nonce, hash, difficulty, b.bits, b.message);
  }

  /** An empty account pays out nearly 2^64 when value and fee together wrap to zero. */
  lemma WrappedCostMintsCoins()
    ensures CanPay(map[], Pay(TWO_64 - 1, 1))
    ensures Total(ApplyTransfer(map[], Pay(TWO_64 - 1, 1))) == TWO_64 - 1
  {
    var tx := Pay(TWO_64 - 1, 1);
    DebitTotal(map[], Sender(tx), Cost(tx));
    BalanceWithinTotal(Debit(map[], Sender(tx), Cost(tx)), tx.recipient);
    DepositTotal(Debit(map[], Sender(tx), Cost(tx)), tx.recipient, tx.value);
  }

  /** What SYSTEM_GENESIS mines is credited live and gone after a replay. */
  lemma GenesisMinerLosesReward(now: i64, nonce: u64)
    ensures
      var (l, outcome) := MineOn(ZeroWorld(), Start(SYSTEM_GENESIS, []), now, nonce);
      && outcome == Mined
      && Balance(l.state, SYSTEM_GENESIS) == BLOCK_REWARD
      && Replay(l.chain) == map[]
  {
    var w, l := ZeroWorld(), Start(SYSTEM_GENESIS, []);
    GenesisStands();
    var draft := DraftOn(l, [], now);
    EveryNonceDelivers(draft, l.bits, nonce);
    SelfCheckVerdict(w, l.chain, [], l.miner, l.bits, now, nonce);
    FillKeepsReward(w.json, l.chain, [], l.miner, l.bits, now);
    assert CalculateBlockReward(1) == BLOCK_REWARD;
    GenesisReplay(Genesis());
    ReplayGrows(map[], l.chain, Finish(w, draft, l.bits, nonce));
  }

  /** A node that starts on an empty disk comes up; it comes up again if and only if the genesis hash
      it found is the checkpoint's. */
  lemma FreshNodeRestartsIff(w: World, difficulty: u32, miner: string, nonce: u64)
    requires RoundTrips(w.json, GenesisBlock(w, FirstDifficulty(difficulty), GENESIS_BITS, nonce))
    ensures
      var first := Initialized(w, map[], difficulty, miner, nonce);
      && first.Some? && |first.value.chain| == 1
      && (Initialized(w, first.value.kv, difficulty, miner, nonce).Some? <==>
            HexEncode(first.value.chain[0].hash) == EXPECTED_GENESIS_HASH)
  {
    EmptyDisk(w);
    RestartSpawns(w, map[], difficulty, miner, nonce);
    GenesisKeeps(w, map[], FirstDifficulty(difficulty), GENESIS_BITS, nonce);
    var g := GenesisBlock(w, FirstDifficulty(difficulty), GENESIS_BITS, nonce);
    RestartReproduces(w, Saved(map[], w.json, 0, g), [g], difficulty, miner, nonce);
  }

  /** Under a hash function that gives another genesis hash it comes up once and never again. */
  lemma FreshNodeCannotRestart()
    ensures
      var first := Initialized(ZeroWorld(), map[], 1, MINER, 0);
      first.Some? && Initialized(ZeroWorld(), first.value.kv, 1, MINER, 0) == None
  {
    GenesisStands();
    ZerosMissCheckpoint(ZeroHash());
    RestartSpawns(ZeroWorld(), map[], 1, MINER, 0);
    FreshNodeRestartsIff(ZeroWorld(), 1, MINER, 0);
  }

  lemma LargestDifficultyDrops(l: Ledger, now: i64)
    requires |l.chain| > 0 && Tip(l.chain).difficulty == TWO_32 - 1
    requires 0 < Tip(l.chain).timestamp < MAX_I64 && now < Tip(l.chain).timestamp + 35
    ensures DraftOn(l, [], now).difficulty == 0
  {
    RetargetStep(Tip(l.chain), BlockTime(Tip(l.chain), now));
  }

  /** The validator lets through a block of the largest difficulty; on top of it, within 35 seconds,
      MineBlock mines at difficulty zero. */
  lemma DifficultyCastToZero(now: i64)
    requires now < GENESIS_TIMESTAMP + 36
    ensures
      var b := Second([], MINER, ZeroHash(), TWO_32 - 1);
      var result := AppendOn(SizedJson(), Start(MINER, []), b);
      result.Some? && |result.value.chain| > 0 && DraftOn(result.value, [], now).difficulty == 0
  {
    var b := Second([], MINER, ZeroHash(), TWO_32 - 1);
    ZeroHashWins(TWO_32 - 1);
    SecondAppended([], MINER, ZeroHash(), TWO_32 - 1);
    LargestDifficultyDrops(AppendOn(SizedJson(), Start(MINER, []), b).value, now);
  }

  // ---- A transfer applied twice ----

  /** A block that pays its reward to the sender of a transfer, and one that spends a coin of it. */
  function Funding(): LedgerBlock {
    Second([], Sender(Pay(1, 0)), ZeroHash(), 1)
  }

  function Third(tx: Transfer, miner: string, hash: Bytes): LedgerBlock {
    Second([tx], miner, hash, 1).(index := 2, timestamp := GENESIS_TIMESTAMP + 2)
  }

  function Spending(): LedgerBlock {
    Third(Pay(1, 0), OTHER_MINER, ZeroHash())
  }

  lemma ValidTriple(json: Json, g: LedgerBlock, f: LedgerBlock, t: LedgerBlock)
    requires ValidChain(json, [g]) && Accepts(json, f, g, CirculatingSupply([g]))
    requires Accepts(json, t, f, CirculatingSupply([g, f]))
    ensures ValidChain(json, [g, f, t])
  {
    ChainExtends(json, [g], f);
    assert [g] + [f] == [g, f];
    ChainExtends(json, [g, f], t);
    assert [g, f] + [t] == [g, f, t];
  }

  lemma SupplyOfTwo(g: LedgerBlock, f: LedgerBlock)
    ensures CirculatingSupply([g, f]) == Add64(CirculatingSupply([g]), f.reward)
  {
    assert [g, f][..1] == [g];
  }

  lemma SenderMayMine(tx: Transfer)
    ensures MayMine(Sender(tx))
  {
  }

  lemma FundingAccepted()
    ensures Accepts(SizedJson(), Funding(), Genesis(), CirculatingSupply([Genesis()]))
  {
    ZeroHashWins(1);
    SenderMayMine(Pay(1, 0));
    SecondAccepted([], Sender(Pay(1, 0)), ZeroHash(), 1);
  }

  lemma FundedSupply()
    ensures CirculatingSupply([Genesis(), Funding()]) == 2 * BLOCK_REWARD
  {
    FirstSupply();
    SupplyOfTwo(Genesis(), Funding());
  }

  lemma FullReward(index: u64, supply: u64)
    requires index < HALVING_INTERVAL && supply + BLOCK_REWARD <= MAX_SUPPLY
    ensures RewardDue(index, supply) == BLOCK_REWARD
  {
    assert index / HALVING_INTERVAL == 0;
  }

  lemma OneTransferFits(b: LedgerBlock)
    requires |b.transfers| == 1
    ensures |SizedJson().block(b)| <= MAX_BLOCK_SIZE_BYTES
  {
  }

  lemma ThirdAccepted(tx: Transfer, miner: string, hash: Bytes, parent: LedgerBlock)
    requires MayMine(miner) && MeetsTarget(hash, 1)
    requires parent.index == 1 && parent.timestamp == GENESIS_TIMESTAMP + 1 && parent.hash == ZeroHash()
    ensures Accepts(SizedJson(), Third(tx, miner, hash), parent, 2 * BLOCK_REWARD)
  {
    FullReward(2, 2 * BLOCK_REWARD);
    OneTransferFits(Third(tx, miner, hash));
  }

  lemma SpendingAccepted()
    ensures Accepts(SizedJson(), Spending(), Funding(), 2 * BLOCK_REWARD)
  {
    ZeroHashWins(1);
    ThirdAccepted(Pay(1, 0), OTHER_MINER, ZeroHash(), Funding());
  }

  lemma SpentChainValid()
    ensures ValidChain(SizedJson(), [Genesis(), Funding(), Spending()])
  {
    GenesisStands();
    FundingAccepted();
    FundedSupply();
    SpendingAccepted();
    ValidTriple(SizedJson(), Genesis(), Funding(), Spending());
  }

  lemma StillFunded(chain: seq<LedgerBlock>, tx: Transfer)
    requires |chain| == 3 && IsGenesis(chain[0])
    requires chain[1].transfers == [] && chain[1].miner == Sender(tx) && chain[1].reward == BLOCK_REWARD
    requires chain[2].transfers == [tx] && Cost(tx) == 1
    requires IsCredited(Sender(tx)) && chain[2].miner != Sender(tx) && tx.recipient != Sender(tx)
    ensures Balance(Replay(chain), Sender(tx)) == BLOCK_REWARD - 1
  {
    var s := Replay(chain[..2]);
    assert chain[..2][..1] == [chain[0]] && chain[..2][1] == chain[1];
    GenesisReplay(chain[0]);
    assert s == RebuildBlock(map[], chain[1]);
    StillFundedAfter(s, chain[1], chain[2], tx);
  }

  lemma StillFundedAfter(s: Accounts, funding: LedgerBlock, spending: LedgerBlock, tx: Transfer)
    requires funding.transfers == [] && funding.miner == Sender(tx) && funding.reward == BLOCK_REWARD
    requires s == RebuildBlock(map[], funding)
    requires spending.transfers == [tx] && Cost(tx) == 1
    requires IsCredited(Sender(tx)) && spending.miner != Sender(tx) && tx.recipient != Sender(tx)
    ensures Balance(RebuildBlock(s, spending), Sender(tx)) == BLOCK_REWARD - 1
  {
    assert Balance(s, Sender(tx)) == BLOCK_REWARD;
    DebitReads(s, Sender(tx), 1, Sender(tx));
    DepositReads(Debit(s, Sender(tx), 1), tx.recipient, tx.value, Sender(tx));
    assert [tx][1..] == [];
    assert ApplyTransfers(s, [tx]) == ApplyTransfer(s, tx);
    DepositReads(ApplyTransfer(s, tx), spending.miner, Add64(spending.reward, FeeTotal([tx])), Sender(tx));
  }

  /** A payment of one coin, rolled back with its block and appended again, is mined a second time: its
      sender pays twice for one signature. */
  lemma PaymentAppliedTwice(now: i64, nonce: u64)
    ensures
      var l := Start(MINER, []).(chain := [Genesis(), Funding(), Spending()]);
      var again := Repeats.Reappended(SizedJson(), l);
      && again.Some?
      && MineOn(ZeroWorld(), again.value, now, nonce).1 == Mined
      && Repeats.OnChain(MineOn(ZeroWorld(), again.value, now, nonce).0.chain)[Pay(1, 0)] == 2
  {
    var w, l, tx := ZeroWorld(), Start(MINER, []).(chain := [Genesis(), Funding(), Spending()]), Pay(1, 0);
    SpentChainValid();
    StillFunded(l.chain, tx);
    EveryNonceDelivers(DraftOn(l, [tx], now), l.bits, nonce);
    Repeats.ReappendedIsMinedAgain(w, l, tx, now, nonce);
    OnceOnChain(l.chain, tx);
  }

  lemma OnceOnChain(chain: seq<LedgerBlock>, tx: Transfer)
    requires |chain| == 3 && chain[0].transfers == [] && chain[1].transfers == [] && chain[2].transfers == [tx]
    ensures Repeats.OnChain(chain)[tx] == 1
  {
    assert chain[..2][..1] == chain[..1] && chain[..1][..0] == [];
    assert Repeats.OnChain(chain[..1]) == Repeats.OnChain([]) + multiset(chain[0].transfers);
    assert Repeats.OnChain(chain[..2]) == Repeats.OnChain(chain[..1]) + multiset(chain[1].transfers);
  }
}
