/** node/ledger.go: the ledger object, its fields updated in place. Each method is proved to do to
    the fields what the function of module LedgerState does to their value. Panics are outcomes. */
module LedgerNode {
  import opened MachineInts
  import opened Transfers
  import opened Consensus
  import opened Blocks
  import opened Accounts
  import opened Validator
  import opened Chains
  import opened Selection
  import opened Mempool
  import opened Storage
  import opened LedgerState

  class LedgerCore {
    const w: World
    const Engine: ConsensusEngine
    const Storage: Database
    var Chain: seq<LedgerBlock>
    var State: Accounts
    var Mempool: seq<Transfer>
    var MinerAddress: string

    ghost predicate Valid() {
      Storage.json == w.json
    }

    ghost function View(): Ledger
      reads this, Engine, Storage
    {
      Ledger(Chain, State, Mempool, Storage.kv, Engine.TargetDifficulty, Engine.Bits, MinerAddress)
    }

    constructor (w: World, db: Database, initialDifficulty: u32, minerAddr: string)
      requires db.json == w.json
      ensures Valid() && fresh(Engine) && Storage == db && this.w == w
      ensures View() == Opened(db.kv, initialDifficulty, minerAddr)
    {
      this.w := w;
      Engine := new ConsensusEngine(if initialDifficulty == 0 then 1 else initialDifficulty);
      Storage := db;
      Chain, State, Mempool, MinerAddress := [], map[], [], minerAddr;
    }

    method GetTotalCirculatingSupply() returns (total: u64)
      ensures total == CirculatingSupply(Chain)
    {
      total := 0;
      for i := 0 to |Chain|
        invariant total == CirculatingSupply(Chain[..i])
      {
        assert Chain[..i + 1][..i] == Chain[..i];
        total := Add64(total, Chain[i].reward);
      }
      assert Chain[..|Chain|] == Chain;
    }

    /** True when the node goes on, false for the panic. */
    method VerifyConsensusIntegrity() returns (ok: bool)
      ensures ok <==> Integral(Chain)
    {
      if |Chain| == 0 {
        return true;
      }
      for i := 0 to |Chain|
        invariant i > 0 ==> VerifyCheckpoint(0, Chain[0].hash)
      {
        if !VerifyCheckpoint(i, Chain[i].hash) {
          return false;
        }
      }
      var supply := GetTotalCirculatingSupply();
      ok := supply <= MAX_SUPPLY;
    }

    /** The body of RebuildState's loop over the transfers. */
    method ReplayOne(tx: Transfer)
      modifies this`State
      ensures State == ApplyTransfer(old(State), tx)
    {
      var sender := PubkeyToAddress(tx.senderPubKey);
      if sender !in State {
        State := State[sender := Account(0, 0)];
      }
      var cost := Add64(tx.value, tx.fee);
      if State[sender].balance >= cost {
        State := State[sender := State[sender].(balance := State[sender].balance - cost)];
      } else {
        State := State[sender := State[sender].(balance := 0)];
      }
      State := State[sender := State[sender].(nonce := Add64(State[sender].nonce, 1))];
      assert State == Debit(old(State), sender, cost);
      if tx.recipient !in State {
        State := State[tx.recipient := Account(0, 0)];
      }
      var acc := State[tx.recipient];
      State := State[tx.recipient := acc.(balance := Add64(acc.balance, tx.value))];
    }

    /** The fee loop of a block. */
    method SumFees(transfers: seq<Transfer>) returns (feeTotal: u64)
      ensures feeTotal == FeeTotal(transfers)
    {
      feeTotal := 0;
      for i := 0 to |transfers|
        invariant feeTotal == FeeTotal(transfers[..i])
      {
        assert transfers[..i + 1][..i] == transfers[..i];
        feeTotal := Add64(feeTotal, transfers[i].fee);
      }
      assert transfers[..|transfers|] == transfers;
    }

    method RebuildState(block: LedgerBlock)
      modifies this`State
      ensures State == RebuildBlock(old(State), block)
    {
      for i := 0 to |block.transfers|
        invariant ApplyTransfers(State, block.transfers[i..]) == ApplyTransfers(old(State), block.transfers)
      {
        assert block.transfers[i..][1..] == block.transfers[i + 1..];
        ReplayOne(block.transfers[i]);
      }
      if block.miner != "SYSTEM_GENESIS" && block.miner != "" {
        var feeTotal := SumFees(block.transfers);
        var totalRewardAdded := Add64(block.reward, feeTotal);
        if totalRewardAdded > 0 {
          if block.miner !in State {
            State := State[block.miner := Account(0, 0)];
          }
          var acc := State[block.miner];
          State := State[block.miner := acc.(balance := Add64(acc.balance, totalRewardAdded))];
        }
      }
    }

    method SpawnGenesis(nonce: u64)
      requires Valid()
      modifies this`Chain, Storage
      ensures View() == SpawnGenesisOn(w, old(View()), nonce)
    {
      var exactReward := CalculateBlockReward(0);
      var genesis := LedgerBlock(0, GENESIS_TIMESTAMP, seq(64, i => 0), [], [], "SYSTEM_GENESIS", 0,
                                 Engine.TargetDifficulty, GENESIS_BITS, exactReward, MAX_SUPPLY, HALVING_INTERVAL,
                                 PSZ_TIMESTAMP);
      assert genesis == GenesisDraft(Engine.TargetDifficulty);
      var filled, foundNonce, foundHash := Engine.Mine(w, genesis, nonce);
      genesis := filled.(nonce := foundNonce, hash := foundHash, reward := exactReward);
      Chain := Chain + [genesis];
      Storage.SaveBlock(0, genesis);
    }

    /** Appends a block read from disk and replays it after those read before. */
    method TakeBlock(block: LedgerBlock, ghost start: Accounts, ghost before: seq<LedgerBlock>)
      requires State == ReplayOnto(start, before)
      modifies this`Chain, this`State
      ensures Chain == old(Chain) + [block] && State == ReplayOnto(start, before + [block])
    {
      Chain := Chain + [block];
      RebuildState(block);
      ReplayGrows(start, before, block);
    }

    /** LoadFromDisk's loop over the stored blocks. */
    method ReadBlocks(last: u64)
      requires Valid()
      modifies this`Chain, this`State
      ensures
        var blocks := ReadFrom(w.json, Storage.kv, 0, last);
        Chain == old(Chain) + blocks && State == ReplayOnto(old(State), blocks)
    {
      ghost var start := State;
      ghost var all := ReadFrom(w.json, Storage.kv, 0, last);
      ghost var read: seq<LedgerBlock> := [];
      var i := 0;
      while i <= last
        modifies this`Chain, this`State
        invariant 0 <= i <= last + 1
        invariant all == read + ReadFrom(w.json, Storage.kv, i, last)
        invariant Chain == old(Chain) + read && State == ReplayOnto(start, read)
        decreases last + 1 - i
      {
        ReadAhead(w.json, Storage.kv, i, last, all, read);
        var data := Storage.GetBlock(i);
        if data.None? {
          return;
        }
        var block := w.json.parseBlock(data.value);
        if block.Some? {
          TakeBlock(block.value, start, read);
          read := read + [block.value];
        }
        i := i + 1;
      }
      ReadAhead(w.json, Storage.kv, i, last, all, read);
    }

    /** LoadFromDisk's answer to a genesis block with other parameters. */
    method WipeAndRespawn(nonce: u64)
      requires Valid()
      modifies this`Chain, this`State, Storage
      ensures View() == SpawnGenesisOn(w, old(View()).(chain := [], state := map[], kv := map[]), nonce)
    {
      Chain, State := [], map[];
      Storage.ClearAll();
      assert View() == old(View()).(chain := [], state := map[], kv := map[]);
      SpawnGenesis(nonce);
    }

    method LoadFromDisk(nonce: u64) returns (outcome: LoadOutcome)
      requires Valid()
      modifies this`Chain, this`State, Storage
      ensures (View(), outcome) == LoadOn(w, old(View()), nonce)
    {
      var lastIdx := Storage.GetLastIndex();
      if lastIdx.None? {
        return Loaded(false);
      }
      ReadBlocks(lastIdx.value);
      if |Chain| > 0 {
        var storedGenesis := Chain[0];
        if storedGenesis.message != PSZ_TIMESTAMP || storedGenesis.timestamp != GENESIS_TIMESTAMP
           || storedGenesis.bits != GENESIS_BITS || storedGenesis.reward != BLOCK_REWARD
           || storedGenesis.maxSupply != MAX_SUPPLY || storedGenesis.halvingInterval != HALVING_INTERVAL {
          WipeAndRespawn(nonce);
          return Loaded(true);
        }
      }
      var ok := VerifyConsensusIntegrity();
      outcome := if ok then Loaded(|Chain| > 0) else LoadPanic;
    }

    /** The part of InitializeLedger after the object is built. True when the node is up. */
    method LoadOrSpawn(nonce: u64) returns (up: bool)
      requires Valid()
      modifies this`Chain, this`State, Storage
      ensures
        var result := StartedOn(w, old(View()), nonce);
        up == result.Some? && (up ==> View() == result.value)
    {
      var outcome := LoadFromDisk(nonce);
      match outcome {
        case LoadPanic =>
          up := false;
        case Loaded(found) =>
          if !found {
            SpawnGenesis(nonce);
          }
          up := true;
      }
    }

    /** sort.Slice is not stable: the queue it leaves is some fee-ordered rearrangement. */
    method AddToMempool(tx: Transfer) returns (queued: bool)
      modifies this`State, this`Mempool
      ensures queued <==> Submittable(w, tx)
      ensures queued <==> "xcosh" <= tx.recipient && w.verify(tx)
      ensures !queued ==> View() == old(View())
      ensures queued ==> SortsTo(old(Mempool) + [tx], Mempool) && View() == SubmitOn(old(View()), tx, Mempool)
    {
      if !HasPrefix(tx.recipient, ADDRESS_PREFIX) {
        return false;
      }
      if !w.verify(tx) {
        return false;
      }
      var sender := PubkeyToAddress(tx.senderPubKey);
      if sender !in State {
        State := State[sender := Account(0, tx.nonce)];
      }
      if tx.nonce != State[sender].nonce {
        State := State[sender := State[sender].(nonce := tx.nonce)];
      }
      Mempool := Mempool + [tx];
      ghost var some := SortExists(Mempool);
      var sorted :| SortsTo(Mempool, sorted);
      Mempool := sorted;
      queued := true;
    }

    /** Count and highest fee as reported, and the total the average is taken of. */
    method GetMempoolFeeStats() returns (count: nat, highestFee: u64, totalFee: u64)
      ensures count == |Mempool| && totalFee == FeeTotal(Mempool)
      ensures highestFee == if |Mempool| == 0 then 0 else Mempool[0].fee
      ensures SortedByFee(Mempool) ==> forall tx :: tx in Mempool ==> tx.fee <= highestFee
    {
      count, highestFee, totalFee := |Mempool|, 0, 0;
      if count == 0 {
        return;
      }
      highestFee := Mempool[0].fee;
      totalFee := SumFees(Mempool);
    }

    /** One transfer of MineBlock's selection loop: charged live, unless its sender cannot pay. */
    method ChargeLive(tx: Transfer) returns (paid: bool)
      modifies this`State
      ensures paid == CanPay(old(State), tx)
      ensures State == if paid then LiveTransfer(old(State), tx) else Touch(old(State), Sender(tx))
    {
      var sender := PubkeyToAddress(tx.senderPubKey);
      if sender !in State {
        State := State[sender := Account(0, 0)];
      }
      var totalCost := Add64(tx.value, tx.fee);
      if State[sender].balance < totalCost {
        return false;
      }
      State := State[sender := State[sender].(balance := State[sender].balance - totalCost)];
      State := State[sender := State[sender].(nonce := Add64(State[sender].nonce, 1))];
      if tx.recipient !in State {
        State := State[tx.recipient := Account(tx.value, 0)];
      } else {
        var acc := State[tx.recipient];
        State := State[tx.recipient := acc.(balance := Add64(acc.balance, tx.value))];
      }
      paid := true;
    }

    /** The first locked section of MineBlock. */
    method CollectTransfers() returns (validTx: seq<Transfer>, feeTotal: u64)
      modifies this`State, this`Mempool
      ensures View() == CollectOn(w.json, old(View()))
      ensures
        var so := Collect(w.json, old(State), old(Mempool));
        validTx == so.transfers && feeTotal == so.fees
    {
      validTx, feeTotal := [], 0;
      if |Mempool| > 0 {
        validTx, feeTotal := SelectLoop();
        if |validTx| > 0 {
          Mempool := Mempool[|validTx|..];
        }
      }
    }

    /** One turn of the selection loop on a transfer that fits. */
    method TakeOrSkip(tx: Transfer, validTx: seq<Transfer>, feeTotal: u64, currentBlockBytes: nat)
      returns (validTx': seq<Transfer>, feeTotal': u64, currentBlockBytes': nat)
      modifies this`State
      ensures |validTx'| <= |validTx| + 1
      ensures Selected(State, validTx', feeTotal', currentBlockBytes')
           == Consider(w.json, Selected(old(State), validTx, feeTotal, currentBlockBytes), tx)
    {
      validTx', feeTotal', currentBlockBytes' := validTx, feeTotal, currentBlockBytes;
      var paid := ChargeLive(tx);
      if !paid {
        return;
      }
      feeTotal' := Add64(feeTotal, tx.fee);
      currentBlockBytes' := currentBlockBytes + |w.json.transfer(tx)|;
      validTx' := validTx + [tx];
    }

    method SelectLoop() returns (validTx: seq<Transfer>, feeTotal: u64)
      modifies this`State
      ensures |validTx| <= |Mempool|
      ensures
        var so := Collect(w.json, old(State), Mempool);
        State == so.state && validTx == so.transfers && feeTotal == so.fees
    {
      validTx, feeTotal := [], 0;
      var currentBlockBytes: nat := 512;
      for i := 0 to |Mempool|
        invariant |validTx| <= i
        invariant Select(w.json, Selected(State, validTx, feeTotal, currentBlockBytes), Mempool[i..])
               == Collect(w.json, old(State), Mempool)
      {
        SelectFrom(w.json, Selected(State, validTx, feeTotal, currentBlockBytes), Mempool, i);
        if currentBlockBytes + |w.json.transfer(Mempool[i])| > MAX_BLOCK_SIZE_BYTES {
          break;
        }
        validTx, feeTotal, currentBlockBytes := TakeOrSkip(Mempool[i], validTx, feeTotal, currentBlockBytes);
      }
    }

    /** The reward MineBlock gives its block. */
    method ExactReward(nextIndex: u64) returns (exactReward: u64)
      ensures exactReward == RewardDue(nextIndex, CirculatingSupply(Chain))
    {
      var currentSupply := GetTotalCirculatingSupply();
      exactReward := CalculateBlockReward(nextIndex);
      if currentSupply >= MAX_SUPPLY {
        exactReward := 0;
      } else if Add64(currentSupply, exactReward) > MAX_SUPPLY {
        exactReward := MAX_SUPPLY - currentSupply;
      }
    }

    /** The unlocked middle of MineBlock. */
    method BuildBlock(validTx: seq<Transfer>, now: i64, nonce: u64) returns (newBlock: LedgerBlock)
      requires |Chain| > 0
      modifies Engine`TargetDifficulty
      ensures newBlock == MinedOn(w, old(View()), validTx, now, nonce)
      ensures View() == old(View()).(difficulty := newBlock.difficulty)
    {
      var parent := Chain[|Chain| - 1];
      var nextIndex := Add64(parent.index, 1);
      var exactReward := ExactReward(nextIndex);
      var currentTime := now;
      if currentTime <= parent.timestamp {
        currentTime := WrapI64(parent.timestamp + 1);
      }
      var calculatedDiff := CalculateNextDifficulty(parent.timestamp, currentTime, parent.difficulty);
      Engine.TargetDifficulty := ToU32(calculatedDiff);
      newBlock := LedgerBlock(nextIndex, currentTime, parent.hash, [], validTx, MinerAddress, 0,
                              Engine.TargetDifficulty, Engine.Bits, exactReward, MAX_SUPPLY, HALVING_INTERVAL, "");
      assert newBlock == DraftOn(old(View()), validTx, now);
      var filled, found, hash := Engine.Mine(w, newBlock, nonce);
      newBlock := filled.(nonce := found, hash := hash, reward := exactReward);
    }

    method CheckBlock(newBlock: LedgerBlock) returns (verdict: Verdict)
      requires |Chain| > 0
      ensures verdict == SelfCheck(w.json, Chain, newBlock)
    {
      var currentSupply := GetTotalCirculatingSupply();
      verdict := ValidateBlockConsensus(w.json, newBlock, Some(Chain[|Chain| - 1]), currentSupply);
    }

    /** The second locked section of MineBlock. */
    method CommitBlock(newBlock: LedgerBlock, feeTotal: u64)
      requires Valid()
      modifies this`Chain, this`State, Storage
      ensures View() == CommitOn(w.json, old(View()), newBlock, feeTotal)
    {
      Chain := Chain + [newBlock];
      Storage.SaveBlock(newBlock.index, newBlock);
      var totalMinerReward := Add64(newBlock.reward, feeTotal);
      if totalMinerReward > 0 {
        if MinerAddress !in State {
          State := State[MinerAddress := Account(totalMinerReward, 0)];
        } else {
          var acc := State[MinerAddress];
          State := State[MinerAddress := acc.(balance := Add64(acc.balance, totalMinerReward))];
        }
      }
    }

    /** MineBlock, given the clock and the nonce the search delivers. Any other nonce would fail
        the self-check. */
    method MineBlock(now: i64, nonce: u64) returns (outcome: MineOutcome)
      requires Valid() && |Chain| > 0
      modifies this`Chain, this`State, this`Mempool, Engine`TargetDifficulty, Storage
      ensures (View(), outcome) == MineOn(w, old(View()), now, nonce)
    {
      if MinerAddress != "SYSTEM_GENESIS" && !HasPrefix(MinerAddress, ADDRESS_PREFIX) {
        return BadMiner;
      }
      var validTx, feeTotal := CollectTransfers();
      var newBlock := BuildBlock(validTx, now, nonce);
      assert newBlock == MinedOn(w, old(View()), validTx, now, nonce);
      var verdict := CheckBlock(newBlock);
      if verdict != Validator.Valid {
        return SelfCheckPanic(verdict);
      }
      CommitBlock(newBlock, feeTotal);
      outcome := Mined;
    }

    /** RollbackBlock's loop over the transfers of the block taken off: each goes to the front. */
    method ReturnTransfers(transfers: seq<Transfer>)
      modifies this`Mempool
      ensures Mempool == Reversed(transfers) + old(Mempool)
    {
      for i := 0 to |transfers|
        invariant Mempool == Reversed(transfers[..i]) + old(Mempool)
      {
        assert transfers[..i + 1][..i] == transfers[..i];
        Mempool := [transfers[i]] + Mempool;
      }
      assert transfers[..|transfers|] == transfers;
    }

    /** RollbackBlock's second loop: the accounts from nothing. */
    method ReplayChain()
      modifies this`State
      ensures State == Replay(Chain)
    {
      State := map[];
      for i := 0 to |Chain|
        invariant State == Replay(Chain[..i])
      {
        ReplayGrows(map[], Chain[..i], Chain[i]);
        assert Chain[..i + 1] == Chain[..i] + [Chain[i]];
        RebuildState(Chain[i]);
      }
      assert Chain[..|Chain|] == Chain;
    }

    /** Takes the last block off the chain and out of the store. */
    method DropTip() returns (tip: LedgerBlock)
      requires |Chain| > 1
      modifies this`Chain, Storage
      ensures tip == Tip(old(Chain)) && Chain == old(Chain)[..|old(Chain)| - 1]
      ensures Storage.kv == Deleted(old(Storage.kv), tip.index)
    {
      tip := Chain[|Chain| - 1];
      Chain := Chain[..|Chain| - 1];
      Storage.DeleteBlock(tip.index);
    }

    method RollbackBlock() returns (ok: bool)
      requires Valid()
      modifies this`Chain, this`State, this`Mempool, Storage
      ensures
        var result := RollbackOn(old(View()));
        ok == result.Some? && View() == if ok then result.value else old(View())
    {
      if |Chain| <= 1 {
        return false;
      }
      ReturnTransfers(Chain[|Chain| - 1].transfers);
      var tip := DropTip();
      ReplayChain();
      ok := true;
    }

    method AppendBlockDirectly(block: LedgerBlock) returns (ok: bool)
      requires Valid()
      modifies this`Chain, this`State, Storage
      ensures
        var result := AppendOn(w.json, old(View()), block);
        ok == result.Some? && View() == if ok then result.value else old(View())
    {
      var parent := if |Chain| == 0 then None else Some(Chain[|Chain| - 1]);
      if parent.Some? && block.prevHash != parent.value.hash {
        return false;
      }
      var currentSupply := GetTotalCirculatingSupply();
      var verdict := ValidateBlockConsensus(w.json, block, parent, currentSupply);
      if verdict != Validator.Valid {
        return false;
      }
      Chain := Chain + [block];
      Storage.SaveBlock(block.index, block);
      RebuildState(block);
      ok := true;
    }
  }

  method InitializeLedger(w: World, db: Database, initialDifficulty: u32, minerAddr: string, nonce: u64)
    returns (lc: LedgerCore, up: bool)
    requires db.json == w.json
    modifies db
    ensures fresh(lc) && lc.Storage == db && lc.w == w
    ensures
      var result := Initialized(w, old(db.kv), initialDifficulty, minerAddr, nonce);
      up == result.Some? && (up ==> lc.View() == result.value)
  {
    lc := new LedgerCore(w, db, initialDifficulty, minerAddr);
    up := lc.LoadOrSpawn(nonce);
  }
}
