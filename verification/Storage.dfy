/** storage/db.go: blocks by height and the last index in a string-keyed store. Storage errors
    are not modelled. */
module Storage {
  import opened MachineInts
  import opened Digits
  import opened Blocks

  type Store = map<string, string>

  const LAST_INDEX: string := "last_index"

  function BlockKey(index: u64): string {
    "block_" + FormatDecimal(index)
  }

  // ---- The single writes and their order ----

  /** The first of SaveBlock's two writes. */
  function PutBlock(kv: Store, json: Json, index: u64, b: LedgerBlock): Store {
    kv[BlockKey(index) := json.block(b)]
  }

  /** The second: the pointer to the last index. */
  function PutLast(kv: Store, index: u64): Store {
    kv[LAST_INDEX := FormatDecimal(index)]
  }

  function Saved(kv: Store, json: Json, index: u64, b: LedgerBlock): Store {
    PutLast(PutBlock(kv, json, index, b), index)
  }

  /** The first of DeleteBlock's two writes. */
  function RemoveBlock(kv: Store, index: u64): Store {
    kv - {BlockKey(index)}
  }

  function Deleted(kv: Store, index: u64): Store {
    if index > 0 then PutLast(RemoveBlock(kv, index), index - 1) else RemoveBlock(kv, index) - {LAST_INDEX}
  }

  function LastIndex(kv: Store): Option<u64> {
    if LAST_INDEX in kv then ParseUint(kv[LAST_INDEX]) else None
  }

  function BlockAt(kv: Store, index: u64): Option<string> {
    if BlockKey(index) in kv then Some(kv[BlockKey(index)]) else None
  }

  class Database {
    const json: Json
    var kv: Store

    constructor (json: Json)
      ensures this.json == json && kv == map[]
    {
      this.json := json;
      kv := map[];
    }

    method SaveBlock(index: u64, b: LedgerBlock)
      modifies this
      ensures kv == Saved(old(kv), json, index, b)
    {
      var data := json.block(b);
      kv := kv["block_" + FormatDecimal(index) := data];
      kv := kv["last_index" := FormatDecimal(index)];
    }

    method GetLastIndex() returns (index: Option<u64>)
      ensures index == LastIndex(kv)
    {
      if "last_index" !in kv {
        return None;
      }
      index := ParseUint(kv["last_index"]);
    }

    method GetBlock(index: u64) returns (data: Option<string>)
      ensures data == BlockAt(kv, index)
    {
      var key := "block_" + FormatDecimal(index);
      data := if key in kv then Some(kv[key]) else None;
    }

    method DeleteBlock(index: u64)
      modifies this
      ensures kv == Deleted(old(kv), index)
    {
      kv := kv - {"block_" + FormatDecimal(index)};
      if index > 0 {
        kv := kv["last_index" := FormatDecimal(index - 1)];
      } else {
        kv := kv - {"last_index"};
      }
    }

    /** Collects every key into one batch and deletes the batch. */
    method ClearAll()
      modifies this
      ensures kv == map[]
    {
      var pending, batch := kv.Keys, {};
      while pending != {}
        invariant pending + batch == kv.Keys && kv == old(kv)
        decreases pending
      {
        var key :| key in pending;
        batch := batch + {key};
        pending := pending - {key};
      }
      kv := kv - batch;
    }
  }

  // ---- Keys ----

  lemma BlockKeysDistinct(i: u64, j: u64)
    ensures BlockKey(i) == BlockKey(j) <==> i == j
    ensures BlockKey(i) != LAST_INDEX && BlockKey(j) != LAST_INDEX
  {
    assert BlockKey(i)[0] == 'b' && BlockKey(j)[0] == 'b' && LAST_INDEX[0] == 'l';
    assert BlockKey(i)[6..] == FormatDecimal(i) && BlockKey(j)[6..] == FormatDecimal(j);
    if BlockKey(i) == BlockKey(j) {
      FormatInjective(i, j);
    }
  }

  /** A height's key is the text block_ and its numeral. */
  lemma KeyReadsBack(index: u64)
    ensures BlockKey(index)[..6] == "block_" && ParseUint(BlockKey(index)[6..]) == Some(index)
  {
    ParseUndoesFormat(index);
    assert BlockKey(index)[6..] == FormatDecimal(index);
  }

  lemma PutReads(kv: Store, json: Json, index: u64, b: LedgerBlock, i: u64)
    ensures BlockAt(PutBlock(kv, json, index, b), i) == if i == index then Some(json.block(b)) else BlockAt(kv, i)
    ensures LastIndex(PutBlock(kv, json, index, b)) == LastIndex(kv)
    ensures BlockAt(PutLast(kv, index), i) == BlockAt(kv, i)
    ensures LastIndex(PutLast(kv, index)) == Some(index)
  {
    BlockKeysDistinct(i, index);
    ParseUndoesFormat(index);
  }

  lemma RemoveReads(kv: Store, index: u64, i: u64)
    ensures BlockAt(RemoveBlock(kv, index), i) == if i == index then None else BlockAt(kv, i)
    ensures LastIndex(RemoveBlock(kv, index)) == LastIndex(kv)
  {
    BlockKeysDistinct(i, index);
  }

  // ---- The store as a sequence of blocks ----

  /** What LoadFromDisk reads: blocks upward from a height until the last index or a gap. Entries
      that do not parse are passed over. */
  function ReadFrom(json: Json, kv: Store, i: nat, last: u64): seq<LedgerBlock>
    decreases last + 1 - i
  {
    if i > last then []
    else
      match BlockAt(kv, i)
      case None => []
      case Some(data) =>
        match json.parseBlock(data)
        case None => ReadFrom(json, kv, i + 1, last)
        case Some(b) => [b] + ReadFrom(json, kv, i + 1, last)
  }

  /** One turn of the loading loop, when `all` is what it reads and `read` what it has read. */
  lemma ReadAhead(json: Json, kv: Store, i: nat, last: u64, all: seq<LedgerBlock>, read: seq<LedgerBlock>)
    requires all == read + ReadFrom(json, kv, i, last)
    ensures
      if i > last || BlockAt(kv, i).None? then all == read
      else
        match json.parseBlock(BlockAt(kv, i).value)
        case None => all == read + ReadFrom(json, kv, i + 1, last)
        case Some(b) => all == (read + [b]) + ReadFrom(json, kv, i + 1, last)
  {
  }

  /** The blocks read are those that parse at heights up to the last index with no gap below them. */
  lemma {:induction false} ReadIff(json: Json, kv: Store, i: nat, last: u64, b: LedgerBlock)
    ensures
      b in ReadFrom(json, kv, i, last) <==>
      exists j: u64 :: i <= j <= last && NoGap(kv, i, j) && json.parseBlock(BlockAt(kv, j).value) == Some(b)
    decreases last + 1 - i
  {
    if i <= last && BlockAt(kv, i).Some? {
      ReadIff(json, kv, i + 1, last, b);
      forall j: u64 | i < j <= last ensures NoGap(kv, i, j) <==> NoGap(kv, i + 1, j) {
      }
      assert NoGap(kv, i, i);
    }
  }

  predicate NoGap(kv: Store, i: nat, j: u64) {
    forall h: u64 :: i <= h <= j ==> BlockAt(kv, h).Some?
  }

  function ReadChain(json: Json, kv: Store): seq<LedgerBlock> {
    match LastIndex(kv)
    case None => []
    case Some(last) => ReadFrom(json, kv, 0, last)
  }

  ghost predicate Gap(kv: Store, from: nat, last: u64) {
    forall i: u64 :: from <= i <= last ==> BlockAt(kv, i).None?
  }

  /** The store holds the chain: its blocks at their heights, and the last index either right or
      at the end of a gap, as interrupted deletes can leave it. */
  ghost predicate Durable(json: Json, kv: Store, chain: seq<LedgerBlock>) {
    && |chain| < TWO_64
    && (forall i :: 0 <= i < |chain| ==> BlockAt(kv, i) == Some(json.block(chain[i])))
    && match LastIndex(kv)
       case None => |chain| == 0
       case Some(last) => last + 1 == |chain| || (last >= |chain| && Gap(kv, |chain|, last))
  }

  ghost predicate AllRoundTrip(json: Json, chain: seq<LedgerBlock>) {
    forall i :: 0 <= i < |chain| ==> RoundTrips(json, chain[i])
  }

  lemma {:induction false} ReadFromDurable(json: Json, kv: Store, chain: seq<LedgerBlock>, i: nat, last: u64)
    requires Durable(json, kv, chain) && AllRoundTrip(json, chain)
    requires LastIndex(kv) == Some(last) && i <= |chain|
    ensures ReadFrom(json, kv, i, last) == chain[i..]
    decreases |chain| - i
  {
    if i < |chain| {
      ReadFromDurable(json, kv, chain, i + 1, last);
      assert RoundTrips(json, chain[i]);
      assert BlockAt(kv, i) == Some(json.block(chain[i]));
      assert chain[i..] == [chain[i]] + chain[i + 1..];
    }
  }

  /** Reading back returns exactly the chain the store holds. */
  lemma ReadBack(json: Json, kv: Store, chain: seq<LedgerBlock>)
    requires Durable(json, kv, chain) && AllRoundTrip(json, chain)
    ensures ReadChain(json, kv) == chain
  {
    if LastIndex(kv).Some? {
      ReadFromDurable(json, kv, chain, 0, LastIndex(kv).value);
      assert chain[0..] == chain;
    }
  }

  lemma SavedBlocks(json: Json, kv: Store, chain: seq<LedgerBlock>, b: LedgerBlock)
    requires Durable(json, kv, chain) && |chain| < TWO_64 - 1
    ensures
      var half, all := PutBlock(kv, json, |chain|, b), chain + [b];
      && LastIndex(half) == LastIndex(kv)
      && LastIndex(PutLast(half, |chain|)) == Some(|chain|)
      && (forall i: nat :: i <= |chain| ==>
            BlockAt(half, i) == BlockAt(PutLast(half, |chain|), i) == Some(json.block(all[i])))
      && (forall i: u64 :: i > |chain| ==> BlockAt(half, i) == BlockAt(kv, i))
  {
    var n := |chain|;
    var half, all := PutBlock(kv, json, n, b), chain + [b];
    forall i: nat | i <= n
      ensures BlockAt(half, i) == BlockAt(PutLast(half, n), i) == Some(json.block(all[i]))
    {
      PutReads(kv, json, n, b, i);
      PutReads(half, json, n, b, i);
      assert i < n ==> BlockAt(kv, i) == Some(json.block(chain[i]));
    }
    forall i: u64 | i > n ensures BlockAt(half, i) == BlockAt(kv, i) {
      PutReads(kv, json, n, b, i);
    }
    PutReads(kv, json, n, b, 0);
    PutReads(half, json, n, b, 0);
  }

  /** Saving the next block: both writes done, the store holds the longer chain; only the first
      done, it holds the old chain or already the longer one. */
  lemma SaveIsAtomic(json: Json, kv: Store, chain: seq<LedgerBlock>, b: LedgerBlock)
    requires Durable(json, kv, chain) && |chain| < TWO_64 - 1
    ensures Durable(json, Saved(kv, json, |chain|, b), chain + [b])
    ensures
      var half := PutBlock(kv, json, |chain|, b);
      Durable(json, half, chain) || Durable(json, half, chain + [b])
  {
    SavedBlocks(json, kv, chain, b);
    var n := |chain|;
    var half := PutBlock(kv, json, n, b);
    if LastIndex(kv).None? || LastIndex(kv).value + 1 == n {
      forall i | 0 <= i < n ensures BlockAt(half, i) == Some(json.block(chain[i])) {
        assert (chain + [b])[i] == chain[i];
      }
      assert Durable(json, half, chain);
    } else {
      assert Durable(json, half, chain + [b]);
    }
  }

  /** Deleting the last block: from its first write on, the store holds the shorter chain. */
  lemma DeleteIsAtomic(json: Json, kv: Store, chain: seq<LedgerBlock>)
    requires Durable(json, kv, chain) && |chain| >= 2
    ensures
      var n := |chain| - 1;
      Durable(json, RemoveBlock(kv, n), chain[..n]) && Durable(json, Deleted(kv, n), chain[..n])
  {
    var n := |chain| - 1;
    var half := RemoveBlock(kv, n);
    forall i: u64 ensures BlockAt(half, i) == if i == n then None else BlockAt(kv, i) {
      RemoveReads(kv, n, i);
    }
    RemoveReads(kv, n, 0);
    var full := PutLast(half, n - 1);
    forall i: u64 ensures BlockAt(full, i) == BlockAt(half, i) && LastIndex(full) == Some(n - 1) {
      PutReads(half, json, n - 1, chain[n], i);
    }
  }

  // ---- Stores with nothing but the chain in them ----

  ghost predicate IsKeyBelow(k: string, n: nat) {
    exists i: u64 :: i < n && k == BlockKey(i)
  }

  ghost predicate OnlyKeysBelow(kv: Store, n: nat) {
    forall k :: k in kv && k != LAST_INDEX ==> IsKeyBelow(k, n)
  }

  /** Exactly block_0 to block_{n-1} and the last index n-1. */
  ghost predicate HoldsExactly(json: Json, kv: Store, chain: seq<LedgerBlock>) {
    && Durable(json, kv, chain)
    && |chain| > 0
    && LAST_INDEX in kv && kv[LAST_INDEX] == FormatDecimal(|chain| - 1)
    && OnlyKeysBelow(kv, |chain|)
  }

  lemma SaveKeys(json: Json, kv: Store, n: u64, b: LedgerBlock)
    requires OnlyKeysBelow(kv, n)
    ensures OnlyKeysBelow(Saved(kv, json, n, b), n + 1)
  {
    forall k | k in Saved(kv, json, n, b) && k != LAST_INDEX ensures IsKeyBelow(k, n + 1) {
      if k == BlockKey(n) {
        assert IsKeyBelow(k, n + 1);
      } else {
        assert IsKeyBelow(k, n);
      }
    }
  }

  lemma SaveExactly(json: Json, kv: Store, chain: seq<LedgerBlock>, b: LedgerBlock)
    requires |chain| < TWO_64 - 1
    requires HoldsExactly(json, kv, chain) || (chain == [] && kv == map[])
    ensures HoldsExactly(json, Saved(kv, json, |chain|, b), chain + [b])
  {
    SaveIsAtomic(json, kv, chain, b);
    SaveKeys(json, kv, |chain|, b);
  }

  /** No block is stored past the end of the chain. */
  lemma NothingBeyond(json: Json, kv: Store, chain: seq<LedgerBlock>)
    requires HoldsExactly(json, kv, chain)
    ensures BlockKey(|chain|) !in kv
  {
    var n: u64 := |chain|;
    BlockKeysDistinct(n, n);
    if BlockKey(n) in kv {
      assert IsKeyBelow(BlockKey(n), n);
      var i: u64 :| i < n && BlockKey(n) == BlockKey(i);
      BlockKeysDistinct(n, i);
    }
  }

  /** Delete undoes save. */
  lemma DeleteUndoesSave(json: Json, kv: Store, chain: seq<LedgerBlock>, b: LedgerBlock)
    requires HoldsExactly(json, kv, chain)
    ensures Deleted(Saved(kv, json, |chain|, b), |chain|) == kv
  {
    NothingBeyond(json, kv, chain);
    BlockKeysDistinct(|chain|, |chain|);
  }

  /** Save undoes delete. */
  lemma SaveUndoesDelete(json: Json, kv: Store, chain: seq<LedgerBlock>)
    requires HoldsExactly(json, kv, chain) && |chain| >= 2
    ensures Saved(Deleted(kv, |chain| - 1), json, |chain| - 1, chain[|chain| - 1]) == kv
  {
    var n := |chain| - 1;
    BlockKeysDistinct(n, n);
    assert BlockAt(kv, n) == Some(json.block(chain[n]));
  }

  lemma DeleteKeys(kv: Store, n: u64)
    requires OnlyKeysBelow(kv, n + 1) && n > 0
    ensures OnlyKeysBelow(Deleted(kv, n), n)
  {
    forall k | k in Deleted(kv, n) && k != LAST_INDEX ensures IsKeyBelow(k, n) {
      assert k in kv && k != BlockKey(n);
      assert IsKeyBelow(k, n + 1);
    }
  }

  lemma DeleteExactly(json: Json, kv: Store, chain: seq<LedgerBlock>)
    requires HoldsExactly(json, kv, chain) && |chain| >= 2
    ensures HoldsExactly(json, Deleted(kv, |chain| - 1), chain[..|chain| - 1])
  {
    DeleteIsAtomic(json, kv, chain);
    DeleteKeys(kv, |chain| - 1);
  }
}
