/** Which fields of a block its hash commits to. */
module Commitments {
  import opened MachineInts
  import opened Digits
  import opened Transfers
  import opened Consensus
  import opened Blocks
  import opened Validator

  // ---- Joining without a separator ----

  lemma {:induction false} JoinLength(p: seq<Bytes>, q: seq<Bytes>)
    requires |p| == |q| && forall i :: 0 <= i < |p| ==> |p[i]| == |q[i]|
    ensures |Join(p)| == |Join(q)|
  {
    if |p| > 0 {
      JoinLength(p[..|p| - 1], q[..|q| - 1]);
    }
  }

  lemma SameEnds(a: Bytes, x: Bytes, b: Bytes, y: Bytes)
    requires a + x == b + y && (|a| == |b| || |x| == |y|)
    ensures a == b && x == y
  {
    assert |a| == |b| && |x| == |y|;
    assert a == (a + x)[..|a|] && x == (a + x)[|a|..];
    assert b == (b + y)[..|b|] && y == (b + y)[|b|..];
  }

  /** Pieces of the same lengths are told apart by their join. */
  lemma {:induction false} JoinSameLengths(p: seq<Bytes>, q: seq<Bytes>)
    requires |p| == |q| && forall i :: 0 <= i < |p| ==> |p[i]| == |q[i]|
    requires Join(p) == Join(q)
    ensures p == q
  {
    if |p| > 0 {
      var m := |p| - 1;
      JoinLength(p[..m], q[..m]);
      SameEnds(Join(p[..m]), p[m], Join(q[..m]), q[m]);
      JoinSameLengths(p[..m], q[..m]);
      assert p == p[..m] + [p[m]] && q == q[..m] + [q[m]];
    }
  }

  /** So are pieces that differ in at most one place. */
  lemma {:induction false} JoinOneApart(p: seq<Bytes>, q: seq<Bytes>, k: nat)
    requires |p| == |q| && k < |p| && forall i :: 0 <= i < |p| && i != k ==> p[i] == q[i]
    requires Join(p) == Join(q)
    ensures p == q
  {
    var m := |p| - 1;
    if k == m {
      assert p[..m] == q[..m];
      SameEnds(Join(p[..m]), p[m], Join(q[..m]), q[m]);
    } else {
      SameEnds(Join(p[..m]), p[m], Join(q[..m]), q[m]);
      JoinOneApart(p[..m], q[..m], k);
    }
    assert p == p[..m] + [p[m]] && q == q[..m] + [q[m]];
  }

  // ---- Printed numbers ----

  lemma DigitsDiffer(d: nat, e: nat)
    requires d < 16 && e < 16 && DigitChar(d) == DigitChar(e)
    ensures d == e
  {
  }

  lemma {:induction false} HexOfNat(n: nat)
    ensures |FormatHex(n)| > 0 && '-' !in FormatHex(n) && IsByteString(FormatHex(n))
    decreases n
  {
    if n >= 16 {
      HexOfNat(n / 16);
    }
  }

  lemma HexIsByteString(n: int)
    ensures IsByteString(FormatHex(n))
  {
    HexOfNat(if n < 0 then -n else n);
  }

  lemma HexEndsIn(n: nat)
    ensures
      var s := FormatHex(n);
      && |s| > 0 && s[|s| - 1] == DigitChar(n % 16)
      && s[..|s| - 1] == if n < 16 then "" else FormatHex(n / 16)
  {
  }

  lemma {:induction false} HexNatInjective(m: nat, n: nat)
    requires FormatHex(m) == FormatHex(n)
    ensures m == n
    decreases m
  {
    HexEndsIn(m);
    HexEndsIn(n);
    HexOfNat(m / 16);
    HexOfNat(n / 16);
    DigitsDiffer(m % 16, n % 16);
    if m >= 16 {
      HexNatInjective(m / 16, n / 16);
    }
  }

  lemma HexInjective(m: int, n: int)
    requires FormatHex(m) == FormatHex(n)
    ensures m == n
  {
    HexOfNat(if m < 0 then -m else m);
    HexOfNat(if n < 0 then -n else n);
    if m >= 0 && n >= 0 {
      HexNatInjective(m, n);
    } else {
      assert (m < 0 <==> FormatHex(m)[0] == '-') && (n < 0 <==> FormatHex(n)[0] == '-');
      assert FormatHex(-m) == FormatHex(m)[1..] && FormatHex(-n) == FormatHex(n)[1..];
      HexNatInjective(-m, -n);
    }
  }

  lemma HexBytesIff(m: int, n: int)
    ensures HexBytes(m) == HexBytes(n) <==> m == n
  {
    if HexBytes(m) == HexBytes(n) {
      HexIsByteString(m);
      HexIsByteString(n);
      ToBytesInjective(FormatHex(m), FormatHex(n));
      HexInjective(m, n);
    }
  }

  // ---- What the hash commits to ----

  /** The blocks agree, at these nonces, in everything that is hashed. Miner, bits and stored hash are
      not, nor is anything of the transfers but their signatures run together. */
  predicate SameHashed(b: LedgerBlock, n: u64, c: LedgerBlock, m: u64) {
    && b.prevHash == c.prevHash
    && Signatures(b.transfers) == Signatures(c.transfers)
    && b.index == c.index
    && b.timestamp == c.timestamp
    && b.reward == c.reward
    && OrMaxSupply(b.maxSupply) == OrMaxSupply(c.maxSupply)
    && OrHalvingInterval(b.halvingInterval) == OrHalvingInterval(c.halvingInterval)
    && b.difficulty == c.difficulty
    && n == m
    && b.message == c.message
  }

  lemma PartsAgreeIff(b: LedgerBlock, n: u64, c: LedgerBlock, m: u64)
    requires IsByteString(b.message) && IsByteString(c.message)
    ensures Parts(b, n) == Parts(c, m) <==> SameHashed(b, n, c, m)
  {
    var p, q := Parts(b, n), Parts(c, m);
    HexBytesIff(b.index, c.index);
    HexBytesIff(b.timestamp, c.timestamp);
    HexBytesIff(b.reward, c.reward);
    HexBytesIff(OrMaxSupply(b.maxSupply), OrMaxSupply(c.maxSupply));
    HexBytesIff(OrHalvingInterval(b.halvingInterval), OrHalvingInterval(c.halvingInterval));
    HexBytesIff(b.difficulty, c.difficulty);
    HexBytesIff(n, m);
    if p == q {
      assert p[0] == q[0] && p[1] == q[1] && p[2] == q[2] && p[3] == q[3] && p[4] == q[4];
      assert p[5] == q[5] && p[6] == q[6] && p[7] == q[7] && p[8] == q[8] && p[9] == q[9];
      ToBytesInjective(b.message, c.message);
    }
  }

  /** No piece is longer or shorter in one block than in the other, or at most piece k differs. */
  predicate Comparable(p: seq<Bytes>, q: seq<Bytes>, k: nat)
    requires |p| == |q|
  {
    || (forall i :: 0 <= i < |p| ==> |p[i]| == |q[i]|)
    || (k < |p| && forall i :: 0 <= i < |p| && i != k ==> p[i] == q[i])
  }

  /** Of blocks whose printed fields have the same lengths, or that differ in one field only, the bytes
      that are hashed are equal exactly when everything hashed agrees. */
  lemma HashCommits(b: LedgerBlock, n: u64, c: LedgerBlock, m: u64, k: nat)
    requires IsByteString(b.message) && IsByteString(c.message)
    requires Comparable(Parts(b, n), Parts(c, m), k)
    ensures BlockData(b, n) == BlockData(c, m) <==> SameHashed(b, n, c, m)
  {
    PartsAgreeIff(b, n, c, m);
    var p, q := Parts(b, n), Parts(c, m);
    if Join(p) == Join(q) {
      if forall i :: 0 <= i < |p| ==> |p[i]| == |q[i]| {
        JoinSameLengths(p, q);
      } else {
        JoinOneApart(p, q, k);
      }
    }
  }

  lemma {:induction false} JoinSplits(p: seq<Bytes>, q: seq<Bytes>)
    ensures Join(p + q) == Join(p) + Join(q)
  {
    if |q| == 0 {
      assert p + q == p;
    } else {
      var m := |q| - 1;
      assert (p + q)[..|p| + m] == p + q[..m];
      JoinSplits(p, q[..m]);
    }
  }

  lemma JoinOne(x: Bytes)
    ensures Join([x]) == x
  {
    assert Join([x][..0]) == [];
  }

  lemma JoinTwo(p: seq<Bytes>)
    requires |p| == 2
    ensures Join(p) == p[0] + p[1]
  {
    assert p[..1] == [p[0]];
    JoinOne(p[0]);
  }

  lemma CutAround<T>(p: seq<T>, k: nat)
    requires k + 2 <= |p|
    ensures p == p[..k] + ([p[k], p[k + 1]] + p[k + 2..])
  {
  }

  lemma JoinAround(p: seq<Bytes>, k: nat)
    requires k + 2 <= |p|
    ensures Join(p) == Join(p[..k]) + ((p[k] + p[k + 1]) + Join(p[k + 2..]))
  {
    var middle := [p[k], p[k + 1]];
    CutAround(p, k);
    JoinSplits(p[..k], middle + p[k + 2..]);
    JoinSplits(middle, p[k + 2..]);
    JoinTwo(middle);
  }

  /** Two neighbouring pieces may share their bytes out differently. */
  lemma JoinForgetsBorder(p: seq<Bytes>, q: seq<Bytes>, k: nat)
    requires k + 2 <= |p| == |q| && p[..k] == q[..k] && p[k + 2..] == q[k + 2..]
    requires p[k] + p[k + 1] == q[k] + q[k + 1]
    ensures Join(p) == Join(q)
  {
    JoinAround(p, k);
    JoinAround(q, k);
  }

  lemma IndexRunsIntoTimestamp()
    ensures HexBytes(0x1) + HexBytes(0x23) == HexBytes(0x12) + HexBytes(0x3)
  {
    assert FormatHex(0x23) == "23" && FormatHex(0x12) == "12" && FormatHex(1) == "1" && FormatHex(3) == "3";
    assert ToBytes("23") == [0x32, 0x33] && ToBytes("12") == [0x31, 0x32];
    assert ToBytes("1") == [0x31] && ToBytes("3") == [0x33];
  }

  /** Without that it does not: the pieces are joined without a separator, so the index may give a digit
      to the timestamp. */
  lemma FieldsRunTogether(b: LedgerBlock, nonce: u64)
    ensures
      BlockData(b.(index := 0x1, timestamp := 0x23), nonce) == BlockData(b.(index := 0x12, timestamp := 0x3), nonce)
  {
    IndexRunsIntoTimestamp();
    JoinForgetsBorder(Parts(b.(index := 0x1, timestamp := 0x23), nonce), Parts(b.(index := 0x12, timestamp := 0x3), nonce), 2);
  }

  /** What is not hashed is not committed to. */
  lemma HashIgnores(w: World, b: LedgerBlock, c: LedgerBlock, nonce: u64)
    requires SameHashed(b, nonce, c, nonce)
    ensures HashAt(w, b, nonce) == HashAt(w, c, nonce)
  {
    assert Parts(b, nonce) == Parts(c, nonce);
  }

  /** The miner is not: an accepted block with its own hash keeps it under another miner, and is
      accepted again exactly when that miner has the prefix and the block still fits. */
  lemma MinerNotCommitted(w: World, b: LedgerBlock, parent: LedgerBlock, supply: u64, miner: string)
    requires HashesTo(w, b) && Accepts(w.json, b, parent, supply) && b.index > 0
    ensures
      var other := b.(miner := miner);
      && HashesTo(w, other)
      && (Accepts(w.json, other, parent, supply) <==>
            && (miner == SYSTEM_GENESIS || HasPrefix(miner, ADDRESS_PREFIX))
            && |w.json.block(other)| <= MAX_BLOCK_SIZE_BYTES)
  {
    HashIgnores(w, b, b.(miner := miner), b.nonce);
    VerdictOnOtherMiner(w.json, b, parent, supply, miner);
  }

  // ---- Reading the hashed bytes back ----

  /** The value of one lower-case hex digit. */
  function Nibble(c: u8): nat {
    if 0x30 <= c <= 0x39 then c - 0x30 else if 0x61 <= c <= 0x66 then c - 0x57 else 0
  }

  function HexNat(text: Bytes): nat {
    if |text| == 0 then 0 else 16 * HexNat(text[..|text| - 1]) + Nibble(text[|text| - 1])
  }

  /** The number a piece of hex text stands for. */
  function HexValue(text: Bytes): int {
    if |text| > 0 && text[0] == 0x2d then -(HexNat(text[1..]) as int) else HexNat(text)
  }

  lemma NibbleReads(d: nat)
    requires d < 16
    ensures Nibble(DigitChar(d) as int % 0x100) == d && DigitChar(d) as int % 0x100 != 0x2d
  {
  }

  lemma {:induction false} HexNatReads(n: nat)
    ensures HexNat(HexBytes(n)) == n && |HexBytes(n)| > 0 && HexBytes(n)[0] != 0x2d
    decreases n
  {
    NibbleReads(n % 16);
    HexEndsIn(n);
    var s := FormatHex(n);
    assert HexBytes(n)[..|s| - 1] == ToBytes(s[..|s| - 1]);
    if n >= 16 {
      HexNatReads(n / 16);
    }
  }

  lemma {:induction false} ToBytesOfSum(s: string, t: string)
    ensures ToBytes(s + t) == ToBytes(s) + ToBytes(t)
  {
    if |t| == 0 {
      assert s + t == s;
    } else {
      assert (s + t)[..|s + t| - 1] == s + t[..|t| - 1];
      ToBytesOfSum(s, t[..|t| - 1]);
    }
  }

  lemma MinusFirst(n: nat)
    requires n > 0
    ensures HexBytes(-(n as int)) == [0x2d] + HexBytes(n)
  {
    ToBytesOfSum("-", FormatHex(n));
    assert "-"[..0] == "";
  }

  lemma HexReads(n: int)
    ensures HexValue(HexBytes(n)) == n
  {
    if n >= 0 {
      HexNatReads(n);
    } else {
      HexNatReads(-n);
      MinusFirst(-n);
    }
  }

  /** Cuts bytes into pieces of the given sizes, from the end. */
  function Pieces(data: Bytes, sizes: seq<nat>): seq<Bytes>
    decreases |sizes|
  {
    if |sizes| == 0 then []
    else
      var size := sizes[|sizes| - 1];
      if size > |data| then []
      else Pieces(data[..|data| - size], sizes[..|sizes| - 1]) + [data[|data| - size..]]
  }

  lemma {:induction false} PiecesUndoJoin(p: seq<Bytes>, sizes: seq<nat>)
    requires |sizes| == |p| && forall i :: 0 <= i < |p| ==> sizes[i] == |p[i]|
    ensures Pieces(Join(p), sizes) == p
  {
    if |p| > 0 {
      var m := |p| - 1;
      assert Join(p)[..|Join(p)| - sizes[m]] == Join(p[..m]) && Join(p)[|Join(p)| - sizes[m]..] == p[m];
      PiecesUndoJoin(p[..m], sizes[..m]);
    }
  }

  function Width(n: int): nat {
    |FormatHex(n)|
  }

  /** The sizes of the hashed fields, in the order they are hashed. */
  function Sizes(b: LedgerBlock, nonce: u64): seq<nat> {
    [ |b.prevHash|, |Signatures(b.transfers)|, Width(b.index), Width(b.timestamp), Width(b.reward),
      Width(OrMaxSupply(b.maxSupply)), Width(OrHalvingInterval(b.halvingInterval)), Width(b.difficulty),
      Width(nonce), |b.message|]
  }

  lemma PiecesOfData(b: LedgerBlock, nonce: u64)
    ensures Pieces(BlockData(b, nonce), Sizes(b, nonce)) == Parts(b, nonce)
  {
    PiecesUndoJoin(Parts(b, nonce), Sizes(b, nonce));
  }

  /** The pieces are the fields of a block in the order they are hashed, zero for the supply and the
      halving interval standing for the constants. */
  predicate ReadAs(f: seq<Bytes>, b: LedgerBlock, nonce: u64) {
    && |f| == 10
    && f[0] == b.prevHash && f[1] == Signatures(b.transfers)
    && HexValue(f[2]) == b.index && HexValue(f[3]) == b.timestamp && HexValue(f[4]) == b.reward
    && HexValue(f[5]) == (if b.maxSupply == 0 then 78_500_000_000_000_000 else b.maxSupply)
    && HexValue(f[6]) == (if b.halvingInterval == 0 then 7_850_000 else b.halvingInterval)
    && HexValue(f[7]) == b.difficulty && HexValue(f[8]) == nonce && f[9] == ToBytes(b.message)
  }

  lemma TextReads(text: Bytes, n: int)
    requires text == HexBytes(n)
    ensures HexValue(text) == n
  {
    HexReads(n);
  }

  lemma PartsRead(b: LedgerBlock, nonce: u64)
    ensures ReadAs(Parts(b, nonce), b, nonce)
  {
    var p := Parts(b, nonce);
    TextReads(p[2], b.index);
    TextReads(p[3], b.timestamp);
    TextReads(p[4], b.reward);
    TextReads(p[5], OrMaxSupply(b.maxSupply));
    TextReads(p[6], OrHalvingInterval(b.halvingInterval));
    TextReads(p[7], b.difficulty);
    TextReads(p[8], nonce);
  }

  /** Who knows the sizes of the fields reads every field off the hashed bytes. */
  lemma DataReadsBack(b: LedgerBlock, nonce: u64)
    ensures ReadAs(Pieces(BlockData(b, nonce), Sizes(b, nonce)), b, nonce)
  {
    PiecesOfData(b, nonce);
    PartsRead(b, nonce);
  }

  // ---- Signatures ----

  lemma {:induction false} SignaturesSplit(xs: seq<Transfer>, ys: seq<Transfer>)
    ensures Signatures(xs + ys) == Signatures(xs) + Signatures(ys)
  {
    if |ys| == 0 {
      assert xs + ys == xs;
    } else {
      var m := |ys| - 1;
      assert (xs + ys)[..|xs| + m] == xs + ys[..m];
      SignaturesSplit(xs, ys[..m]);
    }
  }

  lemma OneSignature(tx: Transfer)
    ensures Signatures([tx]) == tx.signature
  {
    assert Signatures([tx][..0]) == [];
  }

  lemma CutOut<T>(xs: seq<T>, k: nat)
    requires k < |xs|
    ensures xs == xs[..k] + ([xs[k]] + xs[k + 1..])
  {
  }

  lemma SignaturesAround(xs: seq<Transfer>, k: nat)
    requires k < |xs|
    ensures Signatures(xs) == Signatures(xs[..k]) + (xs[k].signature + Signatures(xs[k + 1..]))
  {
    var one, rest := [xs[k]], xs[k + 1..];
    CutOut(xs, k);
    SignaturesSplit(xs[..k], one + rest);
    SignaturesSplit(one, rest);
    OneSignature(xs[k]);
  }

  lemma SignaturesIff(xs: seq<Transfer>, k: nat, tx: Transfer)
    requires k < |xs|
    ensures Signatures(xs[k := tx]) == Signatures(xs) <==> tx.signature == xs[k].signature
  {
    var ys := xs[k := tx];
    SignaturesAround(xs, k);
    SignaturesAround(ys, k);
    assert xs[..k] == ys[..k] && xs[k + 1..] == ys[k + 1..];
    var before, after := Signatures(xs[..k]), Signatures(xs[k + 1..]);
    if before + (xs[k].signature + after) == before + (tx.signature + after) {
      SameEnds(before, xs[k].signature + after, before, tx.signature + after);
      SameEnds(xs[k].signature, after, tx.signature, after);
    }
  }

  /** Changing the signature of one transfer changes the hashed bytes, wherever it stands. */
  lemma SignatureCommitted(b: LedgerBlock, k: nat, tx: Transfer, nonce: u64)
    requires k < |b.transfers| && IsByteString(b.message)
    ensures
      BlockData(b.(transfers := b.transfers[k := tx]), nonce) == BlockData(b, nonce) <==>
      tx.signature == b.transfers[k].signature
  {
    var c := b.(transfers := b.transfers[k := tx]);
    SignaturesIff(b.transfers, k, tx);
    HashCommits(c, nonce, b, nonce, 1);
  }
}
