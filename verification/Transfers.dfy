/** core/tx.go and the address derivation of crypto/crypto.go. */
module Transfers {
  import opened MachineInts
  import opened Digits
  import opened Hex

  /** Keys shorter than 14 bytes make the address derivation panic in Go. */
  type PubKey = p: Bytes | |p| >= 14 witness seq(14, i => 0)

  datatype Transfer = Transfer(
    senderPubKey: PubKey,
    recipient: string,
    value: u64,
    fee: u64,
    nonce: u64,
    signature: Bytes)

  const ADDRESS_PREFIX: string := "xcosh"

  function PubkeyToAddress(pub: PubKey): string {
    ADDRESS_PREFIX + HexEncode(pub[..14])
  }

  function Sender(tx: Transfer): string {
    PubkeyToAddress(tx.senderPubKey)
  }

  /** What a transfer costs its sender; the Go addition wraps. */
  function Cost(tx: Transfer): u64 {
    Add64(tx.value, tx.fee)
  }

  /** The transfers whose cost is the true sum of value and fee. */
  predicate CostFits(tx: Transfer) {
    tx.value + tx.fee < TWO_64
  }

  predicate AllCostsFit(txs: seq<Transfer>) {
    forall tx :: tx in txs ==> CostFits(tx)
  }

  /** The text of `fmt.Sprintf("%s-%d-%d-%d", ...)`. */
  function PayloadText(recipient: string, value: u64, fee: u64, nonce: u64): string {
    recipient + "-" + FormatDecimal(value) + "-" + FormatDecimal(fee) + "-" + FormatDecimal(nonce)
  }

  function Payload(tx: Transfer): string {
    PayloadText(tx.recipient, tx.value, tx.fee, tx.nonce)
  }

  /** The Go conversion []byte(s). */
  function ToBytes(s: string): (b: Bytes)
    ensures |b| == |s|
  {
    if |s| == 0 then [] else ToBytes(s[..|s| - 1]) + [s[|s| - 1] as int % 0x100]
  }

  predicate IsByteString(s: string) {
    forall i :: 0 <= i < |s| ==> s[i] as int < 0x100
  }

  function PayloadBytes(tx: Transfer): Bytes {
    ToBytes(Payload(tx))
  }

  /** The bytes that ComputeID hashes. */
  function IdPreimage(tx: Transfer): Bytes {
    tx.senderPubKey + PayloadBytes(tx)
  }

  // ---- Reading a payload back ----

  datatype PayloadFields = PayloadFields(recipient: string, value: u64, fee: u64, nonce: u64)

  /** Splits at the last dash. */
  function SplitLast(s: string): Option<(string, string)> {
    if |s| == 0 then None
    else if s[|s| - 1] == '-' then Some((s[..|s| - 1], ""))
    else
      match SplitLast(s[..|s| - 1])
      case None => None
      case Some((head, tail)) => Some((head, tail + [s[|s| - 1]]))
  }

  /** Takes one number off the right end. */
  function TakeNumber(s: string): Option<(string, u64)> {
    match SplitLast(s)
    case None => None
    case Some((head, tail)) =>
      match ParseUint(tail)
      case None => None
      case Some(n) => Some((head, n))
  }

  function ParsePayload(s: string): Option<PayloadFields> {
    match TakeNumber(s)
    case None => None
    case Some((s1, nonce)) =>
      match TakeNumber(s1)
      case None => None
      case Some((s2, fee)) =>
        match TakeNumber(s2)
        case None => None
        case Some((recipient, value)) => Some(PayloadFields(recipient, value, fee, nonce))
  }

  lemma {:induction false} SplitLastFinds(head: string, tail: string)
    requires '-' !in tail
    ensures SplitLast(head + "-" + tail) == Some((head, tail))
  {
    var s := head + "-" + tail;
    if tail == "" {
      assert s[..|s| - 1] == head;
    } else {
      var front := tail[..|tail| - 1];
      SplitLastFinds(head, front);
      assert s[..|s| - 1] == head + "-" + front;
      assert front + [s[|s| - 1]] == tail;
    }
  }

  lemma TakeNumberUndoes(head: string, n: u64)
    ensures TakeNumber(head + "-" + FormatDecimal(n)) == Some((head, n))
  {
    SplitLastFinds(head, FormatDecimal(n));
    ParseUndoesFormat(n);
  }

  /** Every payload reads back to the fields it was printed from, dashes in the recipient included. */
  lemma PayloadRoundTrip(recipient: string, value: u64, fee: u64, nonce: u64)
    ensures ParsePayload(PayloadText(recipient, value, fee, nonce)) == Some(PayloadFields(recipient, value, fee, nonce))
  {
    var v, f := FormatDecimal(value), FormatDecimal(fee);
    TakeNumberUndoes(recipient + "-" + v + "-" + f, nonce);
    TakeNumberUndoes(recipient + "-" + v, fee);
    TakeNumberUndoes(recipient, value);
  }

  lemma {:induction false} ToBytesInjective(s: string, t: string)
    requires IsByteString(s) && IsByteString(t)
    requires ToBytes(s) == ToBytes(t)
    ensures s == t
  {
    if |s| > 0 {
      var m := |s| - 1;
      assert ToBytes(s)[..m] == ToBytes(s[..m]) && ToBytes(t)[..m] == ToBytes(t[..m]);
      assert ToBytes(s)[m] == ToBytes(t)[m];
      ToBytesInjective(s[..m], t[..m]);
      assert s == s[..m] + [s[m]] && t == t[..m] + [t[m]];
    }
  }

  lemma {:induction false} NumeralIsByteString(n: nat)
    ensures IsByteString(FormatDecimal(n))
  {
    if n >= 10 {
      NumeralIsByteString(n / 10);
    }
  }

  lemma PayloadIsByteString(tx: Transfer)
    requires IsByteString(tx.recipient)
    ensures IsByteString(Payload(tx))
  {
    NumeralIsByteString(tx.value);
    NumeralIsByteString(tx.fee);
    NumeralIsByteString(tx.nonce);
  }

  /** What is signed determines recipient, value, fee and nonce. */
  lemma PayloadInjective(a: Transfer, b: Transfer)
    requires IsByteString(a.recipient) && IsByteString(b.recipient)
    ensures PayloadBytes(a) == PayloadBytes(b) <==>
            a.recipient == b.recipient && a.value == b.value && a.fee == b.fee && a.nonce == b.nonce
  {
    PayloadIsByteString(a);
    PayloadIsByteString(b);
    if PayloadBytes(a) == PayloadBytes(b) {
      ToBytesInjective(Payload(a), Payload(b));
      PayloadRoundTrip(a.recipient, a.value, a.fee, a.nonce);
      PayloadRoundTrip(b.recipient, b.value, b.fee, b.nonce);
    }
  }

  /** The key comes first in what ComputeID hashes, then what is signed. */
  lemma IdPreimageReads(tx: Transfer)
    ensures
      var n := |tx.senderPubKey|;
      IdPreimage(tx)[..n] == tx.senderPubKey && IdPreimage(tx)[n..] == ToBytes(Payload(tx))
  {
  }

  /** Between keys of one length, what ComputeID hashes determines everything but the signature. */
  lemma IdPreimageInjective(a: Transfer, b: Transfer)
    requires IsByteString(a.recipient) && IsByteString(b.recipient)
    requires |a.senderPubKey| == |b.senderPubKey|
    ensures IdPreimage(a) == IdPreimage(b) <==> a.(signature := b.signature) == b
  {
    PayloadInjective(a, b);
    if IdPreimage(a) == IdPreimage(b) {
      var n := |a.senderPubKey|;
      assert a.senderPubKey == IdPreimage(a)[..n] == b.senderPubKey;
      assert PayloadBytes(a) == IdPreimage(a)[n..] == PayloadBytes(b);
    }
  }

  // ---- Addresses ----

  /** The first fourteen bytes of the key, and nothing else of it, can be read off an address. */
  lemma AddressReadsBack(pub: PubKey)
    ensures |PubkeyToAddress(pub)| == 33 && "xcosh" <= PubkeyToAddress(pub)
    ensures HexDecode(PubkeyToAddress(pub)[5..]) == Some(pub[..14])
  {
    DecodeUndoesEncode(pub[..14]);
    assert PubkeyToAddress(pub)[5..] == HexEncode(pub[..14]);
  }

  /** Two keys share an account exactly when their first fourteen bytes agree. */
  lemma SameAddressIff(p: PubKey, q: PubKey)
    ensures PubkeyToAddress(p) == PubkeyToAddress(q) <==> p[..14] == q[..14]
  {
    AddressReadsBack(p);
    AddressReadsBack(q);
  }
}
