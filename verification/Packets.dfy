/** Packet counts, payload sizes and slices of a message of `size` bytes at `M` data bytes a packet. */
module Packets {
  import opened Wire

  function Min(a: int, b: int): int { if a < b then a else b }

  /** `data_size_to_num_pkts`. */
  function NumPkts(size: nat, M: nat): (n: nat)
    requires M > 0
    ensures n >= 1
  {
    if size <= M then 1 else (size + M - 1) / M
  }

  /** The payload part of `get_pkt_size`, as a signed difference. */
  function Payload(size: nat, M: nat, p: nat): int { Min(M, size - p * M) }

  lemma MulMono(a: nat, b: nat, M: nat)
    requires a <= b
    ensures a * M <= b * M
  {
  }

  /** The count covers the message, and no smaller one does. */
  lemma NumPktsLeast(size: nat, M: nat)
    requires M > 0
    ensures size <= NumPkts(size, M) * M
    ensures forall k: nat :: k >= 1 && size <= k * M ==> NumPkts(size, M) <= k
    ensures size > 0 ==> (NumPkts(size, M) - 1) * M < size
  {
    var n := NumPkts(size, M);
    if size > M {
      var q, r := (size + M - 1) / M, (size + M - 1) % M;
      assert size + M - 1 == q * M + r && 0 <= r < M;
      forall k: nat | k >= 1 && size <= k * M ensures n <= k {
        if k < n {
          MulMono(k, n - 1, M);
        }
      }
    }
  }

  /** Total payload of the first `p` packets. */
  function PayloadUpto(size: nat, M: nat, p: nat): int {
    if p == 0 then 0 else PayloadUpto(size, M, p - 1) + Payload(size, M, p - 1)
  }

  lemma {:induction false} PayloadPrefix(size: nat, M: nat, p: nat)
    requires M > 0 && p < NumPkts(size, M)
    ensures p * M <= size && PayloadUpto(size, M, p) == p * M
  {
    NumPktsLeast(size, M);
    if p > 0 {
      PayloadPrefix(size, M, p - 1);
      MulMono(p, NumPkts(size, M) - 1, M);
    }
  }

  /** No packet's payload underflows or exceeds the limit, and together they are the message. */
  lemma PayloadsSum(size: nat, M: nat, p: nat)
    requires M > 0 && p < NumPkts(size, M)
    ensures 0 <= Payload(size, M, p) <= M
    ensures PayloadUpto(size, M, NumPkts(size, M)) == size
  {
    PayloadPrefix(size, M, p);
    var n := NumPkts(size, M);
    PayloadPrefix(size, M, n - 1);
    NumPktsLeast(size, M);
  }

  /** Where the data of packet `p` starts and ends. */
  function Lo(M: nat, p: nat): nat { p * M }

  function Hi(size: nat, M: nat, p: nat): nat { Min((p + 1) * M, size) }

  predicate IsPacket(size: nat, M: nat, p: nat) { Lo(M, p) <= Hi(size, M, p) }

  /** The data of packet `p`. */
  function Slice(msg: bytes, M: nat, p: nat): bytes
    requires IsPacket(|msg|, M, p)
  {
    msg[Lo(M, p)..Hi(|msg|, M, p)]
  }

  // ---------------------------------------------------------------- copying packets to a buffer

  /** `memcpy` of `body` to `buf + at`, on the buffer as a value. */
  function Pasted(buf: bytes, at: nat, body: bytes): (b: bytes)
    requires at + |body| <= |buf|
    ensures |b| == |buf| && forall i :: 0 <= i < |b| ==> b[i] == if at <= i < at + |body| then body[i - at] else buf[i]
  {
    buf[..at] + body + buf[at + |body|..]
  }

  predicate ArePackets(order: seq<nat>, size: nat, M: nat) {
    forall k :: 0 <= k < |order| ==> IsPacket(size, M, order[k])
  }

  /** The buffer after packets of `msg` have been copied to their places in the given order. */
  function CopiedAll(buf: bytes, msg: bytes, M: nat, order: seq<nat>): (b: bytes)
    requires |msg| <= |buf| && ArePackets(order, |msg|, M)
    ensures |b| == |buf|
  {
    if order == [] then buf
    else
      var p := order[|order| - 1];
      Pasted(CopiedAll(buf, msg, M, order[..|order| - 1]), Lo(M, p), Slice(msg, M, p))
  }

  /** A byte of a packet that has been copied is right, whatever was copied before and after. */
  lemma {:induction false} ByteCopied(buf: bytes, msg: bytes, M: nat, order: seq<nat>, j: nat, i: nat)
    requires |msg| <= |buf| && ArePackets(order, |msg|, M) && j < |order|
    requires Lo(M, order[j]) <= i < Hi(|msg|, M, order[j])
    ensures CopiedAll(buf, msg, M, order)[i] == msg[i]
    decreases |order|
  {
    var n := |order| - 1;
    var before := CopiedAll(buf, msg, M, order[..n]);
    if j < n { ByteCopied(buf, msg, M, order[..n], j, i); }
    PastedByte(before, msg, Lo(M, order[n]), Hi(|msg|, M, order[n]), i);
  }

  lemma PastedByte(buf: bytes, msg: bytes, lo: nat, hi: nat, i: nat)
    requires lo <= hi <= |msg| <= |buf| && i < |msg| && (lo <= i < hi || buf[i] == msg[i])
    ensures Pasted(buf, lo, msg[lo..hi])[i] == msg[i]
  {
  }

  /** In any order and with any duplicates, once every packet has been copied the message is there. */
  lemma Reassembles(buf: bytes, msg: bytes, M: nat, order: seq<nat>)
    requires M > 0 && |msg| <= |buf| && ArePackets(order, |msg|, M)
    requires forall p :: 0 <= p < NumPkts(|msg|, M) ==> p in order
    ensures CopiedAll(buf, msg, M, order)[..|msg|] == msg
  {
    var b := CopiedAll(buf, msg, M, order);
    forall i | 0 <= i < |msg| ensures b[i] == msg[i] {
      var p := PacketOf(|msg|, M, i);
      assert p in order;
      var j :| 0 <= j < |order| && order[j] == p;
      ByteCopied(buf, msg, M, order, j, i);
    }
  }

  lemma PacketOf(size: nat, M: nat, i: nat) returns (p: nat)
    requires M > 0 && i < size
    ensures p < NumPkts(size, M) && Lo(M, p) <= i < Hi(size, M, p)
  {
    p := i / M;
    assert i == p * M + i % M;
    NumPktsLeast(size, M);
    if p >= NumPkts(size, M) { MulMono(NumPkts(size, M), p, M); }
  }

  method CopyBytes(buf: array<byte>, offset: nat, body: bytes)
    requires offset + |body| <= buf.Length
    modifies buf
    ensures buf[..] == Pasted(old(buf[..]), offset, body)
  {
    for k := 0 to |body|
      invariant buf[..] == old(buf[..offset]) + body[..k] + old(buf[offset + k..])
    {
      buf[offset + k] := body[k];
    }
    assert body[..|body|] == body;
  }

  /** `copy_data_to_msgbuf`: `pkt` is what follows the header of packet `p` of a message. */
  method CopyDataToMsgbuf(buf: array<byte>, M: nat, p: nat, pkt: bytes, msgSize: nat, ghost msg: bytes)
    requires msgSize == |msg| <= buf.Length && IsPacket(|msg|, M, p) && Slice(msg, M, p) <= pkt
    modifies buf
    ensures buf[..] == Pasted(old(buf[..]), Lo(M, p), Slice(msg, M, p))
  {
    var offset := p * M;
    assert (p + 1) * M == offset + M;
    var toCopy := Min(M, msgSize - offset);
    assert pkt[..toCopy] == Slice(msg, M, p);
    CopyBytes(buf, offset, pkt[..toCopy]);
  }

  // ---------------------------------------------------------------- layout of a message buffer

  function RoundUp8(n: nat): (r: nat)
    ensures n <= r < n + 8 && r % 8 == 0
  {
    (n + 7) / 8 * 8
  }

  /** The offset of header `k` from the start of the allocated buffer; the data starts at `H`. */
  function HeaderAt(k: nat, dataSize: nat, H: nat): nat {
    if k == 0 then 0 else H + RoundUp8(dataSize) + (k - 1) * H
  }

  /**
   Headers and data lie inside the buffer and do not overlap, although the size requested does not
   include the padding before header 1.
   */
  lemma LayoutDisjoint(dataSize: nat, n: nat, H: nat, classSize: nat, k: nat)
    requires k < n && H % 8 == 0 && classSize % 8 == 0 && classSize >= dataSize + n * H
    ensures HeaderAt(k, dataSize, H) + H <= classSize && H + dataSize <= classSize
    ensures if k == 0 then HeaderAt(k, dataSize, H) + H <= H else H + dataSize <= HeaderAt(k, dataSize, H)
    ensures forall j :: 0 <= j < k ==> HeaderAt(j, dataSize, H) + H <= HeaderAt(k, dataSize, H)
  {
    MultipleOf8(n, H);
    PaddingFits(dataSize, n * H, classSize);
    Times(n, H);
    if k > 0 {
      Times(k, H);
      MulMono(k, n - 1, H);
      forall j | 0 <= j < k ensures HeaderAt(j, dataSize, H) + H <= HeaderAt(k, dataSize, H) {
        if j > 0 {
          Times(j, H);
          MulMono(j, k - 1, H);
        }
      }
    }
  }

  lemma Times(k: nat, H: nat)
    requires k >= 1
    ensures k * H == (k - 1) * H + H && (k - 1) * H >= 0
  {
  }

  lemma MultipleOf8(n: nat, H: nat)
    requires H % 8 == 0
    ensures (n * H) % 8 == 0
  {
    assert n * H == 8 * (n * (H / 8));
  }

  lemma PaddingFits(dataSize: nat, headers: nat, classSize: nat)
    requires headers % 8 == 0 && classSize % 8 == 0 && classSize >= dataSize + headers
    ensures RoundUp8(dataSize) + headers <= classSize
  {
  }
}
