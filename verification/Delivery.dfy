/**
 What the receiver makes of the packets of a message, given the size each header announces. The tail
 header announces the remainder of the division, which is zero for an exact multiple.
 */
module Delivery {
  import opened Wire
  import opened Packets
  import opened DataIov

  /** A message size as the 24-bit header field holds it. */
  function Size24(size: nat): (n: nat)
    ensures n < 0x100_0000 && n <= size && (size < 0x100_0000 ==> n == size)
  {
    if size < 0x100_0000 then size else Size24(size - 0x100_0000)
  }

  lemma {:induction false} Size24Is(size: nat)
    ensures Size24(size) == size % 0x100_0000
  {
    if size >= 0x100_0000 {
      Size24Is(size - 0x100_0000);
      assert (size - 0x100_0000) % 0x100_0000 == size % 0x100_0000;
    }
  }

  /** `this_msg_size` of packet `p`: the tail's is computed from the header field. */
  function ThisSize(size: nat, M: nat, p: nat): nat
    requires M > 0
  {
    if p + 1 == NumPkts(size, M) then Size24(size) % M else M
  }

  /** Where the data of packet `p` lies in the message. */
  lemma PacketAt(size: nat, M: nat, p: nat)
    requires M > 0 && p < NumPkts(size, M)
    ensures IsPacket(size, M, p)
    ensures p + 1 < NumPkts(size, M) ==> Hi(size, M, p) == Lo(M, p) + M == Lo(M, p + 1)
    ensures p + 1 == NumPkts(size, M) ==> Hi(size, M, p) == size <= Lo(M, p) + M
    ensures p + 1 == NumPkts(size, M) && size > 0 ==> Lo(M, p) < size
  {
    PayloadPrefix(size, M, p);
    NumPktsLeast(size, M);
    assert (p + 1) * M == p * M + M;
    if p + 1 < NumPkts(size, M) { PayloadPrefix(size, M, p + 1); }
  }

  lemma Remainder(size: nat, M: nat, p: nat)
    requires M > 0 && p * M <= size <= p * M + M && (size > 0 ==> p * M < size)
    ensures size % M <= size - p * M
    ensures size % M != 0 ==> size == p * M + size % M
    ensures size % M == 0 && size > 0 ==> size == p * M + M
  {
    var r := size - p * M;
    if r == M {
      assert size == (p + 1) * M;
      DivMul(p + 1, M, 0);
    } else {
      DivMul(p, M, r);
    }
  }

  lemma {:induction false} DivMul(q: nat, M: nat, r: nat)
    requires r < M
    ensures (q * M + r) % M == r
  {
    if q > 0 {
      DivMul(q - 1, M, r);
      assert q * M + r == (q - 1) * M + r + M;
      AddM((q - 1) * M + r, M);
    }
  }

  lemma AddM(x: nat, M: nat)
    requires M > 0
    ensures (x + M) % M == x % M
  {
    var k := (x + M) / M - x / M - 1;
    assert M * k == x % M - (x + M) % M;
    if k != 0 { NoSmallMultiple(M, k); }
  }

  lemma NoSmallMultiple(M: int, k: int)
    requires M > 0 && k != 0
    ensures M * k >= M || M * k <= -M
  {
  }

  // ---------------------------------------------------------------- putting packets together

  /** The announced bytes of the first `n` packets, or nothing if a header announces more than there is. */
  function Gathered(msg: bytes, M: nat, n: nat): Option<bytes>
    requires M > 0 && n <= NumPkts(|msg|, M)
  {
    if n == 0 then Some([])
    else
      PacketAt(|msg|, M, n - 1);
      var b, body := Gathered(msg, M, n - 1), Slice(msg, M, n - 1);
      if b.Some? && ThisSize(|msg|, M, n - 1) <= |body| then Some(b.value + body[..ThisSize(|msg|, M, n - 1)]) else None
  }

  /** One more packet: what is announced of it is there, and is appended. */
  lemma GatheredNext(msg: bytes, M: nat, num: nat)
    requires M > 0 && num < NumPkts(|msg|, M) && Gathered(msg, M, num).Some?
    ensures IsPacket(|msg|, M, num)
    ensures var n, b := ThisSize(|msg|, M, num), Gathered(msg, M, num).value;
      Gathered(msg, M, num + 1) ==
        if n <= |Slice(msg, M, num)| then Some(b + Slice(msg, M, num)[..n]) else None
  {
    PacketAt(|msg|, M, num);
  }

  lemma Append(msg: bytes, lo: nat, n: nat)
    requires lo + n <= |msg|
    ensures msg[..lo] + msg[lo..][..n] == msg[..lo + n]
  {
  }

  /** Every packet but the last is full and announced so. */
  lemma FullPacket(msg: bytes, M: nat, p: nat)
    requires M > 0 && p + 1 < NumPkts(|msg|, M)
    ensures IsPacket(|msg|, M, p) && Lo(M, p) + M == Lo(M, p + 1) <= |msg|
    ensures |Slice(msg, M, p)| == M == ThisSize(|msg|, M, p) && Slice(msg, M, p)[..M] == msg[Lo(M, p)..][..M]
  {
    PacketAt(|msg|, M, p);
  }

  lemma {:induction false} GatheredPrefix(msg: bytes, M: nat, n: nat)
    requires M > 0 && n < NumPkts(|msg|, M)
    ensures Lo(M, n) <= |msg| && Gathered(msg, M, n) == Some(msg[..Lo(M, n)])
  {
    if n == 0 {
      assert Lo(M, 0) == 0;
    } else {
      GatheredPrefix(msg, M, n - 1);
      GatheredNext(msg, M, n - 1);
      FullPacket(msg, M, n - 1);
      Append(msg, Lo(M, n - 1), M);
    }
  }

  /** All packets: everything before the last one, and of that one what the field's remainder says. */
  lemma GatheredAll(msg: bytes, M: nat, lo: nat, tail: nat)
    requires M > 0 && lo == Lo(M, NumPkts(|msg|, M) - 1) && tail == ThisSize(|msg|, M, NumPkts(|msg|, M) - 1)
    ensures lo <= |msg| <= lo + M && (|msg| > 0 ==> lo < |msg|)
    ensures Gathered(msg, M, NumPkts(|msg|, M)) == if tail <= |msg| - lo then Some(msg[..lo + tail]) else None
  {
    hide Lo, Hi, NumPkts, Size24, Gathered;
    var n := NumPkts(|msg|, M);
    GatheredPrefix(msg, M, n - 1);
    PacketAt(|msg|, M, n - 1);
    GatheredNext(msg, M, n - 1);
    assert Slice(msg, M, n - 1) == msg[lo..];
    if tail <= |msg| - lo { Append(msg, lo, tail); }
  }

  // ---------------------------------------------------------------- responses

  /**
   What the client makes of the packets of a response: by the header field a short one is its first
   packet; a longer one is copied to a buffer of that many bytes.
   */
  function Received(msg: bytes, M: nat): Option<bytes>
    requires M > 0
  {
    if Size24(|msg|) <= M then Gathered(msg, M, 1)
    else
      var b := Gathered(msg, M, NumPkts(|msg|, M));
      if Fitting(b, Size24(|msg|)) then b else None
  }

  predicate Fitting(b: Option<bytes>, size: nat) { b.Some? && |b.value| <= size }

  /** What is sent of a message, unless a write is out of range or no packet is made. */
  function Sent(iov: seq<bytes>, M: nat, room: nat): Option<bytes>
    requires M > 0
  {
    var t := Copied(iov, room);
    if |Concat(iov)| <= M then Some(Concat(iov))
    else if Concat(t) != [] && InRange(t, M) then Some(Concat(t))
    else None
  }

  /** The whole message is sent if and only if it fits; what is sent otherwise is shorter. */
  lemma SentWhole(iov: seq<bytes>, M: nat, room: nat)
    requires M > 0
    ensures Fits(iov, M, room) ==> Sent(iov, M, room) == Some(Concat(iov))
    ensures !Fits(iov, M, room) ==> Sent(iov, M, room).None? || |Sent(iov, M, room).value| < |Concat(iov)|
  {
    CopyIsMessage(iov, room);
  }

  /** Splitting, sending and receiving. */
  function Delivered(iov: seq<bytes>, M: nat, room: nat): Option<bytes>
    requires M > 0
  {
    var m := Sent(iov, M, room);
    if m.None? then None else Received(m.value, M)
  }

  /** Nothing is received that was not sent. */
  lemma ReceivedBound(msg: bytes, M: nat)
    requires M > 0
    ensures Received(msg, M).Some? ==> |Received(msg, M).value| <= |msg|
    ensures RequestReceived(msg, M).Some? ==> |RequestReceived(msg, M).value| <= |msg|
  {
    var n := NumPkts(|msg|, M);
    GatheredAll(msg, M, Lo(M, n - 1), ThisSize(|msg|, M, n - 1));
    PacketAt(|msg|, M, 0);
    GatheredNext(msg, M, 0);
  }

  lemma ShortReceived(msg: bytes, M: nat)
    requires M > 0 && |msg| < 0x100_0000
    ensures var lo := Lo(M, NumPkts(|msg|, M) - 1);
      && Received(msg, M) == Gathered(msg, M, NumPkts(|msg|, M)) && lo <= |msg|
      && (|msg| % M != 0 || |msg| == 0 ==> Received(msg, M) == Some(msg))
      && (|msg| % M == 0 && |msg| > 0 ==> |msg| == lo + M && Received(msg, M) == Some(msg[..lo]))
  {
    GatheredAll(msg, M, Lo(M, NumPkts(|msg|, M) - 1), |msg| % M);
    Remainder(|msg|, M, NumPkts(|msg|, M) - 1);
    assert msg[..|msg|] == msg;
  }

  lemma LongReceived(msg: bytes, M: nat)
    requires 0 < M < 0x1_0000 && |msg| >= 0x100_0000
    ensures Received(msg, M) != Some(msg)
  {
    if Size24(|msg|) <= M {
      PacketAt(|msg|, M, 0);
      assert Gathered(msg, M, 0) == Some([]);
    }
  }

  /**
   A longer response: if its size wraps to no more than a packet, the first packet is taken for the
   whole; otherwise its packets do not fit the buffer of the wrapped size.
   */
  lemma WrappedReceived(msg: bytes, M: nat)
    requires 0 < M < 0x1_0000 && |msg| >= 0x100_0000
    ensures Received(msg, M) == if |msg| % 0x100_0000 <= M then Some(msg[..M]) else None
  {
    Size24Is(|msg|);
    FirstPacket(msg, M);
    var n := NumPkts(|msg|, M);
    GatheredAll(msg, M, Lo(M, n - 1), ThisSize(|msg|, M, n - 1));
  }

  lemma FirstPacket(msg: bytes, M: nat)
    requires 0 < M < |msg|
    ensures NumPkts(|msg|, M) > 1 && Gathered(msg, M, 1) == Some(msg[..M])
  {
    NumPktsLeast(|msg|, M);
    GatheredPrefix(msg, M, 1);
  }

  /**
   A response arrives whole if and only if it fits the arrays, its size fits the header field, and it is
   empty or no multiple of the data a packet holds. A multiple that fits loses exactly its last packet.
   */
  lemma DeliveredIff(iov: seq<bytes>, M: nat, room: nat)
    requires 0 < M < 0x1_0000
    ensures var msg := Concat(iov);
      && (Delivered(iov, M, room) == Some(msg)
          <==> Fits(iov, M, room) && |msg| < 0x100_0000 && (|msg| % M != 0 || |msg| == 0))
      && (Fits(iov, M, room) && |msg| < 0x100_0000 && |msg| % M == 0 && |msg| > 0 ==>
            |msg| >= M && Delivered(iov, M, room) == Some(msg[..|msg| - M]))
  {
    var msg, m := Concat(iov), Sent(iov, M, room);
    SentWhole(iov, M, room);
    if !Fits(iov, M, room) {
      if m.Some? { ReceivedBound(m.value, M); }
    } else if |msg| < 0x100_0000 {
      ShortReceived(msg, M);
      if |msg| % M == 0 && |msg| > 0 { assert |msg[..|msg| - M]| < |msg|; }
    } else {
      LongReceived(msg, M);
    }
  }

  /** The smallest message that is cut: one full packet. */
  lemma FullPacketLost(msg: bytes, M: nat)
    requires 0 < M < 0x1_0000 && |msg| == M
    ensures NumPkts(|msg|, M) == 1 && Received(msg, M) == Some([])
  {
    ShortReceived(msg, M);
  }

  /** The smallest message beyond the index array: its packets, and one entry more. */
  lemma IndexOverrun(iov: seq<bytes>, M: nat, room: nat)
    requires M > 0 && |Concat(iov)| == 1999 * M + 1
    ensures NumPkts(|Concat(iov)|, M) == 2000 && !Fits(iov, M, room)
  {
    CountExact(|Concat(iov)|, M, 2000);
    CopyIsMessage(iov, room);
  }

  lemma TouchesCover(d: nat, len: nat, M: nat)
    requires M > 0
    ensures Touches(d, len, M) * M >= len
  {
    if len > 0 {
      QuotientMono(d, d + len - 1, M);
      var p, q := d / M, (d + len - 1) / M;
      assert p * M <= d && d + len - 1 < q * M + M;
      assert (q - p + 1) * M == q * M + M - p * M;
    }
  }

  lemma {:induction false} PiecesCover(iov: seq<bytes>, M: nat)
    requires M > 0
    ensures PieceCount(iov, M) * M >= |Concat(iov)|
  {
    hide Touches;
    if iov != [] {
      var n := |iov| - 1;
      PiecesCover(iov[..n], M);
      TouchesCover(|Concat(iov[..n])|, |iov[n]|, M);
      Distribute(PieceCount(iov[..n], M), Touches(|Concat(iov[..n])|, |iov[n]|, M), M);
    }
  }

  lemma Distribute(a: nat, b: nat, M: nat)
    ensures (a + b) * M == a * M + b * M
  {
  }

  /** Each packet has a piece, so it is always the I/O vector and never the index array that is too short. */
  lemma IndexNeverBinds(t: seq<bytes>, M: nat)
    requires M > 0 && |Concat(t)| > M
    ensures NumPkts(|Concat(t)|, M) <= PieceCount(t, M)
    ensures InRange(t, M) <==> NumPkts(|Concat(t)|, M) + PieceCount(t, M) <= 2300
  {
    PiecesCover(t, M);
    NumPktsLeast(|Concat(t)|, M);
  }

  /** A message in one entry fits up to 1150 packets: each takes a header entry and a piece. */
  lemma OneEntryFits(msg: bytes, M: nat, room: nat)
    requires M > 0 && room >= 1
    ensures Fits([msg], M, room) <==> |msg| <= 1150 * M
  {
    var n := NumPkts(|msg|, M);
    assert Concat([msg]) == msg && [msg][..0] == [];
    if |msg| > M {
      CountExact(|msg|, M, (|msg| - 1) / M + 1);
      assert Touches(0, |msg|, M) == n && PieceCount([msg], M) == n;
      NumPktsLeast(|msg|, M);
      if n <= 1150 { MulMono(n, 1150, M); }
    }
  }

  lemma {:induction false} ByteEntries(iov: seq<bytes>, M: nat)
    requires M > 0 && forall k :: 0 <= k < |iov| ==> |iov[k]| == 1
    ensures |Concat(iov)| == |iov| == PieceCount(iov, M)
  {
    if iov != [] { ByteEntries(iov[..|iov| - 1], M); }
  }

  /** As many entries of one byte as `t_iov` has room for: the message fits. */
  lemma EntriesKept(iov: seq<bytes>)
    requires |iov| == 2292 && forall k :: 0 <= k < |iov| ==> |iov[k]| == 1
    ensures Fits(iov, 1000, COPY_ROOM) && Delivered(iov, 1000, COPY_ROOM) == Some(Concat(iov))
  {
    ByteEntries(iov, 1000);
    assert NumPkts(2292, 1000) == 3;
    ShortReceived(Concat(iov), 1000);
  }

  /** One entry more: it is dropped, and the rest arrives as the message. */
  lemma EntryLost(iov: seq<bytes>)
    requires |iov| == 2293 && forall k :: 0 <= k < |iov| ==> |iov[k]| == 1
    ensures !Fits(iov, 1000, COPY_ROOM) && Delivered(iov, 1000, COPY_ROOM) == Some(Concat(iov[..2292]))
  {
    var t := iov[..COPY_ROOM];
    ByteEntries(iov, 1000);
    ByteEntries(t, 1000);
    assert iov[COPY_ROOM] != [] && NumPkts(2292, 1000) == 3;
    ShortReceived(Concat(t), 1000);
  }

  /** A Serializer of zero bytes, as in a session slot, has no room: nothing of several packets is sent. */
  lemma ZeroedSerializer(iov: seq<bytes>, M: nat)
    requires M > 0
    ensures Fits(iov, M, 0) <==> |Concat(iov)| <= M
    ensures |Concat(iov)| > M ==> Sent(iov, M, 0).None?
  {
    EmptyEntries(iov);
    assert Copied(iov, 0) == [];
  }

  /** One byte beyond what the header field holds, and the first packet is taken for the response. */
  lemma WrappedSizeCut(msg: bytes, M: nat)
    requires 0 < M < 0x1_0000 && |msg| == 0x100_0001
    ensures Size24(|msg|) == 1 && Received(msg, M) == Some(msg[..M])
  {
    WrappedReceived(msg, M);
  }

  /** With packets of at most 4096 bytes such a message does not fit in the first place. */
  lemma WrappedNeverFits(iov: seq<bytes>, M: nat, room: nat)
    requires 0 < M <= 4096 && |Concat(iov)| >= 0x100_0000
    ensures !Fits(iov, M, room)
  {
    var n := NumPkts(|Concat(iov)|, M);
    NumPktsLeast(|Concat(iov)|, M);
    CopyIsMessage(iov, room);
    if n < INDEX_ENTRIES { TimesBound(n, M); }
  }

  lemma TimesBound(n: nat, M: nat)
    requires n < 2000 && M <= 4096
    ensures n * M <= 2000 * 4096
  {
    MulMono(n, 2000, M);
  }

  // ---------------------------------------------------------------- requests

  /**
   The server takes a request that is short by the header field by that size, and the others packet
   by packet.
   */
  function RequestReceived(msg: bytes, M: nat): Option<bytes>
    requires M > 0
  {
    if Size24(|msg|) <= M then Some(msg[..Size24(|msg|)]) else Gathered(msg, M, NumPkts(|msg|, M))
  }

  function RequestDelivered(iov: seq<bytes>, M: nat, room: nat): Option<bytes>
    requires M > 0
  {
    var m := Sent(iov, M, room);
    if m.None? then None else RequestReceived(m.value, M)
  }

  /** What the server makes of any request: with a wrapped size it cuts the tail, or reads past its end. */
  lemma RequestReceivedIs(msg: bytes, M: nat)
    requires 0 < M < 0x1_0000
    ensures var size, lo := |msg| % 0x100_0000, (NumPkts(|msg|, M) - 1) * M;
      RequestReceived(msg, M) ==
        if size <= M then Some(msg[..size])
        else if lo + size % M <= |msg| then Some(msg[..lo + size % M])
        else None
  {
    Size24Is(|msg|);
    GatheredAll(msg, M, Lo(M, NumPkts(|msg|, M) - 1), Size24(|msg|) % M);
  }

  /** One packet, or a size that the header field leaves longer than that with the tail it has. */
  predicate SameTail(size: nat, M: nat)
    requires M > 0
  {
    size <= M || (Size24(size) > M && Size24(size) % M == size - Lo(M, NumPkts(size, M) - 1))
  }

  lemma RequestWhole(msg: bytes, M: nat)
    requires 0 < M < 0x1_0000
    ensures RequestReceived(msg, M) == Some(msg) <==> SameTail(|msg|, M)
  {
    var lo, tail := Lo(M, NumPkts(|msg|, M) - 1), Size24(|msg|) % M;
    GatheredAll(msg, M, lo, tail);
    assert msg[..|msg|] == msg;
    if tail <= |msg| - lo { assert |msg[..lo + tail]| == lo + tail; }
  }

  /**
   A request arrives whole if and only if it fits, and it is one packet, or its size in the header
   field is longer than a packet and leaves the remainder its last packet has.
   */
  lemma RequestDeliveredIff(iov: seq<bytes>, M: nat, room: nat)
    requires 0 < M < 0x1_0000
    ensures var msg := Concat(iov);
      RequestDelivered(iov, M, room) == Some(msg) <==> Fits(iov, M, room) && SameTail(|msg|, M)
  {
    var m := Sent(iov, M, room);
    SentWhole(iov, M, room);
    RequestWhole(Concat(iov), M);
    if !Fits(iov, M, room) && m.Some? { ReceivedBound(m.value, M); }
  }

  /** Below the limit of the header field that is: no multiple beyond one packet. */
  lemma RequestBelowLimit(msg: bytes, M: nat)
    requires 0 < M < 0x1_0000 && |msg| < 0x100_0000
    ensures RequestReceived(msg, M) == Some(msg) <==> |msg| <= M || |msg| % M != 0
  {
    RequestWhole(msg, M);
    GatheredAll(msg, M, Lo(M, NumPkts(|msg|, M) - 1), |msg| % M);
    Remainder(|msg|, M, NumPkts(|msg|, M) - 1);
  }

  // ---------------------------------------------------------------- the response buffer

  class ResponseBuffer {
    var newBuff: array<byte>
    var usedSize: nat
    var started: bool

    ghost predicate Valid()
      reads this
    {
      usedSize <= newBuff.Length
    }

    ghost function Contents(): bytes
      reads this, newBuff
      requires Valid()
    {
      newBuff[..usedSize]
    }

    constructor ()
      ensures Valid() && !started && fresh(newBuff)
    {
      newBuff := new byte[0];
      usedSize, started := 0, false;
    }

    /**
     One packet of a response of several packets: the first allocates the whole buffer, the others
     are appended. Packets that come in order build up what `Gathered` says; `ok` says that nothing was
     read past the packet or written past the buffer.
     */
    method TakePacket(num: nat, msgSize: nat, thisSize: nat, body: bytes, ghost msg: bytes, ghost M: nat)
      returns (ok: bool)
      requires Valid() && M > 0 && num < NumPkts(|msg|, M) && msgSize == Size24(|msg|)
      requires thisSize == ThisSize(|msg|, M, num) && IsPacket(|msg|, M, num) && body == Slice(msg, M, num)
      requires num > 0 ==> started && newBuff.Length == msgSize && Gathered(msg, M, num) == Some(Contents())
      modifies this, newBuff
      ensures Valid() && started && newBuff.Length == msgSize
      ensures ok <==> Fitting(Gathered(msg, M, num + 1), msgSize)
      ensures ok ==> Gathered(msg, M, num + 1) == Some(Contents())
      ensures num > 0 ==> newBuff == old(newBuff)
      ensures num == 0 ==> fresh(newBuff)
    {
      if num == 0 { usedSize, started := 0, false; }
      if !started {
        newBuff := new byte[msgSize];
        started := true;
      }
      assert Gathered(msg, M, num) == Some(Contents());
      GatheredNext(msg, M, num);
      ok := thisSize <= |body| && usedSize + thisSize <= msgSize;
      if ok {
        ghost var b := Contents();
        CopyBytes(newBuff, usedSize, body[..thisSize]);
        usedSize := usedSize + thisSize;
        assert newBuff[..usedSize] == b + body[..thisSize];
      }
    }
  }
}
