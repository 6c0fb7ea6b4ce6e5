/**
 Splitting the I/O vector of a message into packets, and what the receiver puts together from them.
 An I/O vector entry is modelled by the bytes it points to.
 */
module DataIov {
  import opened Wire
  import opened Packets

  function Concat(iov: seq<bytes>): bytes {
    if iov == [] then [] else Concat(iov[..|iov| - 1]) + iov[|iov| - 1]
  }

  lemma ConcatSnoc(iov: seq<bytes>, b: bytes)
    ensures Concat(iov + [b]) == Concat(iov) + b
  {
  }

  lemma {:induction false} ConcatSplit(iov: seq<bytes>, k: nat)
    requires k <= |iov|
    ensures Concat(iov) == Concat(iov[..k]) + Concat(iov[k..])
    decreases |iov| - k
  {
    if k == |iov| {
      assert iov[..k] == iov && iov[k..] == [];
    } else {
      var n := |iov| - 1;
      ConcatSplit(iov[..n], k);
      assert iov[..n][..k] == iov[..k] && iov[k..][..|iov[k..]| - 1] == iov[..n][k..];
    }
  }

  /** Where the entries of packet `p` end. */
  function EndOf(index: seq<nat>, pieces: nat, p: nat): nat
    requires p < |index|
  {
    if p + 1 < |index| then index[p + 1] else pieces
  }

  predicate Ordered(index: seq<nat>, pieces: nat) {
    forall p :: 0 <= p < |index| ==> index[p] <= EndOf(index, pieces, p) <= pieces
  }

  /** The packets started so far hold the first `d` bytes, each its own share. */
  predicate Shares(pieces: seq<bytes>, index: seq<nat>, all: bytes, M: nat, d: nat) {
    && d <= |all| && Ordered(index, |pieces|)
    && forall p :: 0 <= p < |index| ==> Share(pieces, index, all, M, d, p)
  }

  predicate Share(pieces: seq<bytes>, index: seq<nat>, all: bytes, M: nat, d: nat, p: nat)
    requires d <= |all| && Ordered(index, |pieces|) && p < |index|
  {
    Lo(M, p) <= Hi(d, M, p) && Concat(pieces[index[p]..EndOf(index, |pieces|, p)]) == all[Lo(M, p)..Hi(d, M, p)]
  }

  /** A packet is opened when the one before is full. */
  lemma Opened(pieces: seq<bytes>, index: seq<nat>, all: bytes, M: nat, d: nat)
    requires Shares(pieces, index, all, M, d) && d == |index| * M
    ensures Shares(pieces, index + [|pieces|], all, M, d)
  {
    var index' := index + [|pieces|];
    var k := |index|;
    forall p | 0 <= p < |index'| ensures index'[p] <= EndOf(index', |pieces|, p) <= |pieces| {
      if p < k { assert EndOf(index', |pieces|, p) == EndOf(index, |pieces|, p); }
    }
    forall p | 0 <= p < |index'| ensures Share(pieces, index', all, M, d, p) {
      if p < k {
        assert Share(pieces, index, all, M, d, p);
      } else {
        assert pieces[|pieces|..] == [] && (k + 1) * M == d + M;
      }
    }
  }

  /** A piece that fits the open packet `k` goes to its end. */
  lemma Pushed(pieces: seq<bytes>, index: seq<nat>, all: bytes, M: nat, d: nat, n: nat, k: nat)
    requires Shares(pieces, index, all, M, d) && |index| == k + 1 && d + n <= |all|
    requires k * M <= d && d + n <= (k + 1) * M
    ensures Shares(pieces + [all[d..d + n]], index, all, M, d + n)
  {
    var ps, d' := pieces + [all[d..d + n]], d + n;
    forall p | 0 <= p < |index|
      ensures index[p] <= EndOf(index, |ps|, p) <= |ps|
    {
      assert index[p] <= EndOf(index, |pieces|, p) <= |pieces|;
    }
    forall p | 0 <= p < |index| ensures Share(ps, index, all, M, d', p) {
      assert Share(pieces, index, all, M, d, p);
      if p < k {
        FullBefore(index, M, d, n, p);
        assert ps[index[p]..index[p + 1]] == pieces[index[p]..index[p + 1]];
      } else {
        assert pieces[index[k]..|pieces|] == pieces[index[k]..] && ps[index[k]..|ps|] == ps[index[k]..];
        LastGrows(pieces, all, index[k], M, d, n, k);
      }
    }
  }

  lemma FullBefore(index: seq<nat>, M: nat, d: nat, n: nat, p: nat)
    requires p + 1 < |index| && (|index| - 1) * M <= d
    ensures Hi(d, M, p) == Hi(d + n, M, p) == (p + 1) * M
  {
  }

  lemma LastGrows(pieces: seq<bytes>, all: bytes, from: nat, M: nat, d: nat, n: nat, k: nat)
    requires from <= |pieces| && d + n <= |all| && Lo(M, k) <= d && d + n <= (k + 1) * M
    requires Concat(pieces[from..]) == all[Lo(M, k)..d]
    ensures Lo(M, k) <= Hi(d + n, M, k) == d + n
    ensures Concat((pieces + [all[d..d + n]])[from..]) == all[Lo(M, k)..d + n]
  {
    assert (pieces + [all[d..d + n]])[from..] == pieces[from..] + [all[d..d + n]];
    ConcatSnoc(pieces[from..], all[d..d + n]);
    assert all[Lo(M, k)..d] + all[d..d + n] == all[Lo(M, k)..d + n];
  }

  // ---------------------------------------------------------------- the splitting loop

  /** The state of the loop: `d` bytes are placed and `temp` more fit the packet being filled. */
  predicate Packing(pieces: seq<bytes>, index: seq<nat>, temp: nat, all: bytes, M: nat, d: nat) {
    && Shares(pieces, index, all, M, d) && Concat(pieces) == all[..d]
    && 1 <= temp <= M
    && if temp == M then d == |index| * M else |index| >= 1 && d + temp == |index| * M
  }

  /** One piece of at most `temp` bytes, opening a packet first if the last one is full. */
  lemma Placed(pieces: seq<bytes>, index: seq<nat>, temp: nat, all: bytes, M: nat, d: nat, n: nat)
    requires Packing(pieces, index, temp, all, M, d) && 1 <= n <= temp && d + n <= |all|
    ensures var index' := if temp == M then index + [|pieces|] else index;
      Packing(pieces + [all[d..d + n]], index', if n == temp then M else temp - n, all, M, d + n)
  {
    if temp == M { Opened(pieces, index, all, M, d); }
    var index' := if temp == M then index + [|pieces|] else index;
    var k := |index'| - 1;
    assert (k + 1) * M == k * M + M;
    assert d + temp == (k + 1) * M;
    Pushed(pieces, index', all, M, d, n, k);
    ConcatSnoc(pieces, all[d..d + n]);
    assert all[..d] + all[d..d + n] == all[..d + n];
  }

  // ---------------------------------------------------------------- how many pieces an entry makes

  /** How many packets the bytes from `d` up to `d + len` lie in. */
  function Touches(d: nat, len: nat, M: nat): nat
    requires M > 0
  {
    if len == 0 || (d + len - 1) / M < d / M then 0 else (d + len - 1) / M - d / M + 1
  }

  lemma Quotient(x: nat, k: nat, M: nat)
    requires M > 0 && k * M <= x < k * M + M
    ensures x / M == k
  {
    var q := x / M;
    assert q * M <= x < q * M + M;
    if q < k { MulMono(q + 1, k, M); }
    if k < q { MulMono(k + 1, q, M); }
  }

  lemma QuotientMono(x: nat, y: nat, M: nat)
    requires M > 0 && x <= y
    ensures x / M <= y / M
  {
    var p, q := x / M, y / M;
    if q < p { MulMono(q + 1, p, M); }
  }

  /** Cutting off what fits packet `k` leaves one piece less. */
  lemma TouchesStep(d: nat, len: nat, n: nat, k: nat, M: nat)
    requires M > 0 && len > 0 && k * M <= d < k * M + M
    requires n == if len <= k * M + M - d then len else k * M + M - d
    ensures Touches(d, len, M) == 1 + Touches(d + n, len - n, M)
  {
    Quotient(d, k, M);
    if n == len {
      Quotient(d + len - 1, k, M);
    } else {
      Quotient(d + n, k + 1, M);
      QuotientMono(d + n, d + len - 1, M);
    }
  }

  /** Entries of the new vector for the entries of `iov`. */
  function PieceCount(iov: seq<bytes>, M: nat): nat
    requires M > 0
  {
    if iov == [] then 0
    else
      var n := |iov| - 1;
      PieceCount(iov[..n], M) + Touches(|Concat(iov[..n])|, |iov[n]|, M)
  }

  const INDEX_ENTRIES: nat := 2000
  const IOV_CAPACITY: nat := 2300

  /** The entries `t_iov` of a constructed Serializer has room for: it begins at entry 8. */
  const COPY_ROOM: nat := 2292

  // ---------------------------------------------------------------- the copy

  /** What `t_iov` takes of the vector: entries beyond its room are dropped. */
  function Copied(iov: seq<bytes>, room: nat): seq<bytes> { if |iov| <= room then iov else iov[..room] }

  /** No entry with data is beyond the room. */
  predicate NothingLost(iov: seq<bytes>, room: nat) { forall k :: room <= k < |iov| ==> iov[k] == [] }

  method CopyEntries(iov: seq<bytes>, room: nat) returns (t: seq<bytes>, ok: bool)
    ensures t == Copied(iov, room) && (ok <==> NothingLost(iov, room))
  {
    t, ok := [], true;
    for i := 0 to |iov|
      invariant t == Copied(iov[..i], room) && (ok <==> NothingLost(iov[..i], room))
    {
      assert iov[..i + 1] == iov[..i] + [iov[i]];
      if |t| < room { t := t + [iov[i]]; } else { ok := ok && iov[i] == []; }
    }
    assert iov[..|iov|] == iov;
  }

  lemma {:induction false} EmptyEntries(iov: seq<bytes>)
    ensures Concat(iov) == [] <==> forall k :: 0 <= k < |iov| ==> iov[k] == []
  {
    if iov != [] {
      var n := |iov| - 1;
      EmptyEntries(iov[..n]);
      assert forall k :: 0 <= k < n ==> iov[..n][k] == iov[k];
    }
  }

  /** The copy is the message exactly if no entry with data is dropped; otherwise it is shorter. */
  lemma CopyIsMessage(iov: seq<bytes>, room: nat)
    ensures NothingLost(iov, room) ==> Concat(Copied(iov, room)) == Concat(iov)
    ensures !NothingLost(iov, room) ==> |Concat(Copied(iov, room))| < |Concat(iov)|
  {
    if |iov| > room {
      ConcatSplit(iov, room);
      EmptyEntries(iov[room..]);
      assert forall k :: room <= k < |iov| ==> iov[k] == iov[room..][k - room];
      assert forall k :: 0 <= k < |iov[room..]| ==> iov[room..][k] == iov[room + k];
    }
  }

  /** The packets of vector `t` and one more entry fit the index array, its headers and pieces the I/O vector. */
  predicate InRange(t: seq<bytes>, M: nat)
    requires M > 0
  {
    var n := NumPkts(|Concat(t)|, M);
    n + 1 <= INDEX_ENTRIES && n + PieceCount(t, M) <= IOV_CAPACITY
  }

  /** The message fits one packet, or its copy loses nothing and what is made of it is in range. */
  predicate Fits(iov: seq<bytes>, M: nat, room: nat)
    requires M > 0
  {
    |Concat(iov)| <= M || (NothingLost(iov, room) && InRange(Copied(iov, room), M))
  }

  // ---------------------------------------------------------------- the loops

  /** One turn of the inner loop: a new packet if the last is full, then as much of `cur` as fits. */
  method PlacePiece(ps: seq<bytes>, ix: seq<nat>, room: nat, cur: bytes, M: nat, ghost all: bytes, ghost e: nat)
    returns (ps': seq<bytes>, ix': seq<nat>, room': nat, n: nat)
    requires M > 0 && Packing(ps, ix, room, all, M, e)
    requires |cur| > 0 && e + |cur| <= |all| && cur == all[e..e + |cur|]
    ensures 1 <= n <= |cur| && Packing(ps', ix', room', all, M, e + n) && |ps'| == |ps| + 1
    ensures |ix'| == |ix| + if room == M then 1 else 0
    ensures Touches(e, |cur|, M) == 1 + Touches(e + n, |cur| - n, M)
  {
    hide Touches, Shares, Concat;
    ix' := ix;
    if room == M { ix' := ix + [|ps|]; }
    if room > |cur| {
      n := |cur|;
      ps', room' := ps + [cur], room - |cur|;
    } else if room < |cur| {
      n := room;
      assert cur[..room] == all[e..e + room];
      ps', room' := ps + [cur[..room]], M;
    } else {
      n := |cur|;
      ps', room' := ps + [cur], M;
    }
    Placed(ps, ix, room, all, M, e, n);
    PlaceTouches(e, room, |ix|, |cur|, n, M);
  }

  lemma PlaceTouches(e: nat, room: nat, packets: nat, len: nat, n: nat, M: nat)
    requires M > 0 && len > 0 && 1 <= room <= M && n == Min(room, len)
    requires if room == M then e == packets * M else packets >= 1 && e + room == packets * M
    ensures Touches(e, len, M) == 1 + Touches(e + n, len - n, M)
  {
    var k := if room == M then packets else packets - 1;
    assert (packets - 1) * M == packets * M - M;
    TouchesStep(e, len, n, k, M);
  }

  /**
   The inner loop: one entry of the old vector, cut where packets end. Writes past the end of either
   array are noted in `ok`.
   */
  method SplitEntry(pieces: seq<bytes>, index: seq<nat>, temp: nat, entry: bytes, M: nat, front: nat, inRange: bool,
                    ghost all: bytes, ghost d: nat)
    returns (ps: seq<bytes>, ix: seq<nat>, room: nat, ok: bool)
    requires M > 0 && Packing(pieces, index, temp, all, M, d)
    requires d + |entry| <= |all| && entry == all[d..d + |entry|]
    requires inRange <==> |index| <= INDEX_ENTRIES && front + |pieces| <= IOV_CAPACITY
    ensures Packing(ps, ix, room, all, M, d + |entry|) && |ps| == |pieces| + Touches(d, |entry|, M)
    ensures ok <==> |ix| <= INDEX_ENTRIES && front + |ps| <= IOV_CAPACITY
  {
    ps, ix, room, ok := pieces, index, temp, inRange;
    var cur := entry;
    ghost var e: nat := d;
    while |cur| > 0
      invariant Packing(ps, ix, room, all, M, e) && e + |cur| == d + |entry| && cur == all[e..e + |cur|]
      invariant |ps| + Touches(e, |cur|, M) == |pieces| + Touches(d, |entry|, M)
      invariant ok <==> |ix| <= INDEX_ENTRIES && front + |ps| <= IOV_CAPACITY
      decreases |cur|
    {
      var n;
      ok := ok && (room < M || |ix| < INDEX_ENTRIES) && front + |ps| < IOV_CAPACITY;
      ps, ix, room, n := PlacePiece(ps, ix, room, cur, M, all, e);
      cur, e := cur[n..], e + n;
    }
  }

  function Sum(iov: seq<bytes>): nat {
    if iov == [] then 0 else Sum(iov[..|iov| - 1]) + |iov[|iov| - 1]|
  }

  lemma {:induction false} SumIsLength(iov: seq<bytes>)
    ensures Sum(iov) == |Concat(iov)|
  {
    if iov != [] { SumIsLength(iov[..|iov| - 1]); }
  }

  /** `packets[p]` spans entries `index[p]` to `index[p + 1]` and holds exactly its slice of the message. */
  predicate PacketData(pieces: seq<bytes>, index: seq<nat>, all: bytes, M: nat, p: nat) {
    && p + 1 < |index| && index[p] <= index[p + 1] <= |pieces| && IsPacket(|all|, M, p)
    && Concat(pieces[index[p]..index[p + 1]]) == Slice(all, M, p)
  }

  /** The last share closes the index. */
  lemma Closed(pieces: seq<bytes>, index: seq<nat>, temp: nat, all: bytes, M: nat)
    requires M > 0 && Packing(pieces, index, temp, all, M, |all|) && |all| > M
    ensures |index| == NumPkts(|all|, M)
    ensures forall p :: 0 <= p < |index| ==> PacketData(pieces, index + [|pieces|], all, M, p)
  {
    var k, ix := |index|, index + [|pieces|];
    assert (k - 1) * M == k * M - M;
    CountExact(|all|, M, k);
    forall p | 0 <= p < k ensures PacketData(pieces, ix, all, M, p) {
      assert Share(pieces, index, all, M, |all|, p);
      assert ix[p + 1] == EndOf(index, |pieces|, p);
    }
  }

  lemma CountExact(size: nat, M: nat, k: nat)
    requires M > 0 && size > M && (k - 1) * M < size <= k * M
    ensures k == NumPkts(size, M)
  {
    NumPktsLeast(size, M);
    var n := NumPkts(size, M);
    if n < k { MulMono(n, k - 1, M); }
  }

  lemma PieceCountSnoc(iov: seq<bytes>, i: nat, M: nat)
    requires M > 0 && i < |iov|
    ensures PieceCount(iov[..i + 1], M) == PieceCount(iov[..i], M) + Touches(|Concat(iov[..i])|, |iov[i]|, M)
  {
    assert iov[..i + 1][..i] == iov[..i];
  }

  /** The room left in front: one entry for each packet header. */
  lemma FrontRoom(size: nat, M: nat)
    requires M > 0 && size > M
    ensures size / M + (if size % M != 0 then 1 else 0) == NumPkts(size, M)
  {
    var q, r := size / M, size % M;
    assert size == q * M + r;
    CountExact(size, M, if r == 0 then q else q + 1);
  }

  /** The outer loop, behind `front` entries kept for headers. */
  method SplitAll(iov: seq<bytes>, M: nat, front: nat)
    returns (pieces: seq<bytes>, index: seq<nat>, temp: nat, ok: bool)
    requires M > 0
    ensures Packing(pieces, index, temp, Concat(iov), M, |Concat(iov)|) && |pieces| == PieceCount(iov, M)
    ensures ok <==> |index| <= INDEX_ENTRIES && front + |pieces| <= IOV_CAPACITY
  {
    ghost var all := Concat(iov);
    pieces, index, temp, ok := [], [], M, front <= IOV_CAPACITY;
    for i := 0 to |iov|
      invariant |Concat(iov[..i])| <= |all|
      invariant Packing(pieces, index, temp, all, M, |Concat(iov[..i])|) && |pieces| == PieceCount(iov[..i], M)
      invariant ok <==> |index| <= INDEX_ENTRIES && front + |pieces| <= IOV_CAPACITY
    {
      ghost var d := |Concat(iov[..i])|;
      EntryInPlace(iov, i);
      PieceCountSnoc(iov, i, M);
      if |iov[i]| > 0 {
        pieces, index, temp, ok := SplitEntry(pieces, index, temp, iov[i], M, front, ok, all, d);
      }
    }
    assert iov[..|iov|] == iov;
  }

  /** The work on the copy. */
  method SplitCopy(t: seq<bytes>, M: nat) returns (pieces: seq<bytes>, index: seq<nat>, total: nat, ok: bool)
    requires M > 0
    ensures Concat(pieces) == Concat(t)
    ensures |Concat(t)| > M ==> total == NumPkts(|Concat(t)|, M) && |index| == total + 1 && (ok <==> InRange(t, M))
    ensures |Concat(t)| > M ==> forall p :: 0 <= p < total ==> PacketData(pieces, index, Concat(t), M, p)
  {
    hide Shares, PieceCount;
    SumIsLength(t);
    ghost var all := Concat(t);
    if |all| > M { FrontRoom(|all|, M); }
    var front, temp := Sum(t) / M + if Sum(t) % M != 0 then 1 else 0, 0;
    pieces, index, temp, ok := SplitAll(t, M, front);
    if |all| > M { Closed(pieces, index, temp, all, M); }
    assert all[..|all|] == all;
    total := |index|;
    ok := ok && |index| < INDEX_ENTRIES;
    index := index + [|pieces|];
  }

  /**
   `init_data_iov` of a Serializer whose `t_iov` has room for `room` entries. No data is dropped and
   every write is in range if and only if the message fits. Unless data is dropped, the pieces are the
   message again; packet `p` is exactly bytes `p * M` up to `(p + 1) * M` of it; and there are as many
   packets as `data_size_to_num_pkts` says. Otherwise the pieces are the entries that were copied.
   */
  method InitDataIov(iov: seq<bytes>, M: nat, room: nat)
    returns (pieces: seq<bytes>, index: seq<nat>, total: nat, ok: bool)
    requires M > 0
    ensures ok <==> Fits(iov, M, room)
    ensures Concat(pieces) == Concat(if |Concat(iov)| <= M then iov else Copied(iov, room))
    ensures |Concat(iov)| <= M || NothingLost(iov, room) ==>
      && Concat(pieces) == Concat(iov) && total == NumPkts(|Concat(iov)|, M) && |index| == total + 1
      && forall p :: 0 <= p < total ==> PacketData(pieces, index, Concat(iov), M, p)
  {
    SumIsLength(iov);
    ghost var all := Concat(iov);
    if Sum(iov) <= M {
      pieces, index, total, ok := iov, [0, |iov|], 1, true;
      assert iov[0..|iov|] == iov && all[0..|all|] == all && Lo(M, 0) == 0 && Hi(|all|, M, 0) == |all|;
      return;
    }
    var t, copied := CopyEntries(iov, room);
    CopyIsMessage(iov, room);
    pieces, index, total, ok := SplitCopy(t, M);
    ok := ok && copied;
  }

  lemma EntryInPlace(iov: seq<bytes>, i: nat)
    requires i < |iov|
    ensures var d, all := |Concat(iov[..i])|, Concat(iov);
      && d + |iov[i]| == |Concat(iov[..i + 1])| <= |all|
      && all[d..d + |iov[i]|] == iov[i]
  {
    ConcatSplit(iov, i + 1);
    ConcatSnoc(iov[..i], iov[i]);
    assert iov[..i + 1] == iov[..i] + [iov[i]];
  }
}
