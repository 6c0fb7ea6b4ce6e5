/**
 The TX batch of an endpoint and the circular buffers its control packets are built in. A burst hands
 the batch to the transport, which reads the control headers at that time, not when the packet was
 enqueued.
 */
module TxBatch {
  const POSTLIST: nat := 16
  const UNSIG_BATCH: nat := 64
  const CTRL_BUFS: nat := 2 * UNSIG_BATCH

  datatype Header = Header(pktType: nat, reqNum: nat, pktNum: nat)

  /** An entry of the burst array: a packet of a message, or one of the control buffers. */
  datatype Item = Data(slot: nat, pktIdx: nat) | Ctrl(buf: nat)

  /** What goes out. */
  datatype Frame = DataFrame(slot: nat, pktIdx: nat) | CtrlFrame(h: Header)

  predicate BufsOk(items: seq<Item>) { forall j :: 0 <= j < |items| && items[j].Ctrl? ==> items[j].buf < CTRL_BUFS }

  /** The frames a burst of `items` puts on the wire with the control headers as they are now. */
  function Frames(items: seq<Item>, hdrs: seq<Header>): (fs: seq<Frame>)
    requires BufsOk(items) && |hdrs| == CTRL_BUFS
    ensures |fs| == |items|
  {
    seq(|items|, j requires 0 <= j < |items| =>
      if items[j].Ctrl? then CtrlFrame(hdrs[items[j].buf]) else DataFrame(items[j].slot, items[j].pktIdx))
  }

  /** How long ago, in control enqueues, buffer `b` was used when `head` is next. */
  function Age(b: nat, head: nat): int { if b < head then head - b else head + CTRL_BUFS - b }

  /** Pending control buffers were all used within the last few enqueues. */
  predicate Recent(items: seq<Item>, head: nat) {
    forall j :: 0 <= j < |items| && items[j].Ctrl? ==> Age(items[j].buf, head) <= |items| - j
  }

  class Batch {
    const arr: array<Item>
    const hdrs: array<Header>
    var i: nat
    var ctrlHead: nat
    var bursts: seq<seq<Frame>>
    ghost var enqueued: seq<Frame>

    ghost predicate Valid()
      reads this, arr, hdrs
    {
      && arr.Length == POSTLIST && hdrs.Length == CTRL_BUFS && i < POSTLIST && ctrlHead < CTRL_BUFS
      && BufsOk(arr[..i]) && Recent(arr[..i], ctrlHead)
      && Flat(bursts) + Frames(arr[..i], hdrs[..]) == enqueued
    }

    constructor ()
      ensures Valid() && bursts == [] && enqueued == []
    {
      arr := new Item[POSTLIST](_ => Data(0, 0));
      hdrs := new Header[CTRL_BUFS](_ => Header(0, 0, 0));
      i, ctrlHead, bursts, enqueued := 0, 0, [], [];
    }

    /** `do_tx_burst_st`. */
    method DoTxBurst()
      requires 0 < i <= arr.Length == POSTLIST && hdrs.Length == CTRL_BUFS && BufsOk(arr[..i])
      modifies this`i, this`bursts
      ensures i == 0 && bursts == old(bursts + [Frames(arr[..i], hdrs[..])])
    {
      bursts := bursts + [Frames(arr[..i], hdrs[..])];
      i := 0;
    }

    /** A burst leaves nothing behind and changes nothing in what has been enqueued. */
    method Flush()
      requires arr.Length == POSTLIST && hdrs.Length == CTRL_BUFS && 0 < i <= POSTLIST && ctrlHead < CTRL_BUFS
      requires BufsOk(arr[..i]) && Flat(bursts) + Frames(arr[..i], hdrs[..]) == enqueued
      modifies this`i, this`bursts
      ensures Valid() && i == 0 && Flat(bursts) == enqueued
      ensures bursts == old(bursts + [Frames(arr[..i], hdrs[..])])
    {
      FlatSnoc(bursts, Frames(arr[..i], hdrs[..]));
      DoTxBurst();
      assert Frames(arr[..0], hdrs[..]) == [];
    }

    /** `enqueue_pkt_tx_burst_st`. */
    method EnqueuePkt(slot: nat, pktIdx: nat)
      requires Valid()
      modifies this`i, this`bursts, this`enqueued, arr
      ensures Valid() && enqueued == old(enqueued) + [DataFrame(slot, pktIdx)]
      ensures if old(i) + 1 < 16 then i == old(i) + 1 && bursts == old(bursts)
              else i == 0 && |bursts| == |old(bursts)| + 1
    {
      ghost var items := arr[..i];
      arr[i] := Data(slot, pktIdx);
      i := i + 1;
      assert arr[..i] == items + [Data(slot, pktIdx)];
      assert Frames(arr[..i], hdrs[..]) == Frames(items, hdrs[..]) + [DataFrame(slot, pktIdx)];
      enqueued := enqueued + [DataFrame(slot, pktIdx)];
      if i == POSTLIST { Flush(); }
    }

    /** Build a control header in the next buffer and enqueue it: `enqueue_cr_st`, `enqueue_rfr_st`. */
    method EnqueueCtrl(h: Header)
      requires Valid()
      modifies this`i, this`bursts, this`enqueued, this`ctrlHead, arr, hdrs
      ensures Valid() && enqueued == old(enqueued) + [CtrlFrame(h)]
      ensures ctrlHead == (old(ctrlHead) + 1) % 128 && hdrs[old(ctrlHead)] == h
      ensures if old(i) + 1 < 16 then i == old(i) + 1 && bursts == old(bursts)
              else i == 0 && |bursts| == |old(bursts)| + 1
    {
      ghost var items, was := arr[..i], hdrs[..];
      var buf := ctrlHead;
      ctrlHead := ctrlHead + 1;
      if ctrlHead == CTRL_BUFS { ctrlHead := 0; }
      hdrs[buf] := h;
      arr[i] := Ctrl(buf);
      i := i + 1;
      assert arr[..i] == items + [Ctrl(buf)] && hdrs[..] == was[buf := h];
      CtrlAdded(items, was, buf, ctrlHead, h);
      enqueued := enqueued + [CtrlFrame(h)];
      if i == POSTLIST { Flush(); }
    }

    /** `drain_tx_batch_and_dma_queue`: everything enqueued has gone out. */
    method Drain()
      requires Valid()
      modifies this`i, this`bursts
      ensures Valid() && i == 0 && Flat(bursts) == enqueued == old(enqueued)
    {
      if i > 0 { Flush(); }
      assert Frames(arr[..0], hdrs[..]) == [];
    }
  }

  function Flat(bursts: seq<seq<Frame>>): seq<Frame> {
    if bursts == [] then [] else Flat(bursts[..|bursts| - 1]) + bursts[|bursts| - 1]
  }

  lemma FlatSnoc(bursts: seq<seq<Frame>>, b: seq<Frame>)
    ensures Flat(bursts + [b]) == Flat(bursts) + b
  {
  }

  /** The next control buffer is none of the pending ones, so their headers survive its reuse. */
  lemma CtrlAdded(items: seq<Item>, hdrs: seq<Header>, buf: nat, head': nat, h: Header)
    requires |items| < POSTLIST && |hdrs| == CTRL_BUFS && buf < CTRL_BUFS && BufsOk(items) && Recent(items, buf)
    requires head' == if buf + 1 == CTRL_BUFS then 0 else buf + 1
    ensures BufsOk(items + [Ctrl(buf)]) && Recent(items + [Ctrl(buf)], head')
    ensures Frames(items + [Ctrl(buf)], hdrs[buf := h]) == Frames(items, hdrs) + [CtrlFrame(h)]
  {
  }
}
