/**
 The congestion-control part of a client slot as the datapath updates it in place: the flag array, the
 wheel count and the packet counters. Each method is a slot operation of `Window`.
 */
module PacedSlotState {
  import opened SessionState
  import opened Window
  import opened WindowLaws
  import opened WindowRuns

  class SlotState {
    var request: Request
    var reqNum: nat
    var numTx: nat
    var numRx: nat
    const inWheel: array<bool>
    var wheelCount: nat
    var stillInWheel: nat
    var active: bool
    ghost var wheel: multiset<nat>
    ghost var accepted: seq<nat>

    ghost function Value(): PacedSlot
      reads this, inWheel
    {
      PacedSlot(active, reqNum, request, numTx, numRx, inWheel[..], wheelCount, wheel, accepted)
    }

    /** The slot with index `i` of its session, idle. */
    constructor (i: nat)
      requires i < WINDOW
      ensures Value() == PacedSlot(false, i, Request(0, 0), 0, 0, NoFlags(), 0, multiset{}, [])
      ensures SlotOk(Value(), i) && fresh(inWheel)
    {
      request, reqNum, numTx, numRx, wheelCount, stillInWheel := Request(0, 0), i, 0, 0, 0, 0;
      active, wheel, accepted := false, multiset{}, [];
      inWheel := new bool[CREDITS](_ => false);
      new;
      assert inWheel[..] == NoFlags();
      assert Value() == Init().slots[i];
      InitSlot(i);
    }

    /** Put the next packet into the wheel. */
    method EnqueueWheel(ghost i: nat)
      requires SlotOk(Value(), i) && active && numTx < Limit(Value()) && numTx < numRx + CREDITS
      modifies this`numTx, this`wheelCount, this`wheel, inWheel
      ensures Value() == WheelSlot(old(Value())) && SlotOk(Value(), i)
    {
      WheelOk(Value(), i);
      inWheel[numTx % CREDITS] := true;
      wheelCount := wheelCount + 1;
      wheel := wheel + multiset{numTx};
      numTx := numTx + 1;
    }

    /** A ready entry leaves the wheel; its packet goes to the TX burst. */
    method Reap(ghost i: nat, n: nat)
      requires SlotOk(Value(), i) && n in wheel
      modifies this`wheelCount, this`wheel, inWheel
      ensures old(wheelCount) > 0 && Value() == ReapSlot(old(Value()), n) && SlotOk(Value(), i)
    {
      assert wheelCount > 0;
      ReapOk(Value(), i, n);
      wheelCount := wheelCount - 1;
      inWheel[n % CREDITS] := false;
      wheel := wheel - multiset{n};
    }

    /** The in-order test, in the order of the source; only its last failure is counted. */
    method InOrderClient(hdrReq: nat, hdrPkt: nat) returns (ok: bool)
      requires inWheel.Length == CREDITS && hdrReq < REQ_NUMS && hdrPkt < PKT_NUMS
      modifies this`stillInWheel
      ensures ok <==> InOrder(Value(), Pkt(hdrReq, hdrPkt))
      ensures stillInWheel == old(stillInWheel) +
        if hdrReq == reqNum && hdrPkt == numRx < numTx && !ok then 1 else 0
    {
      if hdrReq != reqNum { return false; }
      if hdrPkt != numRx { return false; }
      if hdrPkt >= numTx { return false; }
      if inWheel[hdrPkt % CREDITS] {
        stillInWheel := stillInWheel + 1;
        return false;
      }
      return true;
    }

    /** The rollback of a slot that lost packets: what it returns in credits it no longer counts as sent. */
    method Rollback(ghost i: nat, credits: nat) returns (credits': nat)
      requires SlotOk(Value(), i) && active
      modifies this`numTx
      ensures SlotOk(Value(), i)
      ensures if wheelCount > 0 then Value() == old(Value()) else Value() == old(Value()).(numTx := numRx)
      ensures credits' + (numTx - numRx) == credits + (old(numTx) - numRx)
    {
      var delta := numTx - numRx;
      if delta == 0 || wheelCount > 0 { return credits; }
      RollbackOk(Value(), i);
      numTx := numRx;
      return credits + delta;
    }
  }
}
