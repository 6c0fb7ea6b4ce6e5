/** What client calls keep, and exactly which packets they keep it for. */
module SessionLaws {
  import opened SessionState

  // ---------------------------------------------------------------- sums over slots

  function OutSum(slots: seq<Slot>): int {
    if slots == [] then 0 else Outstanding(slots[0]) + OutSum(slots[1..])
  }

  function OwedSum(done: seq<Completion>): int {
    if done == [] then 0 else OwedSum(done[..|done| - 1]) + done[|done| - 1].owed
  }

  lemma {:induction false} OutSumUpdate(slots: seq<Slot>, i: nat, s: Slot)
    requires i < |slots|
    ensures OutSum(slots[i := s]) == OutSum(slots) - Outstanding(slots[i]) + Outstanding(s)
  {
    if i == 0 {
      assert slots[i := s][1..] == slots[1..];
    } else {
      OutSumUpdate(slots[1..], i - 1, s);
      assert slots[i := s][1..] == slots[1..][i - 1 := s];
    }
  }

  lemma {:induction false} OutSumIdle(slots: seq<Slot>)
    requires forall i :: 0 <= i < |slots| ==> Outstanding(slots[i]) == 0
    ensures OutSum(slots) == 0
  {
    if slots != [] { OutSumIdle(slots[1..]); }
  }

  lemma {:induction false} OutSumBounds(slots: seq<Slot>, i: nat)
    requires i < |slots| && forall k :: 0 <= k < |slots| ==> Outstanding(slots[k]) >= 0
    ensures Outstanding(slots[i]) <= OutSum(slots)
  {
    OutSumNonNegative(slots[1..]);
    if i > 0 { OutSumBounds(slots[1..], i - 1); }
  }

  lemma {:induction false} OutSumNonNegative(slots: seq<Slot>)
    requires forall k :: 0 <= k < |slots| ==> Outstanding(slots[k]) >= 0
    ensures OutSum(slots) >= 0
  {
    if slots != [] { OutSumNonNegative(slots[1..]); }
  }

  lemma OwedSumAppend(done: seq<Completion>, d: Completion)
    ensures OwedSum(done + [d]) == OwedSum(done) + d.owed
  {
  }

  // ---------------------------------------------------------------- the invariant

  predicate Distinct(q: seq<nat>) { forall j, k :: 0 <= j < k < |q| ==> q[j] != q[k] }

  lemma DistinctInit(q: seq<nat>)
    requires Distinct(q) && q != []
    ensures Distinct(q[..|q| - 1])
    ensures forall k :: k in q[..|q| - 1] <==> k in q && k != q[|q| - 1]
  {
  }

  lemma DistinctTail(q: seq<nat>)
    requires Distinct(q) && q != []
    ensures Distinct(q[1..])
    ensures forall k :: k in q[1..] <==> k in q && k != q[0]
  {
  }

  lemma DistinctAppend(q: seq<nat>, i: nat)
    requires Distinct(q) && i !in q
    ensures Distinct(q + [i])
    ensures forall k :: k in q + [i] <==> k in q || k == i
  {
  }

  /** A request and its response have at least one packet each and fit the packet number field. */
  predicate Serves(r: Request) { 1 <= r.pkts < PKT_NUMS && 1 <= r.answer < PKT_NUMS }

  /** The free vector holds exactly the inactive slots, once each. */
  predicate FreeOk(c: Client) {
    Shaped(c) && Distinct(c.free) && forall i :: 0 <= i < WINDOW ==> (i in c.free <==> !c.slots[i].active)
  }

  /** The stall queue holds exactly the active slots that have sent nothing, once each. */
  predicate StallOk(c: Client) {
    Shaped(c) && Distinct(c.stallq)
    && forall i :: 0 <= i < WINDOW ==> (i in c.stallq <==> c.slots[i].active && c.slots[i].numTx == 0)
  }

  predicate SlotOk(s: Slot, i: nat) {
    && s.reqNum % WINDOW == i && s.hdr == Hdr(s.reqNum)
    && (s.active ==> s.reqNum >= WINDOW && Serves(s.request) && (s.numTx == 0 ==> s.numRx == s.crs == 0))
  }

  predicate SlotsOk(c: Client) { Shaped(c) && forall i :: 0 <= i < WINDOW ==> SlotOk(c.slots[i], i) }

  predicate BacklogOk(c: Client) {
    (c.backlog != [] ==> c.free == []) && forall k :: 0 <= k < |c.backlog| ==> Serves(c.backlog[k])
  }

  /** Credits in hand, packets outstanding and what finished requests left unanswered add up. */
  predicate Balanced(c: Client) { c.credits + OutSum(c.slots) + OwedSum(c.done) == CREDITS }

  predicate ClientOk(c: Client) {
    FreeOk(c) && StallOk(c) && SlotsOk(c) && BacklogOk(c) && Balanced(c)
  }

  predicate Good(c: Client) { c.status == Running && ClientOk(c) }

  lemma NewFreeOk()
    ensures FreeOk(NewSession())
  {
    var c := NewSession();
    forall i | 0 <= i < WINDOW ensures i in c.free {
      assert c.free[WINDOW - 1 - i] == i;
    }
  }

  lemma NewSlotsOk()
    ensures SlotsOk(NewSession()) && StallOk(NewSession())
  {
  }

  lemma IdleBalanced(c: Client)
    requires c.credits == CREDITS && c.done == [] && forall i :: 0 <= i < |c.slots| ==> !c.slots[i].active
    ensures Balanced(c)
  {
    OutSumIdle(c.slots);
  }

  lemma NewSessionOk()
    ensures Good(NewSession())
  {
    NewFreeOk();
    NewSlotsOk();
    IdleBalanced(NewSession());
  }

  // ---------------------------------------------------------------- per-slot operations

  /** A lane operation trades credits for outstanding packets one for one. */
  lemma LaneBalance(l: Lane)
    requires l.slot.active
    ensures ReqPending(l.slot) ==>
      KickReq(l).credits + Outstanding(KickReq(l).slot) == l.credits + Outstanding(l.slot)
    ensures OnCredit(l).credits + Outstanding(OnCredit(l).slot) == l.credits + Outstanding(l.slot)
    ensures forall p: ToClient :: p.RespPkt? ==>
      OnResp(l, p).credits + Outstanding(OnResp(l, p).slot) == l.credits + Outstanding(l.slot)
  {
  }

  /** Replacing the lane of an active slot that goes on sending keeps everything. */
  lemma LaneKept(c: Client, i: nat, l: Lane)
    requires FreeOk(c) && SlotsOk(c) && BacklogOk(c) && Balanced(c)
    requires i < WINDOW && c.slots[i].active && l.slot.active
    requires l.slot.reqNum == c.slots[i].reqNum && l.slot.hdr == c.slots[i].hdr && l.slot.request == c.slots[i].request
    requires l.slot.numTx > 0
    requires l.credits + Outstanding(l.slot) == c.credits + Outstanding(c.slots[i])
    ensures var c' := WithLane(c, i, l); FreeOk(c') && SlotsOk(c') && BacklogOk(c') && Balanced(c')
  {
    OutSumUpdate(c.slots, i, l.slot);
  }

  lemma StallKept(c: Client, i: nat, l: Lane)
    requires StallOk(c) && i < WINDOW && l.slot.active && c.slots[i].active && c.slots[i].numTx > 0 && l.slot.numTx > 0
    ensures StallOk(WithLane(c, i, l))
  {
  }

  /** A slot that is not stalled goes on after a packet. */
  lemma LaneStep(c: Client, i: nat, l: Lane)
    requires ClientOk(c) && i < WINDOW && c.slots[i].active && c.slots[i].numTx > 0
    requires l.slot.active && l.slot.reqNum == c.slots[i].reqNum && l.slot.hdr == c.slots[i].hdr
    requires l.slot.request == c.slots[i].request && l.slot.numTx > 0
    requires l.credits + Outstanding(l.slot) == c.credits + Outstanding(c.slots[i])
    ensures ClientOk(WithLane(c, i, l))
  {
    LaneKept(c, i, l);
    StallKept(c, i, l);
  }

  /** A slot of the stall queue that sends without leaving the queue breaks it. */
  lemma StallBroken(c: Client, i: nat, c': Client)
    requires ClientOk(c) && i < WINDOW && c.slots[i].active && c.slots[i].numTx == 0
    requires Shaped(c') && c'.stallq == c.stallq && (c'.slots[i].numTx > 0 || !c'.slots[i].active)
    ensures !ClientOk(c')
  {
    assert i in c.stallq;
  }

  /** Taking a free slot: what holds before the first packets go out. */
  lemma SlotTaken(c: Client, r: Request)
    requires FreeOk(c) && SlotsOk(c) && Balanced(c) && Serves(r) && c.free != []
    ensures var i := c.free[|c.free| - 1];
      var c1 := c.(free := c.free[..|c.free| - 1], slots := c.slots[i := FreshSlot(c.slots[i], r)]);
      FreeOk(c1) && SlotsOk(c1) && Balanced(c1)
  {
    var i := c.free[|c.free| - 1];
    assert i in c.free;
    OutSumUpdate(c.slots, i, FreshSlot(c.slots[i], r));
    DistinctInit(c.free);
  }

  lemma StartSends(c: Client, i: nat)
    requires FreeOk(c) && SlotsOk(c) && BacklogOk(c) && Balanced(c) && i < WINDOW && c.credits > 0
    requires c.slots[i].active && c.slots[i].numTx == 0
    requires StallOk(c.(slots := c.slots[i := c.slots[i].(active := false)]))
    ensures ClientOk(Kicked(c, i))
  {
    var l := KickReq(LaneOf(c, i));
    LaneBalance(LaneOf(c, i));
    LaneKept(c, i, l);
    var c0, c' := c.(slots := c.slots[i := c.slots[i].(active := false)]), WithLane(c, i, l);
    assert forall k :: 0 <= k < WINDOW && k != i ==> c'.slots[k] == c0.slots[k];
  }

  lemma StartStalls(c: Client, i: nat)
    requires FreeOk(c) && SlotsOk(c) && BacklogOk(c) && Balanced(c) && i < WINDOW
    requires c.slots[i].active && c.slots[i].numTx == 0
    requires StallOk(c.(slots := c.slots[i := c.slots[i].(active := false)]))
    ensures ClientOk(c.(stallq := c.stallq + [i]))
  {
    var c0, q := c.(slots := c.slots[i := c.slots[i].(active := false)]), c.stallq + [i];
    assert !c0.slots[i].active && i !in c.stallq;
    DistinctAppend(c.stallq, i);
    forall k | 0 <= k < WINDOW ensures k in q <==> c.slots[k].active && c.slots[k].numTx == 0 {
      if k != i { assert c.slots[k] == c0.slots[k]; }
    }
  }

  lemma StartKept(c: Client, r: Request)
    requires FreeOk(c) && StallOk(c) && SlotsOk(c) && Balanced(c) && Serves(r) && c.free != []
    requires |c.backlog| > 0 ==> |c.free| == 1
    requires forall k :: 0 <= k < |c.backlog| ==> Serves(c.backlog[k])
    ensures ClientOk(Start(c, r))
  {
    var i := c.free[|c.free| - 1];
    assert i in c.free;
    var c1 := c.(free := c.free[..|c.free| - 1], slots := c.slots[i := FreshSlot(c.slots[i], r)]);
    SlotTaken(c, r);
    assert StallOk(c1.(slots := c1.slots[i := c1.slots[i].(active := false)]));
    if c.credits > 0 { StartSends(c1, i); } else { StartStalls(c1, i); }
  }

  lemma EnqueueKept(c: Client, r: Request)
    requires ClientOk(c) && Serves(r)
    ensures ClientOk(Enqueue(c, r))
  {
    if c.free != [] { StartKept(c, r); }
  }

  /** A slot is freed: what it still owed moves to the record of finished requests. */
  lemma SlotFreed(c: Client, i: nat)
    requires ClientOk(c) && i < WINDOW && c.slots[i].active && c.slots[i].numTx > 0
    ensures var c1 := Freed(c, i); FreeOk(c1) && StallOk(c1) && SlotsOk(c1) && Balanced(c1)
  {
    var s := c.slots[i];
    var slots := c.slots[i := s.(active := false, numRx := 0)];
    OutSumUpdate(c.slots, i, slots[i]);
    assert forall k :: 0 <= k < WINDOW && k != i ==> slots[k] == c.slots[k];
    assert i !in c.free;
    OwedSumAppend(c.done, Completion(s.reqNum, s.request, s.got, Outstanding(s)));
    DistinctAppend(c.free, i);
  }

  // ---------------------------------------------------------------- room in the free vector

  lemma {:induction false} Pigeonhole(q: seq<nat>, n: nat)
    requires Distinct(q) && forall k :: 0 <= k < |q| ==> q[k] < n
    ensures |q| <= n
    decreases n
  {
    assert q != [] ==> q[0] < n;
    if n > 0 {
      if j :| 0 <= j < |q| && q[j] == n - 1 {
        Pigeonhole(q[..j] + q[j + 1..], n - 1);
      } else {
        Pigeonhole(q, n - 1);
      }
    }
  }

  /** An active slot leaves room in the free vector. */
  lemma FreeRoom(c: Client, i: nat)
    requires FreeOk(c) && i < WINDOW && c.slots[i].active
    ensures |c.free| < WINDOW
  {
    DistinctAppend(c.free, i);
    Pigeonhole(c.free + [i], WINDOW);
  }

  lemma FinishKept(c: Client, i: nat)
    requires ClientOk(c) && i < WINDOW && c.slots[i].active && c.slots[i].numTx > 0 && c.backlog == []
    ensures Finish(c, i) == Freed(c, i) && ClientOk(Freed(c, i))
  {
    FreeRoom(c, i);
    SlotFreed(c, i);
  }

  // ---------------------------------------------------------------- draining the stall queue

  /** The slots still waiting are those kept so far and those not looked at yet. */
  predicate Waiting(c: Client, q: seq<nat>) { StallOk(c.(stallq := c.stallq + q)) }

  predicate Draining(c: Client, q: seq<nat>) {
    c.status == Running && FreeOk(c) && SlotsOk(c) && BacklogOk(c) && Balanced(c) && Waiting(c, q)
  }

  lemma WaitingHead(c: Client, q: seq<nat>)
    requires Draining(c, q) && q != []
    ensures forall k :: 0 <= k < |q| ==> q[k] < WINDOW
    ensures c.slots[q[0]].active && c.slots[q[0]].numTx == 0 && ReqPending(c.slots[q[0]])
  {
    var w := c.stallq + q;
    assert forall k :: 0 <= k < |q| ==> w[|c.stallq| + k] == q[k];
    assert q[0] in w;
  }

  /** The first waiting slot has sent something and leaves. */
  lemma HeadLeaves(c: Client, c': Client, q: seq<nat>)
    requires StallOk(c.(stallq := q)) && q != [] && q[0] < WINDOW && Shaped(c') && c'.slots[q[0]].numTx > 0
    requires forall k :: 0 <= k < WINDOW && k != q[0] ==> c'.slots[k] == c.slots[k]
    ensures StallOk(c'.(stallq := q[1..]))
  {
    DistinctTail(q);
  }

  lemma WaitingAfterKick(c: Client, q: seq<nat>)
    requires Draining(c, q) && q != [] && c.stallq == [] && c.credits > 0 && q[0] < WINDOW
    ensures Waiting(Kicked(c, q[0]), q[1..])
  {
    WaitingHead(c, q);
    assert [] + q == q && [] + q[1..] == q[1..];
    HeadLeaves(c, Kicked(c, q[0]), q);
  }

  lemma KickKept(c: Client, q: seq<nat>)
    requires Draining(c, q) && q != [] && c.stallq == [] && c.credits > 0 && q[0] < WINDOW
    ensures Unstalled(c, q[0]) == Kicked(c, q[0]) && Draining(Kicked(c, q[0]), q[1..])
  {
    WaitingHead(c, q);
    LaneBalance(LaneOf(c, q[0]));
    LaneKept(c, q[0], KickReq(LaneOf(c, q[0])));
    WaitingAfterKick(c, q);
  }

  lemma LeftStalled(c: Client, q: seq<nat>)
    requires Draining(c, q) && q != [] && q[0] < WINDOW
    ensures Draining(c.(stallq := c.stallq + [q[0]]), q[1..])
  {
    assert c.stallq + [q[0]] + q[1..] == c.stallq + q;
  }

  lemma {:induction false} DrainKept(c: Client, q: seq<nat>)
    requires Draining(c, q) && forall k :: 0 <= k < |q| ==> q[k] < WINDOW
    requires c.stallq != [] ==> c.credits == 0
    ensures Good(DrainFrom(c, q))
    ensures DrainFrom(c, q).stallq != [] ==> DrainFrom(c, q).credits == 0
    decreases |q|
  {
    if q == [] {
      assert c.stallq + q == c.stallq;
    } else if c.credits > 0 {
      KickKept(c, q);
      DrainKept(Kicked(c, q[0]), q[1..]);
    } else {
      LeftStalled(c, q);
      DrainKept(c.(stallq := c.stallq + [q[0]]), q[1..]);
    }
  }

  /** The stall queue is drained without a fault, and slots are left over only without credits. */
  lemma StalledKept(c: Client)
    requires Good(c)
    ensures Good(Drain(c)) && (Drain(c).stallq != [] ==> Drain(c).credits == 0)
  {
    assert [] + c.stallq == c.stallq;
    DrainKept(c.(stallq := []), c.stallq);
  }

  // ---------------------------------------------------------------- which packets keep the invariant

  /** The packet belongs to a slot that is working and has sent something. */
  predicate Working(c: Client, p: ToClient)
    requires Shaped(c)
  {
    c.slots[SlotOf(p)].active && c.slots[SlotOf(p)].numTx > 0
  }

  /** The packet is taken as the last one of a response. */
  predicate Completing(c: Client, p: ToClient)
    requires Shaped(c)
  {
    p.RespPkt? && (p.total == 1 || c.slots[SlotOf(p)].numRx + 1 == p.total)
  }

  lemma CreditTaken(c: Client, p: ToClient)
    requires Good(c) && p.Cr?
    ensures Good(Take(c, p)) <==> Working(c, p)
  {
    var i := SlotOf(p);
    var l := LaneOf(c, i);
    if c.slots[i].active {
      LaneBalance(l);
      if c.slots[i].numTx > 0 { LaneStep(c, i, OnCredit(l)); } else { StallBroken(c, i, Take(c, p)); }
    }
  }

  lemma RespOnWorking(c: Client, p: ToClient)
    requires Good(c) && p.RespPkt? && p.total >= 1 && Working(c, p)
    ensures Good(Take(c, p)) <==> !(Completing(c, p) && c.backlog != [])
    ensures Completing(c, p) && c.backlog != [] ==> Take(c, p).status == NullHeader
  {
    var i := SlotOf(p);
    var l := OnResp(LaneOf(c, i), p);
    LaneBalance(LaneOf(c, i));
    LaneStep(c, i, l);
    var c1 := WithLane(c, i, l);
    FreeRoom(c1, i);
    if Completing(c, p) && c.backlog == [] { FinishKept(c1, i); }
  }

  /** The last packet of a response frees its slot. */
  lemma LastTaken(c: Client, p: ToClient)
    requires Good(c) && Working(c, p) && Completing(c, p) && c.backlog == []
    ensures Take(c, p) == Freed(WithLane(c, SlotOf(p), OnResp(LaneOf(c, SlotOf(p)), p)), SlotOf(p))
  {
    FreeRoom(c, SlotOf(p));
  }

  lemma RespOnIdle(c: Client, p: ToClient)
    requires Good(c) && p.RespPkt? && p.total >= 1 && !Working(c, p)
    ensures !Good(Take(c, p))
  {
    var i := SlotOf(p);
    var c' := Take(c, p);
    if c.slots[i].active {
      FreeRoom(c, i);
      if c'.status == Running { StallBroken(c, i, c'); }
    } else if c'.status == Running {
      assert i in c.free;
      var j :| 0 <= j < |c.free| && c.free[j] == i;
      assert c'.free[j] == c'.free[|c.free|] == i;
    }
  }

  /**
   A packet keeps the client's invariant if and only if its slot is working on some request and the
   packet does not complete it over a backlog. Nothing else about the packet matters, neither its
   request number nor whether it was taken before.
   */
  lemma TakeKeepsIff(c: Client, p: ToClient)
    requires Good(c) && (p.RespPkt? ==> p.total >= 1)
    ensures Good(Take(c, p)) <==> Working(c, p) && !(Completing(c, p) && c.backlog != [])
  {
    if p.Cr? {
      CreditTaken(c, p);
    } else if Working(c, p) {
      RespOnWorking(c, p);
    } else {
      RespOnIdle(c, p);
    }
  }
}
