/**
 The session window over whole runs of a network that drops, duplicates and reorders packets: what
 is always true, and exactly which requests can be brought to completion.
 */
module WindowRuns {
  import opened SessionState
  import opened Window
  import opened WindowLaws

  // ---------------------------------------------------------------- the invariant

  function Spent(slots: seq<PacedSlot>): int {
    if slots == [] then 0 else slots[0].numTx - slots[0].numRx + Spent(slots[1..])
  }

  lemma {:induction false} SpentUpdate(slots: seq<PacedSlot>, i: nat, s: PacedSlot)
    requires i < |slots|
    ensures Spent(slots[i := s]) == Spent(slots) - (slots[i].numTx - slots[i].numRx) + (s.numTx - s.numRx)
  {
    if i == 0 {
      assert slots[i := s][1..] == slots[1..];
    } else {
      SpentUpdate(slots[1..], i - 1, s);
      assert slots[i := s][1..] == slots[1..][i - 1 := s];
    }
  }

  lemma {:induction false} SpentBounds(slots: seq<PacedSlot>, i: nat)
    requires i < |slots| && forall k :: 0 <= k < |slots| ==> slots[k].numRx <= slots[k].numTx
    ensures slots[i].numTx - slots[i].numRx <= Spent(slots)
  {
    SpentNonNegative(slots[1..]);
    if i > 0 { SpentBounds(slots[1..], i - 1); }
  }

  lemma {:induction false} SpentNonNegative(slots: seq<PacedSlot>)
    requires forall k :: 0 <= k < |slots| ==> slots[k].numRx <= slots[k].numTx
    ensures Spent(slots) >= 0
  {
    if slots != [] { SpentNonNegative(slots[1..]); }
  }

  lemma {:induction false} SpentWitness(slots: seq<PacedSlot>) returns (j: nat)
    requires Spent(slots) > 0
    ensures j < |slots| && slots[j].numTx > slots[j].numRx
  {
    if slots[0].numTx > slots[0].numRx {
      j := 0;
    } else {
      j := SpentWitness(slots[1..]);
      j := j + 1;
    }
  }

  lemma {:induction false} SpentIdle(slots: seq<PacedSlot>)
    requires forall k :: 0 <= k < |slots| ==> slots[k].numTx == slots[k].numRx
    ensures Spent(slots) == 0
  {
    if slots != [] { SpentIdle(slots[1..]); }
  }

  /** A packet on the wire is of an earlier request, or lies in the window or before it. */
  predicate Known(s: PacedSlot, p: Pkt) {
    p.reqNum < s.reqNum || (p.reqNum == s.reqNum && p.num < s.numRx + CREDITS)
  }

  predicate WireOk(g: State)
    requires |g.slots| == WINDOW
  {
    && (forall p :: p in g.up ==> Known(g.slots[p.reqNum % WINDOW], p))
    && g.down <= g.up
  }

  /** Outstanding packets outside the wheel are on the wire, and the counter never passes the field. */
  predicate Reached(s: PacedSlot, up: set<Pkt>) {
    && s.numRx <= PKT_NUMS
    && forall n :: s.numRx <= n < s.numTx && n !in s.wheel ==> Pkt(s.reqNum, n) in up
  }

  predicate SlotsOk(g: State) {
    |g.slots| == WINDOW && forall i :: 0 <= i < WINDOW ==> SlotOk(g.slots[i], i) && Reached(g.slots[i], g.up)
  }

  predicate Inv(g: State) { SlotsOk(g) && WireOk(g) && g.credits + Spent(g.slots) == CREDITS }

  lemma InitSlot(i: nat)
    requires i < WINDOW
    ensures SlotOk(Init().slots[i], i) && Reached(Init().slots[i], {})
  {
    var s := Init().slots[i];
    assert s == PacedSlot(false, i, Request(0, 0), 0, 0, NoFlags(), 0, multiset{}, []);
    CountNone(s.inWheel);
    assert s.accepted == Upto(0);
  }

  lemma InitOk()
    ensures Inv(Init())
  {
    forall i | 0 <= i < WINDOW ensures SlotOk(Init().slots[i], i) && Reached(Init().slots[i], {}) {
      InitSlot(i);
    }
    SpentIdle(Init().slots);
  }

  /** Credits in hand leave room in every slot's window. */
  lemma RoomLeft(g: State, i: nat)
    requires Inv(g) && i < WINDOW
    ensures 0 <= g.slots[i].numTx - g.slots[i].numRx <= CREDITS - g.credits
  {
    assert forall k :: 0 <= k < WINDOW ==> SlotOk(g.slots[k], k);
    SpentBounds(g.slots, i);
  }

  // ---------------------------------------------------------------- the filter is exact

  lemma Residues(r: nat)
    ensures r % REQ_NUMS % WINDOW == r % WINDOW
  {
  }

  /**
   On every packet the network can deliver, the test on the truncated header fields accepts exactly
   the next packet of the current request, if it is outstanding and not in the wheel.
   */
  lemma FilterExact(g: State, q: Pkt)
    requires Inv(g) && q in g.down
    ensures InOrder(g.slots[SlotFor(q)], q) <==> AnswersNext(g.slots[SlotFor(q)], q)
  {
    Residues(q.reqNum);
    SlotFilter(g.slots[SlotFor(q)], SlotFor(q), q);
  }

  /** `q` answers the next packet of the current request, which is outstanding and not in the wheel. */
  predicate AnswersNext(s: PacedSlot, q: Pkt) {
    && q == Pkt(s.reqNum, s.numRx) && s.reqNum < REQ_NUMS && s.numRx < PKT_NUMS
    && s.active && s.numRx < s.numTx && s.numRx !in s.wheel
  }

  lemma SlotFilter(s: PacedSlot, i: nat, q: Pkt)
    requires SlotOk(s, i) && Known(s, q)
    ensures InOrder(s, q) <==> AnswersNext(s, q)
  {
    Fields(q.reqNum, q.num);
    if s.numRx < s.numTx { FlagOfNext(s); }
  }

  /** A number is its field, or at least one whole turn beyond it. */
  lemma Fields(r: nat, n: nat)
    ensures r % REQ_NUMS == r < REQ_NUMS || r >= r % REQ_NUMS + REQ_NUMS
    ensures n % PKT_NUMS == n < PKT_NUMS || n >= n % PKT_NUMS + PKT_NUMS
  {
  }

  /** The flag of the next packet to be answered tells whether it is in the wheel. */
  lemma FlagOfNext(s: PacedSlot)
    requires Counters(s) && Wheel(s) && s.numRx < s.numTx
    ensures s.inWheel[s.numRx % CREDITS] <==> s.numRx in s.wheel
  {
  }

  // ---------------------------------------------------------------- every step keeps it

  /** Replacing one slot, with the credits it trades, keeps everything. */
  lemma SlotStep(g: State, g': State, i: nat)
    requires Inv(g) && i < WINDOW && |g'.slots| == WINDOW && g'.slots == g.slots[i := g'.slots[i]]
    requires SlotOk(g'.slots[i], i) && Reached(g'.slots[i], g'.up) && g.up <= g'.up && g'.down == g.down
    requires g'.credits + (g'.slots[i].numTx - g'.slots[i].numRx) == g.credits + (g.slots[i].numTx - g.slots[i].numRx)
    requires forall p :: p in g.up && p.reqNum % WINDOW == i && Known(g.slots[i], p) ==> Known(g'.slots[i], p)
    requires forall p :: p in g'.up && p !in g.up ==> p.reqNum % WINDOW == i && Known(g'.slots[i], p)
    ensures Inv(g')
  {
    SpentUpdate(g.slots, i, g'.slots[i]);
    forall k | 0 <= k < WINDOW ensures SlotOk(g'.slots[k], k) && Reached(g'.slots[k], g'.up) {
      if k != i {
        SlotAt(g, k);
        MoreReached(g.slots[k], g.up, g'.up);
      }
    }
    assert WireOk(g') by { WireKept(g, g', i); }
  }

  lemma MoreReached(s: PacedSlot, up: set<Pkt>, up': set<Pkt>)
    requires Reached(s, up) && up <= up'
    ensures Reached(s, up')
  {
  }

  lemma WireKept(g: State, g': State, i: nat)
    requires |g.slots| == |g'.slots| == WINDOW && i < WINDOW && g'.slots == g.slots[i := g'.slots[i]]
    requires WireOk(g) && g.up <= g'.up && g'.down == g.down
    requires forall p :: p in g.up && p.reqNum % WINDOW == i && Known(g.slots[i], p) ==> Known(g'.slots[i], p)
    requires forall p :: p in g'.up && p !in g.up ==> p.reqNum % WINDOW == i && Known(g'.slots[i], p)
    ensures WireOk(g')
  {
  }

  lemma SlotAt(g: State, i: nat)
    requires Inv(g) && i < WINDOW
    ensures SlotOk(g.slots[i], i) && Reached(g.slots[i], g.up)
  {
  }

  lemma WheelReached(s: PacedSlot, up: set<Pkt>)
    requires Reached(s, up) && |s.inWheel| == CREDITS
    ensures Reached(WheelSlot(s), up)
  {
  }

  lemma TransmitReached(s: PacedSlot, up: set<Pkt>)
    requires Reached(s, up)
    ensures Reached(s.(numTx := s.numTx + 1), up + {Pkt(s.reqNum, s.numTx)})
  {
  }

  lemma BeginKept(g: State, i: nat, r: Request)
    requires Inv(g) && Enabled(g, Begin(i, r))
    ensures Inv(Next(g, Begin(i, r)))
  {
    var s, g' := g.slots[i], Next(g, Begin(i, r));
    assert SlotOk(s, i);
    BeginOk(s, i, r);
    SlotStep(g, g', i);
  }

  lemma TransmitKept(g: State, i: nat)
    requires Inv(g) && Enabled(g, Transmit(i))
    ensures Inv(Next(g, Transmit(i)))
  {
    hide Wheel;
    RoomLeft(g, i);
    SlotAt(g, i);
    TransmitOk(g.slots[i], i);
    var s, g' := g.slots[i], Next(g, Transmit(i));
    TransmitReached(s, g.up);
    assert Pkt(s.reqNum, s.numTx).reqNum % WINDOW == i && Known(g'.slots[i], Pkt(s.reqNum, s.numTx));
    SlotStep(g, g', i);
  }

  lemma WheelKept(g: State, i: nat)
    requires Inv(g) && Enabled(g, EnqueueWheel(i))
    ensures Inv(Next(g, EnqueueWheel(i)))
  {
    RoomLeft(g, i);
    SlotAt(g, i);
    WheelOk(g.slots[i], i);
    WheelReached(g.slots[i], g.up);
    SlotStep(g, Next(g, EnqueueWheel(i)), i);
  }

  lemma ReapKept(g: State, i: nat, n: nat)
    requires Inv(g) && Enabled(g, Reap(i, n))
    ensures Inv(Next(g, Reap(i, n)))
  {
    var s, g' := g.slots[i], Next(g, Reap(i, n));
    assert SlotOk(s, i) && Reached(s, g.up);
    ReapOk(s, i, n);
    assert s.reqNum % WINDOW == i && Known(s, Pkt(s.reqNum, n));
    SlotStep(g, g', i);
  }

  lemma ReceiveKept(g: State, q: Pkt)
    requires Inv(g) && Enabled(g, Receive(q))
    ensures Inv(Next(g, Receive(q)))
  {
    var i := SlotFor(q);
    var s := g.slots[i];
    if InOrder(s, q) {
      FilterExact(g, q);
      assert SlotOk(s, i) && Reached(s, g.up);
      AcceptOk(s, i, q);
      SlotStep(g, Next(g, Receive(q)), i);
    }
  }

  lemma RollbackKept(g: State, i: nat)
    requires Inv(g) && Enabled(g, Rollback(i))
    ensures Inv(Next(g, Rollback(i)))
  {
    var s := g.slots[i];
    if s.numTx != s.numRx && s.wheelCount == 0 {
      assert SlotOk(s, i) && Reached(s, g.up);
      RollbackOk(s, i);
      SlotStep(g, Next(g, Rollback(i)), i);
    }
  }

  lemma StepKept(g: State, st: Step)
    requires Inv(g) && Enabled(g, st)
    ensures Inv(Next(g, st))
  {
    match st
    case Begin(i, r) => BeginKept(g, i, r);
    case Transmit(i) => TransmitKept(g, i);
    case EnqueueWheel(i) => WheelKept(g, i);
    case Reap(i, n) => ReapKept(g, i, n);
    case Reply(_) =>
    case Receive(q) => ReceiveKept(g, q);
    case Rollback(i) => RollbackKept(g, i);
  }

  lemma {:induction false} RunKept(g: State, steps: seq<Step>)
    requires Inv(g) && Legal(g, steps)
    ensures Inv(After(g, steps))
    decreases |steps|
  {
    if steps != [] {
      StepKept(g, steps[0]);
      RunKept(Next(g, steps[0]), steps[1..]);
    }
  }
}
