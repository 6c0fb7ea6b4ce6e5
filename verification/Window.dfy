/**
 The session window with loss recovery, as its contracts describe it: the in-order filter, the
 rollback, and pacing through the timing wheel, over a network that drops, duplicates and reorders.
 `num_tx` covers packets waiting in the wheel.

 `up` and `down` hold every packet ever put on the wire in each direction. Receiving does not remove
 a packet, so it may arrive any number of times, in any order, or never.
 */
module Window {
  import opened SessionState

  /** A packet or the reply to it, by its untruncated request and packet number. */
  datatype Pkt = Pkt(reqNum: nat, num: nat)

  /** `wheel` holds the packet numbers of this slot that are in the timing wheel. */
  datatype PacedSlot = PacedSlot(active: bool, reqNum: nat, request: Request, numTx: nat, numRx: nat,
                                 inWheel: seq<bool>, wheelCount: nat, wheel: multiset<nat>, accepted: seq<nat>)

  datatype State = State(credits: nat, slots: seq<PacedSlot>, up: set<Pkt>, down: set<Pkt>)

  function NoFlags(): seq<bool> { seq(CREDITS, i => false) }

  function Init(): State {
    State(CREDITS,
          seq(WINDOW, i requires 0 <= i => PacedSlot(false, i, Request(0, 0), 0, 0, NoFlags(), 0, multiset{}, [])),
          {}, {})
  }

  /** What may be sent: request packets, then, once a response packet is in, one packet for each more. */
  function Limit(s: PacedSlot): nat { if s.numRx < s.request.pkts then s.request.pkts else WirePkts(s.request) }

  /** The truncated header fields decide: see `in_order_client`. */
  predicate InOrder(s: PacedSlot, q: Pkt)
    requires |s.inWheel| == CREDITS
  {
    && q.reqNum % REQ_NUMS == s.reqNum
    && q.num % PKT_NUMS == s.numRx
    && q.num % PKT_NUMS < s.numTx
    && !s.inWheel[q.num % PKT_NUMS % CREDITS]
  }

  // ---------------------------------------------------------------- steps

  datatype Step =
    | Begin(i: nat, request: Request)
    | Transmit(i: nat)
    | EnqueueWheel(i: nat)
    | Reap(i: nat, n: nat)
    | Reply(p: Pkt)
    | Receive(q: Pkt)
    | Rollback(i: nat)

  predicate Shaped(g: State) {
    |g.slots| == WINDOW && forall i :: 0 <= i < WINDOW ==> |g.slots[i].inWheel| == CREDITS
  }

  predicate MaySend(g: State, i: nat)
    requires Shaped(g)
  {
    i < WINDOW && g.slots[i].active && g.credits > 0 && g.slots[i].numTx < Limit(g.slots[i])
  }

  predicate Enabled(g: State, st: Step) {
    Shaped(g) &&
    match st
    case Begin(i, r) => i < WINDOW && !g.slots[i].active && r.pkts >= 1 && r.answer >= 1
    case Transmit(i) => MaySend(g, i) && g.slots[i].wheelCount == 0
    case EnqueueWheel(i) => MaySend(g, i)
    case Reap(i, n) => i < WINDOW && n in g.slots[i].wheel && g.slots[i].wheelCount > 0
    case Reply(p) => p in g.up
    case Receive(q) => q in g.down
    case Rollback(i) => i < WINDOW && g.slots[i].active && g.slots[i].numRx <= g.slots[i].numTx
  }

  function BeginSlot(s: PacedSlot, r: Request): PacedSlot {
    s.(active := true, reqNum := s.reqNum + WINDOW, request := r, numTx := 0, numRx := 0, accepted := [])
  }

  /** `enqueue_wheel_req_st` and `enqueue_wheel_rfr_st`, with the kick that calls them. */
  function WheelSlot(s: PacedSlot): PacedSlot
    requires |s.inWheel| == CREDITS
  {
    s.(numTx := s.numTx + 1, inWheel := s.inWheel[s.numTx % CREDITS := true],
       wheelCount := s.wheelCount + 1, wheel := s.wheel + multiset{s.numTx})
  }

  /** `process_wheel_st` on one ready entry. */
  function ReapSlot(s: PacedSlot, n: nat): PacedSlot
    requires |s.inWheel| == CREDITS && s.wheelCount > 0
  {
    s.(inWheel := s.inWheel[n % CREDITS := false], wheelCount := s.wheelCount - 1, wheel := s.wheel - multiset{n})
  }

  function AcceptSlot(s: PacedSlot, q: Pkt): PacedSlot {
    var s' := s.(numRx := s.numRx + 1, accepted := s.accepted + [q.num]);
    if s'.numRx == WirePkts(s.request) then s'.(active := false) else s'
  }

  function SlotFor(q: Pkt): nat { q.reqNum % REQ_NUMS % WINDOW }

  function Next(g: State, st: Step): (g': State)
    requires Enabled(g, st)
    ensures |g'.slots| == WINDOW
  {
    match st
    case Begin(i, r) => g.(slots := g.slots[i := BeginSlot(g.slots[i], r)])
    case Transmit(i) =>
      var s := g.slots[i];
      g.(credits := g.credits - 1, slots := g.slots[i := s.(numTx := s.numTx + 1)],
         up := g.up + {Pkt(s.reqNum, s.numTx)})
    case EnqueueWheel(i) => g.(credits := g.credits - 1, slots := g.slots[i := WheelSlot(g.slots[i])])
    case Reap(i, n) =>
      var s := g.slots[i];
      g.(slots := g.slots[i := ReapSlot(s, n)], up := g.up + {Pkt(s.reqNum, n)})
    case Reply(p) => g.(down := g.down + {p})
    case Receive(q) =>
      var s := g.slots[SlotFor(q)];
      if InOrder(s, q) then
        g.(credits := g.credits + 1, slots := g.slots[SlotFor(q) := AcceptSlot(s, q)])
      else g
    case Rollback(i) =>
      var s := g.slots[i];
      if s.numTx == s.numRx || s.wheelCount > 0 then g
      else g.(credits := g.credits + (s.numTx - s.numRx), slots := g.slots[i := s.(numTx := s.numRx)])
  }

  predicate Legal(g: State, steps: seq<Step>)
    decreases |steps|
  {
    steps == [] || (Enabled(g, steps[0]) && Legal(Next(g, steps[0]), steps[1..]))
  }

  function After(g: State, steps: seq<Step>): State
    requires Legal(g, steps)
    decreases |steps|
  {
    if steps == [] then g else After(Next(g, steps[0]), steps[1..])
  }
}
