/**
 The client end of a session as values: credits, slots, the free-slot vector, the backlog and the
 stall queue, and what each datapath call does to them. Every function is total: a call that goes
 through a null pointer or past the end of the free vector ends in a status other than `Running`.
 Assertions do not stop a call here; whether they hold is stated beside the functions.

 `up[i]` collects the packets that slot `i` has handed to the network.
 */
module SessionState {
  const CREDITS: nat := 32
  const WINDOW: nat := 32

  /** Widths of the packet number and request number fields of the packet header. */
  const PKT_NUMS: nat := 0x1_0000
  const REQ_NUMS: nat := 0x1_0000_0000

  /** A request of `pkts` packets whose handler will answer with `answer` packets. */
  datatype Request = Request(pkts: nat, answer: nat)

  datatype ToServer = Req(reqNum: nat, num: nat, total: nat) | Rfr(reqNum: nat, num: nat)

  /** Credit returns and response packets; `total` is the packet count of the response. */
  datatype ToClient = Cr(reqNum: nat, num: nat) | RespPkt(reqNum: nat, num: nat, total: nat)

  /**
   `reqNum` is the request number and `hdr` what the packet headers hold of it. `crs` counts the
   credit returns taken and `got` lists the response packets taken.
   */
  datatype Slot = Slot(active: bool, reqNum: nat, hdr: nat, request: Request,
                       numTx: nat, numRx: nat, crs: nat, got: seq<ToClient>)

  /** What a per-slot operation reads and writes. */
  datatype Lane = Lane(slot: Slot, up: seq<ToServer>, credits: nat)

  /**
   A finished request: its continuation runs with the response packets `got`. `owed` is what the
   slot still had outstanding.
   */
  datatype Completion = Completion(reqNum: nat, request: Request, got: seq<ToClient>, owed: int)

  /**
   `NullRequest`: a packet for a slot without a request reached code that reads the request.
   `NullHeader`: a request was started, or more of a response asked for, without a packet header.
   `FreeOverflow`: a slot was pushed to a full free vector.
   */
  datatype Status = Running | NullRequest | NullHeader | FreeOverflow

  datatype Client = Client(credits: nat, slots: seq<Slot>, up: seq<seq<ToServer>>, free: seq<nat>,
                           backlog: seq<Request>, stallq: seq<nat>, done: seq<Completion>, status: Status)

  /** Packets sent for the current request and not yet answered by a credit return or a response. */
  function Outstanding(s: Slot): int { if s.active then s.numTx - s.crs - s.numRx else 0 }

  /** The numbers 0, 1, .. below `n`. */
  function Upto(n: nat): seq<nat> { seq(n, k requires 0 <= k => k) }

  function Min(a: nat, b: nat): nat { if a < b then a else b }

  /** A request number as the 32-bit header field holds it. */
  function Hdr(n: nat): (h: nat)
    ensures h < REQ_NUMS
  {
    if n < REQ_NUMS then n else Hdr(n - REQ_NUMS)
  }

  /** The field of a slot's next request. */
  function NextHdr(h: nat): nat { if h + WINDOW < REQ_NUMS then h + WINDOW else h + WINDOW - REQ_NUMS }

  /** The field leads back to the slot, and wraps. */
  lemma {:induction false} HdrSlot(n: nat)
    ensures Hdr(n) % WINDOW == n % WINDOW && Hdr(n) <= n
    ensures Hdr(n + WINDOW) == NextHdr(Hdr(n))
  {
    if n >= REQ_NUMS {
      HdrSlot(n - REQ_NUMS);
      WholeTurn(n);
    }
  }

  /** Both fields hold the number modulo their width. */
  lemma {:induction false} HdrIs(n: nat)
    ensures Hdr(n) == n % 0x1_0000_0000
  {
    if n >= REQ_NUMS { HdrIs(n - REQ_NUMS); }
  }

  lemma {:induction false} Num16Is(n: int)
    ensures Num16(n) == n % 0x1_0000
    decreases if n < 0 then PKT_NUMS - n else n
  {
    if n < 0 {
      Num16Is(n + PKT_NUMS);
      Turn16(n);
    } else if n >= PKT_NUMS {
      Num16Is(n - PKT_NUMS);
      Turn16(n - PKT_NUMS);
    }
  }

  lemma Turn16(n: int)
    ensures (n + 0x1_0000) % 0x1_0000 == n % 0x1_0000
  {
  }

  lemma WholeTurn(n: nat)
    requires n >= REQ_NUMS
    ensures (n - REQ_NUMS) % WINDOW == n % WINDOW
  {
  }

  /** A packet number as the 16-bit header field holds it. */
  function Num16(n: int): nat
    decreases if n < 0 then PKT_NUMS - n else n
  {
    if n < 0 then Num16(n + PKT_NUMS) else if n >= PKT_NUMS then Num16(n - PKT_NUMS) else n
  }

  /** The packets one endpoint puts on the wire for a request. */
  function WirePkts(r: Request): nat { Wire(r, r.answer) }

  function Wire(r: Request, respPkts: nat): nat { if r.pkts + respPkts == 0 then 0 else r.pkts + respPkts - 1 }

  function Requests(reqNum: nat, total: nat, from: nat, n: nat): seq<ToServer> {
    seq(n, k requires 0 <= k => Req(reqNum, from + k, total))
  }

  function Rfrs(reqNum: nat, from: int, n: nat): seq<ToServer> {
    seq(n, k requires 0 <= k => Rfr(reqNum, Num16(from + k)))
  }

  /** `n` packets of a response of `total`, from number `from` on. */
  function Resps(reqNum: nat, total: nat, from: nat, n: nat): seq<ToClient> {
    seq(n, k requires 0 <= k => RespPkt(reqNum, from + k, total))
  }

  /** The response packet a slot is waiting for, and its whole response. */
  function NextResp(s: Slot): ToClient { RespPkt(s.hdr, s.numRx, s.request.answer) }

  function WholeResp(reqNum: nat, r: Request): seq<ToClient> { Resps(Hdr(reqNum), r.answer, 0, r.answer) }

  predicate ReqPending(s: Slot) { s.numTx < s.request.pkts }

  /** `kick_req_st`: as many request packets as credits allow. */
  function KickReq(l: Lane): Lane
    requires ReqPending(l.slot)
  {
    var n := Min(l.credits, l.slot.request.pkts - l.slot.numTx);
    Lane(l.slot.(numTx := l.slot.numTx + n),
         l.up + Requests(l.slot.hdr, l.slot.request.pkts, l.slot.numTx, n),
         l.credits - n)
  }

  /** How many requests-for-response are pending; the unsigned difference wraps to a huge number. */
  function RfrsToSend(l: Lane, total: nat): nat {
    var wire := Wire(l.slot.request, total);
    if wire < l.slot.numTx then l.credits else Min(l.credits, wire - l.slot.numTx)
  }

  /**
   `kick_rfr_st`: as many requests-for-response as credits allow, for a response of `total` packets.
   They carry the request number of the response packet at hand.
   */
  function KickRfr(l: Lane, reqNum: nat, total: nat): Lane {
    var n := RfrsToSend(l, total);
    Lane(l.slot.(numTx := l.slot.numTx + n),
         l.up + Rfrs(reqNum, l.slot.numTx - l.slot.request.pkts + 1, n),
         l.credits - n)
  }

  /** `process_expl_cr_st` for a slot with a request. `num_rx` is not bumped. */
  function OnCredit(l: Lane): Lane {
    var l' := l.(slot := l.slot.(crs := l.slot.crs + 1), credits := l.credits + 1);
    if ReqPending(l'.slot) then KickReq(l') else l'
  }

  /** `process_resp_one_st` up to the test for completion. */
  function OnResp(l: Lane, p: ToClient): Lane
    requires p.RespPkt?
  {
    var l' := Lane(l.slot.(numRx := l.slot.numRx + 1, got := l.slot.got + [p]), l.up, l.credits + 1);
    if p.total > 1 && l.slot.numTx != Wire(l.slot.request, p.total) then KickRfr(l', p.reqNum, p.total) else l'
  }

  /** A single-packet response completes at once, a longer one when its packets have been counted. */
  predicate Completes(s: Slot, total: nat) { total == 1 || s.numRx == total }

  // ---------------------------------------------------------------- the whole client

  predicate Shaped(c: Client) {
    |c.slots| == WINDOW && |c.up| == WINDOW
    && (forall k :: 0 <= k < |c.free| ==> c.free[k] < WINDOW)
    && (forall k :: 0 <= k < |c.stallq| ==> c.stallq[k] < WINDOW)
  }

  function LaneOf(c: Client, i: nat): Lane
    requires Shaped(c) && i < WINDOW
  {
    Lane(c.slots[i], c.up[i], c.credits)
  }

  function WithLane(c: Client, i: nat, l: Lane): (c': Client)
    requires Shaped(c) && i < WINDOW
    ensures Shaped(c')
  {
    c.(credits := l.credits, slots := c.slots[i := l.slot], up := c.up[i := l.up])
  }

  /** Numbering and free slots as the `Session` constructor leaves them. */
  function NewSession(): Client {
    Client(CREDITS, seq(WINDOW, i requires 0 <= i => Slot(false, i, i, Request(0, 0), 0, 0, 0, [])),
           seq(WINDOW, i => []), seq(WINDOW, i requires 0 <= i < WINDOW => WINDOW - 1 - i), [], [], [], Running)
  }

  function FreshSlot(s: Slot, r: Request): Slot {
    Slot(true, s.reqNum + WINDOW, Hdr(s.reqNum + WINDOW), r, 0, 0, 0, [])
  }

  /** `kick_req_st` on slot `i`, which does nothing if no packet is pending. */
  function Kicked(c: Client, i: nat): (c': Client)
    requires Shaped(c) && i < WINDOW
    ensures Shaped(c')
  {
    if ReqPending(c.slots[i]) then WithLane(c, i, KickReq(LaneOf(c, i))) else c
  }

  /** `enqueue_request` with a free slot: take it, then send or stall. */
  function Start(c: Client, r: Request): (c': Client)
    requires Shaped(c) && c.free != []
    ensures Shaped(c')
  {
    var i := c.free[|c.free| - 1];
    var c1 := c.(free := c.free[..|c.free| - 1], slots := c.slots[i := FreshSlot(c.slots[i], r)]);
    if c.credits > 0 then Kicked(c1, i) else c1.(stallq := c1.stallq + [i])
  }

  function Enqueue(c: Client, r: Request): (c': Client)
    requires Shaped(c)
    ensures Shaped(c')
  {
    if c.free == [] then c.(backlog := c.backlog + [r]) else Start(c, r)
  }

  /** The complete response has arrived: the slot is freed and the continuation runs. */
  function Freed(c: Client, i: nat): (c': Client)
    requires Shaped(c) && i < WINDOW
    ensures Shaped(c')
  {
    var s := c.slots[i];
    c.(slots := c.slots[i := s.(active := false, numRx := 0)], free := c.free + [i],
       done := c.done + [Completion(s.reqNum, s.request, s.got, Outstanding(s))])
  }

  /** A request popped from the backlog is started without a packet header. */
  function Finish(c: Client, i: nat): (c': Client)
    requires Shaped(c) && i < WINDOW
    ensures Shaped(c')
  {
    if |c.free| >= WINDOW then c.(status := FreeOverflow)
    else if c.backlog != [] then c.(status := NullHeader)
    else Freed(c, i)
  }

  function ProcessCredit(c: Client, i: nat): (c': Client)
    requires Shaped(c) && i < WINDOW
    ensures Shaped(c')
  {
    if c.slots[i].active then WithLane(c, i, OnCredit(LaneOf(c, i)))
    else c.(credits := c.credits + 1, status := NullRequest)
  }

  function ProcessResp(c: Client, i: nat, p: ToClient): (c': Client)
    requires Shaped(c) && i < WINDOW && p.RespPkt?
    ensures Shaped(c')
  {
    if !c.slots[i].active && p.total > 1 then
      c.(credits := c.credits + 1, slots := c.slots[i := c.slots[i].(numRx := c.slots[i].numRx + 1)],
         status := NullRequest)
    else
      var c1 := WithLane(c, i, OnResp(LaneOf(c, i), p));
      if Completes(c1.slots[i], p.total) then Finish(c1, i) else c1
  }

  /** The slot a packet is dispatched to. */
  function SlotOf(p: ToClient): (i: nat)
    ensures i < WINDOW
  {
    p.reqNum % WINDOW
  }

  /** A packet of either kind reaches the client. */
  function Take(c: Client, p: ToClient): (c': Client)
    requires Shaped(c)
    ensures Shaped(c')
  {
    if p.Cr? then ProcessCredit(c, SlotOf(p)) else ProcessResp(c, SlotOf(p), p)
  }

  /** One slot of the stall queue, with credits at hand. */
  function Unstalled(c: Client, i: nat): (c': Client)
    requires Shaped(c) && i < WINDOW
    ensures Shaped(c')
  {
    if !c.slots[i].active then c.(status := NullRequest)
    else if ReqPending(c.slots[i]) then Kicked(c, i)
    else c.(status := NullHeader)
  }

  /** `process_credit_stall_queue_st`: kick while there are credits, keep the rest in order. */
  function DrainFrom(c: Client, q: seq<nat>): (c': Client)
    requires Shaped(c) && forall k :: 0 <= k < |q| ==> q[k] < WINDOW
    ensures Shaped(c')
    decreases |q|
  {
    if q == [] || c.status != Running then c
    else if c.credits > 0 then DrainFrom(Unstalled(c, q[0]), q[1..])
    else DrainFrom(c.(stallq := c.stallq + [q[0]]), q[1..])
  }

  function Drain(c: Client): (c': Client)
    requires Shaped(c)
    ensures Shaped(c')
  {
    DrainFrom(c.(stallq := []), c.stallq)
  }
}
