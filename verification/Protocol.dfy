/**
 A client session, the server end of the same session and the network between them. The network
 neither loses nor duplicates packets and keeps the order of each slot's packets in each direction;
 packets of different slots may overtake each other. A failed assertion does not stop a step; the
 laws say which assertions hold when.
 */
module Protocol {
  import opened SessionState
  import opened SessionLaws

  /**
   The server end of a slot. `numRx` counts request packets, then requests-for-response; `respPkts`
   is zero until the handler has enqueued its response. `answered` says that the response buffer
   pointer is set: nothing ever clears it.
   */
  datatype Srv = Srv(reqNum: nat, numRx: nat, total: nat, pending: bool, respPkts: nat, answered: bool)

  datatype ServerStep = ServerStep(srv: Srv, out: seq<ToClient>)

  /** `process_small_req_st` and `process_large_req_one_st`. */
  function OnReq(srv: Srv, p: ToServer): ServerStep
    requires p.Req?
  {
    if p.total == 1 then
      ServerStep(Srv(p.reqNum, 1, 1, true, 0, srv.answered), [])
    else
      var numRx := if p.num == 0 then 1 else srv.numRx + 1;
      var reqNum := if p.num == 0 then p.reqNum else srv.reqNum;
      ServerStep(Srv(reqNum, numRx, p.total, numRx == p.total, 0, srv.answered),
                 if p.num + 1 != p.total then [Cr(p.reqNum, p.num)] else [])
  }

  /** `enqueue_response` sends packet 0 of a response of `n` packets. */
  function Respond(srv: Srv, n: nat): ServerStep {
    ServerStep(srv.(pending := false, respPkts := n, answered := true), [RespPkt(srv.reqNum, 0, n)])
  }

  /** `resp_ntoi`. */
  function RespIndex(num: nat, reqPkts: nat): int { num - (reqPkts - 1) }

  /** `process_rfr_st`; `enqueue_response` has set the saved number of request packets to one. */
  function OnRfr(srv: Srv, p: ToServer): ServerStep
    requires p.Rfr?
  {
    ServerStep(srv.(numRx := srv.numRx + 1), [RespPkt(srv.reqNum, RespIndex(p.num, 1), srv.respPkts)])
  }

  function OnPacket(srv: Srv, p: ToServer): ServerStep {
    if p.Req? then OnReq(srv, p) else OnRfr(srv, p)
  }

  /** The assertion of `process_small_req_st` on the request number. */
  predicate NextRequest(srv: Srv, p: ToServer) { p.reqNum == srv.reqNum + WINDOW }

  /** The assertion of `enqueue_response` that no response is in place. */
  predicate NoResponseYet(srv: Srv) { !srv.answered }

  // ---------------------------------------------------------------- one slot and its channels

  datatype Link = Link(slot: Slot, up: seq<ToServer>, srv: Srv, down: seq<ToClient>)

  function Crs(reqNum: nat, from: nat, n: nat): seq<ToClient> {
    seq(n, k requires 0 <= k => Cr(reqNum, from + k))
  }

  /** The server has started on the slot's current request. */
  predicate Current(l: Link) { l.srv.reqNum == l.slot.hdr }

  /** The server is still at the request before. */
  predicate Previous(l: Link) { l.srv.reqNum < REQ_NUMS && NextHdr(l.srv.reqNum) == l.slot.hdr }

  /** Request packets of the current request that the server has taken. */
  function Arrived(l: Link): nat { if Current(l) then Min(l.srv.numRx, l.slot.request.pkts) else 0 }

  /** Response packets of the current request that the server has sent. */
  function Served(l: Link): nat {
    if Current(l) && l.srv.respPkts > 0 && l.srv.numRx >= l.slot.request.pkts then
      1 + l.srv.numRx - l.slot.request.pkts
    else 0
  }

  function ReqsSent(s: Slot): nat { Min(s.numTx, s.request.pkts) }

  function RfrsSent(s: Slot): nat { s.numTx - ReqsSent(s) }

  predicate Idle(l: Link) {
    l.up == [] && l.down == [] && !l.srv.pending
    && (if l.slot.active then Previous(l) else Current(l))
    && (l.slot.active ==> l.slot.numRx == l.slot.crs == 0 && l.slot.got == [] && Serves(l.slot.request))
  }

  /** The server is still at the previous request or has started on this one. */
  predicate ServerOk(l: Link) {
    var R := l.slot.request.pkts;
    if Current(l) then
      && 1 <= l.srv.numRx && l.srv.total == R
      && (if l.srv.respPkts == 0 then l.srv.numRx <= R
          else l.srv.respPkts == l.slot.request.answer && l.srv.numRx >= R)
      && (l.srv.pending <==> l.srv.numRx == R && l.srv.respPkts == 0)
    else
      Previous(l) && !l.srv.pending
  }

  /** How far each end may be ahead of the other. */
  predicate Progress(l: Link) {
    var s, R := l.slot, l.slot.request.pkts;
    && Serves(s.request)
    && s.crs <= Min(Arrived(l), R - 1) && Arrived(l) <= ReqsSent(s)
    && s.numRx <= Served(l) <= s.request.answer && Served(l) <= RfrsSent(s) + 1
    && (s.numRx > 0 ==> s.crs == R - 1) && (RfrsSent(s) > 0 ==> s.numRx > 0)
    && s.numTx <= WirePkts(s.request) && s.crs + s.numRx < s.numTx && s.numRx < s.request.answer
  }

  /** What is on the wire, exactly. */
  predicate OnWire(l: Link)
    requires Progress(l)
  {
    var s, h, R, v := l.slot, l.slot.hdr, l.slot.request.pkts, if Served(l) == 0 then 1 else Served(l);
    && l.up == Requests(h, R, Arrived(l), ReqsSent(s) - Arrived(l)) + Rfrs(h, v, RfrsSent(s) + 1 - v)
    && l.down == Crs(h, s.crs, Min(Arrived(l), R - 1) - s.crs)
               + Resps(h, s.request.answer, s.numRx, Served(l) - s.numRx)
    && s.got == Resps(h, s.request.answer, 0, s.numRx)
  }

  predicate Busy(l: Link) { l.slot.active && ServerOk(l) && Progress(l) && OnWire(l) }

  predicate LinkOk(l: Link) { if l.slot.active && l.slot.numTx > 0 then Busy(l) else Idle(l) }

  /** Packets of the slot in flight, and one for a handler that has yet to respond. */
  function InFlight(l: Link): nat { |l.up| + |l.down| + if l.srv.pending then 1 else 0 }

  // ---------------------------------------------------------------- the whole system

  datatype State = State(client: Client, srv: seq<Srv>, down: seq<seq<ToClient>>)

  predicate WellFormed(g: State) { Shaped(g.client) && |g.srv| == WINDOW && |g.down| == WINDOW }

  function LinkOf(g: State, i: nat): Link
    requires WellFormed(g) && i < WINDOW
  {
    Link(g.client.slots[i], g.client.up[i], g.srv[i], g.down[i])
  }

  function Connected(): State {
    State(NewSession(), seq(WINDOW, i requires 0 <= i => Srv(i, 0, 0, false, 0, false)), seq(WINDOW, i => []))
  }

  datatype Step =
    | Submit(r: Request)
    | Stall
    | ToSrv(i: nat)
    | Answer(i: nat)
    | ToCli(i: nat)

  predicate Enabled(g: State, st: Step) {
    WellFormed(g) && g.client.status == Running &&
    match st
    case Submit(r) => Serves(r)
    case Stall => true
    case ToSrv(i) => i < WINDOW && g.client.up[i] != []
    case Answer(i) => i < WINDOW && g.srv[i].pending
    case ToCli(i) => i < WINDOW && g.down[i] != []
  }

  function WithServer(g: State, i: nat, s: ServerStep): (g': State)
    requires WellFormed(g) && i < WINDOW
    ensures WellFormed(g')
  {
    g.(srv := g.srv[i := s.srv], down := g.down[i := g.down[i] + s.out])
  }

  function Next(g: State, st: Step): (g': State)
    requires Enabled(g, st)
    ensures WellFormed(g')
  {
    match st
    case Submit(r) => g.(client := Enqueue(g.client, r))
    case Stall => g.(client := Drain(g.client))
    case ToSrv(i) =>
      var p := g.client.up[i][0];
      var g' := g.(client := g.client.(up := g.client.up[i := g.client.up[i][1..]]));
      WithServer(g', i, OnPacket(g.srv[i], p))
    case Answer(i) => WithServer(g, i, Respond(g.srv[i], g.client.slots[i].request.answer))
    case ToCli(i) =>
      g.(down := g.down[i := g.down[i][1..]], client := Take(g.client, g.down[i][0]))
  }

  /** The client's assertions on the packet next for slot `i`: bump_credits, and the request number. */
  predicate AssertsHold(g: State, i: nat)
    requires WellFormed(g) && i < WINDOW && g.down[i] != []
  {
    g.client.credits < CREDITS && g.down[i][0].reqNum <= g.client.slots[i].reqNum
  }
}
