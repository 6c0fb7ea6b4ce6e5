/**
 The invariant of the session protocol and the steps that keep it: credits match the packets in
 flight, the client's assertions hold, responses are delivered complete, in order and once, and each
 delivery uses up one unit of the work the requests in progress need.
 */
module ProtocolLaws {
  import opened SessionState
  import opened SessionLaws
  import opened Protocol
  import opened LinkLaws

  // ---------------------------------------------------------------- work left

  /** Deliveries and handler responses a request takes from start to end. */
  function Cost(r: Request): nat { if r.pkts + r.answer == 0 then 0 else 2 * (r.pkts + r.answer) - 1 }

  /** Those still to come for the request a slot is working on. */
  function Todo(l: Link): int {
    var r := l.slot.request;
    if !l.slot.active then 0
    else (r.pkts - Arrived(l)) + (r.pkts - 1 - l.slot.crs) + (r.answer - Served(l)) + (r.answer - l.slot.numRx)
  }

  function TodoUpto(g: State, n: nat): int
    requires WellFormed(g) && n <= WINDOW
  {
    if n == 0 then 0 else TodoUpto(g, n - 1) + Todo(LinkOf(g, n - 1))
  }

  /** The work left of all requests in progress. */
  function Work(g: State): int
    requires WellFormed(g)
  {
    TodoUpto(g, WINDOW)
  }

  /** Only link `i` differs. */
  predicate OnlyLink(g: State, g': State, i: nat)
    requires WellFormed(g) && WellFormed(g')
  {
    forall k :: 0 <= k < WINDOW && k != i ==> LinkOf(g', k) == LinkOf(g, k)
  }

  lemma {:induction false} TodoChange(g: State, g': State, i: nat, n: nat)
    requires WellFormed(g) && WellFormed(g') && OnlyLink(g, g', i) && i < WINDOW && n <= WINDOW
    ensures TodoUpto(g', n)
         == TodoUpto(g, n) + (if i < n then Todo(LinkOf(g', i)) - Todo(LinkOf(g, i)) else 0)
  {
    if n > 0 { TodoChange(g, g', i, n - 1); }
  }

  // ---------------------------------------------------------------- the invariant

  predicate LinksOk(g: State) { WellFormed(g) && forall i :: 0 <= i < WINDOW ==> LinkOk(LinkOf(g, i)) }

  /** Every finished request got its whole response in order and owes nothing. */
  predicate Complete(d: Completion) { d.got == WholeResp(d.reqNum, d.request) && d.owed == 0 }

  predicate DoneOk(c: Client) {
    Shaped(c)
    && (forall k :: 0 <= k < |c.done| ==> Complete(c.done[k]))
    && (forall k :: 0 <= k < |c.done| ==> Before(c.done[k], c.slots))
    && (forall j, k :: 0 <= j < k < |c.done| ==> c.done[j].reqNum != c.done[k].reqNum)
  }

  /** A finished request's number is no longer the number of an active request. */
  predicate Before(d: Completion, slots: seq<Slot>)
    requires |slots| == WINDOW
  {
    var s := slots[d.reqNum % WINDOW];
    if s.active then d.reqNum < s.reqNum else d.reqNum <= s.reqNum
  }

  /** The server has a response in place exactly if it answered an earlier request, or this one. */
  predicate AnsweredOk(l: Link, i: nat) {
    l.srv.answered <==>
      l.slot.reqNum > i + WINDOW
      || (l.slot.reqNum == i + WINDOW && (l.slot.active ==> Current(l) && l.srv.respPkts > 0))
  }

  predicate AllAnsweredOk(g: State) { WellFormed(g) && forall i :: 0 <= i < WINDOW ==> AnsweredOk(LinkOf(g, i), i) }

  predicate Inv(g: State) { LinksOk(g) && Good(g.client) && DoneOk(g.client) && AllAnsweredOk(g) }

  lemma ConnectedLink(i: nat)
    requires i < WINDOW
    ensures WellFormed(Connected())
    ensures var l := LinkOf(Connected(), i); LinkOk(l) && Todo(l) == 0 && AnsweredOk(l, i)
  {
  }

  lemma ConnectedLinks()
    ensures LinksOk(Connected()) && AllAnsweredOk(Connected()) && Work(Connected()) == 0
  {
    var g := Connected();
    forall i | 0 <= i < WINDOW
      ensures LinkOk(LinkOf(g, i)) && Todo(LinkOf(g, i)) == 0 && AnsweredOk(LinkOf(g, i), i)
    {
      ConnectedLink(i);
    }
    NoTodo(g, WINDOW);
  }

  lemma FreshOk(g: State)
    requires LinksOk(g) && AllAnsweredOk(g) && Good(g.client) && g.client.done == []
    ensures Inv(g)
  {
  }

  lemma ConnectedOk()
    ensures Inv(Connected()) && Work(Connected()) == 0
  {
    ConnectedLinks();
    NewSessionOk();
    FreshOk(Connected());
  }

  lemma {:induction false} NoTodo(g: State, n: nat)
    requires WellFormed(g) && n <= WINDOW && forall i :: 0 <= i < n ==> Todo(LinkOf(g, i)) == 0
    ensures TodoUpto(g, n) == 0
  {
    if n > 0 { NoTodo(g, n - 1); }
  }

  predicate AllLinks(g: State) { LinksOk(g) && AllAnsweredOk(g) }

  /** A step that changes one link, and keeps that one, keeps all; work changes by that link's. */
  lemma OneLink(g: State, g': State, i: nat)
    requires AllLinks(g) && WellFormed(g') && i < WINDOW && OnlyLink(g, g', i)
    requires LinkOk(LinkOf(g', i)) && AnsweredOk(LinkOf(g', i), i)
    ensures AllLinks(g') && Work(g') == Work(g) + Todo(LinkOf(g', i)) - Todo(LinkOf(g, i))
  {
    TodoChange(g, g', i, WINDOW);
  }

  // ---------------------------------------------------------------- one link, one step

  lemma LinkReq(l: Link, i: nat)
    requires Busy(l) && Arrived(l) < ReqsSent(l.slot) && AnsweredOk(l, i)
    ensures var r := OnPacket(l.srv, l.up[0]);
      var l' := l.(up := l.up[1..], srv := r.srv, down := l.down + r.out);
      LinkOk(l') && Todo(l') == Todo(l) - 1 && AnsweredOk(l', i)
  {
    ReqArrives(l);
    ReqHead(l);
    ReqTaken(l);
  }

  lemma LinkRfr(l: Link, i: nat)
    requires Busy(l) && Arrived(l) == ReqsSent(l.slot) && l.up != [] && AnsweredOk(l, i)
    ensures var r := OnPacket(l.srv, l.up[0]);
      var l' := l.(up := l.up[1..], srv := r.srv, down := l.down + r.out);
      LinkOk(l') && Todo(l') == Todo(l) - 1 && AnsweredOk(l', i)
  {
    RfrArrives(l);
  }

  lemma LinkServer(l: Link, i: nat)
    requires LinkOk(l) && l.up != [] && AnsweredOk(l, i)
    ensures var r := OnPacket(l.srv, l.up[0]);
      var l' := l.(up := l.up[1..], srv := r.srv, down := l.down + r.out);
      LinkOk(l') && Todo(l') == Todo(l) - 1 && AnsweredOk(l', i)
  {
    if Arrived(l) < ReqsSent(l.slot) { LinkReq(l, i); } else { LinkRfr(l, i); }
  }

  lemma LinkAnswer(l: Link, i: nat)
    requires LinkOk(l) && l.srv.pending && AnsweredOk(l, i) && l.slot.reqNum >= i + WINDOW
    ensures var r := Respond(l.srv, l.slot.request.answer);
      var l' := l.(srv := r.srv, down := l.down + r.out);
      LinkOk(l') && Todo(l') == Todo(l) - 1 && AnsweredOk(l', i)
    ensures NoResponseYet(l.srv) <==> l.slot.reqNum == i + WINDOW
  {
    Responds(l);
  }

  lemma LinkCredit(l: Link, credits: nat)
    requires LinkOk(l) && l.down != [] && l.down[0].Cr?
    ensures l.down[0].reqNum == l.slot.hdr && l.slot.active && l.slot.numTx > 0
    ensures var k := OnCredit(Lane(l.slot, l.up, credits));
      var l' := l.(slot := k.slot, up := k.up, down := l.down[1..]);
      LinkOk(l') && Todo(l') == Todo(l) - 1
  {
    hide ServerOk, Rfrs;
    if l.slot.crs == Min(Arrived(l), l.slot.request.pkts - 1) { RespHead(l); }
    CrArrives(l, credits);
  }

  /** A response packet is the next one, and the server has responded. */
  lemma LinkRespHead(l: Link)
    requires LinkOk(l) && l.down != [] && l.down[0].RespPkt?
    ensures l.down[0] == RespPkt(l.slot.hdr, l.slot.numRx, l.slot.request.answer)
    ensures Busy(l) && l.slot.numTx > 0 && l.srv.respPkts > 0 && Current(l)
    ensures l.slot.crs == Min(Arrived(l), l.slot.request.pkts - 1)
  {
    if l.slot.crs < Min(Arrived(l), l.slot.request.pkts - 1) { CrHead(l); }
    RespHead(l);
  }

  /** The last response packet leaves the link idle. */
  lemma LinkLast(l: Link, credits: nat)
    requires LinkOk(l) && l.down != [] && l.down[0].RespPkt? && l.slot.numRx + 1 == l.slot.request.answer
    ensures var k := OnResp(Lane(l.slot, l.up, credits), NextResp(l.slot));
      && Idle(l.(slot := k.slot.(active := false, numRx := 0), up := k.up, down := l.down[1..]))
      && k.slot.numTx == WirePkts(k.slot.request) && Outstanding(k.slot) == 0
      && k.slot.got == Resps(l.slot.hdr, l.slot.request.answer, 0, l.slot.request.answer) && Todo(l) == 1
  {
    LinkRespHead(l);
    LastResp(l, credits);
  }

  /** Any other keeps it busy. */
  lemma LinkMiddle(l: Link, credits: nat)
    requires LinkOk(l) && l.down != [] && l.down[0].RespPkt? && l.slot.numRx + 1 < l.slot.request.answer
    ensures var k := OnResp(Lane(l.slot, l.up, credits), NextResp(l.slot));
      var l' := l.(slot := k.slot, up := k.up, down := l.down[1..]);
      LinkOk(l') && Todo(l') == Todo(l) - 1
  {
    LinkRespHead(l);
    MiddleResp(l, credits);
  }

  /** The first packet on the way to the client belongs to the request the slot is working on. */
  lemma HeadExpected(l: Link)
    requires LinkOk(l) && l.down != []
    ensures l.slot.active && l.slot.numTx > 0 && l.down[0].reqNum == l.slot.hdr
    ensures l.down[0].RespPkt? ==> l.down[0].num == l.slot.numRx && l.down[0].total == l.slot.request.answer >= 1
  {
    if l.down[0].Cr? { LinkCredit(l, 0); } else { LinkRespHead(l); }
  }

  // ---------------------------------------------------------------- the client starts requests

  /** A slot taken for a new request is idle, with the server at the request before. */
  lemma FreshLink(l: Link, i: nat, r: Request)
    requires LinkOk(l) && AnsweredOk(l, i) && !l.slot.active && SlotOk(l.slot, i) && Serves(r)
    ensures var l' := l.(slot := FreshSlot(l.slot, r));
      Idle(l') && Todo(l') == Cost(r) && AnsweredOk(l', i) && !Current(l')
  {
    HdrSlot(l.slot.reqNum);
  }

  /** Its first packets change its link alone. */
  lemma KickLink(l: Link, i: nat, credits: nat)
    requires Idle(l) && AnsweredOk(l, i) && l.slot.active && l.slot.numTx == 0 && credits > 0
    ensures ReqPending(l.slot)
    ensures var k := KickReq(Lane(l.slot, l.up, credits));
      var l' := l.(slot := k.slot, up := k.up);
      LinkOk(l') && Todo(l') == Todo(l) && AnsweredOk(l', i)
  {
    FirstKick(l, credits);
  }

  /** Taking a free slot changes its link alone; its request adds its cost. */
  lemma StartLinks(g: State, r: Request)
    requires AllLinks(g) && SlotsOk(g.client) && Serves(r) && g.client.free != []
    requires !g.client.slots[g.client.free[|g.client.free| - 1]].active
    ensures var g' := g.(client := Start(g.client, r)); AllLinks(g') && Work(g') == Work(g) + Cost(r)
  {
    var c, i := g.client, g.client.free[|g.client.free| - 1];
    var g' := g.(client := Start(c, r));
    FreshLink(LinkOf(g, i), i, r);
    var l := LinkOf(g, i).(slot := FreshSlot(c.slots[i], r));
    if c.credits > 0 {
      KickLink(l, i, c.credits);
      var k := KickReq(Lane(l.slot, l.up, c.credits));
      assert LinkOf(g', i) == l.(slot := k.slot, up := k.up);
    } else {
      assert LinkOf(g', i) == l;
    }
    OneLink(g, g', i);
  }

  lemma StartDone(c: Client, r: Request)
    requires DoneOk(c) && SlotsOk(c) && c.free != [] && !c.slots[c.free[|c.free| - 1]].active
    ensures DoneOk(Start(c, r))
  {
    var c', i := Start(c, r), c.free[|c.free| - 1];
    assert forall k :: 0 <= k < WINDOW && k != i ==> c'.slots[k] == c.slots[k];
    forall k | 0 <= k < |c.done| ensures Before(c'.done[k], c'.slots) {
      assert Before(c.done[k], c.slots);
    }
  }

  lemma SubmitKept(g: State, r: Request)
    requires Inv(g) && Serves(r)
    ensures var g' := g.(client := Enqueue(g.client, r));
      Inv(g') && Work(g') == Work(g) + if g.client.free == [] then 0 else Cost(r)
  {
    var c := g.client;
    EnqueueKept(c, r);
    if c.free == [] {
      SameLinks(g, g.(client := Enqueue(c, r)));
    } else {
      assert c.free[|c.free| - 1] in c.free;
      StartLinks(g, r);
      StartDone(c, r);
    }
  }

  lemma SameLinks(g: State, g': State)
    requires AllLinks(g) && g'.srv == g.srv && g'.down == g.down && Shaped(g'.client)
    requires g'.client.slots == g.client.slots && g'.client.up == g.client.up
    ensures AllLinks(g') && Work(g') == Work(g)
  {
    assert LinkOf(g', 0) == LinkOf(g, 0);
    OneLink(g, g', 0);
  }

  // ---------------------------------------------------------------- the stall queue

  /** Draining leaves a lane as it is, or lets its stalled request send with `credits` at hand. */
  lemma {:induction false} DrainLane(c: Client, q: seq<nat>, k: nat) returns (credits: nat)
    requires Draining(c, q) && (forall j :: 0 <= j < |q| ==> q[j] < WINDOW) && k < WINDOW
    requires c.stallq != [] ==> c.credits == 0
    ensures var c' := DrainFrom(c, q);
      if credits == 0 then c'.slots[k] == c.slots[k] && c'.up[k] == c.up[k]
      else
        && c.slots[k].active && c.slots[k].numTx == 0 && ReqPending(c.slots[k])
        && c'.slots[k] == KickReq(Lane(c.slots[k], c.up[k], credits)).slot
        && c'.up[k] == KickReq(Lane(c.slots[k], c.up[k], credits)).up
    decreases |q|
  {
    credits := 0;
    if q != [] {
      if c.credits > 0 {
        WaitingHead(c, q);
        KickKept(c, q);
        credits := DrainLane(Kicked(c, q[0]), q[1..], k);
        if k == q[0] { credits := c.credits; }
      } else {
        LeftStalled(c, q);
        credits := DrainLane(c.(stallq := c.stallq + [q[0]]), q[1..], k);
      }
    }
  }

  lemma {:induction false} TodoSame(g: State, g': State, n: nat)
    requires WellFormed(g) && WellFormed(g') && n <= WINDOW
    requires forall k :: 0 <= k < n ==> Todo(LinkOf(g', k)) == Todo(LinkOf(g, k))
    ensures TodoUpto(g', n) == TodoUpto(g, n)
  {
    if n > 0 { TodoSame(g, g', n - 1); }
  }

  /** Draining leaves finished requests, the backlog and the free vector alone, and activates no slot. */
  lemma {:induction false} DrainDone(c: Client, q: seq<nat>)
    requires Shaped(c) && forall k :: 0 <= k < |q| ==> q[k] < WINDOW
    ensures var c' := DrainFrom(c, q);
      && c'.done == c.done && c'.backlog == c.backlog && c'.free == c.free
      && forall k :: 0 <= k < WINDOW ==>
           c'.slots[k].active == c.slots[k].active && c'.slots[k].reqNum == c.slots[k].reqNum
    decreases |q|
  {
    if q != [] && c.status == Running {
      if c.credits > 0 {
        DrainDone(Unstalled(c, q[0]), q[1..]);
      } else {
        DrainDone(c.(stallq := c.stallq + [q[0]]), q[1..]);
      }
    }
  }

  lemma StallLink(g: State, k: nat)
    requires AllLinks(g) && Good(g.client) && k < WINDOW
    ensures var l := LinkOf(g.(client := Drain(g.client)), k);
      LinkOk(l) && AnsweredOk(l, k) && Todo(l) == Todo(LinkOf(g, k))
  {
    var c, l := g.client, LinkOf(g, k);
    assert [] + c.stallq == c.stallq;
    var credits := DrainLane(c.(stallq := []), c.stallq, k);
    if credits > 0 { KickLink(l, k, credits); }
  }

  lemma StallLinks(g: State)
    requires AllLinks(g) && Good(g.client)
    ensures var g' := g.(client := Drain(g.client)); AllLinks(g') && Work(g') == Work(g)
  {
    var g' := g.(client := Drain(g.client));
    forall k | 0 <= k < WINDOW
      ensures LinkOk(LinkOf(g', k)) && AnsweredOk(LinkOf(g', k), k) && Todo(LinkOf(g', k)) == Todo(LinkOf(g, k))
    {
      StallLink(g, k);
    }
    TodoSame(g, g', WINDOW);
  }

  lemma StallStep(g: State)
    requires Inv(g)
    ensures Inv(Next(g, Stall)) && Work(Next(g, Stall)) == Work(g)
  {
    StalledKept(g.client);
    StallLinks(g);
    DrainDone(g.client.(stallq := []), g.client.stallq);
    DoneSame(g.client, Drain(g.client));
  }

  lemma DoneSame(c: Client, c': Client)
    requires DoneOk(c) && Shaped(c') && c'.done == c.done
    requires forall k :: 0 <= k < WINDOW ==>
      c'.slots[k].active == c.slots[k].active && c'.slots[k].reqNum == c.slots[k].reqNum
    ensures DoneOk(c')
  {
    forall k | 0 <= k < |c.done| ensures Before(c'.done[k], c'.slots) {
      assert Before(c.done[k], c.slots);
    }
  }

  // ---------------------------------------------------------------- deliveries to the server

  lemma ToSrvLinks(g: State, i: nat)
    requires AllLinks(g) && Enabled(g, ToSrv(i))
    ensures AllLinks(Next(g, ToSrv(i))) && Work(Next(g, ToSrv(i))) == Work(g) - 1
  {
    hide LinkOk, AnsweredOk, Todo, OnPacket;
    var l, g' := LinkOf(g, i), Next(g, ToSrv(i));
    LinkServer(l, i);
    var r := OnPacket(l.srv, l.up[0]);
    assert LinkOf(g', i) == l.(up := l.up[1..], srv := r.srv, down := l.down + r.out);
    OneLink(g, g', i);
  }

  lemma AnswerLinks(g: State, i: nat)
    requires AllLinks(g) && Enabled(g, Answer(i)) && g.client.slots[i].reqNum >= i + WINDOW
    ensures AllLinks(Next(g, Answer(i))) && Work(Next(g, Answer(i))) == Work(g) - 1
  {
    hide LinkOk, AnsweredOk, Todo;
    var l, g' := LinkOf(g, i), Next(g, Answer(i));
    LinkAnswer(l, i);
    var r := Respond(l.srv, l.slot.request.answer);
    assert LinkOf(g', i) == l.(srv := r.srv, down := l.down + r.out);
    OneLink(g, g', i);
  }

  lemma ServerStepKept(g: State, st: Step)
    requires Inv(g) && Enabled(g, st) && (st.ToSrv? || st.Answer?)
    ensures Inv(Next(g, st)) && Work(Next(g, st)) == Work(g) - 1
  {
    if st.ToSrv? {
      ToSrvLinks(g, st.i);
    } else {
      PendingNumber(g, st.i);
      AnswerLinks(g, st.i);
    }
    ClientUp(g.client, Next(g, st).client);
  }

  /** A slot with a pending handler works on a request, so its number is past the first. */
  lemma PendingNumber(g: State, i: nat)
    requires Inv(g) && i < WINDOW && g.srv[i].pending
    ensures g.client.slots[i].active && g.client.slots[i].reqNum >= i + WINDOW
  {
    assert LinkOk(LinkOf(g, i)) && SlotOk(g.client.slots[i], i);
  }

  /** Packets leaving the channel do not concern the client's bookkeeping. */
  lemma ClientUp(c: Client, c': Client)
    requires Good(c) && DoneOk(c) && c' == c.(up := c'.up) && |c'.up| == WINDOW
    ensures Good(c') && DoneOk(c')
  {
  }

  // ---------------------------------------------------------------- the client's assertions

  /** Credits in hand and packets in flight add up to the session's credits, slot by slot. */
  lemma CreditsSpent(g: State, i: nat)
    requires Inv(g) && i < WINDOW
    ensures g.client.credits + OutSum(g.client.slots) == CREDITS
    ensures InFlight(LinkOf(g, i)) == Outstanding(g.client.slots[i]) <= OutSum(g.client.slots)
  {
    forall k | 0 <= k < WINDOW ensures Outstanding(g.client.slots[k]) >= 0 {
      InFlightIsOutstanding(LinkOf(g, k));
    }
    InFlightIsOutstanding(LinkOf(g, i));
    OutSumBounds(g.client.slots, i);
    NothingOwed(g.client.done);
  }

  /** Every packet that reaches the client finds its assertions true, and its slot working. */
  lemma BumpNeverFails(g: State, i: nat)
    requires Inv(g) && i < WINDOW && g.down[i] != []
    ensures AssertsHold(g, i) && SlotOf(g.down[i][0]) == i && Working(g.client, g.down[i][0])
  {
    HeadExpected(LinkOf(g, i));
    CreditsSpent(g, i);
    assert SlotOk(g.client.slots[i], i);
    HdrSlot(g.client.slots[i].reqNum);
  }

  lemma {:induction false} NothingOwed(done: seq<Completion>)
    requires forall k :: 0 <= k < |done| ==> Complete(done[k])
    ensures OwedSum(done) == 0
  {
    if done != [] { NothingOwed(done[..|done| - 1]); }
  }
}
