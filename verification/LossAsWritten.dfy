/**
 What the rollback does for one slot as its body is written: after taking back what it counts as sent
 it sends request packets again, but never requests-for-response. The network may lose, copy and
 reorder what is in flight; the credits left by the other slots are arbitrary.
 */
module LossAsWritten {
  import opened SessionState
  import opened SessionLaws
  import opened Protocol
  import opened LinkLaws
  import opened ProtocolLaws

  datatype Lossy = Lossy(link: Link, credits: nat)

  datatype Event =
    | LoseUp(k: nat)
    | LoseDown(k: nat)
    | CopyUp(k: nat)
    | CopyDown(k: nat)
    | AtServer(k: nat)
    | Handled(answer: nat)
    | AtClient(k: nat)
    | RollBack
    | Others(credits: nat)

  function Remove<T>(s: seq<T>, k: nat): seq<T>
    requires k < |s|
  {
    s[..k] + s[k + 1..]
  }

  /** The previous response stays in place, and a handler at work goes on. */
  function ServerTakes(srv: Srv, p: ToServer): ServerStep {
    var r := OnPacket(srv, p);
    if p.Req? then r.(srv := r.srv.(pending := r.srv.pending || srv.pending, respPkts := srv.respPkts)) else r
  }

  function ClientTakes(w: Lossy, p: ToClient): Lane {
    var lane := Lane(w.link.slot, w.link.up, w.credits);
    if p.Cr? then OnCredit(lane)
    else
      var k := OnResp(lane, p);
      if Completes(k.slot, p.total) then k.(slot := k.slot.(active := false, numRx := 0)) else k
  }

  /** A 64-bit unsigned sum that may have wrapped below zero. */
  function Word(n: int): nat
    decreases -n
  {
    if n < 0 then Word(n + 0x1_0000_0000_0000_0000) else n
  }

  /** `pkt_loss_retransmit_st`. */
  function RolledBack(w: Lossy): Lane {
    var s := w.link.slot;
    var lane := Lane(s.(numTx := s.numRx, crs := 0), w.link.up, Word(w.credits + s.numTx - s.numRx));
    if s.numTx == s.numRx then Lane(s, w.link.up, w.credits)
    else if ReqPending(lane.slot) then KickReq(lane)
    else lane
  }

  lemma {:induction false} WordIs(n: int)
    requires n < 0x1_0000_0000_0000_0000
    ensures Word(n) == n % 0x1_0000_0000_0000_0000
    decreases -n
  {
    if n < 0 {
      WordIs(n + 0x1_0000_0000_0000_0000);
      assert (n + 0x1_0000_0000_0000_0000) % 0x1_0000_0000_0000_0000 == n % 0x1_0000_0000_0000_0000;
    }
  }

  /**
   The rollback trades packets it no longer counts for credits, and spends them again on the request
   packets from `num_rx` on until all are sent or no credit is left. With as many response packets as
   the request has packets it sends nothing.
   */
  lemma RollbackExchanges(w: Lossy)
    requires w.link.slot.numRx <= w.link.slot.numTx
    ensures var s, k := w.link.slot, RolledBack(w);
      && k.credits + k.slot.numTx == w.credits + s.numTx
      && (s.numRx < s.numTx && s.numRx < s.request.pkts ==> k.slot.numTx == s.request.pkts || k.credits == 0)
      && (s.numRx == s.numTx || s.numRx >= s.request.pkts ==> k.slot.numTx == s.numRx)
      && s.numRx <= k.slot.numTx
      && k.up == w.link.up + Requests(s.hdr, s.request.pkts, s.numRx, k.slot.numTx - s.numRx)
  {
    assert w.link.up + [] == w.link.up;
  }

  predicate May(w: Lossy, e: Event) {
    var l := w.link;
    l.slot.active &&
    match e
    case LoseUp(k) => k < |l.up|
    case LoseDown(k) => k < |l.down|
    case CopyUp(k) => k < |l.up|
    case CopyDown(k) => k < |l.down|
    case AtServer(k) => k < |l.up|
    case Handled(n) => l.srv.pending && n >= 1
    case AtClient(k) => k < |l.down|
    case RollBack => true
    case Others(_) => true
  }

  function WithLaneOf(w: Lossy, k: Lane, down: seq<ToClient>): Lossy {
    Lossy(w.link.(slot := k.slot, up := k.up, down := down), k.credits)
  }

  function Does(w: Lossy, e: Event): Lossy
    requires May(w, e)
  {
    var l := w.link;
    match e
    case LoseUp(k) => w.(link := l.(up := Remove(l.up, k)))
    case LoseDown(k) => w.(link := l.(down := Remove(l.down, k)))
    case CopyUp(k) => w.(link := l.(up := l.up + [l.up[k]]))
    case CopyDown(k) => w.(link := l.(down := l.down + [l.down[k]]))
    case AtServer(k) =>
      var r := ServerTakes(l.srv, l.up[k]);
      w.(link := l.(up := Remove(l.up, k), srv := r.srv, down := l.down + r.out))
    case Handled(n) =>
      var r := Respond(l.srv, n);
      w.(link := l.(srv := r.srv, down := l.down + r.out))
    case AtClient(k) => WithLaneOf(w, ClientTakes(w, l.down[k]), Remove(l.down, k))
    case RollBack => WithLaneOf(w, RolledBack(w), l.down)
    case Others(credits) => w.(credits := credits)
  }

  predicate Possible(w: Lossy, events: seq<Event>)
    decreases |events|
  {
    events == [] || (May(w, events[0]) && Possible(Does(w, events[0]), events[1..]))
  }

  function Outcome(w: Lossy, events: seq<Event>): Lossy
    requires Possible(w, events)
    decreases |events|
  {
    if events == [] then w else Outcome(Does(w, events[0]), events[1..])
  }

  /** Everything in flight for the slot's request has been lost. */
  predicate Silent(l: Link) {
    l.slot.active && l.slot.numTx > 0 && l.up == [] && l.down == [] && !l.srv.pending
  }

  // ---------------------------------------------------------------- without a rollback

  /** Without a rollback a silent slot stays as it is. The event loop does not call the scan for losses. */
  lemma {:induction false} SilentStays(w: Lossy, events: seq<Event>)
    requires Silent(w.link) && Possible(w, events) && RollBack !in events
    ensures Outcome(w, events).link == w.link
    decreases |events|
  {
    if events != [] {
      assert events[0] in events && forall e :: e in events[1..] ==> e in events;
      SilentStays(Does(w, events[0]), events[1..]);
    }
  }

  /** A handler at work goes on whatever arrives meanwhile, and a response once in place stays in place. */
  lemma {:induction false} ServerKeeps(w: Lossy, events: seq<Event>)
    requires Possible(w, events)
    ensures w.link.srv.pending && (forall e :: e in events ==> !e.Handled?) ==> Outcome(w, events).link.srv.pending
    ensures w.link.srv.respPkts > 0 ==> Outcome(w, events).link.srv.respPkts > 0
    decreases |events|
  {
    if events != [] {
      assert events[0] in events && forall e :: e in events[1..] ==> e in events;
      ServerKeeps(Does(w, events[0]), events[1..]);
    }
  }

  // ---------------------------------------------------------------- request packets no longer pending

  /** With as many response packets as the request has packets, a silent slot never sends again. */
  lemma {:induction false} NeverSendsAgain(w: Lossy, events: seq<Event>)
    requires Silent(w.link) && 1 <= w.link.slot.request.pkts <= w.link.slot.numRx && Possible(w, events)
    ensures var l := Outcome(w, events).link;
      l.up == [] && l.down == [] && l.slot.active && l.slot.numRx == w.link.slot.numRx
    decreases |events|
  {
    if events != [] {
      NeverSendsAgain(Does(w, events[0]), events[1..]);
    }
  }

  // ---------------------------------------------------------------- some response packets are in

  /**
   The server has counted all request packets, the slot has taken `n` response packets, and neither
   side will send another one: what is in flight are request packets after the first, and credit returns.
   */
  predicate Trapped(l: Link, n: nat) {
    var s, R := l.slot, l.slot.request.pkts;
    && s.active && 1 <= n == s.numRx && s.numTx >= 1 && l.srv.numRx >= R && !l.srv.pending
    && (forall k :: 0 <= k < |l.up| ==> l.up[k].Req? && l.up[k].num >= 1 && l.up[k].total == R >= 2)
    && (forall k :: 0 <= k < |l.down| ==> l.down[k].Cr?)
  }

  lemma TrappedKick(l: Link, k: Lane, n: nat)
    requires Trapped(l, n) && ReqPending(k.slot) && k.slot.numTx >= 1 && k.up == l.up
    requires k.slot.active && k.slot.request == l.slot.request && k.slot.numRx == n
    ensures Trapped(l.(slot := KickReq(k).slot, up := KickReq(k).up), n)
  {
  }

  lemma TrappedCredit(w: Lossy, k: nat, n: nat)
    requires Trapped(w.link, n) && May(w, AtClient(k))
    ensures Trapped(Does(w, AtClient(k)).link, n)
  {
    var s := w.link.slot;
    var l, lane := w.link.(down := Remove(w.link.down, k)), Lane(s.(crs := s.crs + 1), w.link.up, w.credits + 1);
    Removed(w.link.down, k);
    assert w.link.down[k].Cr? && Trapped(l, n);
    if ReqPending(s) {
      TrappedKick(l, lane, n);
      assert Does(w, AtClient(k)).link == l.(slot := KickReq(lane).slot, up := KickReq(lane).up);
    } else {
      assert Does(w, AtClient(k)).link == l.(slot := lane.slot);
    }
  }

  lemma TrappedRollback(w: Lossy, n: nat)
    requires Trapped(w.link, n) && May(w, RollBack)
    ensures Trapped(Does(w, RollBack).link, n)
  {
    var s := w.link.slot;
    var lane := Lane(s.(numTx := s.numRx, crs := 0), w.link.up, Word(w.credits + s.numTx - s.numRx));
    if s.numTx == s.numRx {
      assert Does(w, RollBack).link == w.link;
    } else if ReqPending(lane.slot) {
      TrappedKick(w.link, lane, n);
      assert Does(w, RollBack).link == w.link.(slot := KickReq(lane).slot, up := KickReq(lane).up);
    } else {
      assert Does(w, RollBack).link == w.link.(slot := lane.slot);
    }
  }

  lemma Removed<T>(s: seq<T>, k: nat)
    requires k < |s|
    ensures forall j :: 0 <= j < |Remove(s, k)| ==> Remove(s, k)[j] == s[if j < k then j else j + 1]
  {
  }

  /** The server counts one more packet past the end, and at most returns a credit. */
  lemma TrappedServer(w: Lossy, k: nat, n: nat)
    requires Trapped(w.link, n) && May(w, AtServer(k))
    ensures Trapped(Does(w, AtServer(k)).link, n)
  {
    var p, l := w.link.up[k], Does(w, AtServer(k)).link;
    Removed(w.link.up, k);
    assert p.Req? && p.num >= 1 && p.total == w.link.slot.request.pkts >= 2;
    var r := ServerTakes(w.link.srv, p);
    assert r.srv.numRx == w.link.srv.numRx + 1 && !r.srv.pending && (r.out == [] || r.out == [Cr(p.reqNum, p.num)]);
    forall j | 0 <= j < |l.down| ensures l.down[j].Cr? {
      assert l.down[j] == if j < |w.link.down| then w.link.down[j] else r.out[j - |w.link.down|];
    }
  }

  lemma TrappedNetwork(w: Lossy, e: Event, n: nat)
    requires Trapped(w.link, n) && May(w, e) && !e.AtServer? && !e.AtClient? && !e.RollBack?
    ensures Trapped(Does(w, e).link, n)
  {
    var l, l' := w.link, Does(w, e).link;
    if e.LoseUp? {
      Removed(l.up, e.k);
      assert l' == l.(up := Remove(l.up, e.k));
    } else if e.LoseDown? {
      Removed(l.down, e.k);
      assert l' == l.(down := Remove(l.down, e.k));
    } else if e.CopyUp? {
      assert forall j :: 0 <= j < |l'.up| ==> l'.up[j] == l.up[if j < |l.up| then j else e.k];
    } else if e.CopyDown? {
      assert forall j :: 0 <= j < |l'.down| ==> l'.down[j] == l.down[if j < |l.down| then j else e.k];
    }
  }

  lemma TrappedKept(w: Lossy, e: Event, n: nat)
    requires Trapped(w.link, n) && May(w, e)
    ensures Trapped(Does(w, e).link, n)
  {
    hide Trapped, Does;
    if e.AtClient? {
      TrappedCredit(w, e.k, n);
    } else if e.RollBack? {
      TrappedRollback(w, n);
    } else if e.AtServer? {
      TrappedServer(w, e.k, n);
    } else {
      TrappedNetwork(w, e, n);
    }
  }

  lemma {:induction false} TrappedForGood(w: Lossy, events: seq<Event>, n: nat)
    requires Trapped(w.link, n) && Possible(w, events)
    ensures Trapped(Outcome(w, events).link, n)
    decreases |events|
  {
    if events != [] {
      TrappedKept(w, events[0], n);
      TrappedForGood(Does(w, events[0]), events[1..], n);
    }
  }

  // ---------------------------------------------------------------- what losses leave behind

  /** No response exists yet, and the request packets in flight are in order. */
  predicate Asking(l: Link) {
    var s := l.slot;
    && s.numRx == 0 && !l.srv.pending
    && (forall k :: 0 <= k < |l.down| ==> l.down[k].Cr?)
    && (forall k :: 0 <= k < |l.up| ==> l.up[k].Req? && l.up[k].num < s.numTx && l.up[k].total == s.request.pkts)
    && (forall j, k :: 0 <= j < k < |l.up| ==> l.up[j].num < l.up[k].num)
  }

  /** The server has counted as many packets as the request has; its first packet is gone. */
  predicate Answering(l: Link) {
    && l.srv.numRx >= l.slot.request.pkts
    && (forall k :: 0 <= k < |l.up| ==> l.up[k].Req? ==> l.up[k].num >= 1 && l.up[k].total == l.slot.request.pkts)
  }

  predicate Consistent(l: Link) {
    && l.slot.active && l.slot.numTx > 0 && Serves(l.slot.request)
    && |l.slot.got| == l.slot.numRx && (Asking(l) || Answering(l))
  }

  /** Every working slot of a session without losses is in such a state. */
  lemma BusyConsistent(l: Link)
    requires Busy(l) && l.slot.numTx > 0
    ensures Consistent(l)
  {
  }

  /** The network loses packets but keeps the order of the others, and nothing is rolled back. */
  predicate Ordered(e: Event) {
    match e
    case AtServer(k) => k == 0
    case AtClient(k) => k == 0
    case CopyUp(_) => false
    case CopyDown(_) => false
    case RollBack => false
    case _ => true
  }

  lemma AskingKick(l: Link, credits: nat)
    requires Consistent(l) && Asking(l)
    ensures var k := OnCredit(Lane(l.slot, l.up, credits)); Asking(l.(slot := k.slot, up := k.up))
  {
  }

  lemma AskingKept(w: Lossy, e: Event)
    requires Consistent(w.link) && Asking(w.link) && May(w, e) && Ordered(e)
    ensures Consistent(Does(w, e).link)
  {
    var l := w.link;
    if e.AtClient? {
      AskingKick(l, w.credits);
    }
  }

  lemma AnsweringKept(w: Lossy, e: Event)
    requires Consistent(w.link) && Answering(w.link) && May(w, e) && Ordered(e)
    ensures var l := Does(w, e).link; l.slot.active ==> Consistent(l)
  {
    var l := w.link;
    if e.LoseUp? {
      Removed(l.up, e.k);
    } else if e.AtServer? {
      Removed(l.up, 0);
    } else if e.AtClient? {
      AnsweringTakes(w);
    }
  }

  /** Whatever the client then sends, the first request packet is not sent again. */
  lemma AnsweringTakes(w: Lossy)
    requires Consistent(w.link) && Answering(w.link) && w.link.down != []
    ensures var l := Does(w, AtClient(0)).link; l.slot.active ==> Consistent(l)
  {
    var l, p := w.link, w.link.down[0];
    var u := ClientTakes(w, p).up;
    assert forall k :: 0 <= k < |l.up| ==> u[k] == l.up[k];
    assert forall k :: |l.up| <= k < |u| && u[k].Req? ==> u[k].num >= 1 && u[k].total == l.slot.request.pkts;
  }

  /** Whatever is lost, the slot stays in such a state until it finishes. */
  lemma {:induction false} LossesKeep(w: Lossy, events: seq<Event>)
    requires Consistent(w.link) && Possible(w, events) && forall e :: e in events ==> Ordered(e)
    ensures var l := Outcome(w, events).link; l.slot.active ==> Consistent(l)
    decreases |events|
  {
    if events != [] {
      var e := events[0];
      assert e in events && forall e :: e in events[1..] ==> e in events;
      if Asking(w.link) { AskingKept(w, e); } else { AnsweringKept(w, e); }
      if events[1..] != [] { LossesKeep(Does(w, e), events[1..]); }
    }
  }

  // ---------------------------------------------------------------- no response packet is in

  /** `l0` is the link with the previous request's response forgotten until this one's is in place. */
  predicate Matches(l: Link, l0: Link) {
    l == l0 || (l0.srv.respPkts == 0 && l0 == l.(srv := l.srv.(respPkts := 0)))
  }

  lemma First<T>(s: seq<T>)
    requires s != []
    ensures Remove(s, 0) == s[1..]
  {
  }

  lemma ServerCounts(l0: Link)
    requires Busy(l0) && l0.slot.numTx > 0 && l0.up != []
    ensures var r := OnPacket(l0.srv, l0.up[0]);
      var l1 := l0.(up := l0.up[1..], srv := r.srv, down := l0.down + r.out);
      LinkOk(l1) && Todo(l1) == Todo(l0) - 1
    ensures if l0.up[0].Req? then !l0.srv.pending else l0.srv.respPkts > 0
  {
    if Arrived(l0) < ReqsSent(l0.slot) {
      ReqArrives(l0);
      ReqHead(l0);
      ReqTaken(l0);
    } else {
      RfrArrives(l0);
    }
  }

  /** What the server makes of the first packet on its way. */
  lemma ServerDoes(w: Lossy, l0: Link)
    requires w.link.slot.active && Matches(w.link, l0) && l0.up != []
    requires if l0.up[0].Req? then !l0.srv.pending else l0.srv.respPkts > 0
    ensures May(w, AtServer(0))
    ensures var r := OnPacket(l0.srv, l0.up[0]);
      Matches(Does(w, AtServer(0)).link, l0.(up := l0.up[1..], srv := r.srv, down := l0.down + r.out))
  {
    First(l0.up);
  }

  lemma ServerDelivers(w: Lossy, l0: Link) returns (l1: Link)
    requires Busy(l0) && l0.slot.numTx > 0 && l0.up != [] && Matches(w.link, l0)
    ensures May(w, AtServer(0)) && Matches(Does(w, AtServer(0)).link, l1)
    ensures LinkOk(l1) && Begun(l0, l1) && Todo(l1) == Todo(l0) - 1
  {
    var r := OnPacket(l0.srv, l0.up[0]);
    l1 := l0.(up := l0.up[1..], srv := r.srv, down := l0.down + r.out);
    ServerCounts(l0);
    ServerDoes(w, l0);
  }

  lemma HandlerStep(w: Lossy, l0: Link) returns (l1: Link)
    requires Busy(l0) && l0.slot.numTx > 0 && l0.srv.pending && Matches(w.link, l0)
    ensures var e := Handled(l0.slot.request.answer); May(w, e) && Does(w, e).link == l1
    ensures LinkOk(l1) && Begun(l0, l1) && Todo(l1) == Todo(l0) - 1
  {
    var r := Respond(l0.srv, l0.slot.request.answer);
    l1 := l0.(srv := r.srv, down := l0.down + r.out);
    Responds(l0);
  }

  /** What the client makes of the first packet on its way. */
  lemma ClientDoes(w: Lossy, l0: Link, k: Lane)
    requires w.link.slot.active && Matches(w.link, l0) && l0.down != [] && k == ClientTakes(w, l0.down[0])
    ensures May(w, AtClient(0))
    ensures Matches(Does(w, AtClient(0)).link, l0.(slot := k.slot, up := k.up, down := l0.down[1..]))
  {
    First(l0.down);
  }

  lemma TakesCredit(w: Lossy, l0: Link) returns (l1: Link)
    requires Busy(l0) && l0.slot.numTx > 0 && l0.down != [] && Matches(w.link, l0) && l0.down[0].Cr?
    ensures May(w, AtClient(0)) && Matches(Does(w, AtClient(0)).link, l1)
    ensures LinkOk(l1) && Begun(l0, l1) && Todo(l1) == Todo(l0) - 1
  {
    hide ServerOk, Progress, OnWire, Todo, Arrived, Served;
    LinkCredit(l0, w.credits);
    var k := OnCredit(Lane(l0.slot, l0.up, w.credits));
    ClientDoes(w, l0, k);
    l1 := l0.(slot := k.slot, up := k.up, down := l0.down[1..]);
  }

  lemma TakesMiddle(w: Lossy, l0: Link) returns (l1: Link)
    requires Busy(l0) && l0.slot.numTx > 0 && l0.down != [] && Matches(w.link, l0)
    requires l0.down[0].RespPkt? && l0.slot.numRx + 1 < l0.slot.request.answer
    ensures May(w, AtClient(0)) && Matches(Does(w, AtClient(0)).link, l1)
    ensures LinkOk(l1) && Begun(l0, l1) && Todo(l1) == Todo(l0) - 1
  {
    hide ServerOk, Progress, OnWire, Todo, Arrived, Served;
    LinkRespHead(l0);
    LinkMiddle(l0, w.credits);
    var k := OnResp(Lane(l0.slot, l0.up, w.credits), NextResp(l0.slot));
    ClientDoes(w, l0, k);
    l1 := l0.(slot := k.slot, up := k.up, down := l0.down[1..]);
  }

  /** The slot goes on with the same request. */
  predicate Begun(l: Link, l': Link) {
    l'.slot.active && l'.slot.numTx > 0 && l'.slot.hdr == l.slot.hdr && l'.slot.request == l.slot.request
  }

  /** The request of slot `s` has finished with exactly its whole response. */
  predicate Completed(s: Slot, s': Slot) {
    !s'.active && s'.got == Resps(s.hdr, s.request.answer, 0, s.request.answer)
  }

  lemma LastPacket(w: Lossy, l0: Link)
    requires Busy(l0) && l0.slot.numTx > 0 && l0.down != [] && Matches(w.link, l0)
    requires l0.down[0].RespPkt? && l0.slot.numRx + 1 == l0.slot.request.answer
    ensures May(w, AtClient(0))
    ensures Completed(l0.slot, Does(w, AtClient(0)).link.slot)
  {
    LinkRespHead(l0);
    LinkLast(l0, w.credits);
  }

  lemma Then(w: Lossy, e: Event, rest: seq<Event>)
    requires May(w, e) && Possible(Does(w, e), rest)
    ensures Possible(w, [e] + rest) && Outcome(w, [e] + rest) == Outcome(Does(w, e), rest)
  {
    assert ([e] + rest)[0] == e && ([e] + rest)[1..] == rest;
  }

  /** A packet other than the last one is delivered, or the handler responds. */
  lemma Progresses(w: Lossy, l0: Link) returns (e: Event, l1: Link)
    requires Busy(l0) && l0.slot.numTx > 0 && Matches(w.link, l0) && !Finishing(l0)
    ensures May(w, e) && Matches(Does(w, e).link, l1)
    ensures LinkOk(l1) && Begun(l0, l1) && Todo(l1) == Todo(l0) - 1
  {
    InFlightIsOutstanding(l0);
    TodoBound(l0);
    if l0.up != [] {
      e := AtServer(0);
      l1 := ServerDelivers(w, l0);
    } else if l0.srv.pending {
      e := Handled(l0.slot.request.answer);
      l1 := HandlerStep(w, l0);
    } else {
      e := AtClient(0);
      if l0.down[0].Cr? { l1 := TakesCredit(w, l0); } else { l1 := TakesMiddle(w, l0); }
    }
  }

  /** Only the last packet of the response is in flight. */
  predicate Finishing(l: Link) {
    l.up == [] && !l.srv.pending && l.down != [] && l.down[0].RespPkt? && l.slot.numRx + 1 == l.slot.request.answer
  }

  /** Once the server has started on the request, a network that delivers completes it. */
  lemma {:induction false} Finishes(w: Lossy, l0: Link) returns (events: seq<Event>)
    requires Busy(l0) && l0.slot.numTx > 0 && Matches(w.link, l0)
    ensures Possible(w, events)
    ensures Completed(l0.slot, Outcome(w, events).link.slot)
    decreases if Todo(l0) < 0 then 0 else Todo(l0)
  {
    if Finishing(l0) {
      LastPacket(w, l0);
      Then(w, AtClient(0), []);
      events := [AtClient(0)] + [];
    } else {
      TodoBound(l0);
      var e, l1 := Progresses(w, l0);
      var rest := Finishes(Does(w, e), l1);
      Then(w, e, rest);
      events := [e] + rest;
    }
  }

  lemma TodoBound(l: Link)
    requires Busy(l)
    ensures Todo(l) >= 1 && l.slot.numRx < l.slot.request.answer
  {
  }

  lemma Resends(w: Lossy) returns (n: nat)
    requires Silent(w.link) && w.link.slot.numRx == 0 && Serves(w.link.slot.request)
    ensures 1 <= n <= w.link.slot.request.pkts && May(w, RollBack)
    ensures var s := w.link.slot;
      Does(w, RollBack).link == w.link.(slot := s.(numTx := n, crs := 0), up := Requests(s.hdr, s.request.pkts, 0, n))
  {
    var s, w1 := w.link.slot, Does(w, RollBack);
    n := w1.link.slot.numTx;
    assert [] + Requests(s.hdr, s.request.pkts, 0, n) == Requests(s.hdr, s.request.pkts, 0, n);
  }

  /** The server starts over on the first packet, whatever it had counted before. */
  lemma StartsOver(w: Lossy, n: nat) returns (l0: Link)
    requires w.link.slot.active && Serves(w.link.slot.request) && 1 <= n <= w.link.slot.request.pkts
    requires var s := w.link.slot; s.numTx == n && s.numRx == s.crs == 0 && s.got == []
    requires w.link.up == Requests(w.link.slot.hdr, w.link.slot.request.pkts, 0, n)
    requires w.link.down == [] && !w.link.srv.pending
    ensures May(w, AtServer(0)) && Matches(Does(w, AtServer(0)).link, l0) && Busy(l0) && l0.slot == w.link.slot
  {
    var s, R := w.link.slot, w.link.slot.request.pkts;
    RequestsTail(s.hdr, R, 0, n, []);
    First(w.link.up);
    assert w.link.up + [] == w.link.up;
    var l := Does(w, AtServer(0)).link;
    l0 := l.(srv := l.srv.(respPkts := 0));
    assert l0.up == Requests(s.hdr, R, 1, n - 1) + Rfrs(s.hdr, 1, 0);
    assert l0.down == Crs(s.hdr, 0, Min(1, R - 1)) + Resps(s.hdr, s.request.answer, 0, 0);
  }

  /** A loss before the first response packet can be made good. */
  lemma Recovers(w: Lossy) returns (events: seq<Event>)
    requires Silent(w.link) && Steady(w.link) && w.link.slot.numRx == 0
    ensures Possible(w, events)
    ensures Completed(w.link.slot, Outcome(w, events).link.slot)
  {
    var n := Resends(w);
    var w1 := Does(w, RollBack);
    var l0 := StartsOver(w1, n);
    var rest := Finishes(Does(w1, AtServer(0)), l0);
    Then(w1, AtServer(0), rest);
    Then(w, RollBack, [AtServer(0)] + rest);
    events := [RollBack] + ([AtServer(0)] + rest);
  }

  // ---------------------------------------------------------------- a server behind its client

  /** What every event keeps while the request is in progress. */
  predicate Steady(l: Link) {
    l.slot.active && l.slot.numTx > 0 && Serves(l.slot.request) && |l.slot.got| == l.slot.numRx
  }

  lemma SteadyKept(w: Lossy, e: Event)
    requires Steady(w.link) && May(w, e)
    ensures var l := Does(w, e).link; l.slot.active ==> Steady(l)
  {
  }

  lemma {:induction false} SteadyRun(w: Lossy, events: seq<Event>)
    requires Steady(w.link) && Possible(w, events)
    ensures var l := Outcome(w, events).link; l.slot.active ==> Steady(l)
    decreases |events|
  {
    if events != [] {
      SteadyKept(w, events[0]);
      if events[1..] != [] { SteadyRun(Does(w, events[0]), events[1..]); }
    }
  }

  /** The client has response packets, but the server has yet to count the request. */
  predicate Behind(l: Link) {
    && Steady(l) && 1 <= l.slot.numRx < l.slot.request.pkts && l.slot.numTx != l.slot.numRx
    && l.srv.numRx < l.slot.request.pkts && !l.srv.pending
  }

  /** A rollback with a credit at hand sends the packet after those it counts as answered. */
  lemma SentAgain(w: Lossy)
    requires Behind(w.link) && w.credits == w.link.slot.numRx + 1
    ensures var l, l' := w.link, Does(w, RollBack).link;
      && Steady(l') && l'.slot.numRx == l.slot.numRx != l'.slot.numTx && l'.slot.request == l.slot.request
      && l'.srv == l.srv && l'.down == l.down
      && |l'.up| > |l.up| && l'.up[|l.up|] == Req(l.slot.hdr, l.slot.numRx, l.slot.request.pkts)
  {
  }

  /** The server counts it. */
  lemma CountsOn(w: Lossy, k: nat)
    requires Behind(w.link) && k < |w.link.up|
    requires w.link.up[k] == Req(w.link.slot.hdr, w.link.slot.numRx, w.link.slot.request.pkts)
    ensures var l, l' := w.link, Does(w, AtServer(k)).link;
      && l'.slot == l.slot && l'.srv.numRx == l.srv.numRx + 1
      && (l'.srv.pending <==> l'.srv.numRx == l.slot.request.pkts)
  {
  }

  /** A response of as many packets as the client then has finishes the request. */
  lemma Answered(w: Lossy) returns (events: seq<Event>)
    requires Steady(w.link) && w.link.srv.pending && w.link.slot.numRx >= 1
    ensures Possible(w, events) && !Outcome(w, events).link.slot.active
  {
    var n := w.link.slot.numRx + 1;
    var w1 := Does(w, Handled(n));
    var k := |w.link.down|;
    assert w1.link.down[k] == RespPkt(w.link.srv.reqNum, 0, n);
    Then(w1, AtClient(k), []);
    Then(w, Handled(n), [AtClient(k)] + []);
    events := [Handled(n)] + ([AtClient(k)] + []);
  }

  /** Rolled back again and again, the server counts up to the end of the request, and its handler runs. */
  lemma {:induction false} CatchesUp(w: Lossy) returns (events: seq<Event>)
    requires Behind(w.link)
    ensures Possible(w, events) && !Outcome(w, events).link.slot.active
    decreases w.link.slot.request.pkts - w.link.srv.numRx
  {
    var k, e := |w.link.up|, Others(w.link.slot.numRx + 1);
    var w1 := Does(w, e);
    SentAgain(w1);
    var w2 := Does(w1, RollBack);
    CountsOn(w2, k);
    var w3 := Does(w2, AtServer(k));
    var rest;
    if w3.link.srv.pending { rest := Answered(w3); } else { rest := CatchesUp(w3); }
    Then(w2, AtServer(k), rest);
    Then(w1, RollBack, [AtServer(k)] + rest);
    Then(w, e, [RollBack] + ([AtServer(k)] + rest));
    events := [e] + ([RollBack] + ([AtServer(k)] + rest));
  }

  // ---------------------------------------------------------------- what recovery takes

  ghost predicate Completable(w: Lossy) {
    exists events :: Possible(w, events) && !Outcome(w, events).link.slot.active
  }

  lemma {:induction false} NothingToRollBack(w: Lossy, events: seq<Event>)
    requires Silent(w.link) && w.link.slot.numTx == w.link.slot.numRx && Possible(w, events)
    ensures Outcome(w, events).link == w.link
    decreases |events|
  {
    if events != [] { NothingToRollBack(Does(w, events[0]), events[1..]); }
  }

  /** A silent slot can complete its request exactly in these cases. */
  predicate Hopeful(l: Link) {
    || l.slot.numRx == 0
    || (l.slot.numRx < l.slot.request.pkts && l.srv.numRx < l.slot.request.pkts && l.slot.numTx != l.slot.numRx)
  }

  lemma HopefulCompletes(w: Lossy)
    requires Silent(w.link) && Steady(w.link) && Hopeful(w.link)
    ensures Completable(w)
  {
    var events;
    if w.link.slot.numRx == 0 { events := Recovers(w); } else { events := CatchesUp(w); }
    assert Possible(w, events) && !Outcome(w, events).link.slot.active;
  }

  lemma HopelessNever(w: Lossy, events: seq<Event>)
    requires Silent(w.link) && Steady(w.link) && !Hopeful(w.link) && Possible(w, events)
    ensures Outcome(w, events).link.slot.active
  {
    if w.link.slot.numTx == w.link.slot.numRx {
      NothingToRollBack(w, events);
    } else if w.link.slot.numRx >= w.link.slot.request.pkts {
      NeverSendsAgain(w, events);
    } else {
      TrappedForGood(w, events, w.link.slot.numRx);
    }
  }

  /**
   Take any working slot of a session, and let the network lose, copy and reorder and the slot be rolled
   back in any way until nothing is in flight for it. Its request can still be completed if and only if
   no response packet has been taken; or request packets are pending after a rollback that does
   something, and the server has yet to count the request.
   */
  lemma RecoversIff(w: Lossy, history: seq<Event>)
    requires Busy(w.link) && w.link.slot.numTx > 0 && Possible(w, history) && Silent(Outcome(w, history).link)
    ensures Completable(Outcome(w, history)) <==> Hopeful(Outcome(w, history).link)
  {
    SteadyRun(w, history);
    var w' := Outcome(w, history);
    if Hopeful(w'.link) {
      HopefulCompletes(w');
    } else {
      forall events | Possible(w', events) ensures Outcome(w', events).link.slot.active {
        HopelessNever(w', events);
      }
    }
  }

  /**
   With losses that keep the order of the other packets, and before any rollback, the client can tell:
   the request can still be completed if and only if no response packet has been taken.
   */
  lemma LossRecoversIff(w: Lossy, losses: seq<Event>)
    requires Busy(w.link) && w.link.slot.numTx > 0 && Possible(w, losses) && (forall e :: e in losses ==> Ordered(e))
    requires Silent(Outcome(w, losses).link)
    ensures Completable(Outcome(w, losses)) <==> Outcome(w, losses).link.slot.numRx == 0
  {
    BusyConsistent(w.link);
    LossesKeep(w, losses);
    RecoversIff(w, losses);
  }

  /** One lost request-for-response: a request of one packet, and a response of two. */
  lemma LostRfr(w: Lossy) returns (losses: seq<Event>)
    requires Busy(w.link) && w.link.slot.request == Request(1, 2) && w.link.slot.numTx == 1 && Arrived(w.link) == 0
    ensures Possible(w, losses) && (forall e :: e in losses ==> Ordered(e))
    ensures var l := Outcome(w, losses).link; Silent(l) && l.slot.numRx == 1 == l.slot.request.pkts
  {
    ReqHead(w.link);
    assert w.link.up == [Req(w.link.slot.hdr, 0, 1)] && w.link.down == [];
    var rest := LostAfterOne(Does(w, AtServer(0)));
    Then(w, AtServer(0), rest);
    losses := [AtServer(0)] + rest;
  }

  lemma LostAfterOne(w: Lossy) returns (losses: seq<Event>)
    requires w.link.up == [] && w.link.down == [] && w.link.srv.pending
    requires var s := w.link.slot; s.active && s.request == Request(1, 2) && s.numTx == 1 && s.numRx == 0
    ensures Possible(w, losses) && (forall e :: e in losses ==> Ordered(e))
    ensures var l := Outcome(w, losses).link; Silent(l) && l.slot.numRx == 1 == l.slot.request.pkts
  {
    var w1 := Does(w, Handled(2));
    assert w1.link.up == [] && w1.link.down == [RespPkt(w.link.srv.reqNum, 0, 2)];
    var w2 := Does(w1, AtClient(0));
    assert |w2.link.up| == 1 && w2.link.down == [];
    Then(w2, LoseUp(0), []);
    Then(w1, AtClient(0), [LoseUp(0)] + []);
    Then(w, Handled(2), [AtClient(0)] + ([LoseUp(0)] + []));
    losses := [Handled(2)] + ([AtClient(0)] + ([LoseUp(0)] + []));
  }

  /** The same of a request of two packets, with request packets pending after the rollback. */
  lemma LostWhilePending(w: Lossy) returns (losses: seq<Event>)
    requires Busy(w.link) && w.link.slot.request == Request(2, 2) && w.link.slot.numTx == 2 && Arrived(w.link) == 0
    ensures Possible(w, losses) && (forall e :: e in losses ==> Ordered(e))
    ensures var w' := Outcome(w, losses);
      Silent(w'.link) && w'.link.slot.numRx == 1 && w'.link.slot.request == Request(2, 2) && RolledBack(w').up != []
  {
    var h := w.link.slot.hdr;
    ReqHead(w.link);
    assert w.link.up == [Req(h, 0, 2), Req(h, 1, 2)] && w.link.down == [];
    var w1 := Does(w, AtServer(0));
    assert w1.link.up == [Req(h, 1, 2)] && w1.link.down == [Cr(h, 0)];
    var rest := LostAfterFirst(w1, h);
    Then(w, AtServer(0), rest);
    losses := [AtServer(0)] + rest;
  }

  lemma LostAfterFirst(w: Lossy, h: nat) returns (losses: seq<Event>)
    requires w.link.up == [Req(h, 1, 2)] && w.link.down == [Cr(h, 0)] && w.link.srv.numRx == 1 && !w.link.srv.pending
    requires var s := w.link.slot; s.active && s.request == Request(2, 2) && s.numTx == 2 && s.numRx == 0
    ensures Possible(w, losses) && (forall e :: e in losses ==> Ordered(e))
    ensures var w' := Outcome(w, losses);
      Silent(w'.link) && w'.link.slot.numRx == 1 && w'.link.slot.request == Request(2, 2) && RolledBack(w').up != []
  {
    hide RolledBack;
    var w1 := Does(w, AtServer(0));
    var w2 := Does(w1, Handled(2));
    assert w2.link.up == [] && w2.link.down == [Cr(h, 0), RespPkt(w2.link.srv.reqNum, 0, 2)];
    var rest := LostAfterResponse(w2, h);
    Then(w1, Handled(2), rest);
    Then(w, AtServer(0), [Handled(2)] + rest);
    losses := [AtServer(0)] + ([Handled(2)] + rest);
  }

  lemma LostAfterResponse(w: Lossy, h: nat) returns (losses: seq<Event>)
    requires w.link.up == [] && w.link.down == [Cr(h, 0), RespPkt(w.link.srv.reqNum, 0, 2)] && !w.link.srv.pending
    requires var s := w.link.slot; s.active && s.request == Request(2, 2) && s.numTx == 2 && s.numRx == 0
    ensures Possible(w, losses) && (forall e :: e in losses ==> Ordered(e))
    ensures var w' := Outcome(w, losses);
      Silent(w'.link) && w'.link.slot.numRx == 1 && w'.link.slot.request == Request(2, 2) && RolledBack(w').up != []
  {
    var w1 := Does(w, AtClient(0));
    assert w1.link.up == [] && w1.link.down == [RespPkt(w.link.srv.reqNum, 0, 2)];
    var w2 := Does(w1, AtClient(0));
    assert |w2.link.up| == 1 && w2.link.down == [] && w2.link.slot.numTx == 3;
    Then(w2, LoseUp(0), []);
    Then(w1, AtClient(0), [LoseUp(0)] + []);
    Then(w, AtClient(0), [AtClient(0)] + ([LoseUp(0)] + []));
    losses := [AtClient(0)] + ([AtClient(0)] + ([LoseUp(0)] + []));
  }

  /**
   Request packets pending after the rollback are not enough: with the last packet in flight lost after
   some response packets, the rollback sends request packets again, and no run completes the request.
   */
  lemma PendingIsNotEnough(w: Lossy, events: seq<Event>)
    requires Busy(w.link) && 1 <= w.link.slot.numRx < w.link.slot.request.pkts
    requires |w.link.up| == 1 && w.link.down == [] && !w.link.srv.pending && Possible(Does(w, LoseUp(0)), events)
    ensures var w' := Does(w, LoseUp(0));
      Silent(w'.link) && RolledBack(w').up != [] && Outcome(w', events).link.slot.active
  {
    var w' := Does(w, LoseUp(0));
    TrappedForGood(w', events, w.link.slot.numRx);
  }

  // ---------------------------------------------------------------- the rollback's assertion

  /**
   In every reachable state of a session: the credits a rollback of slot `i` takes back keep the total
   within the limit if and only if the slot has taken no more credit returns than the other slots have
   packets outstanding. Credit returns are given back twice.
   */
  lemma RollbackAssertIff(g: State, i: nat)
    requires Inv(g) && i < WINDOW && g.client.slots[i].active
    ensures var s := g.client.slots[i];
      g.client.credits + s.numTx - s.numRx <= CREDITS <==> s.crs <= OutSum(g.client.slots) - Outstanding(s)
  {
    NothingOwed(g.client.done);
  }
}
