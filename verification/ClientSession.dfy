/**
 The client end of a session as the object whose fields the datapath calls update. Each method loops
 and branches as the source does and is proved to compute the function of `SessionState` of the same
 name on every state and packet, so every law of calls and runs holds of it.
 */
module ClientSession {
  import opened SessionState
  import opened SessionLaws
  import opened KickLaws

  lemma RequestsGrow(reqNum: nat, total: nat, from: nat, n: nat)
    ensures Requests(reqNum, total, from, n) + [Req(reqNum, from + n, total)] == Requests(reqNum, total, from, n + 1)
  {
  }

  lemma RfrsGrow(reqNum: nat, from: int, n: nat)
    ensures Rfrs(reqNum, from, n) + [Rfr(reqNum, Num16(from + n))] == Rfrs(reqNum, from, n + 1)
  {
  }

  /** The constructor's loop arranges the free vector so that slots are popped in order. */
  method NumberSlots() returns (ss: seq<Slot>, fs: seq<nat>)
    ensures ss == NewSession().slots && fs == NewSession().free
  {
    ss, fs := seq(WINDOW, i requires 0 <= i => Slot(false, 0, 0, Request(0, 0), 0, 0, 0, [])), [];
    for i := 0 to WINDOW
      invariant |ss| == WINDOW && |fs| == i
      invariant forall k :: 0 <= k < i ==> fs[k] == WINDOW - 1 - k
      invariant forall k :: WINDOW - i <= k < WINDOW ==> ss[k] == Slot(false, k, k, Request(0, 0), 0, 0, 0, [])
    {
      var sslot := WINDOW - 1 - i;
      ss := ss[sslot := Slot(false, sslot, sslot, Request(0, 0), 0, 0, 0, [])];
      fs := fs + [sslot];
    }
  }

  class Session {
    var credits: nat
    var slots: seq<Slot>
    var up: seq<seq<ToServer>>
    var free: seq<nat>
    var backlog: seq<Request>
    var stallq: seq<nat>
    var done: seq<Completion>
    var status: Status

    ghost function Value(): Client
      reads this
    {
      Client(credits, slots, up, free, backlog, stallq, done, status)
    }

    ghost predicate Valid()
      reads this
    {
      Good(Value())
    }

    constructor ()
      ensures Valid() && Value() == NewSession()
    {
      credits, status := CREDITS, Running;
      up, backlog, stallq, done := seq(WINDOW, i => []), [], [], [];
      var ss, fs := NumberSlots();
      slots, free := ss, fs;
      new;
      NewSessionOk();
      assert up == NewSession().up;
      assert Value() == NewSession();
    }

    /** Put one packet of slot `i` on the wire: `num_tx` goes up and a credit is spent. */
    method Send(i: nat, p: ToServer)
      requires Shaped(Value()) && i < WINDOW && credits > 0
      modifies this`slots, this`up, this`credits
      ensures Value() == WithLane(old(Value()), i, Lane(old(slots[i]).(numTx := old(slots[i].numTx) + 1),
                                                       old(up[i]) + [p], old(credits) - 1))
    {
      up := up[i := up[i] + [p]];
      slots := slots[i := slots[i].(numTx := slots[i].numTx + 1)];
      credits := credits - 1;
    }

    method KickReq(i: nat)
      requires Shaped(Value()) && i < WINDOW && credits > 0 && slots[i].numTx <= slots[i].request.pkts
      modifies this`slots, this`up, this`credits
      ensures Value() == Kicked(old(Value()), i) && (ReqPending(slots[i]) ==> credits == 0)
    {
      ghost var c, s, u := Value(), slots[i], up[i];
      var sending := Min(credits, slots[i].request.pkts - slots[i].numTx);
      assert u + Requests(s.hdr, s.request.pkts, s.numTx, 0) == u && slots[i := s] == slots && up[i := u] == up;
      for x := 0 to sending
        invariant Shaped(c) && credits == c.credits - x
        invariant Value() == WithLane(c, i, Lane(s.(numTx := s.numTx + x),
                                                 u + Requests(s.hdr, s.request.pkts, s.numTx, x), c.credits - x))
      {
        RequestsGrow(s.hdr, s.request.pkts, s.numTx, x);
        assert u + Requests(s.hdr, s.request.pkts, s.numTx, x) + [Req(s.hdr, s.numTx + x, s.request.pkts)]
            == u + Requests(s.hdr, s.request.pkts, s.numTx, x + 1);
        Send(i, Req(slots[i].hdr, slots[i].numTx, slots[i].request.pkts));
      }
    }

    method KickRfr(i: nat, reqNum: nat, total: nat)
      requires Shaped(Value()) && i < WINDOW && credits > 0
      modifies this`slots, this`up, this`credits
      ensures Value() == WithLane(old(Value()), i, SessionState.KickRfr(old(LaneOf(Value(), i)), reqNum, total))
      ensures slots[i].numTx == Wire(slots[i].request, total) || credits == 0
    {
      ghost var c, s, u := Value(), slots[i], up[i];
      ghost var first := s.numTx - s.request.pkts + 1;
      var sending := RfrsToSend(LaneOf(Client(credits, slots, up, free, backlog, stallq, done, status), i), total);
      assert u + Rfrs(reqNum, first, 0) == u && slots[i := s] == slots && up[i := u] == up;
      for x := 0 to sending
        invariant Shaped(c) && credits == c.credits - x
        invariant Value() == WithLane(c, i, Lane(s.(numTx := s.numTx + x), u + Rfrs(reqNum, first, x), c.credits - x))
      {
        RfrsGrow(reqNum, first, x);
        assert u + Rfrs(reqNum, first, x) + [Rfr(reqNum, Num16(first + x))] == u + Rfrs(reqNum, first, x + 1);
        Send(i, Rfr(reqNum, Num16(slots[i].numTx - slots[i].request.pkts + 1)));
      }
    }

    /** `ok` is the assertion; the count goes up either way. */
    method BumpCredits() returns (ok: bool)
      modifies this`credits
      ensures credits == old(credits) + 1 && (ok <==> credits <= CREDITS)
    {
      ok := credits < CREDITS;
      credits := credits + 1;
    }

    /** The slot's part of `enqueue_request`, with a free slot at hand. */
    method StartRequest(r: Request)
      requires Shaped(Value()) && free != []
      modifies this`slots, this`up, this`credits, this`free, this`stallq
      ensures Value() == Start(old(Value()), r)
    {
      var i := free[|free| - 1];
      free := free[..|free| - 1];
      slots := slots[i := FreshSlot(slots[i], r)];
      if credits > 0 {
        KickReq(i);
      } else {
        stallq := stallq + [i];
      }
    }

    method EnqueueRequest(r: Request)
      requires Shaped(Value())
      modifies this
      ensures Value() == Enqueue(old(Value()), r)
      ensures old(Valid()) && Serves(r) ==> Valid()
    {
      if Valid() && Serves(r) { EnqueueKept(Value(), r); }
      if free == [] {
        backlog := backlog + [r];
        return;
      }
      StartRequest(r);
    }

    /** A credit return, for any slot: without a request its message buffer is null. */
    method ProcessExplCr(p: ToClient) returns (ok: bool)
      requires Shaped(Value()) && p.Cr?
      modifies this
      ensures Value() == Take(old(Value()), p) && (ok <==> old(credits) < CREDITS)
      ensures old(Valid()) ==> (Valid() <==> old(Working(Value(), p)))
    {
      hide Balanced, BacklogOk, SlotsOk, StallOk;
      ghost var c := Value();
      if Valid() { TakeKeepsIff(c, p); }
      var i := SlotOf(p);
      ok := BumpCredits();
      if !slots[i].active {
        status := NullRequest;
        return;
      }
      slots := slots[i := slots[i].(crs := slots[i].crs + 1)];
      if ReqPending(slots[i]) { KickReq(i); }
      assert Value() == Take(c, p);
    }

    /** Count the packet and ask for more of the response. */
    method TakeResp(i: nat, p: ToClient) returns (ok: bool)
      requires Shaped(Value()) && i < WINDOW && p.RespPkt? && (slots[i].active || p.total <= 1)
      modifies this`slots, this`up, this`credits
      ensures Value() == WithLane(old(Value()), i, OnResp(old(LaneOf(Value(), i)), p))
      ensures ok <==> old(credits) < CREDITS
    {
      ok := BumpCredits();
      slots := slots[i := slots[i].(numRx := slots[i].numRx + 1, got := slots[i].got + [p])];
      if p.total > 1 && slots[i].numTx != Wire(slots[i].request, p.total) {
        KickRfr(i, p.reqNum, p.total);
      }
    }

    method FinishRequest(i: nat)
      requires Shaped(Value()) && i < WINDOW
      modifies this
      ensures Value() == Finish(old(Value()), i)
    {
      if |free| >= WINDOW {
        status := FreeOverflow;
        return;
      }
      if backlog != [] {
        status := NullHeader;
        return;
      }
      var s := slots[i];
      slots := slots[i := s.(active := false, numRx := 0)];
      free := free + [i];
      done := done + [Completion(s.reqNum, s.request, s.got, Outstanding(s))];
    }

    /** A response packet, for any slot: `total` is the packet count its header carries. */
    method ProcessRespOne(p: ToClient) returns (ok: bool)
      requires Shaped(Value()) && p.RespPkt?
      modifies this
      ensures Value() == Take(old(Value()), p) && (ok <==> old(credits) < CREDITS)
      ensures old(Valid()) && p.total >= 1 ==>
        (Valid() <==> old(Working(Value(), p) && !(Completing(Value(), p) && backlog != [])))
    {
      ghost var c := Value();
      if Valid() && p.total >= 1 { TakeKeepsIff(c, p); }
      var i := SlotOf(p);
      if !slots[i].active && p.total > 1 {
        ok := BumpCredits();
        slots := slots[i := slots[i].(numRx := slots[i].numRx + 1)];
        status := NullRequest;
      } else {
        ok := TakeResp(i, p);
        if Completes(slots[i], p.total) { FinishRequest(i); }
      }
      assert Value() == Take(c, p);
    }

    /** Kicks while there are credits; keeps the others, in order, at the front of the queue. */
    method ProcessCreditStallQueue()
      requires Shaped(Value()) && status == Running
      modifies this
      ensures Value() == Drain(old(Value()))
      ensures old(Valid()) ==> Valid() && (stallq != [] ==> credits == 0)
      ensures old(Valid()) ==> |stallq| <= |old(stallq)| && stallq == old(stallq)[|old(stallq)| - |stallq|..]
    {
      hide Balanced, BacklogOk, SlotsOk, FreeOk, StallOk, Kicked;
      ghost var c := Value();
      if Valid() {
        StalledKept(c);
        StallSuffix(c);
      }
      var q := stallq;
      stallq := [];
      for k := 0 to |q|
        invariant Shaped(Value()) && status == Running
        invariant forall j :: 0 <= j < |q| ==> q[j] < WINDOW
        invariant DrainFrom(Value(), q[k..]) == Drain(c)
      {
        assert q[k..][0] == q[k] && q[k..][1..] == q[k + 1..];
        if credits == 0 {
          stallq := stallq + [q[k]];
        } else if !slots[q[k]].active {
          status := NullRequest;
          return;
        } else if !ReqPending(slots[q[k]]) {
          status := NullHeader;
          return;
        } else {
          KickReq(q[k]);
        }
      }
      assert q[|q|..] == [];
    }
  }
}
