/**
 Runs of the client alone, over a network that may deliver the answer to any packet any number of
 times and at any time, also after the request has finished and its slot has been freed or taken for
 another request. The client does not filter what it receives. Packets sent stay in `up`, so that their
 number can be read off.
 */
module ClientRuns {
  import opened SessionState
  import opened SessionLaws

  datatype Call = Enq(r: Request) | Stalled | Taken(p: ToClient)

  /** How many packets the server's response to a request number has. */
  type Sizes = nat -> nat

  /** `p` answers a packet that slot sent at some time. */
  predicate Genuine(sizes: Sizes, up: seq<ToServer>, p: ToClient) {
    if p.Cr? then exists q :: q in up && q.Req? && q.reqNum == p.reqNum && q.num == p.num && q.num + 1 < q.total
    else
      && p.num < p.total == sizes(p.reqNum)
      && if p.num == 0 then exists q :: q in up && q.Req? && q.reqNum == p.reqNum && q.num + 1 == q.total
         else exists q :: q in up && q.Rfr? && q.reqNum == p.reqNum && q.num == p.num
  }

  predicate Enabled(sizes: Sizes, c: Client, call: Call) {
    Shaped(c) && c.status == Running &&
    match call
    case Enq(r) => Serves(r)
    case Stalled => true
    case Taken(p) => Genuine(sizes, c.up[SlotOf(p)], p)
  }

  function Next(c: Client, call: Call): (c': Client)
    requires Shaped(c)
    ensures Shaped(c')
  {
    match call
    case Enq(r) => Enqueue(c, r)
    case Stalled => Drain(c)
    case Taken(p) => Take(c, p)
  }

  predicate Legal(sizes: Sizes, c: Client, calls: seq<Call>)
    decreases |calls|
  {
    calls == [] || (Enabled(sizes, c, calls[0]) && Legal(sizes, Next(c, calls[0]), calls[1..]))
  }

  function After(c: Client, calls: seq<Call>): (c': Client)
    requires Shaped(c)
    ensures Shaped(c')
    decreases |calls|
  {
    if calls == [] then c else After(Next(c, calls[0]), calls[1..])
  }

  /** Packets taken from the network in a run. */
  function Answers(calls: seq<Call>): nat {
    if calls == [] then 0 else (if calls[0].Taken? then 1 else 0) + Answers(calls[1..])
  }

  /** Packets handed to the network. */
  function Sent(up: seq<seq<ToServer>>): nat { if up == [] then 0 else |up[0]| + Sent(up[1..]) }

  // ---------------------------------------------------------------- when bump_credits may be called

  lemma {:induction false} SentUpdate(up: seq<seq<ToServer>>, i: nat, u: seq<ToServer>)
    requires i < |up|
    ensures Sent(up[i := u]) == Sent(up) - |up[i]| + |u|
  {
    if i == 0 {
      assert up[i := u][1..] == up[1..];
    } else {
      SentUpdate(up[1..], i - 1, u);
      assert up[i := u][1..] == up[1..][i - 1 := u];
    }
  }

  lemma {:induction false} SentNothing(up: seq<seq<ToServer>>)
    requires forall i :: 0 <= i < |up| ==> up[i] == []
    ensures Sent(up) == 0
  {
    if up != [] { SentNothing(up[1..]); }
  }

  /** A credit is spent for each packet sent. */
  lemma KickedLedger(c: Client, i: nat)
    requires Shaped(c) && i < WINDOW
    ensures Kicked(c, i).credits + Sent(Kicked(c, i).up) == c.credits + Sent(c.up)
  {
    if ReqPending(c.slots[i]) { SentUpdate(c.up, i, KickReq(LaneOf(c, i)).up); }
  }

  lemma {:induction false} DrainLedger(c: Client, q: seq<nat>)
    requires Shaped(c) && forall k :: 0 <= k < |q| ==> q[k] < WINDOW
    ensures DrainFrom(c, q).credits + Sent(DrainFrom(c, q).up) == c.credits + Sent(c.up)
    decreases |q|
  {
    if q != [] && c.status == Running {
      if c.credits > 0 {
        KickedLedger(c, q[0]);
        DrainLedger(Unstalled(c, q[0]), q[1..]);
      } else {
        DrainLedger(c.(stallq := c.stallq + [q[0]]), q[1..]);
      }
    }
  }

  lemma TakeLedger(c: Client, p: ToClient)
    requires Shaped(c)
    ensures Take(c, p).credits + Sent(Take(c, p).up) == c.credits + Sent(c.up) + 1
  {
    var i := SlotOf(p);
    var l := LaneOf(c, i);
    if p.Cr? {
      SentUpdate(c.up, i, OnCredit(l).up);
    } else {
      SentUpdate(c.up, i, OnResp(l, p).up);
    }
  }

  lemma EnqueueLedger(c: Client, r: Request)
    requires Shaped(c)
    ensures Enqueue(c, r).credits + Sent(Enqueue(c, r).up) == c.credits + Sent(c.up)
  {
    if c.free != [] {
      var i := c.free[|c.free| - 1];
      KickedLedger(c.(free := c.free[..|c.free| - 1], slots := c.slots[i := FreshSlot(c.slots[i], r)]), i);
    }
  }

  lemma {:induction false} Ledger(c: Client, calls: seq<Call>)
    requires Shaped(c)
    ensures After(c, calls).credits + Sent(After(c, calls).up) == c.credits + Sent(c.up) + Answers(calls)
    decreases |calls|
  {
    if calls != [] {
      match calls[0] {
        case Enq(r) => EnqueueLedger(c, r);
        case Stalled => DrainLedger(c.(stallq := []), c.stallq);
        case Taken(p) => TakeLedger(c, p);
      }
      Ledger(Next(c, calls[0]), calls[1..]);
    }
  }

  lemma BumpHoldsFrom(c: Client, calls: seq<Call>)
    requires Shaped(c) && c.credits == CREDITS && Sent(c.up) == 0
    ensures After(c, calls).credits < CREDITS <==> Answers(calls) < Sent(After(c, calls).up)
  {
    Ledger(c, calls);
  }

  lemma NothingSentYet()
    ensures Shaped(NewSession()) && NewSession().credits == CREDITS && Sent(NewSession().up) == 0
  {
    SentNothing(NewSession().up);
  }

  /**
   In every run of a new session, whatever has been delivered again: when the next packet arrives, the
   assertion of `bump_credits` holds if and only if fewer packets have been taken than were sent.
   */
  lemma BumpHoldsIff(calls: seq<Call>)
    ensures Shaped(NewSession())
    ensures After(NewSession(), calls).credits < 32 <==> Answers(calls) < Sent(After(NewSession(), calls).up)
  {
    NothingSentYet();
    BumpHoldsFrom(NewSession(), calls);
  }

  // ---------------------------------------------------------------- runs that go wrong

  /** Every response is a single packet. */
  function Single(reqNum: nat): nat { 1 }

  lemma Prepend(sizes: Sizes, c: Client, call: Call, rest: seq<Call>)
    requires Enabled(sizes, c, call) && Legal(sizes, Next(c, call), rest)
    ensures Legal(sizes, c, [call] + rest) && After(c, [call] + rest) == After(Next(c, call), rest)
    ensures Answers([call] + rest) == Answers(rest) + if call.Taken? then 1 else 0
  {
    assert ([call] + rest)[0] == call && ([call] + rest)[1..] == rest;
  }

  /** A request started on a free slot sends its packets at once. */
  lemma StartSends(c: Client, r: Request, i: nat)
    requires Good(c) && Serves(r) && c.free != [] && c.free[|c.free| - 1] == i && c.credits >= r.pkts
    ensures var c' := Enqueue(c, r);
      && Good(c') && !c.slots[i].active
      && c'.slots == c.slots[i := FreshSlot(c.slots[i], r).(numTx := r.pkts)]
      && c'.up == c.up[i := c.up[i] + Requests(Hdr(c.slots[i].reqNum + WINDOW), r.pkts, 0, r.pkts)]
      && c'.free == c.free[..|c.free| - 1] && c'.backlog == c.backlog && c'.credits == c.credits - r.pkts
  {
    assert i in c.free;
    EnqueueKept(c, r);
  }

  /** The response to a single-packet request frees its slot; a second copy frees it again. */
  lemma FreedTwice(c: Client, p: ToClient)
    requires Good(c) && Working(c, p) && p.RespPkt? && p.total == 1 && c.backlog == []
    requires exists j :: 0 <= j < WINDOW && j != SlotOf(p) && c.slots[j].active
    ensures var once := Take(c, p);
      && Good(once) && once == Freed(WithLane(c, SlotOf(p), OnResp(LaneOf(c, SlotOf(p)), p)), SlotOf(p))
      && once.up == c.up && once.credits == c.credits + 1
      && Take(once, p).status == Running && !FreeOk(Take(once, p)) && Take(once, p).credits == c.credits + 2
  {
    hide SlotsOk, StallOk, BacklogOk, Balanced;
    var i, once := SlotOf(p), Take(c, p);
    TakeKeepsIff(c, p);
    FreeRoom(WithLane(c, i, OnResp(LaneOf(c, i), p)), i);
    var j :| 0 <= j < WINDOW && j != i && c.slots[j].active;
    assert once.slots[j].active;
    FreeRoom(once, j);
    assert i in once.free;
    var k :| 0 <= k < |once.free| && once.free[k] == i;
    assert Take(once, p).free[k] == Take(once, p).free[|once.free|] == i;
  }

  lemma TwoWorking(c: Client, i: nat) returns (c1: Client, c2: Client, p: ToClient)
    requires Good(c) && |c.free| >= 2 && c.free[|c.free| - 1] == i && c.credits >= 2 && c.backlog == []
    ensures c1 == Enqueue(c, Request(1, 1)) && c2 == Enqueue(c1, Request(1, 1))
    ensures Good(c1) && Good(c2) && c2.backlog == [] && c2.credits == c.credits - 2
    ensures p.RespPkt? && p.num == 0 && p.total == 1 && SlotOf(p) == i && Working(c2, p) && Genuine(Single, c2.up[i], p)
    ensures exists j :: 0 <= j < WINDOW && j != i && c2.slots[j].active
  {
    hide StallOk, BacklogOk, Balanced, Distinct;
    var r, n := Request(1, 1), c.slots[i].reqNum + WINDOW;
    StartSends(c, r, i);
    c1 := Enqueue(c, r);
    var j := c1.free[|c1.free| - 1];
    assert c1.free[|c1.free| - 1] in c1.free && !c1.slots[j].active;
    StartSends(c1, r, j);
    c2 := Enqueue(c1, r);
    p := RespPkt(Hdr(n), 0, 1);
    HdrSlot(n);
    assert SlotOk(c1.slots[i], i);
    assert c2.up[i][|c.up[i]|] == Req(Hdr(n), 0, 1);
    assert c2.slots[j].active;
  }

  /**
   Two requests of one packet, and the first response delivered twice: all assertions hold, and the
   slot is in the free vector twice.
   */
  lemma DuplicateFreesTwice(c: Client) returns (calls: seq<Call>)
    requires Good(c) && |c.free| >= 2 && 2 <= c.credits <= CREDITS && c.backlog == []
    ensures Legal(Single, c, calls) && Answers(calls) == 2
    ensures After(c, calls).status == Running && !FreeOk(After(c, calls)) && After(c, calls).credits <= CREDITS
  {
    hide Take, Enqueue, StallOk, SlotsOk, BacklogOk, Balanced, Genuine;
    var r, i := Request(1, 1), c.free[|c.free| - 1];
    var c1, c2, p := TwoWorking(c, i);
    FreedTwice(c2, p);
    var c3 := Take(c2, p);
    Prepend(Single, c3, Taken(p), []);
    Prepend(Single, c2, Taken(p), [Taken(p)] + []);
    Prepend(Single, c1, Enq(r), [Taken(p)] + ([Taken(p)] + []));
    Prepend(Single, c, Enq(r), [Enq(r)] + ([Taken(p)] + ([Taken(p)] + [])));
    calls := [Enq(r)] + ([Enq(r)] + ([Taken(p)] + ([Taken(p)] + [])));
  }

  /** A credit return for a slot that has sent all its request packets gives a credit and sends nothing. */
  lemma CreditOnly(c: Client, q: ToClient)
    requires Good(c) && q.Cr? && Working(c, q) && !ReqPending(c.slots[SlotOf(q)])
    ensures var c' := Take(c, q);
      && Good(c') && Working(c', q) && !ReqPending(c'.slots[SlotOf(q)])
      && c'.up == c.up && c'.credits == c.credits + 1
  {
    TakeKeepsIff(c, q);
  }

  lemma TwoSent(c: Client, i: nat) returns (c1: Client, q: ToClient, p: ToClient)
    requires Good(c) && c.free != [] && c.free[|c.free| - 1] == i && c.credits >= 2 && c.backlog == []
    ensures c1 == Enqueue(c, Request(2, 1)) && Good(c1) && c1.credits == c.credits - 2
    ensures q.Cr? && Working(c1, q) && !ReqPending(c1.slots[SlotOf(q)]) && Genuine(Single, c1.up[SlotOf(q)], q)
    ensures SlotOf(p) == SlotOf(q) && p.RespPkt? && Genuine(Single, c1.up[SlotOf(p)], p)
  {
    hide StallOk, BacklogOk, Balanced, Distinct;
    var n := c.slots[i].reqNum + WINDOW;
    StartSends(c, Request(2, 1), i);
    c1 := Enqueue(c, Request(2, 1));
    HdrSlot(n);
    assert SlotOk(c1.slots[i], i);
    q, p := Cr(Hdr(n), 0), RespPkt(Hdr(n), 0, 1);
    assert c1.up[i][|c.up[i]|] == Req(Hdr(n), 0, 2) && c1.up[i][|c.up[i]| + 1] == Req(Hdr(n), 1, 2);
  }

  /** A credit return taken twice: the response finds `bump_credits` at its limit. */
  lemma DuplicateTripsBump(c: Client) returns (calls: seq<Call>, p: ToClient)
    requires Good(c) && c.free != [] && c.credits == CREDITS && c.backlog == []
    ensures Legal(Single, c, calls) && Answers(calls) == 2
    ensures var c' := After(c, calls); Enabled(Single, c', Taken(p)) && Working(c', p) && c'.credits == CREDITS
  {
    hide Take, Enqueue, Genuine, StallOk, SlotsOk, BacklogOk, Balanced;
    var c1, q;
    c1, q, p := TwoSent(c, c.free[|c.free| - 1]);
    CreditOnly(c1, q);
    var c2 := Take(c1, q);
    CreditOnly(c2, q);
    Prepend(Single, c2, Taken(q), []);
    Prepend(Single, c1, Taken(q), [Taken(q)] + []);
    Prepend(Single, c, Enq(Request(2, 1)), [Taken(q)] + ([Taken(q)] + []));
    calls := [Enq(Request(2, 1))] + ([Taken(q)] + ([Taken(q)] + []));
  }

  /** Both from a new session. */
  lemma NewSessionGoesWrong() returns (twice: seq<Call>, trips: seq<Call>, p: ToClient)
    ensures Legal(Single, NewSession(), twice) && !FreeOk(After(NewSession(), twice))
    ensures After(NewSession(), twice).status == Running && After(NewSession(), twice).credits <= CREDITS
    ensures Legal(Single, NewSession(), trips) && Enabled(Single, After(NewSession(), trips), Taken(p))
    ensures After(NewSession(), trips).credits == CREDITS
  {
    NewSessionOk();
    twice := DuplicateFreesTwice(NewSession());
    trips, p := DuplicateTripsBump(NewSession());
  }
}
