/**
 Whose response a finished request got. The client takes every response packet for the request its
 slot is working on, so a late packet of an earlier request is taken for it.
 */
module OwnResponses {
  import opened SessionState
  import opened SessionLaws
  import opened ClientRuns

  /** What the first two tests of the in-order filter ask: the slot's request number and its next packet. */
  predicate Passes(c: Client, p: ToClient)
    requires Shaped(c)
  {
    var s := c.slots[SlotOf(p)];
    s.active && p.reqNum == s.hdr && p.num == s.numRx
  }

  /** Whether every response packet taken for slot `i` since its request was started passes, after one more call. */
  predicate StillPassed(c: Client, call: Call, i: nat, passed: bool)
    requires Shaped(c)
  {
    match call
    case Enq(_) => passed || (c.free != [] && c.free[|c.free| - 1] == i)
    case Stalled => passed
    case Taken(p) => passed && (p.RespPkt? && SlotOf(p) == i ==> Passes(c, p))
  }

  predicate PassedFrom(c: Client, calls: seq<Call>, i: nat, passed: bool)
    requires Shaped(c)
    decreases |calls|
  {
    if calls == [] then passed else PassedFrom(Next(c, calls[0]), calls[1..], i, StillPassed(c, calls[0], i, passed))
  }

  predicate Passed(c: Client, calls: seq<Call>, i: nat)
    requires Shaped(c)
  {
    PassedFrom(c, calls, i, true)
  }

  /** The request got exactly the packets of the response to its own number, in order and once each. */
  predicate Own(sizes: Sizes, d: Completion) {
    var h := Hdr(d.reqNum);
    d.got == Resps(h, sizes(h), 0, sizes(h))
  }

  // ---------------------------------------------------------------- what a run knows of a slot

  predicate SlotTracks(sizes: Sizes, s: Slot, up: seq<ToServer>, passed: bool) {
    && s.hdr == Hdr(s.reqNum)
    && (s.active ==> |s.got| == s.numRx && (passed <==> s.got == Resps(s.hdr, sizes(s.hdr), 0, s.numRx)))
    && (!s.active && up != [] ==> s.got != [])
  }

  predicate Tracks(sizes: Sizes, c: Client, i: nat, passed: bool) {
    Shaped(c) && i < WINDOW && SlotTracks(sizes, c.slots[i], c.up[i], passed)
  }

  lemma EnqueueTracks(sizes: Sizes, c: Client, r: Request, i: nat, passed: bool)
    requires Tracks(sizes, c, i, passed)
    ensures Tracks(sizes, Enqueue(c, r), i, StillPassed(c, Enq(r), i, passed))
  {
  }

  lemma {:induction false} DrainTracks(sizes: Sizes, c: Client, q: seq<nat>, i: nat, passed: bool)
    requires Tracks(sizes, c, i, passed) && forall k :: 0 <= k < |q| ==> q[k] < WINDOW
    ensures Tracks(sizes, DrainFrom(c, q), i, passed)
    decreases |q|
  {
    if q != [] && c.status == Running {
      if c.credits > 0 {
        DrainTracks(sizes, Unstalled(c, q[0]), q[1..], i, passed);
      } else {
        DrainTracks(sizes, c.(stallq := c.stallq + [q[0]]), q[1..], i, passed);
      }
    }
  }

  /** One more packet: the list stays the slot's own if and only if the packet is the one awaited. */
  lemma Grows(sizes: Sizes, s: Slot, p: ToClient)
    requires p.RespPkt? && p.total == sizes(p.reqNum) && |s.got| == s.numRx
    ensures s.got + [p] == Resps(s.hdr, sizes(s.hdr), 0, s.numRx + 1)
       <==> s.got == Resps(s.hdr, sizes(s.hdr), 0, s.numRx) && p.reqNum == s.hdr && p.num == s.numRx
  {
    var all, own := Resps(s.hdr, sizes(s.hdr), 0, s.numRx + 1), Resps(s.hdr, sizes(s.hdr), 0, s.numRx);
    assert all[..s.numRx] == own && all[s.numRx] == RespPkt(s.hdr, s.numRx, sizes(s.hdr));
    assert (s.got + [p])[..s.numRx] == s.got && (s.got + [p])[s.numRx] == p;
    assert all == own + [all[s.numRx]];
  }

  lemma LaneTracks(sizes: Sizes, c: Client, p: ToClient, passed: bool)
    requires Tracks(sizes, c, SlotOf(p), passed) && p.RespPkt? && p.total == sizes(p.reqNum)
    ensures var l := OnResp(LaneOf(c, SlotOf(p)), p);
      && SlotTracks(sizes, l.slot, l.up, StillPassed(c, Taken(p), SlotOf(p), passed)) && l.slot.got != []
      && l.slot.active == c.slots[SlotOf(p)].active
  {
    if c.slots[SlotOf(p)].active { Grows(sizes, c.slots[SlotOf(p)], p); }
  }

  lemma RespTracks(sizes: Sizes, c: Client, p: ToClient, i: nat, passed: bool)
    requires Tracks(sizes, c, i, passed) && p.RespPkt? && p.total == sizes(p.reqNum)
    ensures Tracks(sizes, Take(c, p), i, StillPassed(c, Taken(p), i, passed))
  {
    if SlotOf(p) == i { LaneTracks(sizes, c, p, passed); }
  }

  lemma CreditTracks(sizes: Sizes, c: Client, p: ToClient, i: nat, passed: bool)
    requires Tracks(sizes, c, i, passed) && p.Cr?
    ensures Tracks(sizes, Take(c, p), i, passed)
  {
  }

  lemma CallTracks(sizes: Sizes, c: Client, call: Call, i: nat, passed: bool)
    requires Tracks(sizes, c, i, passed) && Enabled(sizes, c, call)
    ensures Tracks(sizes, Next(c, call), i, StillPassed(c, call, i, passed))
  {
    match call
    case Enq(r) => EnqueueTracks(sizes, c, r, i, passed);
    case Stalled => DrainTracks(sizes, c.(stallq := []), c.stallq, i, passed);
    case Taken(p) => if p.Cr? { CreditTracks(sizes, c, p, i, passed); } else { RespTracks(sizes, c, p, i, passed); }
  }

  lemma {:induction false} RunTracks(sizes: Sizes, c: Client, calls: seq<Call>, i: nat, passed: bool)
    requires Tracks(sizes, c, i, passed) && Legal(sizes, c, calls)
    ensures Tracks(sizes, After(c, calls), i, PassedFrom(c, calls, i, passed))
    decreases |calls|
  {
    if calls != [] {
      CallTracks(sizes, c, calls[0], i, passed);
      RunTracks(sizes, Next(c, calls[0]), calls[1..], i, StillPassed(c, calls[0], i, passed));
    }
  }

  lemma NewTracks(sizes: Sizes, i: nat)
    requires i < WINDOW
    ensures Tracks(sizes, NewSession(), i, true)
  {
  }

  // ---------------------------------------------------------------- completions

  predicate Finishes(c: Client, p: ToClient)
    requires Shaped(c)
  {
    |Take(c, p).done| > |c.done|
  }

  /** A working slot: its list, with this packet, is the whole of its response or is not its own. */
  lemma WorkingOwn(sizes: Sizes, c: Client, p: ToClient, passed: bool)
    requires Tracks(sizes, c, SlotOf(p), passed) && p.RespPkt? && p.num < p.total == sizes(p.reqNum)
    requires Finishes(c, p) && c.slots[SlotOf(p)].active
    ensures Own(sizes, Take(c, p).done[|c.done|]) <==> passed && Passes(c, p)
  {
    var s, h := c.slots[SlotOf(p)], Hdr(c.slots[SlotOf(p)].reqNum);
    Grows(sizes, s, p);
    assert Take(c, p).done[|c.done|].got == s.got + [p];
    if Own(sizes, Take(c, p).done[|c.done|]) {
      assert |s.got + [p]| == sizes(h) == s.numRx + 1;
    }
  }

  /** A freed slot: what it finishes again is never its own. */
  lemma FreedNotOwn(sizes: Sizes, c: Client, p: ToClient, passed: bool)
    requires Tracks(sizes, c, SlotOf(p), passed) && Enabled(sizes, c, Taken(p)) && p.RespPkt?
    requires Finishes(c, p) && !c.slots[SlotOf(p)].active
    ensures !Own(sizes, Take(c, p).done[|c.done|])
  {
    var s, got := c.slots[SlotOf(p)], Take(c, p).done[|c.done|].got;
    assert got == s.got + [p] && got[|s.got|] == p && p.total == 1;
  }

  /**
   In every run over a network that repeats answers: a request that finishes got exactly its own
   response if and only if each response packet taken for its slot since it was started, the last one
   included, passes the two tests of the filter that is commented out.
   */
  lemma OwnIff(sizes: Sizes, calls: seq<Call>, p: ToClient)
    requires Shaped(NewSession()) && Legal(sizes, NewSession(), calls)
    requires Enabled(sizes, After(NewSession(), calls), Taken(p)) && Finishes(After(NewSession(), calls), p)
    ensures var c := After(NewSession(), calls);
      Own(sizes, Take(c, p).done[|c.done|]) <==> Passed(NewSession(), calls, SlotOf(p)) && Passes(c, p)
  {
    NewTracks(sizes, SlotOf(p));
    RunTracks(sizes, NewSession(), calls, SlotOf(p), true);
    FinishOwn(sizes, After(NewSession(), calls), p, Passed(NewSession(), calls, SlotOf(p)));
  }

  lemma FinishOwn(sizes: Sizes, c: Client, p: ToClient, passed: bool)
    requires Tracks(sizes, c, SlotOf(p), passed) && Enabled(sizes, c, Taken(p)) && Finishes(c, p)
    ensures Own(sizes, Take(c, p).done[|c.done|]) <==> passed && Passes(c, p)
  {
    if c.slots[SlotOf(p)].active { WorkingOwn(sizes, c, p, passed); } else { FreedNotOwn(sizes, c, p, passed); }
  }

  // ---------------------------------------------------------------- a response of another request

  /** The client's assertions hold for every packet of the run. */
  predicate Asserted(c: Client, calls: seq<Call>)
    requires Shaped(c)
    decreases |calls|
  {
    calls == [] ||
    ((calls[0].Taken? ==> c.credits < CREDITS && calls[0].p.reqNum <= c.slots[SlotOf(calls[0].p)].reqNum)
     && Asserted(Next(c, calls[0]), calls[1..]))
  }

  lemma PrependAsserted(c: Client, call: Call, rest: seq<Call>)
    requires Shaped(c) && Asserted(Next(c, call), rest)
    requires call.Taken? ==> c.credits < CREDITS && call.p.reqNum <= c.slots[SlotOf(call.p)].reqNum
    ensures Asserted(c, [call] + rest)
  {
    assert ([call] + rest)[0] == call && ([call] + rest)[1..] == rest;
  }

  /** Start a one-packet request on slot `i`; `p` answers it if its number is the slot's. */
  lemma OneStarted(c: Client, i: nat, p: ToClient)
    requires Good(c) && c.free != [] && c.free[|c.free| - 1] == i && c.credits == CREDITS && c.backlog == []
    requires p.RespPkt? && p.num == 0 && p.total == 1 && SlotOf(p) == i
    ensures var c1 := Enqueue(c, Request(1, 1));
      && Good(c1) && Working(c1, p) && c1.credits == CREDITS - 1 && c1.backlog == []
      && c1.slots[i].reqNum == c.slots[i].reqNum + WINDOW
      && c1.up[i] == c.up[i] + [Req(Hdr(c.slots[i].reqNum + WINDOW), 0, 1)]
      && c1.slots[i].got == [] && c1.slots[i].numRx == 0
  {
    ClientRuns.StartSends(c, Request(1, 1), i);
    var h := Hdr(c.slots[i].reqNum + WINDOW);
    assert Requests(h, 1, 0, 1) == [Req(h, 0, 1)];
  }

  /** Any packet that says it is the only one of its response finishes the slot's request. */
  lemma OneFinished(c: Client, i: nat, p: ToClient)
    requires i == SlotOf(p) && Good(c) && Working(c, p) && c.credits == CREDITS - 1 && c.backlog == []
    requires p.RespPkt? && p.num == 0 && p.total == 1 && c.slots[i].got == []
    ensures var c1 := Take(c, p);
      && Good(c1) && c1.free != [] && c1.free[|c1.free| - 1] == i && c1.credits == CREDITS && c1.backlog == []
      && c1.slots[i].reqNum == c.slots[i].reqNum && c1.up == c.up
      && |c1.done| == |c.done| + 1 && c1.done[|c.done|].reqNum == c.slots[i].reqNum && c1.done[|c.done|].got == [p]
  {
    TakeKeepsIff(c, p);
    LastTaken(c, p);
  }

  predicate Rested(c: Client, i: nat) {
    Good(c) && i < WINDOW && c.free != [] && c.free[|c.free| - 1] == i && c.credits == CREDITS && c.backlog == []
  }

  /** A request on slot `i`, finished by any response packet the network has seen for the slot. */
  lemma OneRound(c: Client, i: nat, p: ToClient)
    requires Rested(c, i) && p.RespPkt? && p.num == 0 && p.total == 1 && SlotOf(p) == i
    requires var n := c.slots[i].reqNum + WINDOW;
      p.reqNum <= n && (p.reqNum == Hdr(n) || Req(p.reqNum, 0, 1) in c.up[i])
    ensures var c1 := Enqueue(c, Request(1, 1));
      && Enabled(Single, c, Enq(Request(1, 1))) && Enabled(Single, c1, Taken(p))
      && c1.credits < CREDITS && p.reqNum <= c1.slots[i].reqNum
    ensures var c2 := Take(Enqueue(c, Request(1, 1)), p);
      && Rested(c2, i) && c2.slots[i].reqNum == c.slots[i].reqNum + WINDOW && Req(p.reqNum, 0, 1) in c2.up[i]
      && |c2.done| == |c.done| + 1 && c2.done[|c.done|].reqNum == c2.slots[i].reqNum && c2.done[|c.done|].got == [p]
  {
    OneStarted(c, i, p);
    var c1 := Enqueue(c, Request(1, 1));
    assert c1.up[i][|c.up[i]|] == Req(Hdr(c.slots[i].reqNum + WINDOW), 0, 1);
    OneFinished(c1, i, p);
  }

  lemma RoundCalls(c: Client, i: nat, p: ToClient) returns (c2: Client, calls: seq<Call>)
    requires Rested(c, i) && p.RespPkt? && p.num == 0 && p.total == 1 && SlotOf(p) == i
    requires var n := c.slots[i].reqNum + WINDOW;
      p.reqNum <= n && (p.reqNum == Hdr(n) || Req(p.reqNum, 0, 1) in c.up[i])
    ensures Legal(Single, c, calls) && Asserted(c, calls) && After(c, calls) == c2
    ensures Rested(c2, i) && c2.slots[i].reqNum == c.slots[i].reqNum + WINDOW && Req(p.reqNum, 0, 1) in c2.up[i]
    ensures |c2.done| == |c.done| + 1 && c2.done[|c.done|].reqNum == c2.slots[i].reqNum && c2.done[|c.done|].got == [p]
  {
    OneRound(c, i, p);
    var e, t, c1 := Enq(Request(1, 1)), Taken(p), Enqueue(c, Request(1, 1));
    c2, calls := Take(c1, p), [e] + ([t] + []);
    Prepend(Single, c1, t, []);
    Prepend(Single, c, e, [t] + []);
    PrependAsserted(c1, t, []);
    PrependAsserted(c, e, [t] + []);
  }

  lemma {:induction false} Chain(c: Client, a: seq<Call>, b: seq<Call>)
    requires Shaped(c) && Legal(Single, c, a) && Asserted(c, a)
    requires Legal(Single, After(c, a), b) && Asserted(After(c, a), b)
    ensures Legal(Single, c, a + b) && Asserted(c, a + b) && After(c, a + b) == After(After(c, a), b)
    decreases |a|
  {
    hide ClientRuns.Next, ClientRuns.Enabled;
    if a == [] {
      assert a + b == b;
    } else {
      Chain(Next(c, a[0]), a[1..], b);
      Prepend(Single, c, a[0], a[1..] + b);
      PrependAsserted(c, a[0], a[1..] + b);
      assert a + b == [a[0]] + (a[1..] + b);
    }
  }

  lemma TwoRounds(c: Client, i: nat, p: ToClient) returns (c4: Client, calls: seq<Call>)
    requires Rested(c, i) && c.done == [] && p.RespPkt? && p.num == 0 && p.total == 1 && SlotOf(p) == i
    requires var n := c.slots[i].reqNum + WINDOW; p.reqNum == Hdr(n) <= n
    ensures Legal(Single, c, calls) && Asserted(c, calls) && After(c, calls) == c4 && Good(c4)
    ensures |c4.done| == 2 && c4.done[1].reqNum == c.slots[i].reqNum + WINDOW + WINDOW && c4.done[1].got == [p]
  {
    var c2, a := RoundCalls(c, i, p);
    var b;
    c4, b := RoundCalls(c2, i, p);
    Chain(c, a, b);
    calls := a + b;
  }

  lemma NotOwn(d: Completion, p: ToClient, n: nat)
    requires d.got == [p] && p.reqNum == Hdr(n) && d.reqNum == n + WINDOW
    ensures p.reqNum != Hdr(d.reqNum) && !Own(Single, d)
  {
    HdrSlot(n);
    assert d.got[0] == p;
  }

  /** The number of a slot's next request leads back to the slot. */
  lemma NumberOf(c: Client, i: nat)
    requires Rested(c, i)
    ensures |c.slots| == WINDOW && SlotOf(RespPkt(Hdr(c.slots[i].reqNum + WINDOW), 0, 1)) == i
    ensures Hdr(c.slots[i].reqNum + WINDOW) <= c.slots[i].reqNum + WINDOW
  {
    assert SlotOk(c.slots[i], i);
    HdrSlot(c.slots[i].reqNum + WINDOW);
  }

  /**
   One request after another on the same slot, and the first response delivered again: every
   assertion holds, the bookkeeping is kept, and the second request has finished with the response of
   the first.
   */
  lemma OldResponseTaken(c: Client, i: nat) returns (calls: seq<Call>, p: ToClient)
    requires Rested(c, i) && c.done == []
    ensures Legal(Single, c, calls) && Asserted(c, calls) && Good(After(c, calls))
    ensures |After(c, calls).done| == 2
    ensures var d := After(c, calls).done[1];
      d.got == [p] && p.RespPkt? && p.reqNum != Hdr(d.reqNum) && !Own(Single, d)
  {
    hide Legal, Asserted, After, Own, ClientOk, Hdr, SlotOf;
    NumberOf(c, i);
    var n := c.slots[i].reqNum + WINDOW;
    p := RespPkt(Hdr(n), 0, 1);
    var c4;
    c4, calls := TwoRounds(c, i, p);
    NotOwn(c4.done[1], p, n);
  }

  lemma NewRested()
    ensures Rested(NewSession(), 0) && NewSession().done == []
  {
    NewSessionOk();
  }

  lemma OldResponseTakenAtStart() returns (calls: seq<Call>, p: ToClient)
    ensures Shaped(NewSession()) && Legal(Single, NewSession(), calls) && Asserted(NewSession(), calls)
    ensures Good(After(NewSession(), calls)) && |After(NewSession(), calls).done| == 2
    ensures var d := After(NewSession(), calls).done[1]; d.got == [p] && p.RespPkt? && p.reqNum != Hdr(d.reqNum)
  {
    NewRested();
    calls, p := OldResponseTaken(NewSession(), 0);
  }
}
