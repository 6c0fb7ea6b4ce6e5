/** Packets that reach the client, every step together, and whole runs. */
module ProtocolRuns {
  import opened SessionState
  import opened SessionLaws
  import opened Protocol
  import opened LinkLaws
  import opened ProtocolLaws

  // ---------------------------------------------------------------- packets reach the client

  /** The next packet for slot `i` completes its request while the backlog is not empty. */
  predicate PopsBacklog(g: State, st: Step) {
    Enabled(g, st) && st.ToCli? && Completing(g.client, g.down[st.i][0]) && g.client.backlog != []
  }

  /** The first packet for slot `i` is taken off its channel and the client becomes `c`. */
  function Received(g: State, i: nat, c: Client): (g': State)
    requires WellFormed(g) && i < WINDOW && g.down[i] != [] && Shaped(c)
    ensures WellFormed(g')
  {
    g.(down := g.down[i := g.down[i][1..]], client := c)
  }

  /** A packet that changes one lane and keeps its link keeps all links. */
  lemma LaneLinks(g: State, i: nat, k: Lane)
    requires AllLinks(g) && i < WINDOW && g.down[i] != []
    requires var s := g.client.slots[i]; k.slot.active && s.active && k.slot.reqNum == s.reqNum && k.slot.hdr == s.hdr
    requires LinkOk(LinkOf(g, i).(slot := k.slot, up := k.up, down := g.down[i][1..]))
    ensures var g' := Received(g, i, WithLane(g.client, i, k));
      var l' := LinkOf(g, i).(slot := k.slot, up := k.up, down := g.down[i][1..]);
      AllLinks(g') && Work(g') == Work(g) + Todo(l') - Todo(LinkOf(g, i))
  {
    var g' := Received(g, i, WithLane(g.client, i, k));
    var l' := LinkOf(g, i).(slot := k.slot, up := k.up, down := g.down[i][1..]);
    assert LinkOf(g', i) == l' && AnsweredOk(LinkOf(g, i), i);
    OneLink(g, g', i);
  }

  lemma CreditLinks(g: State, i: nat)
    requires AllLinks(g) && i < WINDOW && g.down[i] != [] && g.down[i][0].Cr?
    ensures var g' := Received(g, i, WithLane(g.client, i, OnCredit(LaneOf(g.client, i))));
      AllLinks(g') && Work(g') == Work(g) - 1
  {
    hide LinkOk, AnsweredOk, Todo;
    LinkCredit(LinkOf(g, i), g.client.credits);
    LaneLinks(g, i, OnCredit(LaneOf(g.client, i)));
  }

  lemma MiddleLinks(g: State, i: nat, k: Lane)
    requires AllLinks(g) && i < WINDOW && g.down[i] != [] && g.down[i][0].RespPkt?
    requires g.client.slots[i].numRx + 1 < g.client.slots[i].request.answer
    requires k == OnResp(LaneOf(g.client, i), g.down[i][0])
    ensures var g' := Received(g, i, WithLane(g.client, i, k)); AllLinks(g') && Work(g') == Work(g) - 1
  {
    hide LinkOk, AnsweredOk, Todo;
    LinkRespHead(LinkOf(g, i));
    LinkMiddle(LinkOf(g, i), g.client.credits);
    LaneLinks(g, i, k);
  }

  /** The slot is freed: its link is idle, nothing is owed, and the response is whole. */
  lemma LastLinks(g: State, i: nat, k: Lane)
    requires AllLinks(g) && i < WINDOW && g.down[i] != [] && g.down[i][0].RespPkt?
    requires g.client.slots[i].reqNum >= i + WINDOW
    requires g.client.slots[i].numRx + 1 == g.client.slots[i].request.answer
    requires k == OnResp(LaneOf(g.client, i), g.down[i][0])
    ensures var g' := Received(g, i, Freed(WithLane(g.client, i, k), i)); AllLinks(g') && Work(g') == Work(g) - 1
    ensures k.slot.active && Outstanding(k.slot) == 0
    ensures k.slot.got == Resps(k.slot.hdr, k.slot.request.answer, 0, k.slot.request.answer)
  {
    var l, g' := LinkOf(g, i), Received(g, i, Freed(WithLane(g.client, i, k), i));
    LinkRespHead(l);
    LinkLast(l, g.client.credits);
    var l' := l.(slot := k.slot.(active := false, numRx := 0), up := k.up, down := l.down[1..]);
    assert LinkOf(g', i) == l' && AnsweredOk(l, i);
    OneLink(g, g', i);
  }

  lemma FreedDone(c: Client, i: nat)
    requires DoneOk(c) && SlotsOk(c) && i < WINDOW && c.slots[i].active
    requires c.slots[i].got == WholeResp(c.slots[i].reqNum, c.slots[i].request) && Outstanding(c.slots[i]) == 0
    ensures DoneOk(Freed(c, i))
  {
    var c' := Freed(c, i);
    var d := c'.done[|c.done|];
    assert d.reqNum % WINDOW == i;
    forall k | 0 <= k < |c.done| ensures Before(c'.done[k], c'.slots) && c'.done[k].reqNum != d.reqNum {
      assert Before(c.done[k], c.slots);
    }
  }

  lemma LaneDone(c: Client, i: nat, l: Lane)
    requires DoneOk(c) && SlotsOk(c) && i < WINDOW && l.slot.active && c.slots[i].active && l.slot.numTx > 0
    requires l.slot.reqNum == c.slots[i].reqNum && l.slot.hdr == c.slots[i].hdr && l.slot.request == c.slots[i].request
    ensures DoneOk(WithLane(c, i, l)) && SlotsOk(WithLane(c, i, l))
  {
    DoneSame(c, WithLane(c, i, l));
  }

  lemma CreditStep(g: State, i: nat)
    requires Inv(g) && Enabled(g, ToCli(i)) && g.down[i][0].Cr?
    ensures Inv(Next(g, ToCli(i))) && Work(Next(g, ToCli(i))) == Work(g) - 1
  {
    BumpNeverFails(g, i);
    TakeKeepsIff(g.client, g.down[i][0]);
    CreditLinks(g, i);
    LaneDone(g.client, i, OnCredit(LaneOf(g.client, i)));
  }

  lemma MiddleStep(g: State, i: nat)
    requires Inv(g) && Enabled(g, ToCli(i)) && g.down[i][0].RespPkt? && !Completing(g.client, g.down[i][0])
    ensures Inv(Next(g, ToCli(i))) && Work(Next(g, ToCli(i))) == Work(g) - 1
  {
    hide LinksOk, AllAnsweredOk, Balanced, StallOk, FreeOk;
    var p, k := g.down[i][0], OnResp(LaneOf(g.client, i), g.down[i][0]);
    BumpNeverFails(g, i);
    NextOfResponse(g, i);
    TakeKeepsIff(g.client, p);
    MiddleLinks(g, i, k);
    LaneDone(g.client, i, k);
    assert Next(g, ToCli(i)) == Received(g, i, WithLane(g.client, i, k));
  }

  /** A response packet carries the next number of the response the handler chose. */
  lemma NextOfResponse(g: State, i: nat)
    requires Inv(g) && i < WINDOW && g.down[i] != [] && g.down[i][0].RespPkt?
    ensures var s, p := g.client.slots[i], g.down[i][0];
      p.num == s.numRx && p.total == s.request.answer >= 1 && s.numRx < s.request.answer && s.reqNum >= i + WINDOW
  {
    LinkRespHead(LinkOf(g, i));
    assert SlotOk(g.client.slots[i], i);
  }

  lemma LastStep(g: State, i: nat)
    requires Inv(g) && Enabled(g, ToCli(i)) && Completing(g.client, g.down[i][0]) && g.client.backlog == []
    requires SlotOf(g.down[i][0]) == i
    ensures Inv(Next(g, ToCli(i))) && Work(Next(g, ToCli(i))) == Work(g) - 1
  {
    var p, k := g.down[i][0], OnResp(LaneOf(g.client, i), g.down[i][0]);
    BumpNeverFails(g, i);
    NextOfResponse(g, i);
    TakeKeepsIff(g.client, p);
    LastTaken(g.client, p);
    LastLinks(g, i, k);
    LaneDone(g.client, i, k);
    FreedDone(WithLane(g.client, i, k), i);
    assert Next(g, ToCli(i)) == Received(g, i, Freed(WithLane(g.client, i, k), i));
  }

  /** Over a backlog, the request popped is started without a header. */
  lemma PopFails(g: State, st: Step)
    requires Inv(g) && PopsBacklog(g, st)
    ensures Next(g, st).client.status == NullHeader
  {
    BumpNeverFails(g, st.i);
    HeadExpected(LinkOf(g, st.i));
    RespOnWorking(g.client, g.down[st.i][0]);
  }

  // ---------------------------------------------------------------- every step

  predicate Delivery(st: Step) { st.ToSrv? || st.Answer? || st.ToCli? }

  /** What a step adds to the work: a request that gets a slot its cost, a delivery minus one. */
  function Adds(g: State, st: Step): int
    requires Enabled(g, st)
  {
    if st.Submit? then (if g.client.free == [] then 0 else Cost(st.r)) else if st.Stall? then 0 else -1
  }

  lemma StepKept(g: State, st: Step)
    requires Inv(g) && Enabled(g, st)
    ensures PopsBacklog(g, st) ==> Next(g, st).client.status == NullHeader
    ensures !PopsBacklog(g, st) ==> Inv(Next(g, st)) && Work(Next(g, st)) == Work(g) + Adds(g, st)
  {
    match st
    case Submit(r) => SubmitKept(g, r);
    case Stall => StallStep(g);
    case ToSrv(_) => ServerStepKept(g, st);
    case Answer(_) => ServerStepKept(g, st);
    case ToCli(i) =>
      BumpNeverFails(g, i);
      if g.down[i][0].Cr? {
        CreditStep(g, i);
      } else if !Completing(g.client, g.down[i][0]) {
        MiddleStep(g, i);
      } else if g.client.backlog == [] {
        LastStep(g, i);
      } else {
        PopFails(g, st);
      }
  }

  /** Requests accepted so far: finished, holding a slot, or in the backlog. */
  function Accepted(c: Client): int { |c.done| + (WINDOW - |c.free|) + |c.backlog| }

  lemma StepCounts(g: State, st: Step)
    requires Enabled(g, st) && Next(g, st).client.status == Running
    ensures Accepted(Next(g, st).client) == Accepted(g.client) + (if st.Submit? then 1 else 0)
    ensures !st.ToCli? ==> Next(g, st).client.done == g.client.done
    ensures |Next(g, st).client.backlog| == |g.client.backlog| + if st.Submit? && g.client.free == [] then 1 else 0
  {
    if st.Stall? { DrainDone(g.client.(stallq := []), g.client.stallq); }
  }

  // ---------------------------------------------------------------- runs

  predicate Legal(g: State, steps: seq<Step>)
    decreases |steps|
  {
    steps == [] || (Enabled(g, steps[0]) && Legal(Next(g, steps[0]), steps[1..]))
  }

  function After(g: State, steps: seq<Step>): (g': State)
    requires Legal(g, steps)
    ensures WellFormed(g) ==> WellFormed(g')
    decreases |steps|
  {
    if steps == [] then g else After(Next(g, steps[0]), steps[1..])
  }

  lemma {:induction false} Chain(g: State, a: seq<Step>, b: seq<Step>)
    requires Legal(g, a) && Legal(After(g, a), b)
    ensures Legal(g, a + b) && After(g, a + b) == After(After(g, a), b)
    decreases |a|
  {
    hide Next, Enabled;
    if a == [] {
      assert a + b == b;
    } else {
      Chain(Next(g, a[0]), a[1..], b);
      assert (a + b)[0] == a[0] && (a + b)[1..] == a[1..] + b;
    }
  }

  function Deliveries(steps: seq<Step>): nat {
    if steps == [] then 0 else (if Delivery(steps[0]) then 1 else 0) + Deliveries(steps[1..])
  }

  function Submits(steps: seq<Step>): nat {
    if steps == [] then 0 else (if steps[0].Submit? then 1 else 0) + Submits(steps[1..])
  }

  function SubmittedCost(steps: seq<Step>): nat {
    if steps == [] then 0 else (if steps[0].Submit? then Cost(steps[0].r) else 0) + SubmittedCost(steps[1..])
  }

  /** Some delivery of the run completes a request over a backlog. */
  predicate PopsEver(g: State, steps: seq<Step>)
    requires Legal(g, steps)
    decreases |steps|
  {
    steps != [] && (PopsBacklog(g, steps[0]) || PopsEver(Next(g, steps[0]), steps[1..]))
  }

  /** Requests are submitted only while a slot is free, so with fewer than 32 unfinished. */
  predicate Polite(g: State, steps: seq<Step>)
    requires Legal(g, steps)
    decreases |steps|
  {
    steps == [] ||
    ((steps[0].Submit? ==> g.client.free != []) && Polite(Next(g, steps[0]), steps[1..]))
  }

  /** A run goes through a null header if and only if it completes a request over a backlog. */
  lemma {:induction false} NullHeaderIff(g: State, steps: seq<Step>)
    requires Inv(g) && Legal(g, steps)
    ensures After(g, steps).client.status == if PopsEver(g, steps) then NullHeader else Running
    ensures !PopsEver(g, steps) ==> Inv(After(g, steps))
    decreases |steps|
  {
    if steps != [] {
      StepKept(g, steps[0]);
      if !PopsBacklog(g, steps[0]) { NullHeaderIff(Next(g, steps[0]), steps[1..]); }
    }
  }

  lemma PoliteStep(g: State, st: Step)
    requires Inv(g) && g.client.backlog == [] && Enabled(g, st) && (st.Submit? ==> g.client.free != [])
    ensures !PopsBacklog(g, st) && Inv(Next(g, st)) && Next(g, st).client.backlog == []
    ensures Work(Next(g, st)) + (if Delivery(st) then 1 else 0) == Work(g) + if st.Submit? then Cost(st.r) else 0
    ensures Accepted(Next(g, st).client) == Accepted(g.client) + if st.Submit? then 1 else 0
  {
    hide LinksOk, AllAnsweredOk, DoneOk, Next, Enabled, Cost, Work;
    StepKept(g, st);
    StepCounts(g, st);
  }

  lemma {:induction false} PoliteKept(g: State, steps: seq<Step>)
    requires Inv(g) && g.client.backlog == [] && Legal(g, steps) && Polite(g, steps)
    ensures !PopsEver(g, steps) && Inv(After(g, steps)) && After(g, steps).client.backlog == []
    ensures Work(After(g, steps)) + Deliveries(steps) == Work(g) + SubmittedCost(steps)
    ensures Accepted(After(g, steps).client) == Accepted(g.client) + Submits(steps)
    decreases |steps|
  {
    if steps != [] {
      PoliteStep(g, steps[0]);
      PoliteKept(Next(g, steps[0]), steps[1..]);
    }
  }
}
