/**
 How much a client sends and in which order over whole runs: packets stay unsent only for want of
 credits, and stalled requests send in the order in which they stalled.
 */
module SendingLaws {
  import opened SessionState
  import opened SessionLaws
  import opened KickLaws
  import opened Protocol
  import opened LinkLaws
  import opened ProtocolLaws
  import opened ProtocolRuns
  import opened SessionTheorems
  import opened SessionFaults
  import opened LossReached

  // ---------------------------------------------------------------- first stalled, first sent

  predicate Ahead(q: seq<nat>, i: nat, j: nat) { exists a, b :: 0 <= a < b < |q| && q[a] == i && q[b] == j }

  lemma SuffixKeepsOrder(q: seq<nat>, m: nat, i: nat, j: nat)
    requires Distinct(q) && m <= |q| && Ahead(q, i, j) && i in q[m..]
    ensures Ahead(q[m..], i, j)
  {
    var a, b :| 0 <= a < b < |q| && q[a] == i && q[b] == j;
    assert a >= m;
    assert q[m..][a - m] == i && q[m..][b - m] == j;
  }

  lemma AppendKeepsOrder(q: seq<nat>, k: nat, i: nat, j: nat)
    requires Ahead(q, i, j)
    ensures Ahead(q + [k], i, j)
  {
    var a, b :| 0 <= a < b < |q| && q[a] == i && q[b] == j;
    assert (q + [k])[a] == i && (q + [k])[b] == j;
  }

  /** Only submitting and looking at the queue change it. */
  lemma QueueUnchanged(g: State, st: Step)
    requires Inv(g) && Enabled(g, st) && !PopsBacklog(g, st) && Delivery(st)
    ensures Next(g, st).client.stallq == g.client.stallq
  {
    if st.ToCli? { BumpNeverFails(g, st.i); }
  }

  lemma AheadStep(g: State, st: Step, i: nat, j: nat)
    requires Inv(g) && Enabled(g, st) && !PopsBacklog(g, st)
    requires Ahead(g.client.stallq, i, j) && i in Next(g, st).client.stallq
    ensures Ahead(Next(g, st).client.stallq, i, j)
  {
    var c := g.client;
    if Delivery(st) {
      QueueUnchanged(g, st);
    } else if st.Stall? {
      var m := StallQueueOrder(c);
      SuffixKeepsOrder(c.stallq, m, i, j);
    } else if Next(g, st).client.stallq != c.stallq {
      AppendKeepsOrder(c.stallq, c.free[|c.free| - 1], i, j);
    }
  }

  /** Slot `i` is stalled in every state of the run. */
  predicate Waits(g: State, steps: seq<Step>, i: nat)
    requires Legal(g, steps)
    decreases |steps|
  {
    i in g.client.stallq && (steps == [] || Waits(Next(g, steps[0]), steps[1..], i))
  }

  /** As long as a stalled slot waits, those behind it do. */
  lemma {:induction false} OrderKept(g: State, steps: seq<Step>, i: nat, j: nat)
    requires Inv(g) && Legal(g, steps) && !PopsEver(g, steps) && Waits(g, steps, i) && Ahead(g.client.stallq, i, j)
    ensures Inv(After(g, steps)) && Ahead(After(g, steps).client.stallq, i, j)
    decreases |steps|
  {
    hide Inv, Enabled, Next, PopsBacklog, Ahead;
    if steps != [] {
      StepKept(g, steps[0]);
      AheadStep(g, steps[0], i, j);
      OrderKept(Next(g, steps[0]), steps[1..], i, j);
    }
  }

  lemma StallsLast(g: State, r: Request, i: nat)
    requires Inv(g) && Serves(r) && i in g.client.stallq && g.client.credits == 0 && g.client.free != []
    ensures Enabled(g, Submit(r)) && Inv(Next(g, Submit(r)))
    ensures Ahead(Next(g, Submit(r)).client.stallq, i, g.client.free[|g.client.free| - 1])
  {
    var q, j := g.client.stallq, g.client.free[|g.client.free| - 1];
    StepKept(g, Submit(r));
    var a :| 0 <= a < |q| && q[a] == i;
    assert Next(g, Submit(r)).client.stallq == q + [j] && (q + [j])[a] == i && (q + [j])[|q|] == j;
  }

  /**
   A request stalled while another is stalled: in every later run in which the first has yet to send,
   so has the second.
   */
  lemma FirstStalledFirst(g: State, r: Request, i: nat, steps: seq<Step>)
    requires Inv(g) && Serves(r) && i in g.client.stallq && g.client.credits == 0 && g.client.free != []
    requires Legal(Next(g, Submit(r)), steps) && !PopsEver(Next(g, Submit(r)), steps)
    requires Waits(Next(g, Submit(r)), steps, i)
    ensures var c, j := After(Next(g, Submit(r)), steps).client, g.client.free[|g.client.free| - 1];
      Shaped(c) && j < WINDOW && Ahead(c.stallq, i, j) && c.slots[j].active && c.slots[j].numTx == 0
  {
    var j := g.client.free[|g.client.free| - 1];
    StallsLast(g, r, i);
    OrderKept(Next(g, Submit(r)), steps, i, j);
    BehindHasNotSent(After(Next(g, Submit(r)), steps), i, j);
  }

  lemma BehindHasNotSent(g: State, i: nat, j: nat)
    requires Inv(g) && Ahead(g.client.stallq, i, j)
    ensures j < WINDOW && g.client.slots[j].active && g.client.slots[j].numTx == 0
  {
    assert j in g.client.stallq;
  }

  // ---------------------------------------------------------------- credits left over

  /** Packets the client could send for a slot's request, given credits. */
  predicate Unsent(s: Slot) { s.active && (ReqPending(s) || (s.numRx > 0 && s.numTx < WirePkts(s.request))) }

  /** The step starts a request on slot `i`. */
  predicate Takes(g: State, st: Step, i: nat)
    requires Enabled(g, st)
  {
    st.Submit? && g.client.free != [] && g.client.free[|g.client.free| - 1] == i
  }

  /** The step starts a request on slot `i` or sends for it. */
  predicate SendsFor(g: State, st: Step, i: nat)
    requires Enabled(g, st) && i < WINDOW
  {
    || Next(g, st).client.slots[i].numTx != g.client.slots[i].numTx
    || Takes(g, st, i)
  }

  /** The credits gained, less those spent, since a step last started or sent for slot `i`. */
  function Spare(g: State, steps: seq<Step>, i: nat, spare: int): int
    requires Legal(g, steps) && i < WINDOW
    decreases |steps|
  {
    if steps == [] then spare else
      var g' := Next(g, steps[0]);
      Spare(g', steps[1..], i,
            if SendsFor(g, steps[0], i) then 0 else spare + g'.client.credits - g.client.credits)
  }

  /** Steps that start or send for a slot leave it unsent packets only without credits. */
  predicate Spends(g: State, st: Step, i: nat)
    requires Enabled(g, st) && i < WINDOW
  {
    var c, c' := g.client, Next(g, st).client;
    Unsent(c'.slots[i]) ==> if SendsFor(g, st, i) then c'.credits == 0 else Unsent(c.slots[i])
  }

  lemma SubmitSpends(g: State, r: Request, i: nat)
    requires Inv(g) && Serves(r) && i < WINDOW
    ensures Enabled(g, Submit(r)) && Spends(g, Submit(r), i)
  {
  }

  lemma StallSpends(g: State, i: nat)
    requires Inv(g) && i < WINDOW
    ensures Enabled(g, Stall) && Spends(g, Stall, i)
  {
    hide ClientOk, Drain, AllAnsweredOk, DoneOk;
    var c := g.client;
    var m := StallQueueOrder(c);
    if i in c.stallq[..m] {
      var k :| 0 <= k < m && c.stallq[k] == i;
      KickedNotAnswered(g, i);
    }
  }

  /** A slot that was stalled has received nothing. */
  lemma KickedNotAnswered(g: State, i: nat)
    requires Inv(g) && i < WINDOW && i in g.client.stallq
    ensures g.client.slots[i].numTx == 0 && Next(g, Stall).client.slots[i].numRx == 0
  {
    var c := g.client;
    assert c.slots[i].active && SlotOk(c.slots[i], i);
    var credits := DrainLane(c.(stallq := []), c.stallq, i);
  }

  lemma LinkNotAnswered(l: Link)
    requires LinkOk(l) && l.down != [] && l.down[0].Cr?
    ensures l.slot.active && l.slot.numRx == 0
  {
    hide ServerOk, Requests, Rfrs;
    if l.slot.crs == Min(Arrived(l), l.slot.request.pkts - 1) { RespHead(l); } else { CrHead(l); }
  }

  lemma CreditUsed(l: Lane)
    requires l.slot.active && l.slot.numRx == 0
    ensures var k := OnCredit(l);
      k.slot.numRx == 0 && (Unsent(k.slot) ==> k.credits == 0 && k.slot.numTx > l.slot.numTx)
  {
  }

  lemma CreditSpends(g: State, j: nat, i: nat)
    requires Inv(g) && Enabled(g, ToCli(j)) && g.down[j][0].Cr? && i < WINDOW
    ensures Spends(g, ToCli(j), i)
  {
    hide Good, AllAnsweredOk, DoneOk, OnCredit;
    BumpNeverFails(g, j);
    if i == j {
      LinkNotAnswered(LinkOf(g, i));
      CreditUsed(LaneOf(g.client, i));
    }
  }

  lemma RespSpends(g: State, j: nat, i: nat)
    requires Inv(g) && Enabled(g, ToCli(j)) && g.down[j][0].RespPkt? && i < WINDOW && !PopsBacklog(g, ToCli(j))
    ensures Spends(g, ToCli(j), i)
  {
    hide DoneOk, AllAnsweredOk, Balanced, StallOk, SlotsOk;
    BumpNeverFails(g, j);
    NextOfResponse(g, j);
  }

  lemma EveryStepSpends(g: State, st: Step, i: nat)
    requires Inv(g) && Enabled(g, st) && !PopsBacklog(g, st) && i < WINDOW
    ensures Spends(g, st, i)
  {
    match st
    case Submit(r) => SubmitSpends(g, r, i);
    case Stall => StallSpends(g, i);
    case ToSrv(_) =>
    case Answer(_) =>
    case ToCli(j) =>
      if g.down[j][0].Cr? { CreditSpends(g, j, i); } else { RespSpends(g, j, i); }
  }

  lemma {:induction false} SpareKept(g: State, steps: seq<Step>, i: nat, spare: int)
    requires Inv(g) && Legal(g, steps) && !PopsEver(g, steps) && i < WINDOW
    requires Unsent(g.client.slots[i]) ==> g.client.credits == spare
    ensures var c := After(g, steps).client; Unsent(c.slots[i]) ==> c.credits == Spare(g, steps, i, spare)
    decreases |steps|
  {
    hide Inv, Enabled, Next, PopsBacklog, Unsent;
    if steps != [] {
      var st, g' := steps[0], Next(g, steps[0]);
      StepKept(g, st);
      EveryStepSpends(g, st, i);
      SpareKept(g', steps[1..], i,
                if SendsFor(g, st, i) then 0 else spare + g'.client.credits - g.client.credits);
    }
  }

  lemma NothingUnsent(i: nat)
    requires i < WINDOW
    ensures !Unsent(Connected().client.slots[i])
  {
  }

  /**
   Every run from connection on: while a slot has packets it could send, the credits in hand are
   exactly those that came back since it last sent, so it used all there were.
   */
  lemma UnsentCredits(steps: seq<Step>, i: nat)
    requires Legal(Connected(), steps) && !PopsEver(Connected(), steps) && i < WINDOW
    ensures var c := After(Connected(), steps).client;
      Unsent(c.slots[i]) ==> c.credits == Spare(Connected(), steps, i, 0)
  {
    hide Connected, Inv, Next, Enabled, Legal, After, Spare, PopsEver, Unsent;
    ConnectedOk();
    NothingUnsent(i);
    SpareKept(Connected(), steps, i, 0);
  }

  /** A request of 40 packets takes all credits that are left and has more to send. */
  lemma TakesAll(g: State)
    requires Inv(g) && g.client.free != [] && g.client.free[|g.client.free| - 1] == 1
    requires 0 < g.client.credits < 40
    ensures Enabled(g, Submit(Request(40, 1)))
    ensures var g' := Next(g, Submit(Request(40, 1)));
      && Inv(g') && Unsent(g'.client.slots[1]) && g'.client.credits == 0 && LinkOf(g', 0) == LinkOf(g, 0)
  {
    hide LinkOk, AnsweredOk, DoneOk, Balanced, SlotsOk, StallOk, BacklogOk, Enqueue, Unsent;
    StepKept(g, Submit(Request(40, 1)));
    FullKick(g.client);
  }

  lemma FullKick(c: Client)
    requires FreeOk(c) && c.free != [] && c.free[|c.free| - 1] == 1 && 0 < c.credits < 40
    ensures var c' := Enqueue(c, Request(40, 1));
      Unsent(c'.slots[1]) && c'.credits == 0 && c'.slots[0] == c.slots[0] && c'.up[0] == c.up[0]
  {
  }

  lemma OthersReturn(g: State)
    requires Inv(g) && g.client.slots[0].active && g.client.slots[0].numTx == 2
    requires g.client.slots[0].request == Request(2, 1) && g.down[0] != [] && g.down[0][0].Cr?
    requires Unsent(g.client.slots[1]) && g.client.credits == 0
    ensures Enabled(g, ToCli(0))
    ensures var c := Next(g, ToCli(0)).client; Unsent(c.slots[1]) && c.credits == 1
  {
    BumpNeverFails(g, 0);
  }

  lemma SecondIsNext()
    ensures var c := Next(Connected(), Submit(Request(2, 1))).client; c.free != [] && c.free[|c.free| - 1] == 1
  {
    var c := Connected().client;
    assert c.free[WINDOW - 1] == 0 && c.free[WINDOW - 2] == 1;
  }

  /** Credits that come back through one slot do not make another one send: the spare can be positive. */
  lemma UnsentWithCredit() returns (steps: seq<Step>)
    ensures Legal(Connected(), steps)
    ensures var c := After(Connected(), steps).client; Shaped(c) && Unsent(c.slots[1]) && c.credits == 1
  {
    hide Inv, Next, Connected, Enabled, Unsent;
    var g0, r0, r1 := Connected(), Request(2, 1), Request(40, 1);
    ConnectedReady();
    InFlightNow(g0, r0, 0);
    SecondIsNext();
    var g1 := Next(g0, Submit(r0));
    TakesAll(g1);
    var g2 := Next(g1, Submit(r1));
    CreditOnItsWay(g2, 0);
    var g3 := Next(g2, ToSrv(0));
    OthersReturn(g3);
    Prepend(g3, ToCli(0), []);
    Prepend(g2, ToSrv(0), [ToCli(0)] + []);
    Prepend(g1, Submit(r1), [ToSrv(0)] + ([ToCli(0)] + []));
    Prepend(g0, Submit(r0), [Submit(r1)] + ([ToSrv(0)] + ([ToCli(0)] + [])));
    steps := [Submit(r0)] + ([Submit(r1)] + ([ToSrv(0)] + ([ToCli(0)] + [])));
  }

  // ---------------------------------------------------------------- request numbers and the backlog

  /** How many requests were started on slot `i`. */
  function Started(g: State, steps: seq<Step>, i: nat): nat
    requires Legal(g, steps)
    decreases |steps|
  {
    if steps == [] then 0
    else (if Takes(g, steps[0], i) then 1 else 0) + Started(Next(g, steps[0]), steps[1..], i)
  }

  /** The requests that found no free slot, in the order of their submission. */
  function Overflow(g: State, steps: seq<Step>): seq<Request>
    requires Legal(g, steps)
    decreases |steps|
  {
    if steps == [] then []
    else (if steps[0].Submit? && g.client.free == [] then [steps[0].r] else [])
         + Overflow(Next(g, steps[0]), steps[1..])
  }

  lemma StepNumbers(g: State, st: Step, i: nat)
    requires Enabled(g, st) && i < WINDOW
    ensures var c, c' := g.client, Next(g, st).client;
      && c'.slots[i].reqNum == c.slots[i].reqNum + (if Takes(g, st, i) then 32 else 0)
      && c'.backlog == c.backlog + if st.Submit? && c.free == [] then [st.r] else []
  {
    if st.Stall? { DrainDone(g.client.(stallq := []), g.client.stallq); }
  }

  lemma {:induction false} RunNumbers(g: State, steps: seq<Step>, i: nat)
    requires Legal(g, steps) && WellFormed(g) && i < WINDOW
    ensures var c, c' := g.client, After(g, steps).client;
      && c'.slots[i].reqNum == c.slots[i].reqNum + 32 * Started(g, steps, i)
      && c'.backlog == c.backlog + Overflow(g, steps)
    decreases |steps|
  {
    hide Next, Enabled, Takes;
    if steps != [] {
      StepNumbers(g, steps[0], i);
      RunNumbers(Next(g, steps[0]), steps[1..], i);
    } else {
      assert g.client.backlog + [] == g.client.backlog;
    }
  }

  /**
   In every run: the n-th request started on slot `i` has number `i + 32 * n`, and requests wait in
   the backlog in the order in which they were submitted.
   */
  lemma RequestNumbers(steps: seq<Step>, i: nat)
    requires Legal(Connected(), steps) && i < 32
    ensures var c := After(Connected(), steps).client;
      |c.slots| == 32 && c.slots[i].reqNum == i + 32 * Started(Connected(), steps, i)
      && c.backlog == Overflow(Connected(), steps)
  {
    RunNumbers(Connected(), steps, i);
    assert [] + Overflow(Connected(), steps) == Overflow(Connected(), steps);
  }

  lemma IdleStep(g: State, st: Step, i: nat)
    requires Inv(g) && Enabled(g, st) && !PopsBacklog(g, st) && i < WINDOW
    requires !g.client.slots[i].active ==> g.client.slots[i].numRx == 0
    ensures var s := Next(g, st).client.slots[i]; !s.active ==> s.numRx == 0
  {
    hide LinkOk, AllAnsweredOk, DoneOk, Balanced, SlotsOk;
    if st.ToCli? { BumpNeverFails(g, st.i); }
    if st.Stall? {
      var m := StallQueueOrder(g.client);
      DrainDone(g.client.(stallq := []), g.client.stallq);
      assert i in g.client.stallq[..m] ==> i in g.client.stallq;
    }
  }

  /** A slot without a request has its response counter at zero. */
  lemma {:induction false} IdleReset(g: State, steps: seq<Step>, i: nat)
    requires Inv(g) && Legal(g, steps) && !PopsEver(g, steps) && i < WINDOW
    requires !g.client.slots[i].active ==> g.client.slots[i].numRx == 0
    ensures var s := After(g, steps).client.slots[i]; !s.active ==> s.numRx == 0
    decreases |steps|
  {
    hide Inv, Enabled, Next, PopsBacklog;
    if steps != [] {
      StepKept(g, steps[0]);
      IdleStep(g, steps[0], i);
      IdleReset(Next(g, steps[0]), steps[1..], i);
    }
  }
}
