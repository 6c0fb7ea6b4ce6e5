/** The main theorems about a session, and the laws that the code does not meet. */
module SessionTheorems {
  import opened SessionState
  import opened SessionLaws
  import opened Protocol
  import opened LinkLaws
  import opened ProtocolLaws
  import opened ProtocolRuns

  // ---------------------------------------------------------------- safety

  function InFlightUpto(g: State, n: nat): nat
    requires WellFormed(g) && n <= WINDOW
  {
    if n == 0 then 0 else InFlightUpto(g, n - 1) + InFlight(LinkOf(g, n - 1))
  }

  lemma {:induction false} OutSumAppend(slots: seq<Slot>, s: Slot)
    ensures OutSum(slots + [s]) == OutSum(slots) + Outstanding(s)
  {
    if slots == [] {
      assert slots + [s] == [s];
    } else {
      OutSumAppend(slots[1..], s);
      assert (slots + [s])[1..] == slots[1..] + [s];
    }
  }

  lemma {:induction false} InFlightSum(g: State, n: nat)
    requires LinksOk(g) && n <= WINDOW
    ensures InFlightUpto(g, n) == OutSum(g.client.slots[..n])
  {
    if n > 0 {
      InFlightSum(g, n - 1);
      LinkInFlight(g, n - 1);
      OutSumTake(g.client.slots, n);
    }
  }

  lemma OutSumTake(slots: seq<Slot>, n: nat)
    requires 0 < n <= |slots|
    ensures OutSum(slots[..n]) == OutSum(slots[..n - 1]) + Outstanding(slots[n - 1])
  {
    OutSumAppend(slots[..n - 1], slots[n - 1]);
    assert slots[..n] == slots[..n - 1] + [slots[n - 1]];
  }

  lemma LinkInFlight(g: State, i: nat)
    requires LinksOk(g) && i < WINDOW
    ensures InFlight(LinkOf(g, i)) == Outstanding(g.client.slots[i])
  {
  }

  /** The packets a reader of the wire sees and the free credits are always the session's credits. */
  lemma CreditConservation(g: State)
    requires Inv(g)
    ensures g.client.credits + InFlightUpto(g, 32) == 32
  {
    InFlightSum(g, WINDOW);
    assert g.client.slots[..WINDOW] == g.client.slots;
    NothingOwed(g.client.done);
  }

  /** Every finished request got its own response, whole, under a request number of its own. */
  predicate AllWhole(c: Client) {
    && (forall k :: 0 <= k < |c.done| ==> c.done[k].got == WholeResp(c.done[k].reqNum, c.done[k].request))
    && (forall j, k :: 0 <= j < k < |c.done| ==> c.done[j].reqNum != c.done[k].reqNum)
  }

  /**
   No null pointer is followed by the next step, credits and packets in flight add up, the client's
   assertions hold for the next packet, and finished requests have whole responses.
   */
  predicate Safe(g: State, st: Step)
    requires Enabled(g, st)
  {
    && Next(g, st).client.status == Running
    && g.client.credits + InFlightUpto(g, 32) == 32
    && (st.ToCli? ==> AssertsHold(g, st.i))
    && AllWhole(g.client)
  }

  lemma SafeState(g: State, st: Step)
    requires Inv(g) && g.client.backlog == [] && Enabled(g, st) && (st.Submit? ==> g.client.free != [])
    ensures Safe(g, st)
  {
    hide LinksOk, AllAnsweredOk, Next, InFlightUpto;
    PoliteStep(g, st);
    CreditConservation(g);
    if st.ToCli? { BumpNeverFails(g, st.i); }
    WholeResponses(g.client);
  }

  /** Every run from a new session that submits only while a slot is free is safe throughout. */
  lemma SessionSafety(steps: seq<Step>, st: Step)
    requires Legal(Connected(), steps) && Polite(Connected(), steps) && Enabled(After(Connected(), steps), st)
    requires st.Submit? ==> After(Connected(), steps).client.free != []
    ensures Safe(After(Connected(), steps), st) && After(Connected(), steps).client.backlog == []
  {
    hide Connected, Safe, Inv, Enabled;
    ConnectedOk();
    NoBacklogYet();
    PoliteKept(Connected(), steps);
    SafeState(After(Connected(), steps), st);
  }

  lemma NoBacklogYet()
    ensures Connected().client.backlog == []
  {
  }

  lemma WholeResponses(c: Client)
    requires DoneOk(c)
    ensures AllWhole(c)
  {
    forall k | 0 <= k < |c.done| ensures c.done[k].got == WholeResp(c.done[k].reqNum, c.done[k].request) {
      assert Complete(c.done[k]);
    }
  }

  // ---------------------------------------------------------------- progress

  predicate Quiet(g: State) {
    WellFormed(g) && forall i :: 0 <= i < WINDOW ==> g.client.up[i] == [] && g.down[i] == [] && !g.srv[i].pending
  }

  lemma QuietCredits(g: State)
    requires Inv(g) && Quiet(g)
    ensures g.client.credits == 32
    ensures forall i :: 0 <= i < WINDOW && g.client.slots[i].active ==> g.client.slots[i].numTx == 0
  {
    forall i | 0 <= i < WINDOW
      ensures Outstanding(g.client.slots[i]) == 0
      ensures g.client.slots[i].active ==> g.client.slots[i].numTx == 0
    {
      assert InFlight(LinkOf(g, i)) == 0;
      InFlightIsOutstanding(LinkOf(g, i));
    }
    OutSumIdle(g.client.slots);
    NothingOwed(g.client.done);
  }

  /** With nothing in flight and nobody stalled, every request has finished. */
  lemma QuietMeansDone(g: State)
    requires Inv(g) && Quiet(g) && g.client.stallq == []
    ensures Work(g) == 0 && AllFinished(g.client)
  {
    QuietCredits(g);
    forall i | 0 <= i < WINDOW ensures !g.client.slots[i].active && Todo(LinkOf(g, i)) == 0 {
      assert i !in g.client.stallq;
    }
    assert 0 in g.client.free;
    NoTodo(g, WINDOW);
  }

  lemma {:induction false} DrainKeepsSent(c: Client, q: seq<nat>, i: nat)
    requires Shaped(c) && (forall k :: 0 <= k < |q| ==> q[k] < WINDOW) && i < WINDOW && c.up[i] != []
    ensures DrainFrom(c, q).up[i] != []
    decreases |q|
  {
    if q != [] && c.status == Running {
      if c.credits > 0 {
        DrainKeepsSent(Unstalled(c, q[0]), q[1..], i);
      } else {
        DrainKeepsSent(c.(stallq := c.stallq + [q[0]]), q[1..], i);
      }
    }
  }

  lemma DrainSends(c: Client, q: seq<nat>)
    requires Draining(c, q) && q != [] && c.credits > 0 && forall k :: 0 <= k < |q| ==> q[k] < WINDOW
    ensures DrainFrom(c, q).up[q[0]] != []
  {
    WaitingHead(c, q);
    assert Unstalled(c, q[0]).up[q[0]] != [];
    DrainKeepsSent(Unstalled(c, q[0]), q[1..], q[0]);
  }

  lemma ClientSends(c: Client)
    requires Good(c) && c.stallq != [] && c.credits > 0
    ensures c.stallq[0] < WINDOW && Drain(c).up[c.stallq[0]] != []
  {
    assert [] + c.stallq == c.stallq;
    DrainSends(c.(stallq := []), c.stallq);
  }

  /** A stalled slot sends as soon as there are credits. */
  lemma StallSends(g: State)
    requires Inv(g) && g.client.stallq != [] && g.client.credits > 0
    ensures Enabled(g, Stall) && Enabled(Next(g, Stall), ToSrv(g.client.stallq[0]))
  {
    StalledKept(g.client);
    ClientSends(g.client);
  }

  lemma QuietStep(g: State)
    requires Inv(g) && Work(g) > 0 && Quiet(g)
    ensures g.client.stallq != [] && Enabled(g, Stall) && Enabled(Next(g, Stall), ToSrv(g.client.stallq[0]))
  {
    if g.client.stallq == [] { QuietMeansDone(g); }
    QuietCredits(g);
    StallSends(g);
  }

  /** While work is left, a delivery is possible, at once or after the next look at the stall queue. */
  lemma NoDeadlock(g: State) returns (stall: bool, st: Step)
    requires Inv(g) && g.client.backlog == [] && Work(g) > 0
    ensures Delivery(st) && (stall ==> Enabled(g, Stall) && st.ToSrv?)
    ensures var g1 := if stall then Next(g, Stall) else g; Enabled(g1, st) && Next(g1, st).client.status == Running
  {
    stall := false;
    if i :| 0 <= i < WINDOW && g.client.up[i] != [] {
      st := ToSrv(i);
    } else if i :| 0 <= i < WINDOW && g.srv[i].pending {
      st := Answer(i);
    } else if i :| 0 <= i < WINDOW && g.down[i] != [] {
      st := ToCli(i);
    } else {
      QuietStep(g);
      stall, st := true, ToSrv(g.client.stallq[0]);
    }
    if stall { PoliteStep(g, Stall); }
    PoliteStep(if stall then Next(g, Stall) else g, st);
  }

  lemma Prepend(g: State, st: Step, rest: seq<Step>)
    requires Enabled(g, st) && Legal(Next(g, st), rest)
    ensures Legal(g, [st] + rest) && After(g, [st] + rest) == After(Next(g, st), rest)
    ensures !st.Submit? ==> Submits([st] + rest) == Submits(rest)
  {
    assert ([st] + rest)[0] == st && ([st] + rest)[1..] == rest;
  }

  lemma TodoBounds(l: Link)
    requires LinkOk(l)
    ensures Todo(l) >= if l.slot.active then 1 else 0
  {
  }

  lemma {:induction false} TodoPositive(g: State, n: nat)
    requires WellFormed(g) && n <= WINDOW && forall i :: 0 <= i < WINDOW ==> Todo(LinkOf(g, i)) >= 0
    ensures TodoUpto(g, n) >= 0
  {
    if n > 0 { TodoPositive(g, n - 1); }
  }

  lemma {:induction false} TodoOfOne(g: State, n: nat, i: nat)
    requires WellFormed(g) && i < n <= WINDOW && forall i :: 0 <= i < WINDOW ==> Todo(LinkOf(g, i)) >= 0
    ensures TodoUpto(g, n) >= Todo(LinkOf(g, i))
  {
    if i == n - 1 { TodoPositive(g, i); } else { TodoOfOne(g, n - 1, i); }
  }

  predicate AllFinished(c: Client) { c.backlog == [] && forall i :: 0 <= i < |c.slots| ==> !c.slots[i].active }

  /** No work left means exactly that no slot is working. */
  lemma WorkIsDone(g: State)
    requires Inv(g)
    ensures Work(g) >= 0
    ensures Work(g) == 0 <==> forall i :: 0 <= i < WINDOW ==> !g.client.slots[i].active
  {
    forall i | 0 <= i < WINDOW ensures Todo(LinkOf(g, i)) >= if g.client.slots[i].active then 1 else 0 {
      TodoBounds(LinkOf(g, i));
    }
    TodoPositive(g, WINDOW);
    if i :| 0 <= i < WINDOW && g.client.slots[i].active {
      TodoOfOne(g, WINDOW, i);
    } else {
      forall i | 0 <= i < WINDOW ensures Todo(LinkOf(g, i)) == 0 {
      }
      NoTodo(g, WINDOW);
    }
  }

  /** From every state with an empty backlog all accepted requests can be brought to their end. */
  lemma {:induction false} CanFinish(g: State) returns (steps: seq<Step>)
    requires Inv(g) && g.client.backlog == []
    ensures Legal(g, steps) && Submits(steps) == 0
    ensures After(g, steps).client.status == Running && AllFinished(After(g, steps).client)
    decreases Work(g)
  {
    WorkIsDone(g);
    steps := [];
    if Work(g) > 0 {
      var stall, st := NoDeadlock(g);
      if stall { PoliteStep(g, Stall); }
      var g1 := if stall then Next(g, Stall) else g;
      PoliteStep(g1, st);
      steps := CanFinish(Next(g1, st));
      Prepend(g1, st, steps);
      steps := [st] + steps;
      if stall {
        Prepend(g, Stall, steps);
        steps := [Stall] + steps;
      }
    }
  }

  /** With a request in the backlog no run finishes another one: it stays at that or fails. */
  lemma {:induction false} BacklogIsFinal(g: State, steps: seq<Step>)
    requires Inv(g) && g.client.backlog != [] && Legal(g, steps)
    ensures var c := After(g, steps).client;
      c.status == Running ==> c.done == g.client.done && c.backlog != [] && !AllFinished(c)
    decreases |steps|
  {
    if steps != [] {
      var st := steps[0];
      StepKept(g, st);
      if !PopsBacklog(g, st) {
        StepCounts(g, st);
        if st.ToCli? { NoneFinished(g, st.i); }
        BacklogIsFinal(Next(g, st), steps[1..]);
      }
    }
  }

  lemma NoneFinished(g: State, i: nat)
    requires Inv(g) && Enabled(g, ToCli(i)) && !Completing(g.client, g.down[i][0])
    ensures Next(g, ToCli(i)).client.done == g.client.done
  {
    BumpNeverFails(g, i);
  }

  /**
   Every run that submits only while a slot is free makes at most as many deliveries as the submitted
   requests cost; it makes exactly that many if and only if all of them have finished.
   */
  lemma RunLength(steps: seq<Step>)
    requires Legal(Connected(), steps) && Polite(Connected(), steps)
    ensures var c := After(Connected(), steps).client;
      && Deliveries(steps) <= SubmittedCost(steps)
      && (Deliveries(steps) == SubmittedCost(steps) <==> AllFinished(c))
      && |c.done| + (WINDOW - |c.free|) == Submits(steps)
  {
    ConnectedOk();
    PoliteKept(Connected(), steps);
    WorkIsDone(After(Connected(), steps));
  }

  // ---------------------------------------------------------------- laws the code does not meet

  function WindowSum(slots: seq<Slot>): int {
    if slots == [] then 0
    else (if slots[0].active then slots[0].numTx - slots[0].numRx else 0) + WindowSum(slots[1..])
  }

  function CreditReturns(slots: seq<Slot>): nat {
    if slots == [] then 0 else (if slots[0].active then slots[0].crs else 0) + CreditReturns(slots[1..])
  }

  lemma {:induction false} WindowSplit(slots: seq<Slot>)
    ensures WindowSum(slots) == OutSum(slots) + CreditReturns(slots)
    ensures CreditReturns(slots) == 0 <==> forall i :: 0 <= i < |slots| && slots[i].active ==> slots[i].crs == 0
  {
    if slots != [] {
      WindowSplit(slots[1..]);
      assert forall i :: 1 <= i < |slots| ==> slots[i] == slots[1..][i - 1];
    }
  }

  /**
   Credit returns bump credits but not `num_rx`. So credits plus the sum of `num_tx - num_rx` exceeds
   the session's credits by the credit returns taken, and equals them exactly while no request in
   progress has taken one.
   */
  lemma WindowLawIff(g: State)
    requires Inv(g)
    ensures g.client.credits + WindowSum(g.client.slots) == 32 + CreditReturns(g.client.slots)
    ensures g.client.credits + WindowSum(g.client.slots) == 32
       <==> forall i :: 0 <= i < WINDOW && g.client.slots[i].active ==> g.client.slots[i].crs == 0
  {
    WindowSplit(g.client.slots);
    NothingOwed(g.client.done);
  }

  /** Every credit return that is delivered breaks the sum. */
  lemma CreditReturnBreaksSum(g: State, i: nat)
    requires Inv(g) && Enabled(g, ToCli(i)) && g.down[i][0].Cr?
    ensures var c := Next(g, ToCli(i)).client; c.credits + WindowSum(c.slots) > CREDITS
  {
    hide LinksOk, AllAnsweredOk, DoneOk, WindowSum;
    StepKept(g, ToCli(i));
    BumpNeverFails(g, i);
    var g' := Next(g, ToCli(i));
    assert g'.client.slots[i].active && g'.client.slots[i].crs > 0;
    WindowLawIff(g');
  }

  /** A request started on free slot `i` with enough credits puts all its packets on the wire. */
  lemma Submitted(g: State, r: Request, i: nat)
    requires Inv(g) && Serves(r) && g.client.free != [] && g.client.free[|g.client.free| - 1] == i
    requires g.client.credits >= r.pkts
    ensures Inv(Next(g, Submit(r)))
    ensures var l, l' := LinkOf(g, i), LinkOf(Next(g, Submit(r)), i);
      && !l.slot.active && l'.slot == FreshSlot(l.slot, r).(numTx := r.pkts)
      && l'.up == Requests(l'.slot.hdr, r.pkts, 0, r.pkts) && l'.srv == l.srv && l'.down == []
  {
    StepKept(g, Submit(r));
    assert i in g.client.free && LinkOk(LinkOf(g, i));
    Kicks(g.client, r, i);
  }

  lemma Kicks(c: Client, r: Request, i: nat)
    requires Shaped(c) && Serves(r) && c.free != [] && c.free[|c.free| - 1] == i && c.credits >= r.pkts && c.up[i] == []
    ensures var c', s := Enqueue(c, r), FreshSlot(c.slots[i], r);
      c'.slots[i] == s.(numTx := r.pkts) && c'.up[i] == Requests(s.hdr, r.pkts, 0, r.pkts)
  {
    assert [] + Requests(Hdr(c.slots[i].reqNum + WINDOW), r.pkts, 0, r.pkts)
        == Requests(Hdr(c.slots[i].reqNum + WINDOW), r.pkts, 0, r.pkts);
  }

  /** The first of two packets is answered by a credit return. */
  lemma FirstOfTwo(g: State, i: nat)
    requires Inv(g) && i < WINDOW && g.client.up[i] != [] && g.client.up[i][0].Req?
    requires g.client.up[i][0].num == 0 && g.client.up[i][0].total == 2 && g.down[i] == []
    ensures var g' := Next(g, ToSrv(i)); Inv(g') && Enabled(g', ToCli(i)) && g'.down[i][0].Cr?
  {
    StepKept(g, ToSrv(i));
  }

  /** So the sum fails three steps after any state with a free slot and two credits. */
  lemma WindowLawFails(g: State) returns (steps: seq<Step>)
    requires Inv(g) && g.client.free != [] && g.client.credits >= 2
    ensures Legal(g, steps)
    ensures var c := After(g, steps).client; c.credits + WindowSum(c.slots) > CREDITS
  {
    var r, i := Request(2, 1), g.client.free[|g.client.free| - 1];
    Submitted(g, r, i);
    var g1 := Next(g, Submit(r));
    assert g1.client.up[i][0] == Req(g1.client.slots[i].hdr, 0, 2);
    FirstOfTwo(g1, i);
    var g2 := Next(g1, ToSrv(i));
    CreditReturnBreaksSum(g2, i);
    Prepend(g2, ToCli(i), []);
    Prepend(g1, ToSrv(i), [ToCli(i)] + []);
    Prepend(g, Submit(r), [ToSrv(i)] + ([ToCli(i)] + []));
    steps := [Submit(r)] + ([ToSrv(i)] + ([ToCli(i)] + []));
  }

  lemma WindowLawFailsAtStart() returns (steps: seq<Step>)
    ensures Legal(Connected(), steps)
    ensures var c := After(Connected(), steps).client; c.credits + WindowSum(c.slots) > CREDITS
  {
    ConnectedOk();
    steps := WindowLawFails(Connected());
  }
}
