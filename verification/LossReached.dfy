/** Runs of a new session that lead to the losses and the rollback that go wrong. */
module LossReached {
  import opened SessionState
  import opened SessionLaws
  import opened Protocol
  import opened LinkLaws
  import opened ProtocolLaws
  import opened ProtocolRuns
  import opened SessionTheorems
  import opened SessionFaults
  import opened LossAsWritten

  /** The link of slot `i` with the session's credits. */
  function LossyOf(g: State, i: nat): Lossy
    requires WellFormed(g) && i < WINDOW
  {
    Lossy(LinkOf(g, i), g.client.credits)
  }

  /** All packets of a request are in flight, and the server has yet to see the first. */
  lemma InFlightNow(g: State, r: Request, i: nat)
    requires Ready(g, i) && Serves(r) && g.client.credits >= r.pkts
    ensures Enabled(g, Submit(r))
    ensures var g' := Next(g, Submit(r));
      var l := LinkOf(g', i);
      && Inv(g') && Busy(l) && l.slot.request == r && l.slot.numTx == r.pkts && Arrived(l) == 0
      && g'.client.credits == g.client.credits - r.pkts
  {
    Submitted(g, r, i);
    assert i in g.client.free && LinkOk(LinkOf(g, i));
    FreshLink(LinkOf(g, i), i, r);
    assert LinkOk(LinkOf(Next(g, Submit(r)), i));
  }

  lemma SubmitRun(g: State, r: Request)
    requires Enabled(g, Submit(r))
    ensures Legal(g, [Submit(r)]) && After(g, [Submit(r)]) == Next(g, Submit(r))
  {
    Prepend(g, Submit(r), []);
    assert [Submit(r)] + [] == [Submit(r)];
  }

  /** A request of one packet answered by two, and its request-for-response is lost: it never sends again. */
  lemma LostRfrReached() returns (g: State, losses: seq<Event>)
    ensures Legal(Connected(), [Submit(Request(1, 2))]) && g == After(Connected(), [Submit(Request(1, 2))])
    ensures WellFormed(g) && Possible(LossyOf(g, 0), losses) && forall e :: e in losses ==> Ordered(e)
    ensures var w := Outcome(LossyOf(g, 0), losses); Silent(w.link) && w.link.slot.numRx == 1 && !Completable(w)
  {
    hide Connected, Next, Inv, Busy, Legal, After;
    var g0 := Connected();
    ConnectedReady();
    InFlightNow(g0, Request(1, 2), 0);
    SubmitRun(g0, Request(1, 2));
    g := Next(g0, Submit(Request(1, 2)));
    losses := LostRfr(LossyOf(g, 0));
    LossRecoversIff(LossyOf(g, 0), losses);
  }

  /** A request of two packets, likewise: the rollback sends again, and it never completes. */
  lemma LostWhilePendingReached() returns (g: State, losses: seq<Event>)
    ensures Legal(Connected(), [Submit(Request(2, 2))]) && g == After(Connected(), [Submit(Request(2, 2))])
    ensures WellFormed(g) && Possible(LossyOf(g, 0), losses) && forall e :: e in losses ==> Ordered(e)
    ensures var w := Outcome(LossyOf(g, 0), losses);
      Silent(w.link) && 1 == w.link.slot.numRx < w.link.slot.request.pkts && RolledBack(w).up != [] && !Completable(w)
  {
    hide Connected, Next, Inv, Busy, Legal, After;
    var g0 := Connected();
    ConnectedReady();
    InFlightNow(g0, Request(2, 2), 0);
    SubmitRun(g0, Request(2, 2));
    g := Next(g0, Submit(Request(2, 2)));
    losses := LostWhilePending(LossyOf(g, 0));
    LossRecoversIff(LossyOf(g, 0), losses);
  }

  /** The first of two packets is on its way back as a credit return. */
  lemma CreditOnItsWay(g: State, i: nat)
    requires Inv(g) && i < WINDOW && g.client.slots[i].request == Request(2, 1) && g.client.slots[i].numTx == 2
    requires g.client.slots[i].active && Arrived(LinkOf(g, i)) == 0
    ensures Enabled(g, ToSrv(i))
    ensures var g' := Next(g, ToSrv(i)); Inv(g') && g'.client == g.client.(up := g'.client.up)
    ensures Next(g, ToSrv(i)).down[i] == [Cr(g.client.slots[i].hdr, 0)]
  {
    var l := LinkOf(g, i);
    assert LinkOk(l);
    ReqHead(l);
    StepKept(g, ToSrv(i));
  }

  lemma TakenBackTwice(g: State, i: nat)
    requires Inv(g) && i < WINDOW && g.client.slots[i].request == Request(2, 1) && g.client.slots[i].numTx == 2
    requires g.client.slots[i].active && g.client.slots[i].numRx == 0 && g.client.credits == CREDITS - 2
    requires g.down[i] != [] && g.down[i][0].Cr?
    ensures Enabled(g, ToCli(i))
    ensures var c := Next(g, ToCli(i)).client;
      c.slots[i].active && c.credits + c.slots[i].numTx - c.slots[i].numRx == CREDITS + 1
  {
    BumpNeverFails(g, i);
  }

  /** One request of two packets and one credit return: the rollback's assertion on credits fails. */
  lemma RollbackAssertFails() returns (steps: seq<Step>)
    ensures Legal(Connected(), steps)
    ensures var c := After(Connected(), steps).client;
      Shaped(c) && c.slots[0].active && c.credits + c.slots[0].numTx - c.slots[0].numRx > CREDITS
  {
    var g0 := Connected();
    ConnectedReady();
    InFlightNow(g0, Request(2, 1), 0);
    var g1 := Next(g0, Submit(Request(2, 1)));
    CreditOnItsWay(g1, 0);
    var g2 := Next(g1, ToSrv(0));
    TakenBackTwice(g2, 0);
    Prepend(g2, ToCli(0), []);
    Prepend(g1, ToSrv(0), [ToCli(0)] + []);
    Prepend(g0, Submit(Request(2, 1)), [ToSrv(0)] + ([ToCli(0)] + []));
    steps := [Submit(Request(2, 1))] + ([ToSrv(0)] + ([ToCli(0)] + []));
  }
}
