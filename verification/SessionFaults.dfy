/** Runs of the session protocol that end in a null header or a failed assertion of the server. */
module SessionFaults {
  import opened SessionState
  import opened SessionLaws
  import opened Protocol
  import opened LinkLaws
  import opened ProtocolLaws
  import opened ProtocolRuns
  import opened SessionTheorems

  const ONE: Request := Request(1, 1)

  /** Slot `i` is the next one to be taken. */
  predicate Ready(g: State, i: nat) {
    && Inv(g) && g.client.free != [] && g.client.free[|g.client.free| - 1] == i
    && g.client.credits >= 1 && g.client.backlog == []
  }

  // ---------------------------------------------------------------- one single-packet request

  /** A single-packet request of slot `i` is on its way to the server. */
  predicate OnItsWay(g: State, i: nat) {
    && WellFormed(g) && i < WINDOW && g.client.slots[i].active && g.client.slots[i].numTx > 0
    && g.client.slots[i].request == ONE && g.down[i] == []
    && g.client.up[i] == [Req(g.client.slots[i].hdr, 0, 1)]
  }

  lemma Sends(g: State, i: nat)
    requires Inv(g) && g.client.free != [] && g.client.free[|g.client.free| - 1] == i && g.client.credits >= 1
    ensures Enabled(g, Submit(ONE))
    ensures var g' := Next(g, Submit(ONE));
      && Inv(g') && OnItsWay(g', i) && g'.client.backlog == g.client.backlog && g'.client.done == g.client.done
      && g'.client.slots[i].reqNum == g.client.slots[i].reqNum + WINDOW
  {
    Submitted(g, ONE, i);
  }

  lemma Arrives(g: State, i: nat)
    requires Inv(g) && OnItsWay(g, i)
    ensures Enabled(g, ToSrv(i))
    ensures var g' := Next(g, ToSrv(i));
      && Inv(g') && g'.srv[i].pending && g'.down[i] == [] && g'.client == g.client.(up := g'.client.up)
  {
    StepKept(g, ToSrv(i));
  }

  lemma Responded(g: State, i: nat)
    requires Inv(g) && i < WINDOW && g.srv[i].pending && g.down[i] == [] && g.client.slots[i].request == ONE
    ensures var g' := Next(g, Answer(i));
      && Inv(g') && Enabled(g', ToCli(i)) && Completing(g'.client, g'.down[i][0]) && g'.client == g.client
  {
    StepKept(g, Answer(i));
    BumpNeverFails(Next(g, Answer(i)), i);
  }

  // ---------------------------------------------------------------- the thirty-third request

  /** Submitting does not touch a slot that is working. */
  lemma SubmitKeepsLink(g: State, r: Request, i: nat)
    requires Inv(g) && Serves(r) && OnItsWay(g, i)
    ensures Inv(Next(g, Submit(r))) && OnItsWay(Next(g, Submit(r)), i)
    ensures Next(g, Submit(r)).client.done == g.client.done
    ensures Accepted(Next(g, Submit(r)).client) == Accepted(g.client) + 1
  {
    StepKept(g, Submit(r));
    StepCounts(g, Submit(r));
    if g.client.free != [] { assert g.client.free[|g.client.free| - 1] in g.client.free; }
  }

  /** The round trip of slot `i` over a backlog. */
  lemma PopRun(g: State, i: nat) returns (steps: seq<Step>)
    requires Inv(g) && OnItsWay(g, i) && g.client.backlog != []
    ensures Legal(g, steps) && Submits(steps) == 0 && After(g, steps).client.status == NullHeader
  {
    Arrives(g, i);
    var g1 := Next(g, ToSrv(i));
    Responded(g1, i);
    var g2 := Next(g1, Answer(i));
    PopFails(g2, ToCli(i));
    Prepend(g2, ToCli(i), []);
    Prepend(g1, Answer(i), [ToCli(i)] + []);
    Prepend(g, ToSrv(i), [Answer(i)] + ([ToCli(i)] + []));
    steps := [ToSrv(i)] + ([Answer(i)] + ([ToCli(i)] + []));
  }

  lemma {:induction false} FillAndPop(g: State, n: nat, i: nat) returns (steps: seq<Step>)
    requires Inv(g) && OnItsWay(g, i) && Accepted(g.client) + n > |g.client.done| + WINDOW
    ensures Legal(g, steps) && Submits(steps) == n && After(g, steps).client.status == NullHeader
    decreases n
  {
    if n == 0 {
      steps := PopRun(g, i);
    } else {
      SubmitKeepsLink(g, ONE, i);
      var rest := FillAndPop(Next(g, Submit(ONE)), n - 1, i);
      Prepend(g, Submit(ONE), rest);
      steps := [Submit(ONE)] + rest;
      assert steps[1..] == rest;
    }
  }

  /** From any state with a free slot: requests that exceed the slots, and one completion. */
  lemma Overfill(g: State, n: nat) returns (steps: seq<Step>)
    requires Inv(g) && g.client.free != [] && g.client.credits >= 1 && Accepted(g.client) + n > |g.client.done| + WINDOW
    ensures Legal(g, steps) && Submits(steps) == n && After(g, steps).client.status == NullHeader
  {
    FewFree(g);
    var i := g.client.free[|g.client.free| - 1];
    Sends(g, i);
    StepCounts(g, Submit(ONE));
    var rest := FillAndPop(Next(g, Submit(ONE)), n - 1, i);
    Prepend(g, Submit(ONE), rest);
    steps := [Submit(ONE)] + rest;
    assert steps[1..] == rest;
  }

  lemma FewFree(g: State)
    requires Inv(g) && g.client.free != []
    ensures Accepted(g.client) <= |g.client.done| + WINDOW
  {
  }

  /** Thirty-three requests and one completion: the thirty-third is started without a header. */
  lemma ThirtyThreeRequests() returns (steps: seq<Step>)
    ensures Legal(Connected(), steps) && Submits(steps) == 33
    ensures After(Connected(), steps).client.status == NullHeader
  {
    ConnectedOk();
    steps := Overfill(Connected(), 33);
  }

  // ---------------------------------------------------------------- the server's assertions

  /**
   In every run: when a handler responds, the assertion that no response is in place holds if and
   only if this is the first request of the slot.
   */
  lemma AnswerAssertIff(steps: seq<Step>, i: nat)
    requires Legal(Connected(), steps) && Enabled(After(Connected(), steps), Answer(i))
    ensures var g := After(Connected(), steps);
      NoResponseYet(g.srv[i]) <==> g.client.slots[i].reqNum == i + WINDOW
  {
    ConnectedOk();
    NullHeaderIff(Connected(), steps);
    var g := After(Connected(), steps);
    PendingNumber(g, i);
    LinkAnswer(LinkOf(g, i), i);
  }

  /**
   In every run: when the first packet of a request arrives, the assertion on its number holds if and
   only if the 32-bit field has not just wrapped around.
   */
  lemma NumberAssertIff(steps: seq<Step>, i: nat)
    requires Legal(Connected(), steps) && Enabled(After(Connected(), steps), ToSrv(i))
    requires var p := After(Connected(), steps).client.up[i][0]; p.Req? && p.num == 0
    ensures var g := After(Connected(), steps);
      NextRequest(g.srv[i], g.client.up[i][0]) <==> Hdr(g.client.slots[i].reqNum) >= WINDOW
  {
    ConnectedOk();
    NullHeaderIff(Connected(), steps);
    FirstArrives(After(Connected(), steps), i);
  }

  lemma FirstArrives(g: State, i: nat)
    requires Inv(g) && Enabled(g, ToSrv(i)) && g.client.up[i][0].Req? && g.client.up[i][0].num == 0
    ensures NextRequest(g.srv[i], g.client.up[i][0]) <==> Hdr(g.client.slots[i].reqNum) >= WINDOW
  {
    var l := LinkOf(g, i);
    assert LinkOk(l) && SlotOk(l.slot, i);
    if Arrived(l) < ReqsSent(l.slot) { ReqArrives(l); } else { RfrArrives(l); }
  }

  /** A slot is reused for the request after the one it finished. */
  lemma Returns(g: State, i: nat)
    requires Inv(g) && Enabled(g, ToCli(i)) && Completing(g.client, g.down[i][0]) && g.client.backlog == []
    requires g.client.slots[i].request == ONE
    ensures var g' := Next(g, ToCli(i));
      && Ready(g', i) && g'.client.slots[i].reqNum == g.client.slots[i].reqNum >= i + WINDOW
  {
    BumpNeverFails(g, i);
    NextOfResponse(g, i);
    StepKept(g, ToCli(i));
    LastTaken(g.client, g.down[i][0]);
  }

  /** The round trip of a request of one packet. */
  lemma RoundTrip(g: State, i: nat) returns (g': State, steps: seq<Step>)
    requires Ready(g, i)
    ensures Legal(g, steps) && After(g, steps) == g' && Submits(steps) == 1
    ensures Ready(g', i) && g'.client.slots[i].reqNum == g.client.slots[i].reqNum + WINDOW >= i + WINDOW
  {
    hide Next, Enabled, Inv;
    Sends(g, i);
    var g1 := Next(g, Submit(ONE));
    var rest;
    g', rest := Home(g1, i);
    Prepend(g, Submit(ONE), rest);
    steps := [Submit(ONE)] + rest;
    assert steps[1..] == rest;
  }

  lemma Home(g: State, i: nat) returns (g': State, steps: seq<Step>)
    requires Inv(g) && OnItsWay(g, i) && g.client.backlog == []
    ensures Legal(g, steps) && After(g, steps) == g' && Submits(steps) == 0
    ensures Ready(g', i) && g'.client.slots[i].reqNum == g.client.slots[i].reqNum >= i + WINDOW
  {
    Arrives(g, i);
    var g1 := Next(g, ToSrv(i));
    Responded(g1, i);
    var g2 := Next(g1, Answer(i));
    Returns(g2, i);
    g' := Next(g2, ToCli(i));
    Prepend(g2, ToCli(i), []);
    Prepend(g1, Answer(i), [ToCli(i)] + []);
    Prepend(g, ToSrv(i), [Answer(i)] + ([ToCli(i)] + []));
    steps := [ToSrv(i)] + ([Answer(i)] + ([ToCli(i)] + []));
  }

  lemma AlreadyAnswered(g: State, i: nat)
    requires Inv(g) && i < WINDOW && g.srv[i].pending && g.client.slots[i].reqNum > i + WINDOW
    ensures !NoResponseYet(g.srv[i])
  {
    LinkAnswer(LinkOf(g, i), i);
  }

  lemma SecondRound(g: State, i: nat) returns (steps: seq<Step>)
    requires Ready(g, i) && g.client.slots[i].reqNum >= i + WINDOW
    ensures Legal(g, steps) && Submits(steps) == 1
    ensures var g' := After(g, steps); Enabled(g', Answer(i)) && !NoResponseYet(g'.srv[i])
  {
    Sends(g, i);
    var g1 := Next(g, Submit(ONE));
    Arrives(g1, i);
    AlreadyAnswered(Next(g1, ToSrv(i)), i);
    Prepend(g1, ToSrv(i), []);
    Prepend(g, Submit(ONE), [ToSrv(i)] + []);
    steps := [Submit(ONE)] + ([ToSrv(i)] + []);
    assert steps[1..] == [ToSrv(i)] + [];
  }

  lemma ConnectedReady()
    ensures Ready(Connected(), 0) && Connected().client.slots[0].reqNum == 0
  {
    ConnectedOk();
  }

  /** Two single-packet requests one after the other: the second response fails the assertion. */
  lemma SecondResponseFails() returns (steps: seq<Step>, i: nat)
    ensures Legal(Connected(), steps) && Submits(steps) == 2
    ensures var g := After(Connected(), steps); Enabled(g, Answer(i)) && !NoResponseYet(g.srv[i])
  {
    ConnectedReady();
    i := 0;
    var g1, a := RoundTrip(Connected(), i);
    var b := SecondRound(g1, i);
    Chain(Connected(), a, b);
    SubmitsSum(a, b);
    steps := a + b;
  }

  lemma {:induction false} SubmitsSum(a: seq<Step>, b: seq<Step>)
    ensures Submits(a + b) == Submits(a) + Submits(b)
  {
    if a == [] {
      assert a + b == b;
    } else {
      SubmitsSum(a[1..], b);
      assert (a + b)[0] == a[0] && (a + b)[1..] == a[1..] + b;
    }
  }

  // ---------------------------------------------------------------- the request number wraps

  /** Any number of requests, one after the other. */
  lemma {:induction false} RoundTrips(g: State, i: nat, n: nat) returns (g': State, steps: seq<Step>)
    requires Ready(g, i)
    ensures Legal(g, steps) && After(g, steps) == g'
    ensures Ready(g', i) && g'.client.slots[i].reqNum == g.client.slots[i].reqNum + n * WINDOW
    decreases n
  {
    g', steps := g, [];
    if n > 0 {
      var g1, a := RoundTrip(g, i);
      var b;
      g', b := RoundTrips(g1, i, n - 1);
      Chain(g, a, b);
      steps := a + b;
    }
  }

  /** The first packet of a request whose number has just wrapped: the assertion on it fails. */
  lemma WrappedArrives(g: State, i: nat)
    requires Ready(g, i) && Hdr(g.client.slots[i].reqNum + WINDOW) < WINDOW
    ensures Enabled(g, Submit(ONE))
    ensures var g' := Next(g, Submit(ONE));
      Enabled(g', ToSrv(i)) && g'.client.up[i][0].Req? && !NextRequest(g'.srv[i], g'.client.up[i][0])
  {
    Sends(g, i);
    FirstArrives(Next(g, Submit(ONE)), i);
  }

  /** From a new session: after 2^27 - 1 requests on slot 0 the field of the next one is zero. */
  lemma NumberWraps() returns (steps: seq<Step>, i: nat)
    ensures Legal(Connected(), steps) && Enabled(After(Connected(), steps), ToSrv(i))
    ensures var g := After(Connected(), steps); g.client.up[i][0].Req? && !NextRequest(g.srv[i], g.client.up[i][0])
  {
    hide Inv, Connected, Next;
    ConnectedReady();
    i := 0;
    var g1, a := RoundTrips(Connected(), i, 0x7FF_FFFF);
    assert Hdr(0x1_0000_0000) == 0;
    WrappedArrives(g1, i);
    Prepend(g1, Submit(ONE), []);
    Chain(Connected(), a, [Submit(ONE)] + []);
    steps := a + ([Submit(ONE)] + []);
  }
}
