/** The main theorems about the session window over an unreliable network. */
module WindowTheorems {
  import opened SessionState
  import opened Window
  import opened WindowLaws
  import opened WindowRuns

  // ---------------------------------------------------------------- safety

  /** Response indices of the packet numbers from `reqPkts - 1` on: `resp_ntoi` of each. */
  function RespIndices(accepted: seq<nat>, reqPkts: nat): seq<int>
    requires 1 <= reqPkts <= |accepted| + 1
  {
    seq(|accepted| - (reqPkts - 1), k requires 0 <= k < |accepted| - (reqPkts - 1) =>
      accepted[k + reqPkts - 1] - (reqPkts - 1))
  }

  /** All of a finished request: packets 0, 1, .. once each, and response indices 0, 1, .. once each. */
  predicate WholeResponse(s: PacedSlot) {
    && s.accepted == Upto(WirePkts(s.request))
    && 1 <= s.request.pkts <= |s.accepted| + 1
    && RespIndices(s.accepted, s.request.pkts) == seq(s.request.answer, k => k)
  }

  lemma FinishedWhole(s: PacedSlot, i: nat)
    requires SlotOk(s, i) && !s.active && s.reqNum >= WINDOW
    ensures WholeResponse(s)
  {
  }

  /** At most 32 outstanding, none beyond the response, and requests-for-response only after its first packet. */
  predicate NotTooMany(s: PacedSlot) {
    && s.numRx <= s.numTx <= s.numRx + 32
    && (s.numTx > s.request.pkts ==> s.numRx >= s.request.pkts && s.numTx <= s.request.pkts + s.request.answer - 1)
  }

  /**
   The accepted packet numbers are 0, 1, .. once each; the wheel count is the number of flags set; and
   a slot that has finished a request has its whole response.
   */
  predicate SlotSafe(s: PacedSlot) {
    && NotTooMany(s) && s.accepted == Upto(s.numRx) && s.wheelCount == CountTrue(s.inWheel)
    && (!s.active && s.reqNum >= WINDOW ==> WholeResponse(s))
  }

  lemma SlotIsSafe(s: PacedSlot, i: nat)
    requires SlotOk(s, i)
    ensures SlotSafe(s)
  {
    hide WholeResponse;
    if !s.active && s.reqNum >= WINDOW { FinishedWhole(s, i); }
  }

  /** How many requests were started on slot `i`. */
  function Begun(steps: seq<Step>, i: nat): nat {
    if steps == [] then 0 else (if steps[0].Begin? && steps[0].i == i then 1 else 0) + Begun(steps[1..], i)
  }

  lemma {:induction false} RunNumbers(g: State, steps: seq<Step>, i: nat)
    requires |g.slots| == WINDOW && Legal(g, steps) && i < WINDOW
    ensures |After(g, steps).slots| == WINDOW
    ensures After(g, steps).slots[i].reqNum == g.slots[i].reqNum + 32 * Begun(steps, i)
    decreases |steps|
  {
    if steps != [] { RunNumbers(Next(g, steps[0]), steps[1..], i); }
  }

  /**
   In every run: the credits law holds with `num_tx - num_rx`; every slot is safe, its n-th request
   numbered `i + 32 * n`; and whatever arrives next is accepted only if it answers the next packet of
   the current request, in which case `bump_credits` is below its limit.
   */
  lemma WindowSafety(steps: seq<Step>, q: Pkt)
    requires Legal(Init(), steps)
    ensures var g := After(Init(), steps);
      && Inv(g) && g.credits + Spent(g.slots) == 32
      && (forall i :: 0 <= i < 32 ==> SlotSafe(g.slots[i]) && g.slots[i].reqNum == i + 32 * Begun(steps, i))
      && (q in g.down ==>
            (InOrder(g.slots[SlotFor(q)], q) <==> AnswersNext(g.slots[SlotFor(q)], q)) && q in g.up)
      && (q in g.down && InOrder(g.slots[SlotFor(q)], q) ==> g.credits < 32)
  {
    hide SlotSafe, Init, After, Legal, SlotOk, Reached, Known, InOrder, AnswersNext;
    InitOk();
    RunKept(Init(), steps);
    var g := After(Init(), steps);
    forall i | 0 <= i < 32 ensures SlotSafe(g.slots[i]) && g.slots[i].reqNum == i + 32 * Begun(steps, i) {
      SlotAt(g, i);
      SlotIsSafe(g.slots[i], i);
      RunNumbers(Init(), steps, i);
      FirstNumber(i);
    }
    if q in g.down { NextArrival(g, q); }
  }

  lemma NextArrival(g: State, q: Pkt)
    requires Inv(g) && q in g.down
    ensures var s := g.slots[SlotFor(q)];
      && |s.inWheel| == CREDITS && q in g.up && (InOrder(s, q) <==> AnswersNext(s, q))
      && (InOrder(s, q) ==> g.credits < 32)
  {
    SlotAt(g, SlotFor(q));
    FilterExact(g, q);
    RoomLeft(g, SlotFor(q));
  }

  lemma FirstNumber(i: nat)
    requires i < WINDOW
    ensures |Init().slots| == WINDOW && Init().slots[i].reqNum == i
  {
  }

  // ---------------------------------------------------------------- requests that cannot complete

  /** Numbers that do not fit the header fields: the filter drops every reply. */
  predicate TooLong(s: PacedSlot) { s.active && (WirePkts(s.request) > PKT_NUMS || s.reqNum >= REQ_NUMS) }

  lemma StuckReceive(g: State, q: Pkt, i: nat)
    requires Inv(g) && Enabled(g, Receive(q)) && i < WINDOW && TooLong(g.slots[i])
    ensures TooLong(Next(g, Receive(q)).slots[i]) && Next(g, Receive(q)).slots[i].reqNum == g.slots[i].reqNum
  {
    if SlotFor(q) == i {
      SlotAt(g, i);
      FilterExact(g, q);
    }
  }

  lemma StuckStep(g: State, st: Step, i: nat)
    requires Inv(g) && Enabled(g, st) && i < WINDOW && TooLong(g.slots[i])
    ensures TooLong(Next(g, st).slots[i]) && Next(g, st).slots[i].reqNum == g.slots[i].reqNum
  {
    if st.Receive? { StuckReceive(g, st.q, i); }
  }

  lemma {:induction false} NeverCompletes(g: State, steps: seq<Step>, i: nat)
    requires Inv(g) && Legal(g, steps) && i < WINDOW && TooLong(g.slots[i])
    ensures Inv(After(g, steps)) && TooLong(After(g, steps).slots[i])
    ensures After(g, steps).slots[i].reqNum == g.slots[i].reqNum
    decreases |steps|
  {
    if steps != [] {
      StepKept(g, steps[0]);
      StuckStep(g, steps[0], i);
      NeverCompletes(Next(g, steps[0]), steps[1..], i);
    }
  }

  // ---------------------------------------------------------------- all others can

  lemma OneStep(g: State, st: Step)
    requires Inv(g) && Enabled(g, st)
    ensures Legal(g, [st]) && After(g, [st]) == Next(g, st) && Inv(Next(g, st))
  {
    assert [st][1..] == [];
    StepKept(g, st);
  }

  lemma Prepend(g: State, st: Step, rest: seq<Step>)
    requires Enabled(g, st) && Legal(Next(g, st), rest)
    ensures Legal(g, [st] + rest) && After(g, [st] + rest) == After(Next(g, st), rest)
  {
  }

  lemma {:induction false} Chain(g: State, a: seq<Step>, b: seq<Step>)
    requires Legal(g, a) && Legal(After(g, a), b)
    ensures Legal(g, a + b) && After(g, a + b) == After(After(g, a), b)
    decreases |a|
  {
    if a == [] {
      assert a + b == b;
    } else {
      Chain(Next(g, a[0]), a[1..], b);
      Prepend(g, a[0], a[1..] + b);
      assert a + b == [a[0]] + (a[1..] + b);
    }
  }

  /** Slot `i` works on the same request, as far as before or further. */
  predicate Same(g: State, g': State, i: nat)
    requires i < |g.slots| && i < |g'.slots|
  {
    g'.slots[i].reqNum == g.slots[i].reqNum && g'.slots[i].request == g.slots[i].request
  }

  lemma Accepted(g: State, i: nat)
    requires Inv(g) && i < WINDOW && g.slots[i].active && !TooLong(g.slots[i])
    requires g.slots[i].numRx < g.slots[i].numTx && g.slots[i].numRx !in g.slots[i].wheel
    requires Pkt(g.slots[i].reqNum, g.slots[i].numRx) in g.down
    ensures var q := Pkt(g.slots[i].reqNum, g.slots[i].numRx);
      Next(g, Receive(q)) == g.(credits := g.credits + 1, slots := g.slots[i := AcceptSlot(g.slots[i], q)])
  {
    var q := Pkt(g.slots[i].reqNum, g.slots[i].numRx);
    SlotAt(g, i);
    Residues(q.reqNum);
    FilterExact(g, q);
  }

  /** The packet the window waits for is on the wire: its reply gets through. */
  lemma Answered(g: State, i: nat) returns (steps: seq<Step>)
    requires Inv(g) && i < WINDOW && g.slots[i].active && !TooLong(g.slots[i])
    requires g.slots[i].numRx < g.slots[i].numTx && g.slots[i].numRx !in g.slots[i].wheel
    ensures Legal(g, steps) && Inv(After(g, steps)) && Same(g, After(g, steps), i)
    ensures After(g, steps).slots[i].numRx == g.slots[i].numRx + 1
  {
    var p := Pkt(g.slots[i].reqNum, g.slots[i].numRx);
    SlotAt(g, i);
    OneStep(g, Reply(p));
    Received(Next(g, Reply(p)), i);
    steps := [Reply(p)] + [Receive(p)];
    Prepend(g, Reply(p), [Receive(p)]);
  }

  /** The reply on the wire is taken. */
  lemma Received(g: State, i: nat)
    requires Inv(g) && i < WINDOW && g.slots[i].active && !TooLong(g.slots[i])
    requires g.slots[i].numRx < g.slots[i].numTx && g.slots[i].numRx !in g.slots[i].wheel
    requires Pkt(g.slots[i].reqNum, g.slots[i].numRx) in g.down
    ensures var q := Pkt(g.slots[i].reqNum, g.slots[i].numRx);
      var g' := Next(g, Receive(q));
      && Legal(g, [Receive(q)]) && After(g, [Receive(q)]) == g'
      && Inv(g') && Same(g, g', i) && g'.slots[i].numRx == g.slots[i].numRx + 1
  {
    Accepted(g, i);
    OneStep(g, Receive(Pkt(g.slots[i].reqNum, g.slots[i].numRx)));
  }

  lemma ReapedNext(g: State, i: nat)
    requires Inv(g) && i < WINDOW && g.slots[i].active && g.slots[i].numRx < g.slots[i].numTx
    requires g.slots[i].numRx in g.slots[i].wheel
    ensures Enabled(g, Reap(i, g.slots[i].numRx))
    ensures var g' := Next(g, Reap(i, g.slots[i].numRx));
      Inv(g') && Same(g, g', i) && g'.slots[i].active && g'.slots[i].numTx == g.slots[i].numTx
      && g'.slots[i].numRx == g.slots[i].numRx && g.slots[i].numRx !in g'.slots[i].wheel
  {
    SlotAt(g, i);
    OneStep(g, Reap(i, g.slots[i].numRx));
  }

  /** If it is still in the wheel, it is reaped first. */
  lemma Advance(g: State, i: nat) returns (steps: seq<Step>)
    requires Inv(g) && i < WINDOW && g.slots[i].active && !TooLong(g.slots[i]) && g.slots[i].numRx < g.slots[i].numTx
    ensures Legal(g, steps) && Inv(After(g, steps)) && Same(g, After(g, steps), i)
    ensures After(g, steps).slots[i].numRx == g.slots[i].numRx + 1
  {
    hide SlotOk, Reached, WireOk, Next, Enabled, Legal, After;
    var n := g.slots[i].numRx;
    if n in g.slots[i].wheel {
      ReapedNext(g, i);
      var g1 := Next(g, Reap(i, n));
      var rest := Answered(g1, i);
      steps := [Reap(i, n)] + rest;
      Prepend(g, Reap(i, n), rest);
    } else {
      steps := Answered(g, i);
    }
  }

  predicate WheelOnly(g: State, g': State, j: nat)
    requires j < |g.slots| == |g'.slots|
  {
    && g'.slots[j].numTx == g.slots[j].numTx && g'.slots[j].numRx == g.slots[j].numRx
    && g'.slots[j].active == g.slots[j].active && g'.credits == g.credits
    && forall i :: 0 <= i < |g.slots| && i != j ==> g'.slots[i] == g.slots[i]
  }

  lemma WheelOnlyTwice(a: State, b: State, c: State, j: nat)
    requires j < |a.slots| == |b.slots| == |c.slots| && WheelOnly(a, b, j) && WheelOnly(b, c, j)
    ensures WheelOnly(a, c, j)
  {
  }

  /** Emptying the wheel of a slot touches no other slot and no counter. */
  lemma {:induction false} Reaped(g: State, j: nat) returns (steps: seq<Step>)
    requires Inv(g) && j < WINDOW
    ensures Legal(g, steps) && Inv(After(g, steps)) && After(g, steps).slots[j].wheelCount == 0
    ensures WheelOnly(g, After(g, steps), j)
    decreases g.slots[j].wheelCount
  {
    SlotAt(g, j);
    if g.slots[j].wheelCount == 0 {
      steps := [];
    } else {
      var n :| n in g.slots[j].wheel;
      OneStep(g, Reap(j, n));
      var g1 := Next(g, Reap(j, n));
      assert WheelOnly(g, g1, j) && g1.slots[j].wheelCount < g.slots[j].wheelCount;
      var rest := Reaped(g1, j);
      Prepend(g, Reap(j, n), rest);
      WheelOnlyTwice(g, g1, After(g1, rest), j);
      steps := [Reap(j, n)] + rest;
    }
  }

  lemma TakenBack(g: State, j: nat)
    requires Inv(g) && j < WINDOW && g.slots[j].wheelCount == 0 && g.slots[j].active
    requires g.slots[j].numRx < g.slots[j].numTx
    ensures Legal(g, [Rollback(j)]) && Inv(After(g, [Rollback(j)])) && After(g, [Rollback(j)]).credits > g.credits
    ensures forall i :: 0 <= i < WINDOW && i != j ==> After(g, [Rollback(j)]).slots[i] == g.slots[i]
  {
    OneStep(g, Rollback(j));
  }

  /** A credit can always be had: a rollback of any slot with packets outstanding returns some. */
  lemma Credited(g: State, i: nat) returns (steps: seq<Step>)
    requires Inv(g) && i < WINDOW && g.slots[i].numTx == g.slots[i].numRx && g.credits == 0
    ensures Legal(g, steps) && Inv(After(g, steps)) && After(g, steps).credits > 0
    ensures After(g, steps).slots[i] == g.slots[i]
  {
    var j := SpentWitness(g.slots);
    var first := Reaped(g, j);
    var g1 := After(g, first);
    SlotAt(g1, j);
    TakenBack(g1, j);
    Chain(g, first, [Rollback(j)]);
    steps := first + [Rollback(j)];
  }

  lemma Sent(g: State, i: nat) returns (steps: seq<Step>)
    requires Inv(g) && i < WINDOW && g.slots[i].active && g.slots[i].numTx == g.slots[i].numRx && g.credits > 0
    ensures Legal(g, steps) && Inv(After(g, steps)) && Same(g, After(g, steps), i) && After(g, steps).slots[i].active
    ensures After(g, steps).slots[i].numRx == g.slots[i].numRx < After(g, steps).slots[i].numTx
  {
    SlotAt(g, i);
    EmptyWheel(g.slots[i]);
    OneStep(g, Transmit(i));
    steps := [Transmit(i)];
  }

  /** From any reachable state, whatever the network lost, the window moves one packet on. */
  lemma MovesOn(g: State, i: nat) returns (steps: seq<Step>)
    requires Inv(g) && i < WINDOW && g.slots[i].active && !TooLong(g.slots[i])
    ensures Legal(g, steps) && Inv(After(g, steps)) && Same(g, After(g, steps), i)
    ensures After(g, steps).slots[i].numRx == g.slots[i].numRx + 1
  {
    SlotAt(g, i);
    if g.slots[i].numRx < g.slots[i].numTx {
      steps := Advance(g, i);
    } else {
      var a := [];
      if g.credits == 0 { a := Credited(g, i); }
      var g1 := After(g, a);
      var b := Sent(g1, i);
      var c := Advance(After(g1, b), i);
      Chain(g1, b, c);
      Chain(g, a, b + c);
      steps := a + (b + c);
    }
  }

  /**
   Together with `NeverCompletes`: a request can be completed from every reachable state if and only
   if its packet numbers fit sixteen bits and its request number thirty-two.
   */
  lemma {:induction false} CanComplete(g: State, i: nat) returns (steps: seq<Step>)
    requires Inv(g) && i < WINDOW && g.slots[i].active && !TooLong(g.slots[i])
    ensures Legal(g, steps) && Inv(After(g, steps)) && Same(g, After(g, steps), i)
    ensures !After(g, steps).slots[i].active
    decreases WirePkts(g.slots[i].request) - g.slots[i].numRx
  {
    Before(g, i);
    var a := MovesOn(g, i);
    var g1 := After(g, a);
    if g1.slots[i].active {
      Before(g1, i);
      var b := CanComplete(g1, i);
      Chain(g, a, b);
      steps := a + b;
    } else {
      steps := a;
    }
  }

  lemma Before(g: State, i: nat)
    requires Inv(g) && i < WINDOW && g.slots[i].active
    ensures g.slots[i].numRx < WirePkts(g.slots[i].request)
  {
  }
}
