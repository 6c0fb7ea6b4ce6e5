/** What one call of the client sends: a kick uses the credits there are, and the stall queue goes in order. */
module KickLaws {
  import opened SessionState
  import opened SessionLaws

  // ---------------------------------------------------------------- one kick

  /** Request packets stay unsent only without credits. */
  lemma KickUsesCredits(l: Lane)
    requires ReqPending(l.slot)
    ensures var k := KickReq(l);
      && (ReqPending(k.slot) ==> k.credits == 0) && k.slot.numTx <= k.slot.request.pkts
      && (l.credits > 0 ==> k.slot.numTx > l.slot.numTx) && k.credits <= l.credits
  {
  }

  /** So do requests-for-response, for a response of as many packets as this one says. */
  lemma AskUsesCredits(l: Lane, p: ToClient)
    requires p.RespPkt? && p.total > 1 && l.slot.numTx <= Wire(l.slot.request, p.total)
    ensures var k := OnResp(l, p);
      && (k.slot.numTx == Wire(l.slot.request, p.total) || (k.credits == 0 && k.slot.numTx > l.slot.numTx))
      && k.slot.numTx >= l.slot.numTx
  {
  }

  // ---------------------------------------------------------------- the stall queue

  /** A pass over the queue kicks a prefix of it and keeps the rest, in order. */
  predicate Passed(c: Client, q: seq<nat>, c': Client, m: nat) {
    && Shaped(c) && Shaped(c') && m <= |q| && c'.stallq == c.stallq + q[m..]
    && (forall k :: 0 <= k < m ==> q[k] < WINDOW && c'.slots[q[k]].numTx > 0)
    && (forall k :: 0 <= k < m ==> q[k] < WINDOW && (ReqPending(c'.slots[q[k]]) ==> c'.credits == 0))
    && (forall i :: 0 <= i < WINDOW && i !in q[..m] ==> c'.slots[i] == c.slots[i])
  }

  /** Without credits the queue stays as it is. */
  lemma {:induction false} DrainKeepsOrder(c: Client, q: seq<nat>)
    requires Shaped(c) && c.status == Running && forall k :: 0 <= k < |q| ==> q[k] < WINDOW
    requires q == [] || c.credits == 0
    ensures DrainFrom(c, q) == c.(stallq := c.stallq + q)
    decreases |q|
  {
    if q == [] {
      assert c.stallq + q == c.stallq;
    } else {
      DrainKeepsOrder(c.(stallq := c.stallq + [q[0]]), q[1..]);
      assert c.stallq + [q[0]] + q[1..] == c.stallq + q;
    }
  }

  lemma {:induction false} DrainPasses(c: Client, q: seq<nat>) returns (m: nat)
    requires Draining(c, q) && (forall k :: 0 <= k < |q| ==> q[k] < WINDOW) && c.stallq == []
    ensures Passed(c, q, DrainFrom(c, q), m) && DrainFrom(c, q).credits <= c.credits
    decreases |q|
  {
    hide Draining, Kicked, Passed;
    DrainingRuns(c, q);
    if q == [] || c.credits == 0 {
      m := 0;
      DrainKeepsOrder(c, q);
      NonePassed(c, q);
    } else {
      KickKept(c, q);
      WaitingHead(c, q);
      NothingKept(c, q[0]);
      m := DrainPasses(Kicked(c, q[0]), q[1..]);
      m := m + 1;
      KickedFirst(c, q, DrainFrom(c, q), m);
    }
  }

  lemma DrainingRuns(c: Client, q: seq<nat>)
    requires Draining(c, q) && c.stallq == []
    ensures Shaped(c) && c.status == Running && Distinct(q)
  {
    assert [] + q == q;
  }

  lemma NothingKept(c: Client, i: nat)
    requires Shaped(c) && i < WINDOW
    ensures Kicked(c, i).stallq == c.stallq
  {
  }

  lemma NonePassed(c: Client, q: seq<nat>)
    requires Shaped(c) && forall k :: 0 <= k < |q| ==> q[k] < WINDOW
    ensures Passed(c, q, c.(stallq := c.stallq + q), 0)
  {
    assert q[0..] == q;
  }

  /** The first slot of the queue is kicked, and the pass goes on with the others. */
  lemma KickedFirst(c: Client, q: seq<nat>, c': Client, m: nat)
    requires Shaped(c) && Distinct(q) && q != [] && q[0] < WINDOW && c.stallq == [] && c.credits > 0 && m >= 1
    requires ReqPending(c.slots[q[0]])
    requires Passed(Kicked(c, q[0]), q[1..], c', m - 1) && c'.credits <= Kicked(c, q[0]).credits
    ensures Passed(c, q, c', m) && c'.credits <= c.credits
  {
    KickUsesCredits(LaneOf(c, q[0]));
    DistinctTail(q);
    assert q[..m] == [q[0]] + q[1..][..m - 1] && q[1..][m - 1..] == q[m..];
    forall k | 0 <= k < m
      ensures q[k] < WINDOW && c'.slots[q[k]].numTx > 0 && (ReqPending(c'.slots[q[k]]) ==> c'.credits == 0)
    {
      if k > 0 { assert q[k] == q[1..][k - 1]; }
    }
  }

  /**
   The stall queue after a pass is a suffix of the queue before; the slots before it are exactly those
   that were kicked, each until it had nothing left to send or credits had run out.
   */
  lemma StallQueueOrder(c: Client) returns (m: nat)
    requires Good(c)
    ensures Passed(c.(stallq := []), c.stallq, Drain(c), m) && Drain(c).stallq == c.stallq[m..]
    ensures m < |c.stallq| ==> Drain(c).credits == 0
  {
    hide DrainFrom, FreeOk, SlotsOk, BacklogOk, Balanced;
    StalledKept(c);
    DrainStarts(c);
    m := DrainPasses(c.(stallq := []), c.stallq);
    assert [] + c.stallq[m..] == c.stallq[m..];
  }

  lemma DrainStarts(c: Client)
    requires Good(c)
    ensures Draining(c.(stallq := []), c.stallq) && forall k :: 0 <= k < |c.stallq| ==> c.stallq[k] < WINDOW
  {
    assert [] + c.stallq == c.stallq;
  }

  lemma StallSuffix(c: Client)
    requires Good(c)
    ensures var q, q' := c.stallq, Drain(c).stallq; |q'| <= |q| && q' == q[|q| - |q'|..]
  {
    hide Good, Drain;
    var m := StallQueueOrder(c);
  }
}
