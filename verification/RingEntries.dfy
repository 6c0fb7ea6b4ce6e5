/**
 Ring entries of an endpoint: each session reserves as many receive buffers as it has credits, so the
 packets on their way to the endpoint never outnumber the buffers.
 */
module RingEntries {
  import opened SessionState
  import opened Protocol
  import opened ProtocolLaws
  import opened ProtocolRuns
  import opened SessionTheorems

  const NUM_RX_RING_ENTRIES: nat := 32768

  class Endpoint {
    var ringEntriesAvailable: nat
    var sessions: seq<State>

    /** A session that has gone through a null pointer is not spoken of any more. */
    ghost predicate Valid()
      reads this
    {
      && ringEntriesAvailable + CREDITS * |sessions| == NUM_RX_RING_ENTRIES
      && forall k :: 0 <= k < |sessions| ==> sessions[k].client.status == Running ==> Inv(sessions[k])
    }

    constructor ()
      ensures Valid() && sessions == []
    {
      ringEntriesAvailable, sessions := NUM_RX_RING_ENTRIES, [];
    }

    /** Reserve the entries of session `g`. */
    method Reserve(g: State) returns (ok: bool)
      requires Valid() && Inv(g)
      modifies this
      ensures Valid() && (ok <==> |old(sessions)| < NUM_RX_RING_ENTRIES / CREDITS)
      ensures sessions == if ok then old(sessions) + [g] else old(sessions)
    {
      ok := ringEntriesAvailable >= CREDITS;
      if ok {
        ringEntriesAvailable := ringEntriesAvailable - CREDITS;
        sessions := sessions + [g];
      }
    }

    /** A session is created if its ring entries can be reserved, up to 1024 of them. */
    method CreateSession() returns (ok: bool)
      requires Valid()
      modifies this
      ensures Valid() && (ok <==> |old(sessions)| < 1024)
      ensures sessions == if ok then old(sessions) + [Connected()] else old(sessions)
    {
      ConnectedOk();
      ok := Reserve(Connected());
    }

    /** Any step of session `k`: reservations are untouched. */
    method Run(k: nat, st: Step)
      requires Valid() && k < |sessions| && Enabled(sessions[k], st)
      modifies this`sessions
      ensures Valid() && sessions == old(sessions)[k := Next(old(sessions[k]), st)]
    {
      StepKept(sessions[k], st);
      sessions := sessions[k := Next(sessions[k], st)];
    }

    /** Destroying a session frees its entries; the count never exceeds the ring. */
    method DestroySession(k: nat)
      requires Valid() && k < |sessions|
      modifies this
      ensures Valid() && sessions == old(sessions[..k] + sessions[k + 1..])
      ensures ringEntriesAvailable == old(ringEntriesAvailable) + 32 <= 32768
    {
      ringEntriesAvailable := ringEntriesAvailable + CREDITS;
      sessions := sessions[..k] + sessions[k + 1..];
    }
  }

  /** Packets of the first `n` slots on their way to the client. */
  function DownUpto(g: State, n: nat): nat
    requires WellFormed(g) && n <= WINDOW
  {
    if n == 0 then 0 else DownUpto(g, n - 1) + |g.down[n - 1]|
  }

  predicate AllInv(sessions: seq<State>) { forall k :: 0 <= k < |sessions| ==> Inv(sessions[k]) }

  /** Packets on their way to the endpoint, over all its sessions. */
  function Incoming(sessions: seq<State>): nat
    requires AllInv(sessions)
  {
    if sessions == [] then 0 else DownUpto(sessions[0], WINDOW) + Incoming(sessions[1..])
  }

  function SpentCredits(sessions: seq<State>): int {
    if sessions == [] then 0 else (CREDITS - sessions[0].client.credits) + SpentCredits(sessions[1..])
  }

  lemma {:induction false} DownIsInFlight(g: State, n: nat)
    requires WellFormed(g) && n <= WINDOW
    ensures DownUpto(g, n) <= InFlightUpto(g, n)
  {
    if n > 0 { DownIsInFlight(g, n - 1); }
  }

  /** Each packet on its way holds a credit of its session. */
  lemma {:induction false} IncomingIsSpent(sessions: seq<State>)
    requires AllInv(sessions)
    ensures Incoming(sessions) <= SpentCredits(sessions) <= CREDITS * |sessions|
  {
    if sessions != [] {
      DownIsInFlight(sessions[0], WINDOW);
      CreditConservation(sessions[0]);
      IncomingIsSpent(sessions[1..]);
    }
  }

  /** The entries reserved cover all packets on their way to the endpoint. */
  lemma ReservedCoversIncoming(available: nat, sessions: seq<State>)
    requires AllInv(sessions) && available + CREDITS * |sessions| == NUM_RX_RING_ENTRIES
    ensures Incoming(sessions) <= NUM_RX_RING_ENTRIES - available
  {
    IncomingIsSpent(sessions);
  }
}
