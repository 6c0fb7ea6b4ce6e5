/** What the session window keeps over every run of the unreliable network. */
module WindowLaws {
  import opened SessionState
  import opened Window

  // ---------------------------------------------------------------- counting flags

  function CountTrue(f: seq<bool>): nat {
    if f == [] then 0 else (if f[0] then 1 else 0) + CountTrue(f[1..])
  }

  lemma {:induction false} CountUpdate(f: seq<bool>, k: nat, b: bool)
    requires k < |f|
    ensures CountTrue(f[k := b]) == CountTrue(f) - (if f[k] then 1 else 0) + (if b then 1 else 0)
  {
    if k == 0 {
      assert f[k := b][1..] == f[1..];
    } else {
      CountUpdate(f[1..], k - 1, b);
      assert f[k := b][1..] == f[1..][k - 1 := b];
    }
  }

  lemma {:induction false} CountNone(f: seq<bool>)
    requires forall k :: 0 <= k < |f| ==> !f[k]
    ensures CountTrue(f) == 0
  {
    if f != [] { CountNone(f[1..]); }
  }

  // ---------------------------------------------------------------- one slot

  /** Packet `n` is outstanding: sent or wheeled, and not yet answered in order. */
  predicate InWindow(s: PacedSlot, n: nat) { s.numRx <= n < s.numTx }

  /** The counters: at most a window's worth outstanding, and everything before it accepted. */
  predicate Counters(s: PacedSlot) {
    && s.numRx <= s.numTx <= s.numRx + CREDITS
    && s.accepted == Upto(s.numRx)
    && (s.active || s.reqNum >= WINDOW ==> s.request.pkts >= 1 && s.request.answer >= 1)
    && (if s.active then s.numRx < WirePkts(s.request)
        else s.numTx == s.numRx && (s.reqNum >= WINDOW ==> s.numRx == WirePkts(s.request)))
    && s.numTx <= Limit(s)
  }

  predicate Holds(w: multiset<nat>, k: nat) { exists n :: n in w && n % CREDITS == k }

  /** The flags: an outstanding packet is flagged exactly when it is in the wheel. */
  predicate Wheel(s: PacedSlot) {
    && |s.inWheel| == CREDITS
    && (forall n :: n in s.wheel ==> s.wheel[n] == 1 && InWindow(s, n))
    && (forall n :: s.numRx <= n < s.numTx ==> (s.inWheel[n % CREDITS] <==> n in s.wheel))
    && (forall k :: 0 <= k < CREDITS && s.inWheel[k] ==> Holds(s.wheel, k))
    && s.wheelCount == |s.wheel| == CountTrue(s.inWheel)
  }

  predicate SlotOk(s: PacedSlot, i: nat) { s.reqNum % WINDOW == i && Counters(s) && Wheel(s) }

  lemma Apart(n: nat, m: nat)
    requires n < m < n + CREDITS
    ensures n % CREDITS != m % CREDITS
  {
  }

  /** Packets outstanding at one time have different indices into the per-packet arrays. */
  lemma IndicesDistinct(s: PacedSlot, n: nat, m: nat)
    requires Counters(s) && InWindow(s, n) && InWindow(s, m) && n % CREDITS == m % CREDITS
    ensures n == m
  {
  }

  lemma BeginOk(s: PacedSlot, i: nat, r: Request)
    requires SlotOk(s, i) && !s.active && r.pkts >= 1 && r.answer >= 1
    ensures SlotOk(BeginSlot(s, r), i)
  {
  }

  /** With nothing outstanding, or nothing counted, the wheel is empty and no flag is set. */
  lemma EmptyWheel(s: PacedSlot)
    requires Wheel(s) && (s.numTx == s.numRx || s.wheelCount == 0)
    ensures s.wheel == multiset{} && s.wheelCount == 0 && forall k :: 0 <= k < CREDITS ==> !s.inWheel[k]
  {
  }

  lemma TransmitOk(s: PacedSlot, i: nat)
    requires SlotOk(s, i) && s.active && s.numTx < Limit(s) && s.numTx < s.numRx + CREDITS && s.wheelCount == 0
    ensures SlotOk(s.(numTx := s.numTx + 1), i)
  {
  }

  /** The index of the next packet is not taken by one that is outstanding. */
  lemma NextIndexFree(s: PacedSlot)
    requires Counters(s) && Wheel(s) && s.numTx < s.numRx + CREDITS
    ensures !s.inWheel[s.numTx % CREDITS]
  {
    var k := s.numTx % CREDITS;
    forall n | n in s.wheel ensures n % CREDITS != k {
      Apart(n, s.numTx);
    }
  }

  lemma WheelOk(s: PacedSlot, i: nat)
    requires SlotOk(s, i) && s.active && s.numTx < Limit(s) && s.numTx < s.numRx + CREDITS
    ensures SlotOk(WheelSlot(s), i)
  {
    var s' := WheelSlot(s);
    NextIndexFree(s);
    CountUpdate(s.inWheel, s.numTx % CREDITS, true);
    assert s.numTx !in s.wheel;
    WheelFlags(s);
    forall j | 0 <= j < CREDITS && s'.inWheel[j] ensures Holds(s'.wheel, j) {
      if j == s.numTx % CREDITS {
        assert s.numTx in s'.wheel;
      } else {
        var n :| n in s.wheel && n % CREDITS == j;
        assert n in s'.wheel;
      }
    }
  }

  lemma WheelFlags(s: PacedSlot)
    requires Counters(s) && Wheel(s) && s.numTx < s.numRx + CREDITS
    ensures var s' := WheelSlot(s);
      forall n :: s'.numRx <= n < s'.numTx ==> (s'.inWheel[n % CREDITS] <==> n in s'.wheel)
  {
    var s' := WheelSlot(s);
    forall n | s'.numRx <= n < s'.numTx ensures s'.inWheel[n % CREDITS] <==> n in s'.wheel {
      if n < s.numTx { Apart(n, s.numTx); }
    }
  }

  lemma ReapOk(s: PacedSlot, i: nat, n: nat)
    requires SlotOk(s, i) && n in s.wheel && s.wheelCount > 0
    ensures SlotOk(ReapSlot(s, n), i) && InWindow(s, n) && s.active
  {
    var s', k := ReapSlot(s, n), n % CREDITS;
    assert InWindow(s, n) && s.inWheel[k];
    CountUpdate(s.inWheel, k, false);
    assert n !in s'.wheel;
    forall m | s'.numRx <= m < s'.numTx ensures s'.inWheel[m % CREDITS] <==> m in s'.wheel {
      if m % CREDITS == k { IndicesDistinct(s, n, m); }
    }
    forall j | 0 <= j < CREDITS && s'.inWheel[j] ensures Holds(s'.wheel, j) {
      var m :| m in s.wheel && m % CREDITS == j;
      assert m in s'.wheel;
    }
  }

  lemma AcceptOk(s: PacedSlot, i: nat, q: Pkt)
    requires SlotOk(s, i) && s.active && q.num == s.numRx < s.numTx && s.numRx !in s.wheel
    ensures SlotOk(AcceptSlot(s, q), i)
  {
    var s' := AcceptSlot(s, q);
    assert Upto(s.numRx) + [s.numRx] == Upto(s.numRx + 1);
    assert s'.wheel == s.wheel && s'.inWheel == s.inWheel;
    if !s'.active { assert s.numTx == s'.numRx; }
  }

  lemma RollbackOk(s: PacedSlot, i: nat)
    requires SlotOk(s, i) && s.active && s.wheelCount == 0
    ensures SlotOk(s.(numTx := s.numRx), i)
  {
  }
}
