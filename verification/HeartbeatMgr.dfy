/**
 The heartbeat manager as the class that owns the queue and the map. Each method is a run of the
 machine in `Heartbeat`, so every law of runs holds of it. The loop of `do_one` is shown to end
 whatever the clock does, as long as the send delta is positive.
 */
module HeartbeatMgr {
  import opened Heartbeat
  import opened HeartbeatLaws

  // ---------------------------------------------------------------- why the loop of do_one ends

  /** How far a check event is from an inevitable report. */
  function CheckCost(cfg: Config, lastRx: map<Uri, nat>, e: Event): nat {
    if e.kind == Send then 0
    else if e.uri in lastRx && e.tsc <= lastRx[e.uri] + cfg.timeout then
      lastRx[e.uri] + cfg.timeout - e.tsc + 2
    else 1
  }

  function CheckWork(cfg: Config, lastRx: map<Uri, nat>, q: seq<Event>): nat {
    if q == [] then 0 else CheckCost(cfg, lastRx, q[0]) + CheckWork(cfg, lastRx, q[1..])
  }

  /** How far a send event is from passing the last queued check event. */
  function SendCost(last: nat, e: Event): nat {
    if e.kind == Check || e.tsc > last then 0 else last + 1 - e.tsc
  }

  function SendWork(last: nat, q: seq<Event>): nat {
    if q == [] then 0 else SendCost(last, q[0]) + SendWork(last, q[1..])
  }

  function LastCheck(q: seq<Event>): nat {
    if q == [] then 0
    else if q[0].kind == Check && q[0].tsc > LastCheck(q[1..]) then q[0].tsc
    else LastCheck(q[1..])
  }

  lemma {:induction false} CheckWorkConcat(cfg: Config, lastRx: map<Uri, nat>, a: seq<Event>, b: seq<Event>)
    ensures CheckWork(cfg, lastRx, a + b) == CheckWork(cfg, lastRx, a) + CheckWork(cfg, lastRx, b)
  {
    if a == [] {
      assert a + b == b;
    } else {
      CheckWorkConcat(cfg, lastRx, a[1..], b);
      assert (a + b)[1..] == a[1..] + b;
    }
  }

  lemma {:induction false} SendWorkConcat(last: nat, a: seq<Event>, b: seq<Event>)
    ensures SendWork(last, a + b) == SendWork(last, a) + SendWork(last, b)
  {
    if a == [] {
      assert a + b == b;
    } else {
      SendWorkConcat(last, a[1..], b);
      assert (a + b)[1..] == a[1..] + b;
    }
  }

  lemma {:induction false} LastCheckConcat(a: seq<Event>, b: seq<Event>)
    ensures LastCheck(a + b) == if LastCheck(a) > LastCheck(b) then LastCheck(a) else LastCheck(b)
  {
    if a == [] {
      assert a + b == b;
    } else {
      LastCheckConcat(a[1..], b);
      assert (a + b)[1..] == a[1..] + b;
    }
  }

  lemma {:induction false} LastCheckBounds(q: seq<Event>, i: nat)
    requires i < |q| && q[i].kind == Check
    ensures q[i].tsc <= LastCheck(q)
  {
    if i > 0 { LastCheckBounds(q[1..], i - 1); }
  }

  lemma {:induction false} CheckWorkForgets(cfg: Config, lastRx: map<Uri, nat>, u: Uri, q: seq<Event>)
    ensures CheckWork(cfg, lastRx - {u}, q) <= CheckWork(cfg, lastRx, q)
  {
    if q != [] { CheckWorkForgets(cfg, lastRx, u, q[1..]); }
  }

  /** Replacing the event at `i` by `es` changes each total by the difference of the costs. */
  lemma Replaced(cfg: Config, lastRx: map<Uri, nat>, last: nat, q: seq<Event>, i: nat, e: Event)
    requires i < |q|
    ensures CheckWork(cfg, lastRx, Without(q, i)) == CheckWork(cfg, lastRx, q) - CheckCost(cfg, lastRx, q[i])
    ensures CheckWork(cfg, lastRx, Without(q, i) + [e])
         == CheckWork(cfg, lastRx, q) - CheckCost(cfg, lastRx, q[i]) + CheckCost(cfg, lastRx, e)
    ensures SendWork(last, Without(q, i) + [e]) == SendWork(last, q) - SendCost(last, q[i]) + SendCost(last, e)
  {
    assert q == q[..i] + ([q[i]] + q[i + 1..]);
    CheckWorkConcat(cfg, lastRx, q[..i], [q[i]] + q[i + 1..]);
    CheckWorkConcat(cfg, lastRx, q[..i], q[i + 1..]);
    CheckWorkConcat(cfg, lastRx, Without(q, i), [e]);
    SendWorkConcat(last, q[..i], [q[i]] + q[i + 1..]);
    SendWorkConcat(last, q[..i], q[i + 1..]);
    SendWorkConcat(last, Without(q, i), [e]);
  }

  lemma LastCheckReplaced(q: seq<Event>, i: nat, e: Event)
    requires i < |q| && q[i].kind == Send && e.kind == Send
    ensures LastCheck(Without(q, i) + [e]) == LastCheck(q)
  {
    assert q == q[..i] + ([q[i]] + q[i + 1..]);
    LastCheckConcat(q[..i], [q[i]] + q[i + 1..]);
    LastCheckConcat(q[..i], q[i + 1..]);
    LastCheckConcat(Without(q, i), [e]);
  }

  /** Every tracked URI has a check event in the queue. */
  predicate Watching(q: seq<Event>, lastRx: map<Uri, nat>) {
    forall u :: u in lastRx ==> Queued(q, Check, u) >= 1
  }

  lemma WatchingKept(cfg: Config, s: State, st: Step)
    requires Enabled(s, st) && Watching(s.queue, s.lastRx)
    requires st.HandleCheck? ==> Queued(s.queue, Check, s.queue[st.i].uri) >= 1
    ensures Watching(Next(cfg, s, st).queue, Next(cfg, s, st).lastRx)
  {
    var s' := Next(cfg, s, st);
    forall u | u in s'.lastRx ensures Queued(s'.queue, Check, u) >= 1 {
      StepCounts(cfg, s, st, u);
    }
  }

  /** A sent heartbeat is rescheduled later, and never past the last check event for free. */
  lemma SendStepDescends(cfg: Config, s: State, st: Step)
    requires st.HandleSend? && Enabled(s, st) && cfg.timeout >= 10 && Watching(s.queue, s.lastRx)
    ensures var s' := Next(cfg, s, st);
      && CheckWork(cfg, s'.lastRx, s'.queue) == CheckWork(cfg, s.lastRx, s.queue)
      && SendWork(LastCheck(s'.queue), s'.queue) < SendWork(LastCheck(s.queue), s.queue)
  {
    var e, last := s.queue[st.i], LastCheck(s.queue);
    var e' := Event(Send, e.uri, st.t1 + cfg.SendDelta());
    var k := QueuedWitness(s.queue, Check, e.uri);
    LastCheckBounds(s.queue, k);
    Replaced(cfg, s.lastRx, last, s.queue, st.i, e');
    LastCheckReplaced(s.queue, st.i, e');
  }

  /** A check either reports its URI or moves towards the report. */
  lemma CheckStepDescends(cfg: Config, s: State, st: Step)
    requires st.HandleCheck? && Enabled(s, st) && cfg.timeout >= 2
    ensures var s' := Next(cfg, s, st);
      CheckWork(cfg, s'.lastRx, s'.queue) < CheckWork(cfg, s.lastRx, s.queue)
  {
    var e, s' := s.queue[st.i], Next(cfg, s, st);
    var e' := Event(Check, e.uri, st.t2 + cfg.CheckDelta());
    Replaced(cfg, s.lastRx, 0, s.queue, st.i, e');
    if Reports(cfg, s, st, e.uri) {
      CheckWorkForgets(cfg, s.lastRx, e.uri, s'.queue);
    }
  }

  // ---------------------------------------------------------------- the class

  /** The time stamp counter: each reading is at least the one before. */
  class Clock {
    var now: nat

    constructor (t: nat)
      ensures now == t
    {
      now := t;
    }

    method Rdtsc() returns (t: nat)
      modifies this
      ensures old(now) <= now == t
    {
      var d :| 0 <= d;
      now := now + d;
      t := now;
    }
  }

  /** The URIs reported by a run, in order. */
  function Reported(cfg: Config, s: State, steps: seq<Step>): seq<Uri>
    requires Legal(cfg, s, steps)
    decreases |steps|
  {
    if steps == [] then []
    else
      var st := steps[0];
      (if st.HandleCheck? && Reports(cfg, s, st, s.queue[st.i].uri) then [s.queue[st.i].uri] else [])
      + Reported(cfg, Next(cfg, s, st), steps[1..])
  }

  lemma {:induction false} ReportedAppend(cfg: Config, s: State, steps: seq<Step>, st: Step)
    requires Legal(cfg, s, steps) && Enabled(After(cfg, s, steps), st)
    ensures Legal(cfg, s, steps + [st])
    ensures var s' := After(cfg, s, steps);
      Reported(cfg, s, steps + [st]) == Reported(cfg, s, steps) + Reported(cfg, s', [st])
    decreases |steps|
  {
    LegalAppend(cfg, s, steps, st);
    if steps == [] {
      assert steps + [st] == [st];
    } else {
      assert (steps + [st])[0] == steps[0] && (steps + [st])[1..] == steps[1..] + [st];
      ReportedAppend(cfg, Next(cfg, s, steps[0]), steps[1..], st);
    }
  }

  predicate AllHandled(steps: seq<Step>) {
    forall k :: 0 <= k < |steps| ==> steps[k].HandleSend? || steps[k].HandleCheck?
  }

  /** `steps` handled events, reported `failed` and led from `s` to `s'`. */
  predicate Ran(cfg: Config, s: State, steps: seq<Step>, failed: seq<Uri>, s': State) {
    AllHandled(steps) && Legal(cfg, s, steps) && After(cfg, s, steps) == s' && Reported(cfg, s, steps) == failed
  }

  lemma RanOne(cfg: Config, s: State, steps: seq<Step>, failed: seq<Uri>, mid: State, st: Step)
    requires Ran(cfg, s, steps, failed, mid) && Enabled(mid, st) && AllHandled([st])
    ensures Ran(cfg, s, steps + [st], failed + Reported(cfg, mid, [st]), Next(cfg, mid, st))
  {
    LegalAppend(cfg, s, steps, st);
    ReportedAppend(cfg, s, steps, st);
    assert AllHandled(steps + [st]) by {
      assert [st][0] == st;
    }
  }

  lemma RanReturn(cfg: Config, s: State, steps: seq<Step>, failed: seq<Uri>, mid: State, t: nat)
    requires Ran(cfg, s, steps, failed, mid) && Enabled(mid, Return(t))
    requires cfg.timeout >= 10
    ensures var run := steps + [Return(t)];
      && OneCall(run) && Legal(cfg, s, run) && After(cfg, s, run) == State(mid.queue, mid.lastRx, t)
      && Reported(cfg, s, run) == failed
      && Sorted(Handled(cfg, s, run))
      && (t < s.now + cfg.SendDelta() ==> multiset(Handled(cfg, s, run)) <= multiset(s.queue))
  {
    var ret := Return(t);
    LegalAppend(cfg, s, steps, ret);
    ReportedAppend(cfg, s, steps, ret);
    HandledInOrder(cfg, s, steps + [ret], 0);
    if t < s.now + cfg.SendDelta() {
      HandledOnce(cfg, s, steps + [ret], s.queue, t);
    }
  }

  class Mgr {
    const cfg: Config
    var queue: seq<Event>
    var lastRx: map<Uri, nat>

    ghost predicate Valid()
      reads this
    {
      Watching(queue, lastRx)
    }

    ghost function At(now: nat): State
      reads this
    {
      State(queue, lastRx, now)
    }

    constructor (timeout: nat, now: nat)
      ensures Valid() && cfg == Config(timeout) && At(now) == Init(now)
    {
      cfg := Config(timeout);
      queue := [];
      lastRx := map[];
    }

    /** `priority_queue::top`: an event no other event precedes. */
    method Top() returns (i: nat)
      requires queue != []
      ensures IsTop(queue, i)
    {
      i := 0;
      for k := 1 to |queue|
        invariant i < |queue| && forall j :: 0 <= j < k ==> queue[i].tsc <= queue[j].tsc
      {
        if queue[k].tsc < queue[i].tsc { i := k; }
      }
    }

    method ScheduleSend(clock: Clock, u: Uri) returns (t: nat)
      modifies this`queue, clock
      ensures old(clock.now) <= clock.now == t
      ensures queue == old(queue) + [Event(Send, u, t + cfg.SendDelta())]
    {
      t := clock.Rdtsc();
      queue := queue + [Event(Send, u, t + cfg.SendDelta())];
    }

    method ScheduleCheck(clock: Clock, u: Uri) returns (t: nat)
      modifies this`queue, clock
      ensures old(clock.now) <= clock.now == t
      ensures queue == old(queue) + [Event(Check, u, t + cfg.CheckDelta())]
    {
      t := clock.Rdtsc();
      queue := queue + [Event(Check, u, t + cfg.CheckDelta())];
    }

    /** `unlocked_add_remote` is one `AddRemote` step. */
    method AddRemote(clock: Clock, u: Uri) returns (ghost st: Step)
      requires Valid()
      modifies this, clock
      ensures Valid()
      ensures st.AddRemote? && st.uri == u && Enabled(old(At(clock.now)), st)
      ensures At(clock.now) == Next(cfg, old(At(clock.now)), st)
    {
      var t0 := clock.Rdtsc();
      lastRx := Emplace(lastRx, u, t0);
      var t1 := ScheduleSend(clock, u);
      var t2 := ScheduleCheck(clock, u);
      st := Step.AddRemote(u, t0, t1, t2);
      assert queue == Next(cfg, old(At(clock.now)), st).queue;
      WatchingKept(cfg, old(At(clock.now)), st);
    }

    /** `unlocked_receive_hb` is one `ReceiveHb` step; the clock is read only for a tracked URI. */
    method ReceiveHb(clock: Clock, u: Uri) returns (ghost st: Step)
      requires Valid()
      modifies this, clock
      ensures Valid()
      ensures st == Step.ReceiveHb(u, clock.now) && Enabled(old(At(clock.now)), st)
      ensures At(clock.now) == Next(cfg, old(At(clock.now)), st)
    {
      if u in lastRx {
        var t := clock.Rdtsc();
        lastRx := Emplace(lastRx, u, t);
      }
      st := Step.ReceiveHb(u, clock.now);
      WatchingKept(cfg, old(At(clock.now)), st);
    }

    /** One pass of the loop of `do_one` on the due event of a tracked URI at `i`, tested at `t0`. */
    method HandleOne(clock: Clock, i: nat, t0: nat, ghost s: State) returns (failed: seq<Uri>, ghost st: Step)
      requires Valid() && cfg.timeout >= 10 && t0 == clock.now
      requires s.queue == queue && s.lastRx == lastRx && s.now <= t0
      requires IsTop(queue, i) && queue[i].tsc <= t0 && queue[i].uri in lastRx
      modifies this, clock
      ensures Valid() && (st.HandleSend? || st.HandleCheck?)
      ensures Enabled(s, st) && At(clock.now) == Next(cfg, s, st)
      ensures failed == Reported(cfg, s, [st])
      ensures CheckWork(cfg, lastRx, queue) < old(CheckWork(cfg, lastRx, queue))
           || (CheckWork(cfg, lastRx, queue) == old(CheckWork(cfg, lastRx, queue))
               && SendWork(LastCheck(queue), queue) < old(SendWork(LastCheck(queue), queue)))
    {
      hide CheckWork, SendWork, LastCheck;
      var ev := queue[i];
      queue := Without(queue, i);
      failed := [];
      if ev.kind == Send {
        var t1 := ScheduleSend(clock, ev.uri);
        st := HandleSend(i, t0, t1);
        SendStepDescends(cfg, s, st);
      } else {
        var t1 := clock.Rdtsc();
        if t1 - lastRx[ev.uri] > cfg.timeout {
          failed := [ev.uri];
          lastRx := lastRx - {ev.uri};
          st := HandleCheck(i, t0, t1, t1);
        } else {
          var t2 := ScheduleCheck(clock, ev.uri);
          st := HandleCheck(i, t0, t1, t2);
        }
        CheckStepDescends(cfg, s, st);
      }
      WatchingKept(cfg, s, st);
    }

    /**
     `do_one`. It returns for every behaviour of the clock; what it does is one legal run of handled
     events ending in `Return`; `failed` lists exactly the reported URIs. The last clause says the
     run is sorted, and that under a clock slower than the send delta it handles each event queued
     at entry at most once and no other.
     */
    method DoOne(clock: Clock) returns (failed: seq<Uri>, ghost steps: seq<Step>)
      requires Valid() && cfg.timeout >= 10
      modifies this, clock
      ensures Valid() && OneCall(steps)
      ensures Legal(cfg, old(At(clock.now)), steps)
      ensures At(clock.now) == After(cfg, old(At(clock.now)), steps)
      ensures failed == Reported(cfg, old(At(clock.now)), steps)
      ensures AllFuture(queue, clock.now) || Blocked(At(clock.now), clock.now)
      ensures Sorted(Handled(cfg, old(At(clock.now)), steps))
      ensures clock.now < old(clock.now) + cfg.SendDelta() ==>
        multiset(Handled(cfg, old(At(clock.now)), steps)) <= multiset(old(queue))
    {
      ghost var s := At(clock.now);
      ghost var mid := s;
      failed, steps := [], [];
      while true
        invariant Valid() && At(mid.now) == mid && mid.now <= clock.now
        invariant Ran(cfg, s, steps, failed, mid)
        decreases CheckWork(cfg, lastRx, queue), SendWork(LastCheck(queue), queue)
      {
        if queue == [] { break; }
        var i := Top();
        var t0 := clock.Rdtsc();
        if queue[i].tsc > t0 || queue[i].uri !in lastRx {
          break;
        }
        var failedNow, st := HandleOne(clock, i, t0, mid);
        RanOne(cfg, s, steps, failed, mid, st);
        failed, steps, mid := failed + failedNow, steps + [st], At(clock.now);
      }
      RanReturn(cfg, s, steps, failed, mid, clock.now);
      steps := steps + [Return(clock.now)];
    }
  }
}
