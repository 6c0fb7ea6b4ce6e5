/** What holds of every run of the heartbeat manager. */
module HeartbeatLaws {
  import opened Heartbeat

  // ---------------------------------------------------------------- counting queued events

  lemma {:induction false} QueuedConcat(a: seq<Event>, b: seq<Event>, kind: EventType, u: Uri)
    ensures Queued(a + b, kind, u) == Queued(a, kind, u) + Queued(b, kind, u)
  {
    if a == [] {
      assert a + b == b;
    } else {
      QueuedConcat(a[1..], b, kind, u);
      assert (a + b)[1..] == a[1..] + b;
    }
  }

  lemma QueuedWithout(q: seq<Event>, i: nat, kind: EventType, u: Uri)
    requires i < |q|
    ensures Queued(q, kind, u)
         == Queued(Without(q, i), kind, u) + (if q[i].kind == kind && q[i].uri == u then 1 else 0)
  {
    QueuedConcat(q[..i], q[i + 1..], kind, u);
    QueuedConcat(q[..i], q[i..], kind, u);
    assert q == q[..i] + q[i..];
  }

  lemma {:induction false} QueuedWitness(q: seq<Event>, kind: EventType, u: Uri) returns (i: nat)
    requires Queued(q, kind, u) > 0
    ensures i < |q| && q[i].kind == kind && q[i].uri == u
  {
    if q[0].kind == kind && q[0].uri == u {
      i := 0;
    } else {
      i := QueuedWitness(q[1..], kind, u);
      i := i + 1;
    }
  }

  lemma QueuedPair(q: seq<Event>, e: Event, f: Event, kind: EventType, u: Uri)
    ensures Queued(q + [e, f], kind, u)
         == Queued(q, kind, u) + (if e.kind == kind && e.uri == u then 1 else 0)
          + (if f.kind == kind && f.uri == u then 1 else 0)
  {
    QueuedConcat(q, [e, f], kind, u);
    QueuedConcat([e], [f], kind, u);
    assert [e, f] == [e] + [f];
  }

  /** How one step moves the counts. */
  lemma StepCounts(cfg: Config, s: State, st: Step, u: Uri)
    requires Enabled(s, st)
    ensures var s' := Next(cfg, s, st);
      var added := if st.AddRemote? && st.uri == u then 1 else 0;
      var failed := if Reports(cfg, s, st, u) then 1 else 0;
      && Queued(s'.queue, Send, u) == Queued(s.queue, Send, u) + added
      && Queued(s'.queue, Check, u) + failed == Queued(s.queue, Check, u) + added
  {
    var s' := Next(cfg, s, st);
    if st.AddRemote? {
      QueuedPair(s.queue, s'.queue[|s.queue|], s'.queue[|s.queue| + 1], Send, u);
      QueuedPair(s.queue, s'.queue[|s.queue|], s'.queue[|s.queue| + 1], Check, u);
    } else if st.HandleSend? || st.HandleCheck? {
      QueuedWithout(s.queue, st.i, Send, u);
      QueuedWithout(s.queue, st.i, Check, u);
      var w := Without(s.queue, st.i);
      QueuedConcat(w, s'.queue[|w|..], Send, u);
      QueuedConcat(w, s'.queue[|w|..], Check, u);
      if |s'.queue| == |w| { assert s'.queue == w; }
    }
  }

  lemma {:induction false} RunCounts(cfg: Config, s: State, steps: seq<Step>, u: Uri)
    requires Legal(cfg, s, steps)
    ensures var s' := After(cfg, s, steps);
      && Queued(s'.queue, Send, u) == Queued(s.queue, Send, u) + Adds(steps, u)
      && Queued(s'.queue, Check, u) + Failures(cfg, s, steps, u) == Queued(s.queue, Check, u) + Adds(steps, u)
      && Failures(cfg, s, steps, u) + (if u in s'.lastRx then 1 else 0)
         == Episodes(cfg, s, steps, u) + (if u in s.lastRx then 1 else 0)
      && Episodes(cfg, s, steps, u) <= Adds(steps, u)
    decreases |steps|
  {
    if steps != [] {
      StepCounts(cfg, s, steps[0], u);
      RunCounts(cfg, Next(cfg, s, steps[0]), steps[1..], u);
    }
  }

  /**
   Conservation over every run from creation: queued send events equal the adds, queued check events
   plus failure reports equal the adds, and reports plus the running episode equal the episodes.
   */
  lemma Conservation(cfg: Config, t: nat, steps: seq<Step>, u: Uri)
    requires Legal(cfg, Init(t), steps)
    ensures var s := After(cfg, Init(t), steps);
      && Queued(s.queue, Send, u) == Adds(steps, u)
      && Queued(s.queue, Check, u) + Failures(cfg, Init(t), steps, u) == Adds(steps, u)
      && Failures(cfg, Init(t), steps, u) + (if u in s.lastRx then 1 else 0) == Episodes(cfg, Init(t), steps, u)
  {
    RunCounts(cfg, Init(t), steps, u);
  }

  /** Every tracked URI has a send and a check event queued, in every reachable state. */
  lemma TrackedHasEvents(cfg: Config, t: nat, steps: seq<Step>, u: Uri)
    requires Legal(cfg, Init(t), steps) && u in After(cfg, Init(t), steps).lastRx
    ensures Queued(After(cfg, Init(t), steps).queue, Send, u) >= 1
    ensures Queued(After(cfg, Init(t), steps).queue, Check, u) >= 1
  {
    RunCounts(cfg, Init(t), steps, u);
  }

  // ---------------------------------------------------------------- when a failure is detected

  /**
   `do_one` returns at least every `p` cycles (`last` is its previous return), no call step takes
   longer than `d`, and no return is forced by an event of an untracked URI.
   */
  predicate Punctual(cfg: Config, s: State, steps: seq<Step>, last: nat, p: nat, d: nat)
    requires Legal(cfg, s, steps)
    decreases |steps|
  {
    steps == [] ||
    (var st := steps[0];
     && EndTime(st) <= last + p
     && EndTime(st) - StartTime(st) <= d
     && (st.Return? ==> !Blocked(s, st.t))
     && Punctual(cfg, Next(cfg, s, st), steps[1..], if st.Return? then st.t else last, p, d))
  }

  function Deadline(cfg: Config, t: nat, d: nat): nat { t + cfg.timeout + cfg.CheckDelta() + d }

  predicate HasCheckBy(q: seq<Event>, u: Uri, b: nat) {
    exists i :: 0 <= i < |q| && q[i].kind == Check && q[i].uri == u && q[i].tsc <= b
  }

  /** `u` is tracked since `t` and has a check queued no later than the deadline. */
  predicate Watched(cfg: Config, s: State, u: Uri, t: nat, d: nat) {
    u in s.lastRx && s.lastRx[u] == t && HasCheckBy(s.queue, u, Deadline(cfg, t, d))
  }

  lemma KeptWithout(q: seq<Event>, i: nat, j: nat)
    requires i < |q| && j < |q| && i != j
    ensures q[j] in Without(q, i)
  {
  }

  /** Tracking begins watched. */
  lemma AddWatches(cfg: Config, s: State, st: Step, d: nat)
    requires st.AddRemote? && Enabled(s, st) && st.uri !in s.lastRx && EndTime(st) - StartTime(st) <= d
    ensures Watched(cfg, Next(cfg, s, st), st.uri, st.t0, d)
  {
    var q := Next(cfg, s, st).queue;
    assert q[|q| - 1] == Event(Check, st.uri, st.t2 + cfg.CheckDelta());
  }

  /** Whatever happens, heartbeats received included, a watched URI stays watched or is reported. */
  lemma StaysWatched(cfg: Config, s: State, st: Step, u: Uri, t: nat, d: nat)
    requires Enabled(s, st) && EndTime(st) - StartTime(st) <= d
    requires Watched(cfg, s, u, t, d) && !Reports(cfg, s, st, u)
    ensures Watched(cfg, Next(cfg, s, st), u, t, d)
  {
    var s' := Next(cfg, s, st);
    var k :| 0 <= k < |s.queue| && s.queue[k].kind == Check && s.queue[k].uri == u
             && s.queue[k].tsc <= Deadline(cfg, t, d);
    if st.HandleCheck? && st.i == k {
      assert s'.queue[|s'.queue| - 1] == Event(Check, u, st.t2 + cfg.CheckDelta());
    } else if st.HandleSend? || st.HandleCheck? {
      KeptWithout(s.queue, st.i, k);
      assert s.queue[k] in s'.queue;
    } else {
      assert s'.queue[k] == s.queue[k];
    }
  }

  /** A return that nothing blocks leaves every watched URI's check in the future. */
  lemma ReturnBeforeDeadline(cfg: Config, s: State, st: Step, u: Uri, t: nat, d: nat)
    requires st.Return? && Enabled(s, st) && !Blocked(s, st.t) && Watched(cfg, s, u, t, d)
    ensures st.t < Deadline(cfg, t, d)
  {
  }

  /**
   While a URI recorded at `t` stays tracked, the time is at most `t` + one and a half failure timeouts
   + `p` (+ `d` for calls that take time), however many heartbeats it sends.
   */
  lemma {:induction false} TrackedUntilDeadline(cfg: Config, s: State, steps: seq<Step>, u: Uri, t: nat,
                                                last: nat, p: nat, d: nat)
    requires Legal(cfg, s, steps) && Punctual(cfg, s, steps, last, p, d)
    requires Watched(cfg, s, u, t, d) && last <= Deadline(cfg, t, d) && s.now <= Deadline(cfg, t, d) + p
    requires Failures(cfg, s, steps, u) == 0
    ensures After(cfg, s, steps).now <= Deadline(cfg, t, d) + p
    ensures 2 * After(cfg, s, steps).now <= 2 * (t + d + p) + 3 * cfg.timeout
    ensures Watched(cfg, After(cfg, s, steps), u, t, d)
    decreases |steps|
  {
    if steps != [] {
      var st := steps[0];
      StaysWatched(cfg, s, st, u, t, d);
      if st.Return? { ReturnBeforeDeadline(cfg, s, st, u, t, d); }
      TrackedUntilDeadline(cfg, Next(cfg, s, st), steps[1..], u, t, if st.Return? then st.t else last, p, d);
    }
  }

  /**
   From the step that begins to track `u`, the first report of `u` comes strictly after the recorded
   time plus the failure timeout, and no later than half a timeout and `p` (and `d`) beyond that.
   */
  lemma DetectionTime(cfg: Config, s: State, add: Step, steps: seq<Step>, report: Step, last: nat, p: nat, d: nat)
    requires add.AddRemote? && Legal(cfg, s, [add] + steps + [report])
    requires Punctual(cfg, s, [add] + steps + [report], last, p, d)
    requires add.uri !in s.lastRx && last <= s.now
    requires Legal(cfg, Next(cfg, s, add), steps)
    requires Failures(cfg, Next(cfg, s, add), steps, add.uri) == 0
    requires Enabled(After(cfg, Next(cfg, s, add), steps), report)
    requires Reports(cfg, After(cfg, Next(cfg, s, add), steps), report, add.uri)
    ensures add.t0 + cfg.timeout < report.t1
    ensures 2 * report.t1 <= 2 * (add.t0 + d + p) + 3 * cfg.timeout
  {
    var s1 := Next(cfg, s, add);
    assert [add] + steps + [report] == [add] + (steps + [report]);
    assert ([add] + (steps + [report]))[1..] == steps + [report];
    AddWatches(cfg, s, add, d);
    FirstReport(cfg, s1, steps, report, add.uri, add.t0, last, p, d);
  }

  lemma {:induction false} FirstReport(cfg: Config, s: State, steps: seq<Step>, report: Step, u: Uri, t: nat,
                                       last: nat, p: nat, d: nat)
    requires Legal(cfg, s, steps + [report]) && Punctual(cfg, s, steps + [report], last, p, d)
    requires Watched(cfg, s, u, t, d) && last <= Deadline(cfg, t, d)
    requires Legal(cfg, s, steps) && Failures(cfg, s, steps, u) == 0
    requires Enabled(After(cfg, s, steps), report) && Reports(cfg, After(cfg, s, steps), report, u)
    ensures t + cfg.timeout < report.t1 <= Deadline(cfg, t, d) + p
    decreases |steps|
  {
    if steps == [] {
      assert steps + [report] == [report];
    } else {
      var st, all := steps[0], steps + [report];
      assert all[0] == st && all[1..] == steps[1..] + [report];
      StaysWatched(cfg, s, st, u, t, d);
      if st.Return? { ReturnBeforeDeadline(cfg, s, st, u, t, d); }
      FirstReport(cfg, Next(cfg, s, st), steps[1..], report, u, t, if st.Return? then st.t else last, p, d);
    }
  }

  // ---------------------------------------------------------------- how often events are handled

  /** The step handles an event of this kind for `u`. */
  predicate HandlesFor(s: State, st: Step, kind: EventType, u: Uri) {
    && Enabled(s, st) && (if kind == Send then st.HandleSend? else st.HandleCheck?)
    && s.queue[st.i].uri == u
  }

  /** No step of the run does. */
  predicate NoneHandled(cfg: Config, s: State, steps: seq<Step>, kind: EventType, u: Uri)
    requires Legal(cfg, s, steps)
    decreases |steps|
  {
    steps == [] || (!HandlesFor(s, steps[0], kind, u) && NoneHandled(cfg, Next(cfg, s, steps[0]), steps[1..], kind, u))
  }

  predicate QueuedAt(q: seq<Event>, kind: EventType, u: Uri, t: nat) {
    exists i :: 0 <= i < |q| && q[i] == Event(kind, u, t)
  }

  lemma StaysQueued(cfg: Config, s: State, st: Step, kind: EventType, u: Uri, t: nat)
    requires Enabled(s, st) && QueuedAt(s.queue, kind, u, t) && !HandlesFor(s, st, kind, u)
    ensures QueuedAt(Next(cfg, s, st).queue, kind, u, t)
  {
    var s' := Next(cfg, s, st);
    var k :| 0 <= k < |s.queue| && s.queue[k] == Event(kind, u, t);
    if st.HandleSend? || st.HandleCheck? {
      KeptWithout(s.queue, st.i, k);
      assert s.queue[k] in s'.queue;
    } else {
      assert s'.queue[k] == s.queue[k];
    }
  }

  /** An event queued for `t` is followed by an event of its kind and URI no later than `p` beyond `t`. */
  lemma {:induction false} HandledSoon(cfg: Config, s: State, steps: seq<Step>, st: Step, kind: EventType, u: Uri,
                                       t: nat, last: nat, p: nat, d: nat)
    requires Legal(cfg, s, steps + [st]) && Punctual(cfg, s, steps + [st], last, p, d)
    requires Legal(cfg, s, steps) && NoneHandled(cfg, s, steps, kind, u)
    requires HandlesFor(After(cfg, s, steps), st, kind, u) && QueuedAt(s.queue, kind, u, t) && last <= t
    ensures EndTime(st) <= t + p
    decreases |steps|
  {
    if steps == [] {
      assert steps + [st] == [st];
    } else {
      var first, all := steps[0], steps + [st];
      assert all[0] == first && all[1..] == steps[1..] + [st];
      StaysQueued(cfg, s, first, kind, u, t);
      HandledSoon(cfg, Next(cfg, s, first), steps[1..], st, kind, u, t, if first.Return? then first.t else last, p, d);
    }
  }

  /** With a single event of the kind queued for `u`, and `u` not added again, the next one is that event. */
  lemma {:induction false} HandledNotBefore(cfg: Config, s: State, steps: seq<Step>, st: Step, kind: EventType, u: Uri,
                                            t: nat)
    requires Legal(cfg, s, steps) && NoneHandled(cfg, s, steps, kind, u) && Adds(steps, u) == 0
    requires HandlesFor(After(cfg, s, steps), st, kind, u)
    requires QueuedAt(s.queue, kind, u, t) && Queued(s.queue, kind, u) == 1
    ensures StartTime(st) >= t
    decreases |steps|
  {
    if steps == [] {
      var k :| 0 <= k < |s.queue| && s.queue[k] == Event(kind, u, t);
      if k != st.i { TwoQueued(s.queue, k, st.i); }
    } else {
      StaysQueued(cfg, s, steps[0], kind, u, t);
      StepCounts(cfg, s, steps[0], u);
      HandledNotBefore(cfg, Next(cfg, s, steps[0]), steps[1..], st, kind, u, t);
    }
  }

  lemma TwoQueued(q: seq<Event>, i: nat, j: nat)
    requires i < |q| && j < |q| && i != j && q[i].kind == q[j].kind && q[i].uri == q[j].uri
    ensures Queued(q, q[i].kind, q[i].uri) >= 2
  {
    var e := q[i];
    QueuedWithout(q, i, e.kind, e.uri);
    KeptWithout(q, i, j);
    var k :| 0 <= k < |Without(q, i)| && Without(q, i)[k] == q[j];
    QueuedWithout(Without(q, i), k, e.kind, e.uri);
  }

  /** A tenth of the failure timeout between sends, half of it between checks. */
  function Interval(cfg: Config, kind: EventType): nat { if kind == Send then cfg.timeout / 10 else cfg.timeout / 2 }

  /**
   Two consecutive sends, or two consecutive checks, of a tracked URI: the second ends no later than the
   interval and `p` after the first; and if the URI was added once, so that one event of each kind is
   queued for it, it does not begin before the interval has passed.
   */
  lemma EventSpacing(cfg: Config, s: State, first: Step, steps: seq<Step>, second: Step, kind: EventType, u: Uri,
                     last: nat, p: nat, d: nat)
    requires HandlesFor(s, first, kind, u) && !Reports(cfg, s, first, u) && last <= EndTime(first)
    requires var s1 := Next(cfg, s, first);
      && Legal(cfg, s1, steps) && NoneHandled(cfg, s1, steps, kind, u)
      && HandlesFor(After(cfg, s1, steps), second, kind, u)
      && Legal(cfg, s1, steps + [second]) && Punctual(cfg, s1, steps + [second], last, p, d)
    ensures EndTime(second) <= EndTime(first) + Interval(cfg, kind) + p
    ensures Queued(s.queue, kind, u) == 1 && Adds(steps, u) == 0 ==>
      StartTime(second) >= EndTime(first) + Interval(cfg, kind)
  {
    var s1, t := Next(cfg, s, first), EndTime(first) + Interval(cfg, kind);
    assert s1.queue[|s1.queue| - 1] == Event(kind, u, t);
    HandledSoon(cfg, s1, steps, second, kind, u, t, last, p, d);
    StepCounts(cfg, s, first, u);
    if Queued(s.queue, kind, u) == 1 && Adds(steps, u) == 0 { HandledNotBefore(cfg, s1, steps, second, kind, u, t); }
  }

  /** The first send and the first check come an interval after the URI is added. */
  lemma FirstSpacing(cfg: Config, s: State, add: Step, steps: seq<Step>, first: Step, kind: EventType,
                     last: nat, p: nat, d: nat)
    requires add.AddRemote? && Enabled(s, add) && Queued(s.queue, kind, add.uri) == 0 && last <= add.t1
    requires var s1 := Next(cfg, s, add);
      && Legal(cfg, s1, steps) && NoneHandled(cfg, s1, steps, kind, add.uri) && Adds(steps, add.uri) == 0
      && HandlesFor(After(cfg, s1, steps), first, kind, add.uri)
      && Legal(cfg, s1, steps + [first]) && Punctual(cfg, s1, steps + [first], last, p, d)
    ensures EndTime(first) <= add.t2 + Interval(cfg, kind) + p
    ensures StartTime(first) >= add.t1 + Interval(cfg, kind)
  {
    var s1, t := Next(cfg, s, add), (if kind == Send then add.t1 else add.t2) + Interval(cfg, kind);
    assert s1.queue[|s.queue| + if kind == Send then 0 else 1] == Event(kind, add.uri, t);
    StepCounts(cfg, s, add, add.uri);
    HandledSoon(cfg, s1, steps, first, kind, add.uri, t, last, p, d);
    HandledNotBefore(cfg, s1, steps, first, kind, add.uri, t);
  }

  lemma AddedTwice(cfg: Config, t: nat, u: Uri)
    ensures var add := AddRemote(u, t, t, t);
      && Legal(cfg, Init(t), [add, add])
      && After(cfg, Init(t), [add, add]) == Next(cfg, Next(cfg, Init(t), add), add)
  {
    var add := AddRemote(u, t, t, t);
    var s1 := Next(cfg, Init(t), add);
    assert [add, add][1..] == [add] && [add][1..] == [];
    assert Legal(cfg, s1, [add]) && After(cfg, s1, [add]) == After(cfg, Next(cfg, s1, add), []);
  }

  /** A URI added twice has two send events, and both can be handled at one clock reading. */
  lemma AddedTwiceSendsTwice(cfg: Config, t: nat, u: Uri) returns (s: State, first: Step, second: Step)
    ensures var adds := [AddRemote(u, t, t, t), AddRemote(u, t, t, t)];
      Legal(cfg, Init(t), adds) && s == After(cfg, Init(t), adds)
    ensures HandlesFor(s, first, Send, u) && HandlesFor(Next(cfg, s, first), second, Send, u)
    ensures EndTime(first) == StartTime(second)
  {
    AddedTwice(cfg, t, u);
    var now, later := t + cfg.SendDelta(), t + cfg.CheckDelta();
    s := Next(cfg, Next(cfg, Init(t), AddRemote(u, t, t, t)), AddRemote(u, t, t, t));
    assert s.queue == [Event(Send, u, now), Event(Check, u, later), Event(Send, u, now), Event(Check, u, later)];
    first := HandleSend(0, now, now);
    assert IsTop(s.queue, 0);
    var q := Next(cfg, s, first).queue;
    assert q[0] == Event(Check, u, later) && q[1] == Event(Send, u, now) && q[2] == Event(Check, u, later)
        && q[3] == Event(Send, u, now + cfg.SendDelta()) && |q| == 4;
    assert IsTop(q, 1);
    second := HandleSend(1, now, now);
  }

  // ---------------------------------------------------------------- after a failure

  /** The events handled in a run, with the steps that do not handle any left out. */
  function Handled(cfg: Config, s: State, steps: seq<Step>): (es: seq<Event>)
    requires Legal(cfg, s, steps)
    decreases |steps|
  {
    if steps == [] then []
    else (if steps[0].HandleSend? || steps[0].HandleCheck? then [s.queue[steps[0].i]] else [])
         + Handled(cfg, Next(cfg, s, steps[0]), steps[1..])
  }

  /** A report leaves at least one event of the URI, now untracked, in the queue. */
  lemma ReportLeavesEvent(cfg: Config, t: nat, steps: seq<Step>, report: Step, u: Uri)
    requires Legal(cfg, Init(t), steps) && Enabled(After(cfg, Init(t), steps), report)
    requires Reports(cfg, After(cfg, Init(t), steps), report, u)
    ensures var s' := Next(cfg, After(cfg, Init(t), steps), report);
      u !in s'.lastRx && exists i :: 0 <= i < |s'.queue| && s'.queue[i].kind == Send && s'.queue[i].uri == u
  {
    var s := After(cfg, Init(t), steps);
    TrackedHasEvents(cfg, t, steps, u);
    StepCounts(cfg, s, report, u);
    var i := QueuedWitness(Next(cfg, s, report).queue, Send, u);
  }

  /**
   Head-of-line blocking: while an event `e` of an untracked URI is queued and the URI is not added
   again, nothing later than `e` is ever handled, however long the manager runs.
   */
  lemma {:induction false} UntrackedEventBlocks(cfg: Config, s: State, steps: seq<Step>, e: Event)
    requires Legal(cfg, s, steps) && e in s.queue && e.uri !in s.lastRx && Adds(steps, e.uri) == 0
    ensures forall h :: h in Handled(cfg, s, steps) ==> h.tsc <= e.tsc
    ensures e in After(cfg, s, steps).queue && e.uri !in After(cfg, s, steps).lastRx
    decreases |steps|
  {
    if steps != [] {
      var st := steps[0];
      var k :| 0 <= k < |s.queue| && s.queue[k] == e;
      if st.HandleSend? || st.HandleCheck? {
        KeptWithout(s.queue, st.i, k);
      } else {
        assert Next(cfg, s, st).queue[k] == e;
      }
      UntrackedEventBlocks(cfg, Next(cfg, s, st), steps[1..], e);
    }
  }

  // ---------------------------------------------------------------- received heartbeats

  function WithoutReceives(steps: seq<Step>): (r: seq<Step>)
  {
    if steps == [] then []
    else (if steps[0].ReceiveHb? then [] else [steps[0]]) + WithoutReceives(steps[1..])
  }

  predicate SameEvents(a: State, b: State) { a.queue == b.queue && a.lastRx == b.lastRx }

  lemma SameEventsStep(cfg: Config, a: State, b: State, st: Step)
    requires SameEvents(a, b) && b.now <= a.now && Enabled(a, st)
    ensures Enabled(b, st) && Next(cfg, a, st) == Next(cfg, b, st)
  {
  }

  /**
   Receiving heartbeats changes nothing: since `emplace` keeps the recorded time, every run stays a
   run with all `ReceiveHb` steps removed, and ends with the same queue, the same recorded times and
   the same failure reports.
   */
  lemma {:induction false} HeartbeatsIgnored(cfg: Config, a: State, b: State, steps: seq<Step>, u: Uri)
    requires SameEvents(a, b) && b.now <= a.now && Legal(cfg, a, steps)
    ensures Legal(cfg, b, WithoutReceives(steps))
    ensures SameEvents(After(cfg, a, steps), After(cfg, b, WithoutReceives(steps)))
    ensures Failures(cfg, a, steps, u) == Failures(cfg, b, WithoutReceives(steps), u)
    decreases |steps|
  {
    if steps != [] {
      var st, rest := steps[0], WithoutReceives(steps[1..]);
      if st.ReceiveHb? {
        HeartbeatsIgnored(cfg, Next(cfg, a, st), b, steps[1..], u);
        assert WithoutReceives(steps) == rest;
      } else {
        SameEventsStep(cfg, a, b, st);
        HeartbeatsIgnored(cfg, Next(cfg, a, st), Next(cfg, b, st), steps[1..], u);
        assert WithoutReceives(steps) == [st] + rest;
        assert ([st] + rest)[1..] == rest;
      }
    }
  }

  // ---------------------------------------------------------------- a timeout too small to wait

  /**
   With a timeout below ten cycles the send delta is zero, and one `do_one` call can handle send
   events for ever while the clock stands still.
   */
  lemma {:induction false} ZeroSendDeltaLoops(cfg: Config, s: State, u: Uri, n: nat) returns (steps: seq<Step>)
    requires cfg.timeout < 10 && u in s.lastRx && |s.queue| >= 1
    requires exists i :: 0 <= i < |s.queue| && s.queue[i] == Event(Send, u, s.now)
    requires forall i :: 0 <= i < |s.queue| ==> s.queue[i].tsc >= s.now
    ensures |steps| == n && Legal(cfg, s, steps)
    ensures forall k :: 0 <= k < n ==> steps[k].HandleSend?
    decreases n
  {
    steps := [];
    if n > 0 {
      var i :| 0 <= i < |s.queue| && s.queue[i] == Event(Send, u, s.now);
      var st := HandleSend(i, s.now, s.now);
      var s' := Next(cfg, s, st);
      assert s'.queue[|s'.queue| - 1] == Event(Send, u, s'.now);
      var rest := ZeroSendDeltaLoops(cfg, s', u, n - 1);
      steps := [st] + rest;
    }
  }

  /** One `unlocked_add_remote` at a single clock reading leads there from a new manager. */
  lemma ZeroSendDeltaReached(cfg: Config, t: nat, u: Uri, n: nat) returns (steps: seq<Step>)
    requires cfg.timeout < 10
    ensures |steps| == n + 1 && Legal(cfg, Init(t), steps) && steps[0] == AddRemote(u, t, t, t)
    ensures forall k :: 1 <= k <= n ==> steps[k].HandleSend?
  {
    var s := Next(cfg, Init(t), AddRemote(u, t, t, t));
    assert s.queue[0] == Event(Send, u, s.now);
    var rest := ZeroSendDeltaLoops(cfg, s, u, n);
    steps := [AddRemote(u, t, t, t)] + rest;
    assert steps[1..] == rest;
  }

  // ---------------------------------------------------------------- one `do_one` call

  /** The steps one call of `do_one` takes: events handled, then the return. */
  predicate OneCall(steps: seq<Step>) {
    && steps != [] && steps[|steps| - 1].Return?
    && forall k :: 0 <= k < |steps| - 1 ==> steps[k].HandleSend? || steps[k].HandleCheck?
  }

  predicate NoneAdded(steps: seq<Step>) { forall k :: 0 <= k < |steps| ==> !steps[k].AddRemote? }

  predicate Sorted(es: seq<Event>) { forall i, j :: 0 <= i < j < |es| ==> es[i].tsc <= es[j].tsc }

  lemma {:induction false} LegalAppend(cfg: Config, s: State, steps: seq<Step>, st: Step)
    requires Legal(cfg, s, steps) && Enabled(After(cfg, s, steps), st)
    ensures Legal(cfg, s, steps + [st])
    ensures After(cfg, s, steps + [st]) == Next(cfg, After(cfg, s, steps), st)
    decreases |steps|
  {
    if steps == [] {
      assert steps + [st] == [st];
    } else {
      assert (steps + [st])[0] == steps[0] && (steps + [st])[1..] == steps[1..] + [st];
      LegalAppend(cfg, Next(cfg, s, steps[0]), steps[1..], st);
    }
  }

  /** Events are handled in timestamp order, those scheduled during the call included. */
  lemma {:induction false} HandledInOrder(cfg: Config, s: State, steps: seq<Step>, b: nat)
    requires Legal(cfg, s, steps) && NoneAdded(steps)
    requires forall j :: 0 <= j < |s.queue| ==> b <= s.queue[j].tsc
    ensures Sorted(Handled(cfg, s, steps))
    ensures forall h :: h in Handled(cfg, s, steps) ==> b <= h.tsc
    decreases |steps|
  {
    if steps != [] {
      var st := steps[0];
      var s' := Next(cfg, s, st);
      var b' := if st.HandleSend? || st.HandleCheck? then s.queue[st.i].tsc else b;
      HandledInOrder(cfg, s', steps[1..], b');
    }
  }

  /**
   If less than the send delta passes during a call, it handles only events present at entry, each
   at most once. `bound` caps the clock and everything scheduled lies beyond it.
   */
  lemma {:induction false} HandledOnce(cfg: Config, s: State, steps: seq<Step>, old': seq<Event>, bound: nat)
    requires Legal(cfg, s, steps) && NoneAdded(steps) && After(cfg, s, steps).now <= bound
    requires cfg.timeout >= 10 && bound < s.now + cfg.SendDelta()
    requires forall e :: e in s.queue && e.tsc <= bound ==> multiset(s.queue)[e] <= multiset(old')[e]
    ensures multiset(Handled(cfg, s, steps)) <= multiset(old')
    decreases |steps|
  {
    if steps != [] {
      var st := steps[0];
      var s' := Next(cfg, s, st);
      NowGrows(cfg, s', steps[1..]);
      if st.HandleSend? || st.HandleCheck? {
        var e := s.queue[st.i];
        assert multiset(s.queue)[e] >= 1;
        HandledOnceStep(cfg, s, st, old', bound);
        var k :| 0 <= k < |old'| && old'[k] == e;
        HandledOnce(cfg, s', steps[1..], Without(old', k), bound);
        MultisetWithout(old', k);
        assert Handled(cfg, s, steps) == [e] + Handled(cfg, s', steps[1..]);
      } else {
        HandledOnce(cfg, s', steps[1..], old', bound);
      }
    }
  }

  lemma {:induction false} NowGrows(cfg: Config, s: State, steps: seq<Step>)
    requires Legal(cfg, s, steps)
    ensures s.now <= After(cfg, s, steps).now
    decreases |steps|
  {
    if steps != [] { NowGrows(cfg, Next(cfg, s, steps[0]), steps[1..]); }
  }

  lemma MultisetWithout(q: seq<Event>, k: nat)
    requires k < |q|
    ensures multiset(q) == multiset(Without(q, k)) + multiset{q[k]}
  {
    assert q == q[..k] + [q[k]] + q[k + 1..];
  }

  lemma HandledOnceStep(cfg: Config, s: State, st: Step, old': seq<Event>, bound: nat)
    requires (st.HandleSend? || st.HandleCheck?) && Enabled(s, st) && EndTime(st) <= bound
    requires cfg.timeout >= 10 && bound < s.now + cfg.SendDelta()
    requires forall e :: e in s.queue && e.tsc <= bound ==> multiset(s.queue)[e] <= multiset(old')[e]
    ensures s.queue[st.i] in old'
    ensures forall k :: 0 <= k < |old'| && old'[k] == s.queue[st.i] ==>
      forall e :: e in Next(cfg, s, st).queue && e.tsc <= bound ==>
        multiset(Next(cfg, s, st).queue)[e] <= multiset(Without(old', k))[e]
  {
    var h, s' := s.queue[st.i], Next(cfg, s, st);
    assert multiset(s.queue)[h] >= 1;
    assert multiset(old')[h] >= 1;
    MultisetWithout(s.queue, st.i);
    forall k, e | 0 <= k < |old'| && old'[k] == h && e in s'.queue && e.tsc <= bound
      ensures multiset(s'.queue)[e] <= multiset(Without(old', k))[e]
    {
      MultisetWithout(old', k);
      NewEventLate(cfg, s, st, e, bound);
      if e in s.queue {
      } else {
        assert multiset(s.queue)[e] == 0;
      }
    }
  }

  /** What a step schedules is later than the bound, so the due part of the queue only shrinks. */
  lemma NewEventLate(cfg: Config, s: State, st: Step, e: Event, bound: nat)
    requires (st.HandleSend? || st.HandleCheck?) && Enabled(s, st)
    requires cfg.timeout >= 10 && bound < s.now + cfg.SendDelta() && e.tsc <= bound
    ensures multiset(Next(cfg, s, st).queue)[e] == multiset(Without(s.queue, st.i))[e]
  {
  }
}
