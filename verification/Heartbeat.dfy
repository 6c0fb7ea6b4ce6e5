/**
 The heartbeat manager as a machine: a priority queue of timed events, the map of tracked URIs, and
 the steps its calls take. Every `rdtsc()` reading is part of the step that makes it, so a run is a
 sequence of steps with nondecreasing readings.
 */
module Heartbeat {
  type Uri = string

  datatype EventType = Send | Check

  datatype Event = Event(kind: EventType, uri: Uri, tsc: nat)

  /** Heartbeats are sent every tenth, and checked every half, of the failure timeout. */
  datatype Config = Config(timeout: nat) {
    function SendDelta(): nat { timeout / 10 }
    function CheckDelta(): nat { timeout / 2 }
  }

  /** `queue` lists the events of the priority queue in no particular order. */
  datatype State = State(queue: seq<Event>, lastRx: map<Uri, nat>, now: nat)

  function Init(now: nat): State { State([], map[], now) }

  /**
   `HandleSend` and `HandleCheck` are one iteration of the `do_one` loop on the event at index `i`;
   `t0` is the reading of the `in_future` test, the last reading is the one that schedules the next
   event, and `t1` of a check is compared with the recorded time. `Return` is `do_one` leaving the
   loop at reading `t`.
   */
  datatype Step =
    | AddRemote(uri: Uri, t0: nat, t1: nat, t2: nat)
    | ReceiveHb(uri: Uri, t: nat)
    | HandleSend(i: nat, t0: nat, t1: nat)
    | HandleCheck(i: nat, t0: nat, t1: nat, t2: nat)
    | Return(t: nat)

  function StartTime(st: Step): nat { if st.ReceiveHb? || st.Return? then st.t else st.t0 }

  function EndTime(st: Step): nat {
    match st
    case AddRemote(_, _, _, t2) => t2
    case ReceiveHb(_, t) => t
    case HandleSend(_, _, t1) => t1
    case HandleCheck(_, _, _, t2) => t2
    case Return(t) => t
  }

  /** The event at `i` is one the priority queue may present as its top. */
  predicate IsTop(q: seq<Event>, i: nat) {
    i < |q| && forall j :: 0 <= j < |q| ==> q[i].tsc <= q[j].tsc
  }

  function Without(q: seq<Event>, i: nat): seq<Event>
    requires i < |q|
  {
    q[..i] + q[i + 1..]
  }

  predicate AllFuture(q: seq<Event>, t: nat) { forall j :: 0 <= j < |q| ==> q[j].tsc > t }

  /** A due event of an untracked URI is on top, so the loop breaks without popping it. */
  predicate Blocked(s: State, t: nat) {
    exists i :: 0 <= i < |s.queue| && IsTop(s.queue, i) && s.queue[i].tsc <= t && s.queue[i].uri !in s.lastRx
  }

  predicate Handles(s: State, i: nat, kind: EventType, t: nat) {
    IsTop(s.queue, i) && s.queue[i].kind == kind && s.queue[i].tsc <= t && s.queue[i].uri in s.lastRx
  }

  predicate Enabled(s: State, st: Step) {
    s.now <= StartTime(st) &&
    match st
    case AddRemote(_, t0, t1, t2) => t0 <= t1 <= t2
    case ReceiveHb(_, _) => true
    case HandleSend(i, t0, t1) => Handles(s, i, Send, t0) && t0 <= t1
    case HandleCheck(i, t0, t1, t2) => Handles(s, i, Check, t0) && t0 <= t1 <= t2
    case Return(t) => AllFuture(s.queue, t) || Blocked(s, t)
  }

  /** The check finds the URI silent for longer than the failure timeout. */
  predicate Reports(cfg: Config, s: State, st: Step, u: Uri)
    requires Enabled(s, st)
  {
    st.HandleCheck? && s.queue[st.i].uri == u && st.t1 - s.lastRx[u] > cfg.timeout
  }

  /** `unordered_map::emplace` leaves an existing entry as it is. */
  function Emplace(m: map<Uri, nat>, u: Uri, t: nat): map<Uri, nat> { if u in m then m else m[u := t] }

  function Next(cfg: Config, s: State, st: Step): (s': State)
    requires Enabled(s, st)
    ensures s'.now == EndTime(st) >= s.now
  {
    match st
    case AddRemote(u, t0, t1, t2) =>
      State(s.queue + [Event(Send, u, t1 + cfg.SendDelta()), Event(Check, u, t2 + cfg.CheckDelta())],
            Emplace(s.lastRx, u, t0), t2)
    case ReceiveHb(u, t) =>
      State(s.queue, if u in s.lastRx then Emplace(s.lastRx, u, t) else s.lastRx, t)
    case HandleSend(i, t0, t1) =>
      var e := s.queue[i];
      State(Without(s.queue, i) + [Event(Send, e.uri, t1 + cfg.SendDelta())], s.lastRx, t1)
    case HandleCheck(i, t0, t1, t2) =>
      var e := s.queue[i];
      if t1 - s.lastRx[e.uri] > cfg.timeout then
        State(Without(s.queue, i), s.lastRx - {e.uri}, t2)
      else
        State(Without(s.queue, i) + [Event(Check, e.uri, t2 + cfg.CheckDelta())], s.lastRx, t2)
    case Return(t) => State(s.queue, s.lastRx, t)
  }

  // ---------------------------------------------------------------- runs

  predicate Legal(cfg: Config, s: State, steps: seq<Step>)
    decreases |steps|
  {
    steps == [] || (Enabled(s, steps[0]) && Legal(cfg, Next(cfg, s, steps[0]), steps[1..]))
  }

  function After(cfg: Config, s: State, steps: seq<Step>): State
    requires Legal(cfg, s, steps)
    decreases |steps|
  {
    if steps == [] then s else After(cfg, Next(cfg, s, steps[0]), steps[1..])
  }

  /** How often `u` was added, how often that began to track it, and how often it was reported. */
  function Adds(steps: seq<Step>, u: Uri): nat {
    if steps == [] then 0
    else (if steps[0].AddRemote? && steps[0].uri == u then 1 else 0) + Adds(steps[1..], u)
  }

  function Episodes(cfg: Config, s: State, steps: seq<Step>, u: Uri): nat
    requires Legal(cfg, s, steps)
    decreases |steps|
  {
    if steps == [] then 0
    else (if steps[0].AddRemote? && steps[0].uri == u && u !in s.lastRx then 1 else 0)
         + Episodes(cfg, Next(cfg, s, steps[0]), steps[1..], u)
  }

  function Failures(cfg: Config, s: State, steps: seq<Step>, u: Uri): nat
    requires Legal(cfg, s, steps)
    decreases |steps|
  {
    if steps == [] then 0
    else (if Reports(cfg, s, steps[0], u) then 1 else 0)
         + Failures(cfg, Next(cfg, s, steps[0]), steps[1..], u)
  }

  /** The number of queued events of one kind for one URI. */
  function Queued(q: seq<Event>, kind: EventType, u: Uri): nat {
    if q == [] then 0
    else (if q[0].kind == kind && q[0].uri == u then 1 else 0) + Queued(q[1..], kind, u)
  }
}
