/** Pacing of a congested session: the desired transmit time of each packet. */
module Pacer {
  /** One call: a recent time stamp and the cycles the packet takes at the current rate. */
  datatype Call = Call(refTsc: nat, cycles: real)

  /** The double sum is truncated to a time stamp and may not lag behind the reference. */
  function Desired(prev: nat, c: Call): (t: nat)
    requires c.cycles >= 0.0
    ensures t >= prev && t >= c.refTsc
    ensures t == c.refTsc || t as real <= prev as real + c.cycles
  {
    var t := (prev as real + c.cycles).Floor;
    if t < c.refTsc then c.refTsc else t
  }

  predicate CallsOk(calls: seq<Call>) { forall k :: 0 <= k < |calls| ==> calls[k].cycles >= 0.0 }

  /** Desired times of a sequence of calls. */
  function Times(prev: nat, calls: seq<Call>): (ts: seq<nat>)
    requires CallsOk(calls)
    ensures |ts| == |calls|
    decreases |calls|
  {
    if calls == [] then []
    else var t := Desired(prev, calls[0]); [t] + Times(t, calls[1..])
  }

  /** Cycles of the calls after `i`, up to and with `j`. */
  function Cycles(calls: seq<Call>, i: nat, j: nat): real
    requires i <= j < |calls|
    decreases j - i
  {
    if i == j then 0.0 else Cycles(calls, i, j - 1) + calls[j].cycles
  }

  lemma {:induction false} Consecutive(prev: nat, calls: seq<Call>, k: nat)
    requires CallsOk(calls) && k < |calls|
    ensures Times(prev, calls)[k] == Desired(if k == 0 then prev else Times(prev, calls)[k - 1], calls[k])
    decreases |calls|
  {
    if k > 0 { Consecutive(Desired(prev, calls[0]), calls[1..], k - 1); }
  }

  lemma FloorLoses(prev: nat, c: Call)
    requires c.cycles >= 0.0
    ensures Desired(prev, c) as real > prev as real + c.cycles - 1.0
  {
  }

  /**
   Between two packets the desired times advance by the cycles of the packets in between, less a
   cycle of truncation each: a bound on the paced throughput over every interval.
   */
  lemma {:induction false} PacedInterval(prev: nat, calls: seq<Call>, i: nat, j: nat)
    requires CallsOk(calls) && i <= j < |calls|
    ensures var ts := Times(prev, calls);
      && ts[i] <= ts[j] && ts[j] >= calls[j].refTsc
      && ts[j] as real >= ts[i] as real + Cycles(calls, i, j) - (j - i) as real
    decreases j - i
  {
    var ts := Times(prev, calls);
    Consecutive(prev, calls, j);
    if i < j {
      PacedInterval(prev, calls, i, j - 1);
      FloorLoses(ts[j - 1], calls[j]);
    }
  }

  /**
   As long as no packet falls behind its reference, the desired times advance by no more than the
   cycles in between: pacing delays no packet beyond the rate.
   */
  lemma {:induction false} PacedAtRate(prev: nat, calls: seq<Call>, i: nat, j: nat)
    requires CallsOk(calls) && i <= j < |calls|
    requires forall k :: i < k <= j ==> calls[k].refTsc <= Times(prev, calls)[k - 1]
    ensures var ts := Times(prev, calls); ts[j] as real <= ts[i] as real + Cycles(calls, i, j)
    decreases j - i
  {
    Consecutive(prev, calls, j);
    if i < j { PacedAtRate(prev, calls, i, j - 1); }
  }

  class CongestionControl {
    var prevDesiredTxTsc: nat

    /** `cc_getupdate_tx_tsc`. */
    method GetUpdateTxTsc(refTsc: nat, cycleDelta: real) returns (t: nat)
      requires cycleDelta >= 0.0
      modifies this
      ensures t == prevDesiredTxTsc == Desired(old(prevDesiredTxTsc), Call(refTsc, cycleDelta))
    {
      t := (prevDesiredTxTsc as real + cycleDelta).Floor;
      if t < refTsc { t := refTsc; }
      prevDesiredTxTsc := t;
    }
  }
}
