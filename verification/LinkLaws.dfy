/** What one slot, its channels and its server end keep, step by step. */
module LinkLaws {
  import opened SessionState
  import opened SessionLaws
  import opened Protocol

  // ---------------------------------------------------------------- packet runs

  lemma RequestsTail(reqNum: nat, total: nat, from: nat, n: nat, rest: seq<ToServer>)
    requires n > 0
    ensures var q := Requests(reqNum, total, from, n) + rest;
      q[0] == Req(reqNum, from, total) && q[1..] == Requests(reqNum, total, from + 1, n - 1) + rest
  {
    var q := Requests(reqNum, total, from, n);
    assert q[1..] == Requests(reqNum, total, from + 1, n - 1);
    assert (q + rest)[1..] == q[1..] + rest;
  }

  lemma RfrsTail(reqNum: nat, from: nat, n: nat)
    requires n > 0 && from < PKT_NUMS
    ensures var q := Rfrs(reqNum, from, n);
      q[0] == Rfr(reqNum, from) && q[1..] == Rfrs(reqNum, from + 1, n - 1)
  {
    assert Num16(from + 0) == from;
  }

  lemma CrsTail(reqNum: nat, from: nat, n: nat, rest: seq<ToClient>)
    requires n > 0
    ensures var q := Crs(reqNum, from, n) + rest;
      q[0] == Cr(reqNum, from) && q[1..] == Crs(reqNum, from + 1, n - 1) + rest
  {
    var q := Crs(reqNum, from, n);
    assert q[1..] == Crs(reqNum, from + 1, n - 1);
    assert (q + rest)[1..] == q[1..] + rest;
  }

  lemma RespsTail(reqNum: nat, total: nat, from: nat, n: nat)
    requires n > 0
    ensures var q := Resps(reqNum, total, from, n);
      q[0] == RespPkt(reqNum, from, total) && q[1..] == Resps(reqNum, total, from + 1, n - 1)
  {
  }

  lemma RequestsAppend(reqNum: nat, total: nat, from: nat, n: nat, m: nat)
    ensures Requests(reqNum, total, from, n) + Requests(reqNum, total, from + n, m)
         == Requests(reqNum, total, from, n + m)
  {
  }

  lemma RfrsAppend(reqNum: nat, from: nat, n: nat, m: nat)
    ensures Rfrs(reqNum, from, n) + Rfrs(reqNum, from + n, m) == Rfrs(reqNum, from, n + m)
  {
  }

  lemma CrsAppend(reqNum: nat, from: nat, n: nat, m: nat)
    ensures Crs(reqNum, from, n) + Crs(reqNum, from + n, m) == Crs(reqNum, from, n + m)
  {
  }

  lemma RespsAppend(reqNum: nat, total: nat, from: nat, n: nat, m: nat)
    ensures Resps(reqNum, total, from, n) + Resps(reqNum, total, from + n, m) == Resps(reqNum, total, from, n + m)
  {
  }

  // ---------------------------------------------------------------- what a busy link says

  /** Outstanding packets of a slot are exactly those in flight. */
  lemma InFlightIsOutstanding(l: Link)
    requires LinkOk(l)
    ensures InFlight(l) == Outstanding(l.slot)
    ensures l.slot.active && l.slot.numTx > 0 ==> InFlight(l) > 0
  {
  }

  // ---------------------------------------------------------------- the client sends

  /** The first packets of a request leave an idle link. */
  lemma FirstKick(l: Link, credits: nat)
    requires Idle(l) && l.slot.active && l.slot.numTx == 0 && credits > 0
    ensures var k := KickReq(Lane(l.slot, l.up, credits));
      Busy(l.(slot := k.slot, up := k.up))
  {
    var k := KickReq(Lane(l.slot, l.up, credits));
    var l' := l.(slot := k.slot, up := k.up);
    assert Arrived(l') == 0 && Served(l') == 0 && ReqsSent(l'.slot) == k.slot.numTx;
    assert l.up + Requests(l.slot.hdr, l.slot.request.pkts, 0, k.slot.numTx)
        == Requests(l.slot.hdr, l.slot.request.pkts, 0, k.slot.numTx) + Rfrs(l.slot.hdr, 1, 0);
    assert l.down == Crs(l.slot.hdr, 0, 0) + Resps(l.slot.hdr, l.slot.request.answer, 0, 0);
  }

  // ---------------------------------------------------------------- the server takes a packet

  lemma ReqHead(l: Link)
    requires Busy(l) && Arrived(l) < ReqsSent(l.slot)
    ensures l.up[0] == Req(l.slot.hdr, Arrived(l), l.slot.request.pkts)
    ensures l.up[1..] == Requests(l.slot.hdr, l.slot.request.pkts, Arrived(l) + 1, ReqsSent(l.slot) - Arrived(l) - 1)
                       + Rfrs(l.slot.hdr, 1, 0)
    ensures Served(l) == 0 && RfrsSent(l.slot) == 0 && l.slot.numRx == 0
    ensures l.down == Crs(l.slot.hdr, l.slot.crs, Min(Arrived(l), l.slot.request.pkts - 1) - l.slot.crs)
  {
    var s := l.slot;
    RequestsTail(s.hdr, s.request.pkts, Arrived(l), ReqsSent(s) - Arrived(l), Rfrs(s.hdr, 1, 0));
    assert Resps(s.hdr, s.request.answer, 0, 0) == [];
  }

  /** What the server makes of the next request packet. */
  lemma ReqTaken(l: Link)
    requires Busy(l) && Arrived(l) < ReqsSent(l.slot)
    ensures var r := OnReq(l.srv, Req(l.slot.hdr, Arrived(l), l.slot.request.pkts));
      var l' := l.(srv := r.srv);
      && ServerOk(l') && Arrived(l') == Arrived(l) + 1 && Served(l') == 0
      && r.out == if Arrived(l) + 1 < l.slot.request.pkts then Crs(l.slot.hdr, Arrived(l), 1) else []
  {
  }

  lemma ReqArrives(l: Link)
    requires Busy(l) && Arrived(l) < ReqsSent(l.slot)
    ensures l.up[0].Req? && !l.srv.pending
    ensures l.up[0].num == 0 ==> (NextRequest(l.srv, l.up[0]) <==> l.slot.hdr >= WINDOW)
    ensures l.up[0].num > 0 ==> l.up[0].reqNum == l.srv.reqNum && l.up[0].num == l.srv.numRx
    ensures var r := OnPacket(l.srv, l.up[0]);
      Busy(l.(up := l.up[1..], srv := r.srv, down := l.down + r.out))
  {
    hide Rfrs, OnReq, Resps;
    ReqHead(l);
    ReqTaken(l);
    var s, h, a := l.slot, l.slot.hdr, Arrived(l);
    var r := OnPacket(l.srv, l.up[0]);
    CrsAppend(h, s.crs, Min(a, s.request.pkts - 1) - s.crs, 1);
    assert Resps(h, s.request.answer, 0, 0) == [];
    var l' := l.(up := l.up[1..], srv := r.srv, down := l.down + r.out);
    assert Progress(l');
  }

  lemma RfrHead(l: Link)
    requires Busy(l) && Arrived(l) == ReqsSent(l.slot) && l.up != []
    ensures Served(l) >= 1 && RfrsSent(l.slot) >= Served(l) && l.slot.numRx > 0
    ensures l.up[0] == Rfr(l.slot.hdr, Served(l))
    ensures l.up[1..] == Rfrs(l.slot.hdr, Served(l) + 1, RfrsSent(l.slot) - Served(l))
  {
    var s, h, v := l.slot, l.slot.hdr, Served(l);
    assert Requests(h, s.request.pkts, Arrived(l), 0) == [];
    assert RfrsSent(s) > 0 && s.numRx > 0 && v >= 1;
    assert l.up == Rfrs(h, v, RfrsSent(s) + 1 - v);
    RfrsTail(h, v, RfrsSent(s) + 1 - v);
  }

  lemma RfrArrives(l: Link)
    requires Busy(l) && Arrived(l) == ReqsSent(l.slot) && l.up != []
    ensures l.up[0] == Rfr(l.srv.reqNum, Served(l)) && l.srv.respPkts > Served(l)
    ensures var r := OnPacket(l.srv, l.up[0]);
      Busy(l.(up := l.up[1..], srv := r.srv, down := l.down + r.out))
  {
    var s, h, R, v := l.slot, l.slot.hdr, l.slot.request.pkts, Served(l);
    RfrHead(l);
    var r := OnPacket(l.srv, l.up[0]);
    var l' := l.(up := l.up[1..], srv := r.srv, down := l.down + r.out);
    assert Arrived(l') == Arrived(l) && Served(l') == v + 1;
    var crs := Crs(h, s.crs, Min(Arrived(l), R - 1) - s.crs);
    RespsAppend(h, s.request.answer, s.numRx, v - s.numRx, 1);
    assert r.out == Resps(h, s.request.answer, s.numRx + (v - s.numRx), 1);
    assert l.down + r.out == crs + (Resps(h, s.request.answer, s.numRx, v - s.numRx) + r.out);
    assert l'.up == Requests(h, R, Arrived(l), 0) + l'.up;
  }

  lemma Responds(l: Link)
    requires LinkOk(l) && l.srv.pending
    ensures Busy(l)
    ensures var r := Respond(l.srv, l.slot.request.answer);
      Busy(l.(srv := r.srv, down := l.down + r.out))
  {
    hide Rfrs, Requests, Crs;
    var s, h, R := l.slot, l.slot.hdr, l.slot.request.pkts;
    var r := Respond(l.srv, s.request.answer);
    var l' := l.(srv := r.srv, down := l.down + r.out);
    assert Arrived(l') == R == Arrived(l) && Served(l') == 1 && Served(l) == 0;
    assert Resps(h, s.request.answer, 0, 0) == [] && r.out == Resps(h, s.request.answer, 0, 1);
    assert l.up == l'.up && RfrsSent(s) == 0;
  }

  // ---------------------------------------------------------------- the client takes a packet

  lemma CrHead(l: Link)
    requires Busy(l) && l.slot.crs < Min(Arrived(l), l.slot.request.pkts - 1)
    ensures l.down[0] == Cr(l.slot.hdr, l.slot.crs)
    ensures l.down[1..] == Crs(l.slot.hdr, l.slot.crs + 1, Min(Arrived(l), l.slot.request.pkts - 1) - l.slot.crs - 1)
                         + Resps(l.slot.hdr, l.slot.request.answer, 0, Served(l))
    ensures l.slot.numRx == 0 && RfrsSent(l.slot) == 0
  {
    hide ServerOk, Rfrs, Requests;
    var s, h := l.slot, l.slot.hdr;
    CrsTail(h, s.crs, Min(Arrived(l), s.request.pkts - 1) - s.crs,
            Resps(h, s.request.answer, s.numRx, Served(l) - s.numRx));
  }

  lemma CrKick(l: Link, credits: nat)
    requires Busy(l) && l.slot.crs < Min(Arrived(l), l.slot.request.pkts - 1) && ReqPending(l.slot)
    ensures var k := OnCredit(Lane(l.slot, l.up, credits));
      && k.slot.numTx > l.slot.numTx
      && k.up == Requests(l.slot.hdr, l.slot.request.pkts, Arrived(l), ReqsSent(k.slot) - Arrived(l))
               + Rfrs(l.slot.hdr, 1, 0)
  {
    var s, h, R, a := l.slot, l.slot.hdr, l.slot.request.pkts, Arrived(l);
    var k := OnCredit(Lane(s, l.up, credits));
    assert Rfrs(h, 1, 0) == [] && RfrsSent(s) == 0 && Served(l) == 0;
    RequestsAppend(h, R, a, s.numTx - a, k.slot.numTx - s.numTx);
  }

  /** The counters after a credit return; request packets go on where they stopped. */
  lemma CrProgress(l: Link, credits: nat)
    requires Busy(l) && l.slot.crs < Min(Arrived(l), l.slot.request.pkts - 1)
    ensures var k := OnCredit(Lane(l.slot, l.up, credits));
      var l' := l.(slot := k.slot, up := k.up, down := l.down[1..]);
      && Progress(l') && ServerOk(l') && Arrived(l') == Arrived(l) && Served(l') == Served(l)
      && k.up == Requests(l.slot.hdr, l.slot.request.pkts, Arrived(l), ReqsSent(k.slot) - Arrived(l))
               + Rfrs(l.slot.hdr, 1, RfrsSent(k.slot))
  {
    CrHead(l);
    if ReqPending(l.slot) { CrKick(l, credits); }
  }

  lemma CrArrives(l: Link, credits: nat)
    requires Busy(l) && l.slot.crs < Min(Arrived(l), l.slot.request.pkts - 1)
    ensures l.down[0] == Cr(l.slot.hdr, l.slot.crs)
    ensures var k := OnCredit(Lane(l.slot, l.up, credits));
      Busy(l.(slot := k.slot, up := k.up, down := l.down[1..]))
  {
    hide ServerOk, Rfrs;
    CrHead(l);
    CrProgress(l, credits);
  }

  /** A response packet arrives in order, after every credit return. */
  lemma RespHead(l: Link)
    requires Busy(l) && l.slot.crs == Min(Arrived(l), l.slot.request.pkts - 1) && l.down != []
    ensures l.down == Resps(l.slot.hdr, l.slot.request.answer, l.slot.numRx, Served(l) - l.slot.numRx)
    ensures l.down[0] == RespPkt(l.slot.hdr, l.slot.numRx, l.slot.request.answer) && l.slot.numRx < Served(l)
    ensures l.down[1..] == Resps(l.slot.hdr, l.slot.request.answer, l.slot.numRx + 1, Served(l) - l.slot.numRx - 1)
    ensures l.slot.crs == l.slot.request.pkts - 1 && Arrived(l) == l.slot.request.pkts
  {
    var s, h := l.slot, l.slot.hdr;
    assert Crs(h, s.crs, 0) == [];
    assert l.down == Resps(h, s.request.answer, s.numRx, Served(l) - s.numRx);
    RespsTail(h, s.request.answer, s.numRx, Served(l) - s.numRx);
  }

  /** A lane in its response phase goes on asking where it left off. */
  lemma LaneAsks(l: Lane, v: nat)
    requires Serves(l.slot.request) && l.slot.request.pkts <= l.slot.numTx <= WirePkts(l.slot.request)
    requires 1 <= v <= l.slot.numTx - l.slot.request.pkts + 1
    requires l.up == Rfrs(l.slot.hdr, v, l.slot.numTx - l.slot.request.pkts + 1 - v)
    ensures var k := OnResp(l, NextResp(l.slot));
      && k.up == Rfrs(l.slot.hdr, v, k.slot.numTx - l.slot.request.pkts + 1 - v)
      && l.slot.numTx <= k.slot.numTx <= WirePkts(l.slot.request)
      && (k.slot.numTx == WirePkts(l.slot.request) || k.slot.numTx > l.slot.numTx)
  {
    var n0, k := l.slot.numTx - l.slot.request.pkts + 1 - v, OnResp(l, NextResp(l.slot));
    RfrsAppend(l.slot.hdr, v, n0, k.slot.numTx - l.slot.numTx);
  }

  /** After the packet the requests-for-response on the wire are again exactly the missing ones. */
  lemma RespKick(l: Link, credits: nat)
    requires Busy(l) && l.slot.crs == Min(Arrived(l), l.slot.request.pkts - 1) && l.down != []
    ensures var k := OnResp(Lane(l.slot, l.up, credits), NextResp(l.slot));
      && k.up == Rfrs(l.slot.hdr, Served(l), RfrsSent(k.slot) + 1 - Served(l))
      && RfrsSent(k.slot) + 1 >= Served(l) && k.slot.numTx <= WirePkts(l.slot.request)
      && (k.slot.numTx == WirePkts(l.slot.request) || k.slot.numTx > l.slot.numTx)
  {
    RespHead(l);
    assert Requests(l.slot.hdr, l.slot.request.pkts, l.slot.request.pkts, 0) == [];
    LaneAsks(Lane(l.slot, l.up, credits), Served(l));
  }

  lemma LastResp(l: Link, credits: nat)
    requires Busy(l) && l.slot.crs == Min(Arrived(l), l.slot.request.pkts - 1) && l.down != []
    requires l.slot.numRx + 1 == l.slot.request.answer
    ensures var k := OnResp(Lane(l.slot, l.up, credits), NextResp(l.slot));
      && k.up == [] && l.down[1..] == [] && !l.srv.pending && l.srv.reqNum == k.slot.hdr
      && k.slot.numTx == WirePkts(k.slot.request) && Outstanding(k.slot) == 0
      && k.slot.got == Resps(l.slot.hdr, l.slot.request.answer, 0, l.slot.request.answer)
  {
    RespHead(l);
    RespKick(l, credits);
    RespsAppend(l.slot.hdr, l.slot.request.answer, 0, l.slot.numRx, 1);
    assert [NextResp(l.slot)] == Resps(l.slot.hdr, l.slot.request.answer, l.slot.numRx, 1);
  }

  lemma MiddleProgress(l: Link, credits: nat)
    requires Busy(l) && l.slot.crs == Min(Arrived(l), l.slot.request.pkts - 1) && l.down != []
    requires l.slot.numRx + 1 < l.slot.request.answer
    ensures var k := OnResp(Lane(l.slot, l.up, credits), NextResp(l.slot));
      var l' := l.(slot := k.slot, up := k.up, down := l.down[1..]);
      Progress(l') && Arrived(l') == Arrived(l) == l.slot.request.pkts && Served(l') == Served(l) >= 1
  {
    RespHead(l);
    RespKick(l, credits);
  }

  lemma MiddleResp(l: Link, credits: nat)
    requires Busy(l) && l.slot.crs == Min(Arrived(l), l.slot.request.pkts - 1) && l.down != []
    requires l.slot.numRx + 1 < l.slot.request.answer
    ensures var k := OnResp(Lane(l.slot, l.up, credits), NextResp(l.slot));
      Busy(l.(slot := k.slot, up := k.up, down := l.down[1..]))
  {
    RespHead(l);
    RespKick(l, credits);
    MiddleProgress(l, credits);
    var s, h := l.slot, l.slot.hdr;
    var k := OnResp(Lane(s, l.up, credits), NextResp(s));
    RespsAppend(h, s.request.answer, 0, s.numRx, 1);
    assert [NextResp(s)] == Resps(h, s.request.answer, s.numRx, 1);
    assert k.up == Requests(h, s.request.pkts, s.request.pkts, 0) + k.up;
    assert l.down[1..] == Crs(h, s.crs, 0) + l.down[1..];
  }
}
