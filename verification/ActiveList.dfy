/**
 The intrusive doubly linked list of active RPC slots between a root and a tail sentinel. `elems` is
 the insertion-ordered sequence that the links represent.
 */
module ActiveList {
  class Node {
    var prev: Node?
    var next: Node?

    constructor ()
      ensures prev == null && next == null
    {
      prev, next := null, null;
    }
  }

  predicate Distinct(ns: seq<Node>) { forall j, k :: 0 <= j < k < |ns| ==> ns[j] != ns[k] }

  /** Neighbours in the sequence are linked both ways. */
  ghost predicate Linked(ns: seq<Node>)
    reads ns
  {
    forall k :: 0 <= k < |ns| - 1 ==> ns[k].next == ns[k + 1] && ns[k + 1].prev == ns[k]
  }

  function Reversed(ns: seq<Node>): (r: seq<Node>)
    ensures |r| == |ns| && forall k :: 0 <= k < |ns| ==> r[k] == ns[|ns| - 1 - k]
  {
    if ns == [] then [] else [ns[|ns| - 1]] + Reversed(ns[..|ns| - 1])
  }

  lemma DistinctWithout(c: seq<Node>, k: nat)
    requires Distinct(c) && k < |c|
    ensures Distinct(c[..k] + c[k + 1..])
  {
  }

  /** Linking the neighbours of an inner node to each other takes it out of the chain. */
  method Unlink(s: Node, ghost c: seq<Node>, ghost k: nat)
    requires Distinct(c) && Linked(c) && 0 < k < |c| - 1 && c[k] == s
    modifies c
    ensures Linked(c[..k] + c[k + 1..])
    ensures c[0].prev == old(c[0].prev) && c[|c| - 1].next == old(c[|c| - 1].next)
  {
    assert c[k - 1].next == s && s.prev == c[k - 1] && s.next == c[k + 1] && c[k + 1].prev == s;
    s.prev.next := s.next;
    s.next.prev := s.prev;
    assert forall j :: 0 <= j < |c| - 1 && j != k - 1 && j != k ==> c[j].next == c[j + 1] && c[j + 1].prev == c[j];
  }

  class RpcList {
    const root: Node
    const tail: Node
    ghost var elems: seq<Node>

    ghost function Chain(): seq<Node>
      reads this
    {
      [root] + elems + [tail]
    }

    ghost predicate Valid()
      reads this, root, tail, Chain()
    {
      Distinct(Chain()) && Linked(Chain()) && root.prev == null && tail.next == null
    }

    constructor ()
      ensures Valid() && elems == [] && fresh(root) && fresh(tail)
    {
      var r := new Node();
      var t := new Node();
      r.next, t.prev := t, r;
      root, tail, elems := r, t, [];
    }

    /** `add_to_active_rpc_list` of a slot that is not in the list. */
    method Add(s: Node)
      requires Valid() && s !in Chain()
      modifies this`elems, Chain(), s
      ensures Valid() && elems == old(elems) + [s]
    {
      ghost var c := Chain();
      ghost var n := |c| - 1;
      assert c[n] == tail && c[n - 1].next == tail && tail.prev == c[n - 1];
      var prevTail := tail.prev;
      assert prevTail == c[n - 1];
      prevTail.next := s;
      s.prev := prevTail;
      s.next := tail;
      tail.prev := s;
      elems := elems + [s];
      assert Chain() == c[..n] + [s, tail];
    }

    /** `delete_from_active_rpc_list` of the slot at position `k`. */
    method Delete(s: Node, ghost k: nat)
      requires Valid() && k < |elems| && elems[k] == s
      modifies this`elems, Chain()
      ensures Valid() && elems == old(elems[..k] + elems[k + 1..])
    {
      ghost var c := Chain();
      assert c[k + 1] == s;
      Unlink(s, c, k + 1);
      elems := elems[..k] + elems[k + 1..];
      DistinctWithout(c, k + 1);
      assert Chain() == c[..k + 1] + c[k + 2..];
    }

    /** The walk of `pkt_loss_scan_st`: from the root to the tail sentinel. */
    method Forward() returns (walk: seq<Node>)
      requires Valid()
      ensures walk == elems
    {
      walk := [];
      assert Chain()[0] == root;
      var cur := root.next;
      while cur != tail
        invariant |walk| <= |elems| && walk == elems[..|walk|] && cur == Chain()[|walk| + 1]
        decreases |elems| - |walk|
      {
        ghost var k := |walk|;
        assert k < |elems| && cur == elems[k] && Chain()[k + 1].next == Chain()[k + 2];
        walk := walk + [cur];
        cur := cur.next;
      }
      assert |walk| == |elems| by {
        assert Chain()[|elems| + 1] == tail;
      }
    }

    method Backward() returns (walk: seq<Node>)
      requires Valid()
      ensures walk == Reversed(elems)
    {
      walk := [];
      ghost var n := |elems|;
      assert Chain()[n + 1] == tail && Chain()[n + 1].prev == Chain()[n];
      var cur := tail.prev;
      while cur != root
        invariant |walk| <= n == |elems| && cur == Chain()[n - |walk|]
        invariant forall j :: 0 <= j < |walk| ==> walk[j] == elems[n - 1 - j]
        decreases n - |walk|
      {
        ghost var k := n - |walk|;
        assert Chain()[0] == root && k > 0 && cur == elems[k - 1] && Chain()[k].prev == Chain()[k - 1];
        walk := walk + [cur];
        cur := cur.prev;
      }
      assert |walk| == n by {
        assert Chain()[0] == root;
      }
    }
  }
}
