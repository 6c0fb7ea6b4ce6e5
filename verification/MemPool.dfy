/** The application memory pool: a free list that grows by blocks of doubling size. */
module MemPool {
  /** An object is identified by its block and its place in it. */
  datatype Obj = Obj(block: nat, at: nat)

  function Pow2(k: nat): (p: nat)
    ensures p >= 1
  {
    if k == 0 then 1 else 2 * Pow2(k - 1)
  }

  function BlockSize(b: nat): nat { 1024 * Pow2(b) }

  function Block(b: nat, n: nat): set<Obj> { set i | 0 <= i < n :: Obj(b, i) }

  /** All objects of the first `k` blocks. */
  function Created(k: nat): set<Obj> { if k == 0 then {} else Created(k - 1) + Block(k - 1, BlockSize(k - 1)) }

  lemma {:induction false} BlockCount(b: nat, n: nat)
    ensures |Block(b, n)| == n
  {
    if n > 0 {
      BlockCount(b, n - 1);
      assert Block(b, n) == Block(b, n - 1) + {Obj(b, n - 1)};
    }
  }

  lemma {:induction false} CreatedBelow(k: nat)
    ensures forall o :: o in Created(k) ==> o.block < k
  {
    if k > 0 { CreatedBelow(k - 1); }
  }

  lemma BlockApart(k: nat, n: nat)
    ensures Created(k) !! Block(k, n)
  {
    CreatedBelow(k);
  }

  lemma Union(a: set<Obj>, b: set<Obj>)
    requires a !! b
    ensures |a + b| == |a| + |b|
  {
  }

  /** After `k` extensions the pool has created 1024 * (2^k - 1) objects. */
  lemma {:induction false} CreatedCount(k: nat)
    ensures |Created(k)| == 1024 * (Pow2(k) - 1)
  {
    if k > 0 {
      CreatedCount(k - 1);
      BlockCount(k - 1, BlockSize(k - 1));
      BlockApart(k - 1, BlockSize(k - 1));
      Union(Created(k - 1), Block(k - 1, BlockSize(k - 1)));
    }
  }

  /** A new block, object by object. */
  function InOrder(b: nat, n: nat): seq<Obj> { seq(n, k requires 0 <= k => Obj(b, k)) }

  predicate NoRepeats(q: seq<Obj>) { forall i, j :: 0 <= i < j < |q| ==> q[i] != q[j] }

  function Elements(q: seq<Obj>): set<Obj> { set o | o in q }

  class AppMemPool {
    var numToAlloc: nat
    var blocks: nat
    var pool: seq<Obj>
    ghost var held: set<Obj>

    /** Free and held objects are apart and together all that was created, each once. */
    ghost predicate Valid()
      reads this
    {
      && numToAlloc == BlockSize(blocks) && NoRepeats(pool)
      && Elements(pool) !! held && Elements(pool) + held == Created(blocks)
    }

    constructor ()
      ensures Valid() && blocks == 0 && held == {}
    {
      numToAlloc, blocks, pool, held := 1024, 0, [], {};
    }

    method ExtendPool()
      requires Valid()
      modifies this`numToAlloc, this`blocks, this`pool
      ensures Valid() && blocks == old(blocks) + 1 && pool != []
      ensures pool == old(pool) + InOrder(old(blocks), BlockSize(old(blocks)))
    {
      ghost var start := pool;
      CreatedBelow(blocks);
      for i := 0 to numToAlloc
        invariant blocks == old(blocks) && numToAlloc == old(numToAlloc)
        invariant pool == start + InOrder(blocks, i)
        invariant NoRepeats(pool) && Elements(pool) == Elements(start) + Block(blocks, i)
      {
        ghost var was := pool;
        assert Obj(blocks, i) !in Elements(was);
        pool := pool + [Obj(blocks, i)];
        assert pool == start + InOrder(blocks, i + 1);
        assert Elements(pool) == Elements(was) + {Obj(blocks, i)};
        assert Block(blocks, i + 1) == Block(blocks, i) + {Obj(blocks, i)};
      }
      blocks := blocks + 1;
      numToAlloc := numToAlloc * 2;
    }

    /** The object freed last comes back first; an empty pool hands out its new block from the end. */
    method Alloc() returns (o: Obj)
      requires Valid()
      modifies this
      ensures Valid() && o !in old(held) && held == old(held) + {o}
      ensures pool + [o] == if old(pool) != [] then old(pool) else InOrder(old(blocks), BlockSize(old(blocks)))
      ensures blocks == old(blocks) + if old(pool) == [] then 1 else 0
    {
      if pool == [] { ExtendPool(); }
      var n := |pool| - 1;
      o := pool[n];
      ghost var was := pool;
      pool := pool[..n];
      assert pool + [o] == was;
      held := held + {o};
      Popped(was);
    }

    /** The caller frees what it holds. */
    method Free(o: Obj)
      requires Valid() && o in held
      modifies this`pool, this`held
      ensures Valid() && held == old(held) - {o} && pool == old(pool) + [o]
    {
      assert o !in Elements(pool);
      ghost var was := pool;
      pool := pool + [o];
      held := held - {o};
      assert Elements(pool) == Elements(was) + {o};
    }
  }

  lemma Popped(q: seq<Obj>)
    requires NoRepeats(q) && q != []
    ensures Elements(q[..|q| - 1]) == Elements(q) - {q[|q| - 1]} && NoRepeats(q[..|q| - 1])
  {
  }
}
