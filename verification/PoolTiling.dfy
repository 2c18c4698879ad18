// What a heap is to its callers: a set of node addresses that cut the pool into blocks, and
// which of them are used. Sizes, free lists and back pointers all follow from that.

module PoolTiling {
  import opened MultiHead
  import opened PoolMemory
  import opened PoolChain
  import opened PoolSteps

  datatype Tiling = Tiling(nodes: set<int>, used: set<int>)

  function View(m: Mem, N: set<int>): Tiling
  {
    Tiling(N, set a | a in N && IsUsed(m, a))
  }

  // The block at a holds at least k bytes.
  predicate Fits(t: Tiling, a: int, k: int) {
    forall y :: y in t.nodes ==> y <= a || a + k <= y
  }

  // y is the node right after x.
  predicate Adjacent(t: Tiling, x: int, y: int) {
    x in t.nodes && y in t.nodes && x < y && forall z :: z in t.nodes ==> z <= x || y <= z
  }

  // Allocating n bytes (header included) in the free block at a: the rest of the block is split
  // off when it can hold a header and one aligned unit.
  function Occupy(t: Tiling, a: int, n: int): Tiling
  {
    Tiling(t.nodes + Remainder(t, a, n), t.used + {a})
  }

  function Remainder(t: Tiling, a: int, n: int): set<int>
  {
    if Fits(t, a, n + NODE_HEAD_SIZE + ALIGN_SIZE) then {a + n} else {}
  }

  // Freeing the block at a: a free block before it or after it becomes one block with it.
  function Release(t: Tiling, a: int): Tiling
  {
    Tiling(t.nodes - (set x | x in t.nodes && Swallowed(t, a, x)), t.used - {a})
  }

  predicate Swallowed(t: Tiling, a: int, x: int) {
    || (x == a && exists b :: b in t.nodes && Adjacent(t, b, a) && b !in t.used)
    || (Adjacent(t, a, x) && x !in t.used)
  }

  // Cutting the used block at a down to n bytes: the rest joins a free block after it.
  function Shrink(t: Tiling, a: int, n: int): Tiling
  {
    if Fits(t, a, n + NODE_HEAD_SIZE + ALIGN_SIZE) then Tiling(WithoutFreeAfter(t, a).nodes + {a + n}, t.used) else t
  }

  // Growing the used block at a over the free block after it, then giving back what n bytes leave.
  function Grow(t: Tiling, a: int, n: int): Tiling
  {
    var t' := WithoutFreeAfter(t, a);
    Tiling(t'.nodes + Remainder(t', a, n), t.used)
  }

  function WithoutFreeAfter(t: Tiling, a: int): Tiling
  {
    Tiling(t.nodes - (set x | x in t.nodes && Adjacent(t, a, x) && x !in t.used), t.used)
  }

  // No two neighbouring blocks are free.
  ghost predicate Coalesced(t: Tiling) {
    t.used <= t.nodes && forall x, y :: Adjacent(t, x, y) ==> x in t.used || y in t.used
  }

  // Freeing undoes allocating.
  lemma ReleaseUndoesOccupy(t: Tiling, a: int, n: int)
    requires Coalesced(t) && a in t.nodes && a !in t.used && n > 0 && Fits(t, a, n)
    ensures Release(Occupy(t, a, n), a) == t
  {
    var t' := Occupy(t, a, n);
    forall x | x in t'.nodes
      ensures Swallowed(t', a, x) <==> x !in t.nodes
    {
      if b :| b in t'.nodes && Adjacent(t', b, a) {
        assert Adjacent(t, b, a);
      }
      if Adjacent(t', a, x) && x in t.nodes {
        assert Adjacent(t, a, x);
      }
      if x !in t.nodes {
        assert Adjacent(t', a, x);
      }
    }
  }

  // ---- The tiling and the words ------------------------------------------------------

  lemma NextIsAdjacent(m: Mem, p: Pool, N: set<int>, a: int, y: int)
    requires Chain(m, p, N) && a in N && a != EndNode(p)
    ensures Adjacent(View(m, N), a, y) <==> y == NextNode(m, a)
  {
    hide Rd;
    assert NodeOk(m, N, a);
  }

  lemma FitsIsSize(m: Mem, p: Pool, N: set<int>, a: int, k: int)
    requires Chain(m, p, N) && a in N && a != EndNode(p)
    ensures Fits(View(m, N), a, k) <==> k <= NodeSize(m, a)
  {
    hide Rd;
    assert NodeOk(m, N, a);
  }

  lemma WellFormedIsCoalesced(m: Mem, p: Pool, N: set<int>, lists: FreeLists)
    requires WellFormed(m, p, N, lists)
    ensures Coalesced(View(m, N))
  {
    hide Rd, Rings, Placed, Agree;
    var t := View(m, N);
    forall x, y | Adjacent(t, x, y)
      ensures x in t.used || y in t.used
    {
      assert x != EndNode(p);
      NextIsAdjacent(m, p, N, x, y);
    }
  }

  // Two heaps with the same tiling have the same block sizes and the same sets of nodes in every
  // size class.
  lemma ViewFixesHeap(m: Mem, m': Mem, p: Pool, N: set<int>, lists: FreeLists, lists': FreeLists)
    requires WellFormed(m, p, N, lists) && WellFormed(m', p, N, lists') && View(m, N) == View(m', N)
    ensures forall a :: a in N && a != EndNode(p) ==> NodeSize(m, a) == NodeSize(m', a)
    ensures forall c, x :: 0 <= c < LIST_NUM ==> (x in lists[c] <==> x in lists'[c])
  {
    hide Rd, Rings, HeadIndex;
    forall a | a in N && a != EndNode(p)
      ensures NodeSize(m, a) == NodeSize(m', a)
    {
      NextIsAdjacent(m, p, N, a, NextNode(m, a));
      NextIsAdjacent(m', p, N, a, NextNode(m, a));
    }
    ListsFollow(m, m', p, N, lists, lists');
    ListsFollow(m', m, p, N, lists', lists);
  }

  lemma ListsFollow(m: Mem, m': Mem, p: Pool, N: set<int>, lists: FreeLists, lists': FreeLists)
    requires WellFormed(m, p, N, lists) && WellFormed(m', p, N, lists') && View(m, N) == View(m', N)
    requires forall a :: a in N && a != EndNode(p) ==> NodeSize(m, a) == NodeSize(m', a)
    ensures forall c, x :: 0 <= c < LIST_NUM && x in lists[c] ==> x in lists'[c]
  {
    hide Rd, HeadIndex, WellFormed;
    forall c, x | 0 <= c < LIST_NUM && x in lists[c]
      ensures x in lists'[c]
    {
      var i :| 0 <= i < |lists[c]| && lists[c][i] == x;
      ListedIsFree(m, p, N, lists, c, i);
      ListedIndex(m, p, N, lists, c, i);
      assert x !in View(m, N).used && x !in View(m', N).used;
      FreeNeighboursUsed(m, p, N, lists, x);
      FreeIsListed(m', p, N, lists', x);
    }
  }

  // The blocks tile the pool: every address between the list heads and the end sentinel lies in
  // exactly one of them.
  lemma BlocksTilePool(m: Mem, p: Pool, N: set<int>, x: int) returns (a: int)
    requires Chain(m, p, N) && FirstNode(p) <= x < EndNode(p)
    ensures a in N && a <= x < NextNode(m, a)
    ensures forall b :: b in N && b != EndNode(p) && b <= x < NextNode(m, b) ==> b == a
  {
    hide Rd;
    a := MaxBelow(N, x + 1);
    assert NodeOk(m, N, a);
    forall b | b in N && b != EndNode(p) && b <= x < NextNode(m, b)
      ensures b == a
    {
      assert NodeOk(m, N, b);
    }
  }

  // How the tiling changes when a block is taken, given what happened to the words.
  lemma OccupyView(m: Mem, m': Mem, p: Pool, N: set<int>, N': set<int>, a: int, n: int)
    requires Chain(m, p, N) && a in N && a != EndNode(p)
    requires N' == N + (if n + NODE_HEAD_SIZE + ALIGN_SIZE <= NodeSize(m, a) then {a + n} else {})
    requires forall x :: x in N' ==> (IsUsed(m', x) <==> x == a || (x in N && IsUsed(m, x)))
    ensures View(m', N') == Occupy(View(m, N), a, n)
  {
    hide Rd;
    FitsIsSize(m, p, N, a, n + NODE_HEAD_SIZE + ALIGN_SIZE);
  }
}
