// Laws that relate the allocator's operations to one another.

module PoolLaws {
  import opened MultiHead
  import opened PoolMemory
  import opened PoolChain
  import opened PoolSteps
  import opened PoolTiling
  import opened PoolRequests
  import opened PoolCut

  // Allocating a block and freeing it again: the same blocks with the same sizes, and in every
  // size class the same nodes.
  lemma FreeUndoesAlloc(m0: Mem, m1: Mem, m2: Mem, p: Pool, N0: set<int>, N1: set<int>, N2: set<int>,
                        lists0: FreeLists, lists2: FreeLists, a: int, n: int)
    requires WellFormed(m0, p, N0, lists0) && WellFormed(m2, p, N2, lists2)
    requires BestFit(m0, N0, a, n) && n > 0
    requires View(m1, N1) == Occupy(View(m0, N0), a, n)
    requires View(m2, N2) == Release(View(m1, N1), a)
    ensures N2 == N0
    ensures forall x :: x in N0 ==> (IsUsed(m2, x) <==> IsUsed(m0, x))
    ensures forall x :: x in N0 && x != EndNode(p) ==> NodeSize(m2, x) == NodeSize(m0, x)
    ensures forall c, x :: 0 <= c < LIST_NUM ==> (x in lists2[c] <==> x in lists0[c])
  {
    hide Rd, Occupy, Release, Rings, Placed, Agree, HeadIndex;
    WellFormedIsCoalesced(m0, p, N0, lists0);
    FreeNotEnd(m0, p, N0, a);
    FitsIsSize(m0, p, N0, a, n);
    ReleaseUndoesOccupy(View(m0, N0), a, n);
    assert View(m2, N2) == View(m0, N0);
    ViewFixesHeap(m0, m2, p, N0, lists0, lists2);
    assert forall x :: x in N0 ==> (x in View(m2, N2).used <==> x in View(m0, N0).used);
  }

  // ---- The check by headers ----------------------------------------------------------

  // osMemIsNodeValid: a used node carries its magic word, a free one a list pointer into the pool.
  predicate HeaderValid(m: Mem, p: Pool, x: int) {
    && FirstNode(p) <= x <= EndNode(p)
    && (if IsUsed(m, x) then Rd(m, x + PREV) == WORD - 1 - x
        else p.base <= Rd(m, x + PREV) < p.base + p.size)
  }

  // osMemCheckUsedNode when neither LOS_DLNK_SAFE_CHECK nor LOS_DLNK_SIMPLE_CHECK is defined.
  predicate CheckByHeaders(m: Mem, p: Pool, x: int) {
    && HeaderValid(m, p, x) && IsUsed(m, x)
    && HeaderValid(m, p, NextNode(m, x)) && PreNode(m, NextNode(m, x)) == x
    && (x != FirstNode(p) ==> HeaderValid(m, p, PreNode(m, x)) && NextNode(m, PreNode(m, x)) == x)
  }

  // On the nodes of a well-formed heap the check by headers says what the walk of the chain says.
  lemma HeaderCheckAgrees(m: Mem, p: Pool, N: set<int>, lists: FreeLists, x: int)
    requires WellFormed(m, p, N, lists) && x in N
    ensures CheckByHeaders(m, p, x) <==> Live(m, p, N, x)
  {
    hide Rd, Rings, Placed, Agree, HeaderValid;
    ChainEnds(m, p, N);
    if x == EndNode(p) {
      EndIsLast(m, p, N);
    } else {
      NodeLinks(m, p, N, x);
      NodeIsValid(m, p, N, lists, x);
      NodeIsValid(m, p, N, lists, NextNode(m, x));
      if x != FirstNode(p) {
        PreIsBefore(m, p, N, x);
        NodeIsValid(m, p, N, lists, PreNode(m, x));
      }
    }
  }

  lemma EndIsLast(m: Mem, p: Pool, N: set<int>)
    requires Chain(m, p, N)
    ensures !HeaderValid(m, p, NextNode(m, EndNode(p)))
  {
  }

  lemma NodeIsValid(m: Mem, p: Pool, N: set<int>, lists: FreeLists, x: int)
    requires WellFormed(m, p, N, lists) && x in N
    ensures HeaderValid(m, p, x)
  {
    hide Rd, HeadIndex;
    ChainEnds(m, p, N);
    if !IsUsed(m, x) {
      assert Listed(m, lists, x);
      var c := ListOf(m, x);
      var i :| 0 <= i < |lists[c]| && lists[c][i] == x;
      RingOf(m, p, lists, c);
      assert RingAt(m, ListHead(p, c), lists[c], i);
      if i > 0 {
        assert lists[c][i - 1] in N;
      }
    }
  }

  // The check by headers refuses a node that has lost its flag, whatever became of it since: after
  // a free the size word is below the pool size, so a second free is refused.
  lemma HeaderCheckRefusesFreed(m: Mem, p: Pool, a: int)
    requires 0 <= Rd(m, a + SIZE_AND_FLAG) < p.size <= USED_FLAG
    ensures !CheckByHeaders(m, p, a)
  {
  }

  // ---- Many blocks -------------------------------------------------------------------

  datatype Heap = Heap(m: Mem, nodes: set<int>)

  // A call, or a user's write, that works on some block other than the one at a.
  ghost predicate WorksElsewhere(h: Heap, h': Heap, a: int) {
    exists b :: b != a && PayloadKept(h.m, h'.m, h.nodes, b) && UsedKept(h.m, h'.m, h.nodes, h'.nodes, b)
  }

  // Over every run of calls and writes on other blocks, a pointer that was handed out still leads to
  // its block, which has kept its size and its contents.
  lemma {:induction false} HandedOutStays(run: seq<Heap>, p: Pool, ptr: int, a: int)
    requires run != [] && Names(run[0].m, p, run[0].nodes, ptr, a)
    requires forall i {:trigger run[i]} :: 0 < i < |run| ==> WorksElsewhere(run[i - 1], run[i], a)
    ensures var h, h' := run[0], run[|run| - 1];
            && Names(h'.m, p, h'.nodes, ptr, a)
            && NodeSize(h'.m, a) == NodeSize(h.m, a)
            && forall x :: InPayload(h.m, a, x) ==> Rd(h'.m, x) == Rd(h.m, x)
  {
    hide Rd, Recover;
    if |run| > 1 {
      var n := |run| - 1;
      HandedOutStays(run[..n], p, ptr, a);
      assert WorksElsewhere(run[n - 1], run[n], a);
      var b :| b != a && PayloadKept(run[n - 1].m, run[n].m, run[n - 1].nodes, b)
               && UsedKept(run[n - 1].m, run[n].m, run[n - 1].nodes, run[n].nodes, b);
      NamesKept(run[n - 1].m, run[n].m, p, run[n - 1].nodes, run[n].nodes, ptr, a, b);
    }
  }

  // ---- Requests that wrap ------------------------------------------------------------

  // Rounding a request up wraps exactly for the last 19 sizes, and then falls short of the request.
  lemma RoundingWraps(size: int)
    requires 0 <= size < WORD
    ensures AllocSize(size) >= size <==> size + NODE_HEAD_SIZE + 3 < WORD
    ensures AllocSize(size) < NODE_HEAD_SIZE <==> WORD - 19 <= size < WORD - 3
  {
  }

  // What the sizes do whose rounding wraps below a header: a block that is long enough to be cut is no
  // block of a well-formed heap afterwards. That is so for every heap if 8 or 12 bytes are kept; if none
  // are, unless the block's task id is the address of its own size word; if four are, at least when
  // twice the block's address is beyond the memory.
  lemma WrappedSizesBreak(m: Mem, p: Pool, N: set<int>, lists: FreeLists, a: int, size: int)
    requires WellFormed(m, p, N, lists) && Live(m, p, N, a) && 0 <= size < WORD
    requires !CutIsSound(m, a, AllocSize(size))
    requires AllocSize(size) == 0 ==> Rd(m, a + NEXT) != a + SIZE_AND_FLAG
    requires AllocSize(size) == 4 ==> a < USED_FLAG && |m| <= 2 * a
    ensures !Survives(Smaller(m, p, a, AllocSize(size)), p, a)
  {
    hide Rd, AllocSize, WellFormed, Chain, Smaller, RestListed, Survives;
    var n := AllocSize(size);
    AllocSizeBounds(size);
    WordsOfLive(m, p, N, lists, a);
    WellFormedIsPool(m, p, N, lists);
    if n == 0 {
      NothingIsListed(m, p, N, lists, a);
    } else if n == 4 {
      FourIsListed(m, p, N, lists, a);
    } else {
      RestIsListed(m, p, N, lists, a, n);
    }
    CutBreaks(m, p, a, n);
  }

  // Such an input: 4294967288 bytes round to 8, so every block of 28 bytes or more is cut there.
  lemma ReallocOfHugeSizeBreaks(m: Mem, p: Pool, N: set<int>, lists: FreeLists, a: int)
    requires WellFormed(m, p, N, lists) && Live(m, p, N, a) && NodeSize(m, a) >= 28
    ensures AllocSize(0xFFFF_FFF8) == 8 && !Survives(Smaller(m, p, a, AllocSize(0xFFFF_FFF8)), p, a)
  {
    hide Rd, WellFormed, Smaller, Survives;
    WrappedSizesBreak(m, p, N, lists, a, 0xFFFF_FFF8);
  }
}
