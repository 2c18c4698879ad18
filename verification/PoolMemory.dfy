// The words of a dynamic memory pool and what it means for them to be a well-formed heap.
//
// Memory is a sequence of words indexed by byte address: m[x] is the 32-bit word whose first
// byte is x. Only addresses that are multiples of four are ever used.

module PoolMemory {
  import opened MultiHead

  type Mem = seq<int>

  const WORD: int := 0x1_0000_0000
  const USED_FLAG: int := 0x8000_0000
  const ALIGNED_FLAG: int := 0x4000_0000
  const NODE_HEAD_SIZE: int := 16
  const ALIGN_SIZE: int := 4
  const POOL_INFO_SIZE: int := 8
  const DLNK_HEAD_SIZE: int := 8 * LIST_NUM
  const MIN_POOL_SIZE: int := DLNK_HEAD_SIZE + 2 * NODE_HEAD_SIZE + POOL_INFO_SIZE

  // Offsets of the fields of a node header.
  const PREV: int := 0
  const NEXT: int := 4
  const PRE_NODE: int := 8
  const SIZE_AND_FLAG: int := 12

  datatype Pool = Pool(base: int, size: int)

  function FirstNode(p: Pool): int { p.base + POOL_INFO_SIZE + DLNK_HEAD_SIZE }

  function EndNode(p: Pool): int { p.base + p.size - NODE_HEAD_SIZE }

  function ListHead(p: Pool, c: int): int { p.base + POOL_INFO_SIZE + 8 * c }

  // The pool is big enough for LOS_MemInit and lies inside the memory.
  predicate PoolIn(m: Mem, p: Pool) {
    && 0 < p.base
    && MIN_POOL_SIZE <= p.size && p.base + p.size <= |m| <= WORD
    && EndNode(p) - FirstNode(p) < USED_FLAG
  }

  function Rd(m: Mem, x: int): int { if 0 <= x < |m| then m[x] else 0 }

  function Wr(m: Mem, x: int, v: int): Mem { if 0 <= x < |m| then m[x := v] else m }

  predicate GetUsed(w: int) { w >= USED_FLAG }

  function GetSize(w: int): int { if w >= USED_FLAG then w - USED_FLAG else w }

  function SetUsed(w: int): int { if w >= USED_FLAG then w else w + USED_FLAG }

  predicate GetAligned(w: int) { GetSize(w) >= ALIGNED_FLAG }

  // w & ~ALIGNED_FLAG
  function GetGap(w: int): int { if GetAligned(w) then w - ALIGNED_FLAG else w }

  function NodeSize(m: Mem, a: int): int { GetSize(Rd(m, a + SIZE_AND_FLAG)) }

  predicate IsUsed(m: Mem, a: int) { GetUsed(Rd(m, a + SIZE_AND_FLAG)) }

  function NextNode(m: Mem, a: int): int { a + NodeSize(m, a) }

  function PreNode(m: Mem, a: int): int { Rd(m, a + PRE_NODE) }

  // ---- The node chain ----------------------------------------------------------------

  // Headers of N lie in the pool and do not overlap.
  ghost predicate Spaced(p: Pool, N: set<int>) {
    && (forall a :: a in N ==> FirstNode(p) <= a <= EndNode(p))
    && (forall a, b :: a in N && b in N && a < b ==> a + NODE_HEAD_SIZE <= b)
  }

  // a is followed by the node its size points at, with nothing of N in between, and that
  // node's back pointer is a.
  ghost predicate NodeOk(m: Mem, N: set<int>, a: int) {
    && NODE_HEAD_SIZE <= NodeSize(m, a)
    && NextNode(m, a) in N
    && PreNode(m, NextNode(m, a)) == a
    && (forall b :: b in N ==> b <= a || NextNode(m, a) <= b)
  }

  ghost predicate Chain(m: Mem, p: Pool, N: set<int>) {
    && PoolIn(m, p)
    && Spaced(p, N)
    && FirstNode(p) in N && EndNode(p) in N
    && PreNode(m, FirstNode(p)) == 0
    && Rd(m, EndNode(p) + SIZE_AND_FLAG) == USED_FLAG + NODE_HEAD_SIZE
    && (forall a :: a in N ==> 0 <= Rd(m, a + SIZE_AND_FLAG) < WORD)
    && (forall a {:trigger NodeOk(m, N, a)} :: a in N && a != EndNode(p) ==> NodeOk(m, N, a))
  }

  // ---- The free lists ----------------------------------------------------------------

  function Succ(h: int, L: seq<int>, i: nat): int
  {
    if i + 1 < |L| then L[i + 1] else h
  }

  function Pred(h: int, L: seq<int>, i: nat): int
    requires i <= |L|
  {
    if i > 0 then L[i - 1] else h
  }

  ghost predicate RingAt(m: Mem, h: int, L: seq<int>, i: nat)
    requires i < |L|
  {
    Rd(m, L[i] + NEXT) == Succ(h, L, i) && Rd(m, L[i] + PREV) == Pred(h, L, i)
  }

  // The circular doubly linked list with head h holds exactly L, in order.
  ghost predicate Ring(m: Mem, h: int, L: seq<int>) {
    && Rd(m, h + NEXT) == (if |L| > 0 then L[0] else h)
    && Rd(m, h + PREV) == Pred(h, L, |L|)
    && (forall i :: 0 <= i < |L| ==> RingAt(m, h, L, i))
  }

  type FreeLists = lists: seq<seq<int>> | |lists| == LIST_NUM witness seq(LIST_NUM, _ => [])

  ghost predicate Rings(m: Mem, p: Pool, lists: FreeLists) {
    forall c :: 0 <= c < LIST_NUM ==> Ring(m, ListHead(p, c), lists[c])
  }

  // Every listed address is in N, and none is listed twice.
  ghost predicate Placed(N: set<int>, lists: FreeLists) {
    && (forall c, i :: 0 <= c < LIST_NUM && 0 <= i < |lists[c]| ==> lists[c][i] in N)
    && (forall c, i, d, j :: 0 <= c < LIST_NUM && 0 <= i < |lists[c]| && 0 <= d < LIST_NUM && 0 <= j < |lists[d]| ==>
          (c != d || i != j) ==> lists[c][i] != lists[d][j])
  }

  // ---- The whole invariant -----------------------------------------------------------

  // A node other than those in X is free exactly when it is in the list for its size.
  ghost predicate Agree(m: Mem, N: set<int>, lists: FreeLists, X: set<int>) {
    && (forall c, i :: 0 <= c < LIST_NUM && 0 <= i < |lists[c]| && lists[c][i] !in X ==>
          !IsUsed(m, lists[c][i]) && ListOf(m, lists[c][i]) == c)
    && (forall a :: a in N && a !in X && !IsUsed(m, a) ==> Listed(m, lists, a))
  }

  // The list OS_MEM_HEAD picks for the size word of node a.
  function ListOf(m: Mem, a: int): int
  {
    var w := Rd(m, a + SIZE_AND_FLAG);
    if w < 0 then NONE else HeadIndex(w)
  }

  ghost predicate Listed(m: Mem, lists: FreeLists, a: int) {
    var c := ListOf(m, a);
    0 <= c < LIST_NUM && a in lists[c]
  }

  ghost predicate NoAdjacentFree(m: Mem, p: Pool, N: set<int>) {
    forall a :: a in N && a != EndNode(p) && !IsUsed(m, a) ==> IsUsed(m, NextNode(m, a))
  }

  // A used node carries the magic word in place of its list pointer.
  ghost predicate Magic(m: Mem, N: set<int>) {
    forall a :: a in N && IsUsed(m, a) ==> Rd(m, a + PREV) == WORD - 1 - a
  }

  ghost predicate WordAligned(N: set<int>) {
    forall a :: a in N ==> a % ALIGN_SIZE == 0
  }

  ghost predicate WellFormed(m: Mem, p: Pool, N: set<int>, lists: FreeLists) {
    && Chain(m, p, N)
    && Rings(m, p, lists)
    && Placed(N, lists)
    && Agree(m, N, lists, {})
    && NoAdjacentFree(m, p, N)
    && Magic(m, N)
    && WordAligned(N)
  }

  // ---- What a step may write ---------------------------------------------------------

  ghost predicate Header(p: Pool, N: set<int>, x: int) {
    p.base <= x < FirstNode(p) || exists a :: a in N && a <= x < a + NODE_HEAD_SIZE
  }

  // Only list heads and headers of N were written.
  ghost predicate HeadersOnly(m: Mem, m': Mem, p: Pool, N: set<int>) {
    && |m'| == |m|
    && (forall x {:trigger Rd(m', x)} :: !Header(p, N, x) ==> Rd(m', x) == Rd(m, x))
  }

  // No back pointer and no size word of N was written.
  ghost predicate SameNodes(m: Mem, m': Mem, N: set<int>) {
    && |m'| == |m|
    && (forall a :: a in N ==> Rd(m', a + PRE_NODE) == Rd(m, a + PRE_NODE))
    && (forall a :: a in N ==> Rd(m', a + SIZE_AND_FLAG) == Rd(m, a + SIZE_AND_FLAG))
  }

  lemma HeaderMono(p: Pool, N: set<int>, N': set<int>)
    requires N <= N'
    ensures forall x :: Header(p, N, x) ==> Header(p, N', x)
  {
    forall x | Header(p, N, x)
      ensures Header(p, N', x)
    {
      if !(p.base <= x < FirstNode(p)) {
        var a :| a in N && a <= x < a + NODE_HEAD_SIZE;
        assert a in N';
      }
    }
  }

  lemma ChainSameNodes(m: Mem, m': Mem, p: Pool, N: set<int>)
    requires Chain(m, p, N) && SameNodes(m, m', N)
    ensures Chain(m', p, N)
  {
    forall a | a in N && a != EndNode(p)
      ensures NodeOk(m', N, a)
    {
      assert NodeOk(m, N, a);
    }
  }

  lemma ChainGap(m: Mem, p: Pool, N: set<int>, a: int, b: int)
    requires Chain(m, p, N) && a in N && b in N && a < b
    ensures NextNode(m, a) <= b
  {
    assert NodeOk(m, N, a);
  }
}
