// What a request for memory asks of the heap: the block size it rounds to, the block it may
// get, and how a pointer leads back to the node it was carved from.

module PoolRequests {
  import opened Arith
  import opened MultiHead
  import opened PoolMemory
  import opened PoolChain
  import opened PoolSteps
  import opened PoolRings
  import opened PoolTiling

  // The free node after a that a split or a free swallows, if there is one.
  function FreeNext(m: Mem, a: int): set<int>
  {
    if IsUsed(m, NextNode(m, a)) then {} else {NextNode(m, a)}
  }

  // Every free node of at least n bytes is in list c or a later one.
  ghost predicate FitsFrom(m: Mem, N: set<int>, c: int, n: int) {
    forall b :: b in N && !IsUsed(m, b) && NodeSize(m, b) >= n ==> c != NONE && c <= ListOf(m, b)
  }

  lemma FitsStart(m: Mem, p: Pool, N: set<int>, lists: FreeLists, n: int)
    requires WellFormed(m, p, N, lists) && 0 <= n < WORD
    ensures FitsFrom(m, N, HeadIndex(n), n)
  {
    hide Rd, HeadIndex, WellFormed;
    forall b | b in N && !IsUsed(m, b) && NodeSize(m, b) >= n
      ensures HeadIndex(n) != NONE && HeadIndex(n) <= ListOf(m, b)
    {
      FreeIsListed(m, p, N, lists, b);
      HeadIndexMono(n, NodeSize(m, b));
    }
  }

  lemma FitsLater(m: Mem, p: Pool, N: set<int>, lists: FreeLists, c: nat, n: int)
    requires WellFormed(m, p, N, lists) && c < LIST_NUM && FitsFrom(m, N, c, n)
    requires forall i :: 0 <= i < |lists[c]| ==> NodeSize(m, lists[c][i]) < n
    ensures FitsFrom(m, N, NextHeadIndex(c), n)
  {
    hide Rd, HeadIndex, WellFormed;
    forall b | b in N && !IsUsed(m, b) && NodeSize(m, b) >= n
      ensures NextHeadIndex(c) != NONE && NextHeadIndex(c) <= ListOf(m, b)
    {
      FreeIsListed(m, p, N, lists, b);
    }
  }

  lemma FitInList(m: Mem, p: Pool, N: set<int>, lists: FreeLists, c: nat, k: nat, n: int)
    requires WellFormed(m, p, N, lists) && c < LIST_NUM && FitsFrom(m, N, c, n)
    requires k < |lists[c]| && NodeSize(m, lists[c][k]) >= n
    ensures BestFit(m, N, lists[c][k], n)
  {
    hide Rd, HeadIndex, WellFormed;
    var a := lists[c][k];
    ListedIsFree(m, p, N, lists, c, k);
    FreeIsListed(m, p, N, lists, a);
    ListedIndex(m, p, N, lists, c, k);
    forall b | b in N && !IsUsed(m, b) && NodeSize(m, b) >= n
      ensures NodeSize(m, a) < 2 * NodeSize(m, b) && ListOf(m, a) <= ListOf(m, b)
    {
      FreeIsListed(m, p, N, lists, b);
      if HeadIndex(NodeSize(m, b)) == c {
        SameListWithinTwice(NodeSize(m, a), NodeSize(m, b));
      } else if NodeSize(m, b) < NodeSize(m, a) {
        HeadIndexMono(NodeSize(m, b), NodeSize(m, a));
      }
    }
  }

  // a is a free node that holds n bytes, in the earliest list that has such a node.
  ghost predicate BestFit(m: Mem, N: set<int>, a: int, n: int) {
    && a in N && !IsUsed(m, a) && NodeSize(m, a) >= n
    && (forall b :: b in N && !IsUsed(m, b) && NodeSize(m, b) >= n ==> ListOf(m, a) <= ListOf(m, b))
    && (forall b :: b in N && !IsUsed(m, b) && NodeSize(m, b) >= n ==> NodeSize(m, a) < 2 * NodeSize(m, b))
  }

  lemma BestFitIsFree(m: Mem, N: set<int>, a: int, n: int)
    requires BestFit(m, N, a, n)
    ensures a in N && !IsUsed(m, a) && NodeSize(m, a) >= n
  {
  }

  // OS_MEM_ALIGN for a power of two, on 32-bit words.
  function AlignUp(x: int, boundary: int): int
    requires boundary > 0
  {
    var y := (x + boundary - 1) % WORD;
    y - y % boundary
  }

  // The block size osMemAllocWithCheck asks for.
  function AllocSize(size: int): int
  {
    AlignUp((size + NODE_HEAD_SIZE) % WORD, ALIGN_SIZE)
  }

  lemma AllocSizeBounds(size: int)
    requires 0 <= size < WORD
    ensures 0 <= AllocSize(size) < WORD && AllocSize(size) % ALIGN_SIZE == 0
    ensures size + NODE_HEAD_SIZE + 3 < WORD ==>
              size + NODE_HEAD_SIZE <= AllocSize(size) < size + NODE_HEAD_SIZE + ALIGN_SIZE
    ensures size + NODE_HEAD_SIZE + 3 >= WORD ==> AllocSize(size) <= NODE_HEAD_SIZE
  {
  }

  // The free node before a that a free merges into takes a's place.
  function FreeBefore(m: Mem, p: Pool, a: int): set<int>
  {
    if a == FirstNode(p) || IsUsed(m, PreNode(m, a)) then {} else {a}
  }

  lemma ReleaseView(m: Mem, m': Mem, p: Pool, N: set<int>, N': set<int>, lists: FreeLists, a: int)
    requires WellFormed(m, p, N, lists) && a in N && a != EndNode(p) && IsUsed(m, a)
    requires N' == N - FreeNext(m, a) - FreeBefore(m, p, a)
    requires forall x :: x in N' ==> (IsUsed(m', x) <==> IsUsed(m, x) && x != a)
    ensures View(m', N') == Release(View(m, N), a)
  {
    hide Rd, Rings, Placed, Agree;
    var t := View(m, N);
    NextAfter(m, p, N, a);
    if a != FirstNode(p) {
      PreIsBefore(m, p, N, a);
    }
    forall x | x in N
      ensures Swallowed(t, a, x) <==> x in FreeNext(m, a) + FreeBefore(m, p, a)
    {
      NextIsAdjacent(m, p, N, a, x);
      if x == a {
        BeforeIsAdjacent(m, p, N, a);
      }
    }
  }

  // The one node right before a, if any, is the one its back pointer names.
  lemma BeforeIsAdjacent(m: Mem, p: Pool, N: set<int>, a: int)
    requires Chain(m, p, N) && a in N
    ensures forall b :: Adjacent(View(m, N), b, a) <==> a != FirstNode(p) && b == PreNode(m, a)
  {
    hide Rd;
    if a != FirstNode(p) {
      PreIsBefore(m, p, N, a);
    }
    forall b
      ensures Adjacent(View(m, N), b, a) <==> a != FirstNode(p) && b == PreNode(m, a)
    {
      if b in N && b != EndNode(p) {
        NextIsAdjacent(m, p, N, b, a);
        NodeLinks(m, p, N, b);
      }
    }
  }

  // ---- Payload -----------------------------------------------------------------------

  // Word x belongs to the user of the block at a.
  predicate InPayload(m: Mem, a: int, x: int) { a + NODE_HEAD_SIZE <= x < NextNode(m, a) }

  // No word of a used block, other than the one at a, was written.
  ghost predicate PayloadKept(m: Mem, m': Mem, N: set<int>, a: int) {
    forall b, x {:trigger b in N, Rd(m', x)} ::
      b in N && b != a && IsUsed(m, b) && InPayload(m, b, x) ==> Rd(m', x) == Rd(m, x)
  }

  lemma PayloadIsNoHeader(m: Mem, p: Pool, N: set<int>, b: int)
    requires Chain(m, p, N) && b in N
    ensures forall x :: InPayload(m, b, x) ==> !Header(p, N, x)
  {
    hide Rd;
    if b != EndNode(p) {
      assert NodeOk(m, N, b);
    }
  }

  // A step that writes only headers of nodes that were there before keeps all payloads.
  lemma KeptByOld(m: Mem, m': Mem, p: Pool, N: set<int>)
    requires Chain(m, p, N) && HeadersOnly(m, m', p, N)
    ensures forall a :: PayloadKept(m, m', N, a)
  {
    hide Rd, Chain;
    forall b, x | b in N && InPayload(m, b, x)
      ensures Rd(m', x) == Rd(m, x)
    {
      PayloadIsNoHeader(m, p, N, b);
    }
  }

  // So does one that writes only headers of nodes that are there afterwards, if used blocks kept
  // their sizes.
  lemma KeptByNew(m: Mem, m': Mem, p: Pool, N: set<int>, N': set<int>, a: int)
    requires Chain(m', p, N') && HeadersOnly(m, m', p, N')
    requires forall b :: b in N && b != a && IsUsed(m, b) ==> b in N' && NodeSize(m', b) == NodeSize(m, b)
    ensures PayloadKept(m, m', N, a)
  {
    hide Rd, Chain;
    forall b, x | b in N && b != a && IsUsed(m, b) && InPayload(m, b, x)
      ensures Rd(m', x) == Rd(m, x)
    {
      PayloadIsNoHeader(m', p, N', b);
    }
  }

  // Users may write their payload: the heap stays as it is.
  lemma PayloadWrite(m: Mem, p: Pool, N: set<int>, lists: FreeLists, a: int, x: int, v: int)
    requires WellFormed(m, p, N, lists) && a in N && a != EndNode(p) && InPayload(m, a, x)
    ensures WellFormed(Wr(m, x, v), p, N, lists) && View(Wr(m, x, v), N) == View(m, N) && SameNodes(m, Wr(m, x, v), N)
    ensures 0 <= x < |m|
  {
    hide Rd, Wr, Rings, Agree, HeadIndex;
    NodeLinks(m, p, N, a);
    NodeInMem(m, p, N, NextNode(m, a));
    WrWords(m, x, v);
    var m' := Wr(m, x, v);
    PayloadElsewhere(m, p, N, a, x);
    ChainSameNodes(m, m', p, N);
    RingsFrame(m, m', p, N, lists);
    AgreeFrame(m, m', N, lists, {});
    MagicFrame(m, m', N, {});
    NeighboursFrame(m, m', p, N, {});
  }

  lemma PayloadElsewhere(m: Mem, p: Pool, N: set<int>, a: int, x: int)
    requires Chain(m, p, N) && a in N && a != EndNode(p) && InPayload(m, a, x)
    ensures x >= FirstNode(p)
    ensures forall b :: b in N ==> x != b + PREV && x != b + NEXT && x != b + PRE_NODE && x != b + SIZE_AND_FLAG
  {
    hide Rd;
    assert NodeOk(m, N, a);
  }

  // ---- Pointers ----------------------------------------------------------------------

  // The node LOS_MemFree and LOS_MemRealloc take a pointer to stand for: the word before the
  // pointer is either the node's size word or the gap LOS_MemAllocAlign left there.
  function Recover(m: Mem, ptr: int): int
  {
    var w := Rd(m, ptr - 4);
    (if GetAligned(w) then ptr - GetGap(w) - NODE_HEAD_SIZE else ptr - NODE_HEAD_SIZE) % WORD
  }

  ghost predicate Live(m: Mem, p: Pool, N: set<int>, a: int) {
    a in N && a != EndNode(p) && IsUsed(m, a)
  }

  // ptr points into the live block at a and leads back to it.
  ghost predicate Names(m: Mem, p: Pool, N: set<int>, ptr: int, a: int) {
    && Live(m, p, N, a)
    && Recover(m, ptr) == a
    && (ptr == a + NODE_HEAD_SIZE || InPayload(m, a, ptr - 4))
  }

  // An unshifted pointer leads back to its node exactly when the block is smaller than 2^30: the
  // size of a larger one has the bit that marks a gap word.
  lemma UnshiftedRecovers(m: Mem, p: Pool, N: set<int>, a: int)
    requires Chain(m, p, N) && a in N && a != EndNode(p) && IsUsed(m, a)
    ensures Recover(m, a + NODE_HEAD_SIZE) == a <==> NodeSize(m, a) < ALIGNED_FLAG
  {
    hide Rd;
    NodeInMem(m, p, N, a);
  }

  // A gap word leads back to the node.
  lemma ShiftedRecovers(m: Mem, p: Pool, N: set<int>, a: int, gap: int)
    requires Chain(m, p, N) && a in N && 0 <= gap < ALIGNED_FLAG
    requires Rd(m, a + NODE_HEAD_SIZE + gap - 4) == gap + ALIGNED_FLAG
    ensures Recover(m, a + NODE_HEAD_SIZE + gap) == a
  {
    hide Rd;
    NodeInMem(m, p, N, a);
  }

  // The size word of a node that has just been merged away is payload of the node before it.
  lemma StaleSizeWord(m: Mem, m': Mem, m'': Mem, p: Pool, N: set<int>, a: int)
    requires Chain(m, p, N) && a in N && a != FirstNode(p) && a != EndNode(p)
    requires !IsUsed(m, a) && !IsUsed(m, PreNode(m, a))
    requires m' == Merge(m, a) && HeadersOnly(m', m'', p, N - {a})
    ensures Rd(m'', a + SIZE_AND_FLAG) == Rd(m, a + SIZE_AND_FLAG)
  {
    hide Rd, Merge, Chain, HeadersOnly;
    PreIsBefore(m, p, N, a);
    NodeLinks(m, p, N, a);
    NodeLinks(m, p, N, PreNode(m, a));
    MergeWords(m, p, N, a);
    MergeChain(m, p, N, a);
    PayloadIsNoHeader(m', p, N - {a}, PreNode(m, a));
    assert InPayload(m', PreNode(m, a), a + SIZE_AND_FLAG);
    NotHeader(m', m'', p, N - {a}, a + SIZE_AND_FLAG);
  }

  lemma NotHeader(m: Mem, m': Mem, p: Pool, N: set<int>, x: int)
    requires HeadersOnly(m, m', p, N) && !Header(p, N, x)
    ensures Rd(m', x) == Rd(m, x)
  {
    hide Rd;
  }

  lemma SizeBelowPool(m: Mem, p: Pool, N: set<int>, a: int)
    requires Chain(m, p, N) && a in N && a != EndNode(p)
    ensures NODE_HEAD_SIZE <= NodeSize(m, a) < p.size && NodeSize(m, a) < USED_FLAG
  {
    hide Rd;
    NodeLinks(m, p, N, a);
  }

  lemma KeptButFree(m: Mem, m': Mem, N: set<int>, a: int)
    requires PayloadKept(m, m', N, a) && !IsUsed(m, a)
    ensures forall b :: PayloadKept(m, m', N, b)
  {
    hide Rd;
  }

  ghost predicate PowerOfTwo(b: int) {
    exists k: nat :: Pow2(k) == b
  }

  // A power of two of at least 4 below 2^31 is a multiple of 4 and at most 2^30.
  lemma BoundaryFacts(b: int)
    requires PowerOfTwo(b) && 4 <= b < USED_FLAG
    ensures b % ALIGN_SIZE == 0 && b <= ALIGNED_FLAG
  {
    var k: nat :| Pow2(k) == b;
    Pow2Low();
    Pow2High();
    if k < 2 {
      Pow2Mono(k, 1);
    }
    if k > 30 {
      Pow2Mono(31, k);
    }
    assert b == 4 * Pow2(k - 2);
    if k <= 30 {
      Pow2Mono(k, 30);
    }
  }

  lemma AlignUpParts(x: int, b: int) returns (k: nat)
    requires 0 <= x && 0 < b && x + b - 1 < WORD
    ensures AlignUp(x, b) == b * k && x <= AlignUp(x, b) < x + b
  {
    k := (x + b - 1) / b;
    DivModParts(x + b - 1, b);
  }

  lemma AlignUpFacts(x: int, b: int)
    requires 0 <= x && 0 < b && x + b - 1 < WORD
    ensures AlignUp(x, b) % b == 0 && x <= AlignUp(x, b) < x + b
    ensures b % 4 == 0 ==> AlignUp(x, b) % 4 == 0
  {
    hide AlignUp;
    var k := AlignUpParts(x, b);
    MultipleMod(b, k);
    if b % 4 == 0 {
      MultipleOfMultiple(b / 4, k);
    }
  }

  lemma MultipleOfMultiple(j: int, k: nat)
    requires j >= 0
    ensures ((4 * j) * k) % 4 == 0
  {
    assert (4 * j) * k == 4 * (j * k);
    NonNegative(j, k);
    MultipleMod(4, j * k);
  }

  lemma NonNegative(a: nat, b: nat)
    ensures a * b >= 0
  {
  }

  lemma MultipleMod(b: int, k: nat)
    requires b > 0
    ensures (b * k) % b == 0
  {
    RoundsModulo(0, k, b);
  }

  // The block an allocation of n bytes takes holds them, and too little more to be cut off.
  lemma OccupiedSize(m: Mem, m': Mem, p: Pool, N: set<int>, N': set<int>, a: int, n: int)
    requires Chain(m, p, N) && Chain(m', p, N') && a in N && a != EndNode(p) && 0 < n <= NodeSize(m, a)
    requires View(m', N') == Occupy(View(m, N), a, n)
    ensures a in N' && n <= NodeSize(m', a) < n + NODE_HEAD_SIZE + ALIGN_SIZE
  {
    hide Rd, Chain;
    var k := n + NODE_HEAD_SIZE + ALIGN_SIZE;
    FitsIsSize(m, p, N, a, n);
    FitsIsSize(m, p, N, a, k);
    FitsIsSize(m', p, N', a, n);
    FitsIsSize(m', p, N', a, k);
  }

  // The size LOS_MemAllocAlign asks for: room for the request, for any shift and for the gap word.
  function Padded(size: int, boundary: int): int
  {
    (size + boundary + 4) % WORD
  }

  // The block LOS_MemAllocAlign takes has room for the request exactly when the padded size does
  // not wrap.
  lemma AlignedRequestCovers(m: Mem, m': Mem, p: Pool, N: set<int>, N': set<int>, a: int, size: int, boundary: int)
    requires Chain(m, p, N) && Chain(m', p, N')
    requires 0 <= size < WORD && PowerOfTwo(boundary) && boundary < WORD && !GetUsed(Padded(size, boundary))
    requires BestFit(m, N, a, AllocSize(Padded(size, boundary)))
    requires View(m', N') == Occupy(View(m, N), a, AllocSize(Padded(size, boundary)))
    ensures NodeSize(m', a) - NODE_HEAD_SIZE >= size <==> size + boundary + 4 < WORD
  {
    hide Rd, Chain, View, Occupy, AllocSize;
    FreeNotEnd(m, p, N, a);
    WordBoundary(boundary);
    AllocSizeBounds(Padded(size, boundary));
    OccupiedSize(m, m', p, N, N', a, AllocSize(Padded(size, boundary)));
  }

  // A power of two that fits a word is at most 2^31.
  lemma WordBoundary(b: int)
    requires PowerOfTwo(b) && b < WORD
    ensures 0 < b <= USED_FLAG
  {
    var k: nat :| Pow2(k) == b;
    Pow2High();
    if k > 31 {
      Pow2Mono(32, k);
    } else {
      Pow2Mono(k, 31);
    }
  }

  // w | ALIGNED_FLAG
  function SetAligned(w: int): int { if GetAligned(w) then w else w + ALIGNED_FLAG }

  // The word LOS_MemAllocAlign leaves before a pointer it moved from ptr to q.
  function StoredGap(m: Mem, ptr: int, q: int): Mem
  {
    if q == ptr then m else Wr(m, (q - 4) % WORD, SetAligned((q - ptr) % WORD))
  }

  // Such an input: 2^31 bytes on a boundary of 2^31 bytes ask for a block of 20.
  lemma AlignedRequestWraps()
    ensures var size, boundary := 0x8000_0000, 0x8000_0000;
            && PowerOfTwo(boundary) && !GetUsed(Padded(size, boundary))
            && AllocSize(Padded(size, boundary)) == 20 && size + boundary + 4 >= WORD
  {
    Pow2High();
    assert Pow2(31) == 0x8000_0000;
  }

  // The arithmetic of LOS_MemAllocAlign inside a block that covers the request: a shifted pointer
  // leaves room for its gap word and for the request.
  lemma ShiftFits(m: Mem, p: Pool, N: set<int>, a: int, size: int, boundary: int)
    requires Chain(m, p, N) && WordAligned(N) && a in N && a != EndNode(p)
    requires PowerOfTwo(boundary) && 4 <= boundary && 0 <= size
    requires size + boundary + 4 < USED_FLAG
    requires NodeSize(m, a) >= size + boundary + 4 + NODE_HEAD_SIZE
    ensures var ptr := a + NODE_HEAD_SIZE; var q := AlignUp(ptr, boundary);
            && q % boundary == 0 && ptr <= q && q + size <= NextNode(m, a)
            && q - ptr < ALIGNED_FLAG
            && (q != ptr ==> InPayload(m, a, q - 4))
  {
    hide Rd, AlignUp, PowerOfTwo;
    NodeInMem(m, p, N, a);
    NodeLinks(m, p, N, a);
    NodeInMem(m, p, N, NextNode(m, a));
    BoundaryFacts(boundary);
    AlignUpFacts(a + NODE_HEAD_SIZE, boundary);
  }

  // Every used block other than the one at a is still there, used and of the same size.
  ghost predicate UsedKept(m: Mem, m': Mem, N: set<int>, N': set<int>, a: int) {
    forall b :: b in N && b != a && IsUsed(m, b) ==> b in N' && IsUsed(m', b) && NodeSize(m', b) == NodeSize(m, b)
  }

  lemma UsedKeptButFree(m: Mem, m': Mem, N: set<int>, N': set<int>, a: int)
    requires UsedKept(m, m', N, N', a) && !IsUsed(m, a)
    ensures forall b :: UsedKept(m, m', N, N', b)
  {
    hide Rd;
  }

  lemma KeptTrans(m: Mem, m': Mem, m'': Mem, N: set<int>, N': set<int>, N'': set<int>, a: int)
    requires PayloadKept(m, m', N, a) && UsedKept(m, m', N, N', a)
    requires PayloadKept(m', m'', N', a) && UsedKept(m', m'', N', N'', a)
    ensures PayloadKept(m, m'', N, a) && UsedKept(m, m'', N, N'', a)
  {
    hide Rd;
  }

  // A user's write changes no other block.
  lemma PayloadWriteKept(m: Mem, p: Pool, N: set<int>, a: int, x: int, v: int)
    requires Chain(m, p, N) && a in N && InPayload(m, a, x) && 0 <= x < |m|
    requires SameNodes(m, Wr(m, x, v), N)
    ensures PayloadKept(m, Wr(m, x, v), N, a) && UsedKept(m, Wr(m, x, v), N, N, a)
  {
    hide Rd, Wr;
    WrWords(m, x, v);
    forall b | b in N && b != a && IsUsed(m, b)
      ensures !InPayload(m, b, x)
    {
      if b < a {
        ChainGap(m, p, N, b, a);
      } else {
        ChainGap(m, p, N, a, b);
      }
    }
  }

  // Aligning a null pointer leaves it null.
  lemma AlignNull(b: int)
    requires 0 < b < WORD
    ensures AlignUp(0, b) == 0
  {
    SmallMod(b - 1, WORD);
    SmallMod(b - 1, b);
  }

  lemma SmallMod(x: int, n: int)
    requires 0 <= x < n
    ensures x % n == x
  {
  }

  lemma KeptRefl(m: Mem, N: set<int>)
    ensures forall b :: PayloadKept(m, m, N, b) && UsedKept(m, m, N, N, b)
  {
  }

  lemma ChainEnds(m: Mem, p: Pool, N: set<int>)
    requires Chain(m, p, N)
    ensures FirstNode(p) in N && EndNode(p) in N && forall a :: a in N ==> FirstNode(p) <= a <= EndNode(p)
  {
  }

  lemma WellFormedChain(m: Mem, p: Pool, N: set<int>, lists: FreeLists)
    requires WellFormed(m, p, N, lists)
    ensures Chain(m, p, N) && forall a :: a in N ==> a > 0
  {
    hide Rd;
  }

  lemma WellFormedIsWords(m: Mem, p: Pool, N: set<int>, lists: FreeLists)
    requires WellFormed(m, p, N, lists)
    ensures WordAligned(N)
  {
  }

  lemma FreedIsNotLive(m: Mem, m': Mem, p: Pool, N: set<int>, N': set<int>, a: int)
    requires View(m', N') == Release(View(m, N), a)
    ensures !Live(m', p, N', a)
  {
    hide Rd, Swallowed;
    assert a !in View(m', N').used;
  }

  // After a free, a pointer into the freed block still leads to the node it led to: always if its
  // gap word, which was payload, is still there; otherwise exactly when the size word left in the
  // header is at most 2^30.
  lemma StillRecovers(m: Mem, m': Mem, p: Pool, N: set<int>, ptr: int, a: int)
    requires Names(m, p, N, ptr, a) && PayloadKept(m, m', N, a - 1) && Chain(m, p, N)
    requires 0 <= Rd(m', a + SIZE_AND_FLAG) < USED_FLAG
    ensures Recover(m', ptr) == a <==> ptr != a + NODE_HEAD_SIZE || Rd(m', a + SIZE_AND_FLAG) <= ALIGNED_FLAG
  {
    hide Rd;
    NodeInMem(m, p, N, a);
    if ptr != a + NODE_HEAD_SIZE {
      assert Rd(m', ptr - 4) == Rd(m, ptr - 4);
    }
  }

  // The block a second free of the pointer would release, if the free that left N' leads it astray: the
  // excess of the freed block over 2^30 is taken for a gap.
  function Astray(m: Mem, a: int): int
  {
    (a - (NodeSize(m, a) - ALIGNED_FLAG)) % WORD
  }

  // A second free of a pointer is accepted exactly when the pointer was not shifted, the first free
  // left a block of more than 2^30 bytes there, and the node it then leads to is a used one.
  lemma SecondFreeIff(m: Mem, m': Mem, p: Pool, N: set<int>, N': set<int>, ptr: int, a: int)
    requires Names(m, p, N, ptr, a) && PayloadKept(m, m', N, a - 1) && Chain(m, p, N)
    requires 0 <= Rd(m', a + SIZE_AND_FLAG) < USED_FLAG && !Live(m', p, N', a)
    requires a !in N' ==> Rd(m', a + SIZE_AND_FLAG) == NodeSize(m, a)
    ensures Live(m', p, N', Recover(m', ptr)) <==>
            ptr == a + NODE_HEAD_SIZE && a in N' && NodeSize(m', a) > ALIGNED_FLAG && Live(m', p, N', Astray(m', a))
  {
    hide Rd;
    NodeInMem(m, p, N, a);
    StillRecovers(m, m', p, N, ptr, a);
    if ptr == a + NODE_HEAD_SIZE {
      UnshiftedRecovers(m, p, N, a);
    }
  }

  lemma AstrayIsRecovered(m: Mem, a: int)
    requires !IsUsed(m, a) && NodeSize(m, a) > ALIGNED_FLAG
    ensures Recover(m, a + NODE_HEAD_SIZE) == Astray(m, a)
  {
  }

  // ---- Several blocks at once --------------------------------------------------------

  // What happens to other blocks changes no pointer into this one.
  lemma NamesKept(m: Mem, m': Mem, p: Pool, N: set<int>, N': set<int>, ptr: int, a: int, b: int)
    requires Names(m, p, N, ptr, a) && a != b
    requires PayloadKept(m, m', N, b) && UsedKept(m, m', N, N', b)
    ensures Names(m', p, N', ptr, a)
  {
    hide Rd;
    if ptr != a + NODE_HEAD_SIZE {
      assert Rd(m', ptr - 4) == Rd(m, ptr - 4);
    }
  }

  // Nor does the user of the block by writing what was handed out.
  lemma NamesWritten(m: Mem, p: Pool, N: set<int>, ptr: int, a: int, x: int, v: int)
    requires Names(m, p, N, ptr, a) && ptr <= x < NextNode(m, a) && 0 <= x < |m|
    requires SameNodes(m, Wr(m, x, v), N)
    ensures Names(Wr(m, x, v), p, N, ptr, a)
  {
    hide Rd, Wr;
    WrWords(m, x, v);
  }

  // ---- Reallocation ------------------------------------------------------------------

  // Writing headers of old nodes and of one new node z inside or right behind the block at a keeps
  // every other payload, and a's own up to z.
  lemma KeptAround(m: Mem, m': Mem, p: Pool, N: set<int>, a: int, z: int)
    requires Chain(m, p, N) && a in N && a < z && HeadersOnly(m, m', p, N + {z})
    requires forall b :: b in N && b > a && IsUsed(m, b) ==> z + NODE_HEAD_SIZE <= b
    ensures PayloadKept(m, m', N, a)
    ensures forall x :: InPayload(m, a, x) && x < z ==> Rd(m', x) == Rd(m, x)
  {
    hide Rd, Chain, Header;
    forall b, x | b in N && IsUsed(m, b) && InPayload(m, b, x) && (b != a || x < z)
      ensures Rd(m', x) == Rd(m, x)
    {
      PayloadIsNoHeader(m, p, N, b);
      if b < a {
        ChainGap(m, p, N, b, a);
      }
      NotNewHeader(p, N, z, x);
    }
    forall x | InPayload(m, a, x) && x < z
      ensures Rd(m', x) == Rd(m, x)
    {
      PayloadIsNoHeader(m, p, N, a);
      NotNewHeader(p, N, z, x);
    }
  }

  lemma NotNewHeader(p: Pool, N: set<int>, z: int, x: int)
    requires !Header(p, N, x) && !(z <= x < z + NODE_HEAD_SIZE)
    ensures !Header(p, N + {z}, x)
  {
  }

  lemma ShrinkView(m: Mem, m': Mem, p: Pool, N: set<int>, N': set<int>, a: int, n: int)
    requires Chain(m, p, N) && Live(m, p, N, a) && n + NODE_HEAD_SIZE + ALIGN_SIZE <= NodeSize(m, a)
    requires N' == N - FreeNext(m, a) + {a + n} && a + n !in N
    requires forall x :: x in N' ==> (IsUsed(m', x) <==> x in N && IsUsed(m, x))
    ensures View(m', N') == Shrink(View(m, N), a, n)
  {
    hide Rd;
    FitsIsSize(m, p, N, a, n + NODE_HEAD_SIZE + ALIGN_SIZE);
    FreeNextIsAfter(m, p, N, a);
  }

  lemma FreeNextIsAfter(m: Mem, p: Pool, N: set<int>, a: int)
    requires Chain(m, p, N) && a in N && a != EndNode(p)
    ensures WithoutFreeAfter(View(m, N), a).nodes == N - FreeNext(m, a)
  {
    hide Rd;
    NodeLinks(m, p, N, a);
    forall x | x in N
      ensures Adjacent(View(m, N), a, x) <==> x == NextNode(m, a)
    {
      NextIsAdjacent(m, p, N, a, x);
    }
  }

  lemma GrowView(m: Mem, m': Mem, p: Pool, N: set<int>, N': set<int>, a: int, n: int, total: int)
    requires Chain(m, p, N) && Live(m, p, N, a) && !IsUsed(m, NextNode(m, a))
    requires total == NodeSize(m, a) + NodeSize(m, NextNode(m, a))
    requires N' == N - {NextNode(m, a)} + (if n + NODE_HEAD_SIZE + ALIGN_SIZE <= total then {a + n} else {})
    requires forall x :: x in N' ==>
               (IsUsed(m', x) <==> x in N && IsUsed(m, x) && (x == a + n ==> n + NODE_HEAD_SIZE + ALIGN_SIZE > total))
    requires n + NODE_HEAD_SIZE + ALIGN_SIZE <= total ==> a + n !in N - {NextNode(m, a)}
    ensures View(m', N') == Grow(View(m, N), a, n)
  {
    hide Rd;
    FreeNextIsAfter(m, p, N, a);
    NextAfter(m, p, N, a);
    var next := NextNode(m, a);
    NodeLinks(m, p, N, next);
    assert NodeOk(m, N, a) && NodeOk(m, N, next);
    var t := WithoutFreeAfter(View(m, N), a);
    assert t.nodes == N - {next};
    assert Fits(t, a, n + NODE_HEAD_SIZE + ALIGN_SIZE) <==> n + NODE_HEAD_SIZE + ALIGN_SIZE <= total by {
      assert NextNode(m, next) in t.nodes && NextNode(m, next) == a + total;
    }
  }

  lemma HeadersOnlyGrow(m: Mem, m': Mem, p: Pool, M: set<int>, M': set<int>)
    requires HeadersOnly(m, m', p, M) && M <= M'
    ensures HeadersOnly(m, m', p, M')
  {
    hide Rd;
    HeaderMono(p, M, M');
  }

  // Where a used node is cut: the cut is new, and what follows stays clear of it.
  lemma CutFacts(m: Mem, p: Pool, N: set<int>, lists: FreeLists, a: int, n: int)
    requires WellFormed(m, p, N, lists) && Live(m, p, N, a)
    requires NODE_HEAD_SIZE <= n && n + NODE_HEAD_SIZE <= NodeSize(m, a)
    ensures a + n !in N && NextNode(m, a) in N && a < NextNode(m, a)
    ensures forall b :: b in N && b > a ==> a + n + NODE_HEAD_SIZE <= b
    ensures !IsUsed(m, NextNode(m, a)) ==> NextNode(m, NextNode(m, a)) in N && NextNode(m, NextNode(m, a)) > a
                                           && IsUsed(m, NextNode(m, NextNode(m, a)))
  {
    hide Rd, Rings, Placed, Agree;
    assert NodeOk(m, N, a);
    if !IsUsed(m, NextNode(m, a)) {
      FreeNeighboursUsed(m, p, N, lists, NextNode(m, a));
      NextAfter(m, p, N, a);
    }
  }

  lemma NoShrink(m: Mem, p: Pool, N: set<int>, a: int, n: int)
    requires Chain(m, p, N) && a in N && a != EndNode(p) && n + NODE_HEAD_SIZE + ALIGN_SIZE > NodeSize(m, a)
    ensures Shrink(View(m, N), a, n) == View(m, N)
  {
    FitsIsSize(m, p, N, a, n + NODE_HEAD_SIZE + ALIGN_SIZE);
  }

  // The block a used node and the free node after it make together.
  lemma JoinFacts(m: Mem, p: Pool, N: set<int>, lists: FreeLists, a: int)
    requires WellFormed(m, p, N, lists) && Live(m, p, N, a) && !IsUsed(m, NextNode(m, a))
    ensures var next := NextNode(m, a);
            && next in N && a < next && IsUsed(m, NextNode(m, next)) && NextNode(m, next) in N
            && next < NextNode(m, next)
            && Rd(m, next + SIZE_AND_FLAG) == NodeSize(m, next) && next != EndNode(p)
            && (forall b :: b in N && b > a ==> b == next || NextNode(m, next) <= b)
            && NextNode(m, next) == a + NodeSize(m, a) + NodeSize(m, next)
  {
    hide Rd, Rings, Placed, Agree;
    assert NodeOk(m, N, a);
    FreeNeighboursUsed(m, p, N, lists, NextNode(m, a));
    NextAfter(m, p, N, a);
    assert NodeOk(m, N, NextNode(m, a));
  }

  lemma OwnPayloadKept(m: Mem, m': Mem, N: set<int>, a: int)
    requires forall b :: PayloadKept(m, m', N, b)
    requires a in N && IsUsed(m, a)
    ensures forall x :: InPayload(m, a, x) ==> Rd(m', x) == Rd(m, x)
  {
    hide Rd;
    assert PayloadKept(m, m', N, a - 1);
  }

  // The words at dst, up to len bytes, are those that were at src.
  ghost predicate Copied(m: Mem, m': Mem, dst: int, src: int, len: int) {
    forall x {:trigger Rd(m', x)} :: dst <= x < dst + len && (x - dst) % 4 == 0 ==> Rd(m', x) == Rd(m, src + (x - dst))
  }

  // One word of a copy into the block at a.
  lemma CopyStep(m: Mem, p: Pool, N: set<int>, lists: FreeLists, a: int, x: int, w: int)
    requires WellFormed(m, p, N, lists) && a in N && a != EndNode(p) && InPayload(m, a, x)
    ensures 0 <= x < |m|
    ensures WellFormed(Wr(m, x, w), p, N, lists) && View(Wr(m, x, w), N) == View(m, N)
    ensures PayloadKept(m, Wr(m, x, w), N, a) && UsedKept(m, Wr(m, x, w), N, N, a)
    ensures SameNodes(m, Wr(m, x, w), N)
    ensures Rd(Wr(m, x, w), x) == w
    ensures forall y {:trigger Rd(Wr(m, x, w), y)} :: y != x ==> Rd(Wr(m, x, w), y) == Rd(m, y)
  {
    hide Rd, Wr, PayloadKept, UsedKept, View, Rings, Agree, Placed, Chain;
    PayloadWrite(m, p, N, lists, a, x, w);
    PayloadWriteKept(m, p, N, a, x, w);
    WrWords(m, x, w);
  }

  lemma SizeIsWords(m: Mem, p: Pool, N: set<int>, a: int)
    requires Chain(m, p, N) && WordAligned(N) && a in N && a != EndNode(p)
    ensures NodeSize(m, a) % 4 == 0 && NodeSize(m, a) >= NODE_HEAD_SIZE && NextNode(m, a) + NODE_HEAD_SIZE <= |m|
  {
    hide Rd;
    NodeLinks(m, p, N, a);
    NodeInMem(m, p, N, NextNode(m, a));
  }

  // After the new block b has been allocated, the old one is still live, as long as it was, and
  // apart from the new one.
  lemma MoveFacts(m: Mem, m': Mem, p: Pool, N: set<int>, N': set<int>, a: int, b: int)
    requires Chain(m', p, N') && Live(m, p, N, a) && b in N && !IsUsed(m, b) && Live(m', p, N', b)
    requires UsedKept(m, m', N, N', b)
    ensures Live(m', p, N', a) && NodeSize(m', a) == NodeSize(m, a) && a != b
    ensures NextNode(m', a) <= b || NextNode(m', b) <= a
  {
    hide Rd;
    if a < b {
      ChainGap(m', p, N', a, b);
    } else {
      ChainGap(m', p, N', b, a);
    }
  }

  lemma LiveStays(m: Mem, m': Mem, p: Pool, N: set<int>, N': set<int>, a: int, b: int)
    requires UsedKept(m, m', N, N', a) && Live(m, p, N, b) && b != a
    ensures Live(m', p, N', b) && NodeSize(m', b) == NodeSize(m, b)
  {
    hide Rd;
  }

  lemma MoveCopied(m: Mem, m1: Mem, m2: Mem, m3: Mem, N: set<int>, N': set<int>, a: int, b: int, len: int)
    requires a in N && IsUsed(m, a) && len == NodeSize(m, a) - NODE_HEAD_SIZE
    requires forall x :: PayloadKept(m, m1, N, x)
    requires Copied(m1, m2, b + NODE_HEAD_SIZE, a + NODE_HEAD_SIZE, len)
    requires b in N' && IsUsed(m2, b) && len <= NodeSize(m2, b) - NODE_HEAD_SIZE
    requires forall x :: PayloadKept(m2, m3, N', x)
    ensures Copied(m, m3, b + NODE_HEAD_SIZE, a + NODE_HEAD_SIZE, len)
  {
    hide Rd;
    OwnPayloadKept(m, m1, N, a);
    OwnPayloadKept(m2, m3, N', b);
    forall x | b + NODE_HEAD_SIZE <= x < b + NODE_HEAD_SIZE + len && (x - (b + NODE_HEAD_SIZE)) % 4 == 0
      ensures Rd(m3, x) == Rd(m, a + NODE_HEAD_SIZE + (x - (b + NODE_HEAD_SIZE)))
    {
      assert InPayload(m2, b, x);
      assert Rd(m2, x) == Rd(m1, a + NODE_HEAD_SIZE + (x - (b + NODE_HEAD_SIZE)));
      assert InPayload(m, a, a + NODE_HEAD_SIZE + (x - (b + NODE_HEAD_SIZE)));
    }
  }

  lemma MoveKept(m: Mem, m1: Mem, m2: Mem, m3: Mem, N: set<int>, N': set<int>, N'': set<int>, a: int, b: int)
    requires b in N && !IsUsed(m, b)
    requires (forall x :: PayloadKept(m, m1, N, x)) && (forall x :: UsedKept(m, m1, N, N', x))
    requires PayloadKept(m1, m2, N', b) && UsedKept(m1, m2, N', N', b)
    requires (forall x :: PayloadKept(m2, m3, N', x)) && UsedKept(m2, m3, N', N'', a)
    ensures PayloadKept(m, m3, N, a) && UsedKept(m, m3, N, N'', a)
  {
    hide Rd;
    assert PayloadKept(m, m1, N, b) && UsedKept(m, m1, N, N', b) && PayloadKept(m2, m3, N', b);
    forall c, x | c in N && c != a && IsUsed(m, c) && InPayload(m, c, x)
      ensures Rd(m3, x) == Rd(m, x)
    {
      assert Rd(m1, x) == Rd(m, x);
      assert c in N' && IsUsed(m1, c) && InPayload(m1, c, x);
      assert Rd(m2, x) == Rd(m1, x);
      assert IsUsed(m2, c) && InPayload(m2, c, x);
    }
  }

  function Min(x: int, y: int): int { if x < y then x else y }

  // Can the used block at a become n bytes without moving?
  ghost predicate GrowsInPlace(m: Mem, a: int, n: int) {
    !IsUsed(m, NextNode(m, a)) && NodeSize(m, a) + NodeSize(m, NextNode(m, a)) >= n
  }

  ghost predicate CannotResize(m: Mem, N: set<int>, a: int, n: int) {
    NodeSize(m, a) < n && !GrowsInPlace(m, a, n) && forall b :: b in N && !IsUsed(m, b) ==> NodeSize(m, b) < n
  }

  // osMemReAllocSmaller cuts the block at a only if the rest can be a node. Is what it keeps one?
  ghost predicate CutIsSound(m: Mem, a: int, n: int) {
    n >= NODE_HEAD_SIZE || n + NODE_HEAD_SIZE + ALIGN_SIZE > NodeSize(m, a)
  }

  // The tiling after a successful reallocation of the block at a to n bytes, returned as r.
  ghost predicate Resized(m: Mem, N: set<int>, m': Mem, N': set<int>, a: int, n: int, r: int) {
    if NodeSize(m, a) >= n then
      r == a + NODE_HEAD_SIZE && View(m', N') == Shrink(View(m, N), a, n)
    else if GrowsInPlace(m, a, n) then
      r == a + NODE_HEAD_SIZE && View(m', N') == Grow(View(m, N), a, n)
    else
      BestFit(m, N, r - NODE_HEAD_SIZE, n) && View(m', N') == Release(Occupy(View(m, N), r - NODE_HEAD_SIZE, n), a)
  }

  // ---- Initialisation ----------------------------------------------------------------

  predicate PoolShape(m: Mem, p: Pool) {
    0 < p.base && MIN_POOL_SIZE <= p.size && p.base + p.size <= |m| <= WORD
  }

  function NoLists(): FreeLists { seq(LIST_NUM, _ => []) }

  ghost predicate EmptyRing(m: Mem, h: int) {
    Rd(m, h + NEXT) == h && Rd(m, h + PREV) == h
  }

  // The words of the single free node, before it is listed.
  lemma InitFirst(m: Mem, m': Mem, p: Pool, size: int)
    requires PoolShape(m, p) && Rings(m, p, NoLists())
    requires m' == Wr(Wr(m, FirstNode(p) + SIZE_AND_FLAG, size), FirstNode(p) + PRE_NODE, 0)
    ensures |m'| == |m| && Rings(m', p, NoLists())
    ensures Rd(m', FirstNode(p) + SIZE_AND_FLAG) == size && Rd(m', FirstNode(p) + PRE_NODE) == 0
  {
    hide Rd, Wr;
    WrWords(m, FirstNode(p) + SIZE_AND_FLAG, size);
    WrWords(Wr(m, FirstNode(p) + SIZE_AND_FLAG, size), FirstNode(p) + PRE_NODE, 0);
    RingsFrame(m, m', p, {}, NoLists());
  }

  lemma InitHead(m: Mem, p: Pool, c: int)
    requires PoolShape(m, p) && Rings(m, p, NoLists()) && 0 <= c < LIST_NUM
    ensures Rd(m, ListHead(p, c) + PREV) == ListHead(p, c) && Rd(m, ListHead(p, c) + NEXT) == ListHead(p, c)
    ensures 0 <= ListHead(p, c) && ListHead(p, c) + 8 <= FirstNode(p)
  {
    hide Rd;
    assert Ring(m, ListHead(p, c), NoLists()[c]);
  }

  lemma InitWellFormed(m: Mem, m': Mem, p: Pool, size: int, c: int)
    requires PoolIn(m, p) && p.base % 4 == 0 && p.size % 4 == 0 && size == EndNode(p) - FirstNode(p)
    requires 0 <= c < LIST_NUM && HeadIndex(size) == c
    requires Rings(m, p, NoLists()[c := [FirstNode(p)]])
    requires Rd(m, FirstNode(p) + SIZE_AND_FLAG) == size && PreNode(m, FirstNode(p)) == 0
    requires |m'| == |m| && Rd(m', EndNode(p) + PREV) == WORD - 1 - EndNode(p)
    requires PreNode(m', EndNode(p)) == FirstNode(p)
    requires Rd(m', EndNode(p) + SIZE_AND_FLAG) == USED_FLAG + NODE_HEAD_SIZE
    requires forall x {:trigger Rd(m', x)} :: !(EndNode(p) <= x < EndNode(p) + NODE_HEAD_SIZE) ==> Rd(m', x) == Rd(m, x)
    ensures WellFormed(m', p, {FirstNode(p), EndNode(p)}, NoLists()[c := [FirstNode(p)]])
    ensures View(m', {FirstNode(p), EndNode(p)}) == Tiling({FirstNode(p), EndNode(p)}, {EndNode(p)})
  {
    hide Rd, HeadIndex, Rings, Ring;
    var N, lists := {FirstNode(p), EndNode(p)}, NoLists()[c := [FirstNode(p)]];
    RingsFrame(m, m', p, {FirstNode(p)}, lists);
  }
}
