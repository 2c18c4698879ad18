// The words osMemSpitNode and osMemReAllocSmaller leave behind, for every number of bytes to keep,
// and what becomes of the heap when that is less than a header.

module PoolCut {
  import opened MultiHead
  import opened PoolMemory
  import opened PoolRings
  import opened PoolChain
  import opened PoolSteps
  import opened PoolRequests

  // A free node after b leaves its list and merges into b.
  function Absorbed(m: Mem, b: int): Mem
  {
    var next := NextNode(m, b);
    if IsUsed(m, next) then m else Merge(Unlink(m, next), next)
  }

  // The part of osMemSpitNode before the list head is looked up.
  function Cut(m: Mem, a: int, n: int): Mem { Absorbed(Split(m, a, n), a + n) }

  // The new node goes to the front of a list.
  function Inserted(m: Mem, p: Pool, b: int): Mem
  {
    if ListOf(m, b) == NONE then m else Link(m, ListHead(p, ListOf(m, b)), b)
  }

  // osMemSpitNode
  function Spit(m: Mem, p: Pool, a: int, n: int): Mem { Inserted(Cut(m, a, n), p, a + n) }

  // The node loses its flag, or gets it.
  function Unflagged(m: Mem, a: int): Mem { Wr(m, a + SIZE_AND_FLAG, NodeSize(m, a)) }

  function Flagged(m: Mem, a: int): Mem { Wr(m, a + SIZE_AND_FLAG, SetUsed(Rd(m, a + SIZE_AND_FLAG))) }

  // osMemReAllocSmaller
  function Smaller(m: Mem, p: Pool, a: int, n: int): Mem
  {
    if n + NODE_HEAD_SIZE + ALIGN_SIZE <= NodeSize(m, a) then Flagged(Spit(Unflagged(m, a), p, a, n), a) else m
  }

  // OS_MEM_HEAD finds a list for the rest that is cut off.
  predicate RestListed(m: Mem, a: int, n: int) { 0 <= ListOf(Cut(Unflagged(m, a), a, n), a + n) < LIST_NUM }

  // The memory is a well-formed heap, and a is a live block of it.
  ghost predicate Survives(m: Mem, p: Pool, a: int) {
    exists N: set<int>, lists: FreeLists :: WellFormed(m, p, N, lists) && Live(m, p, N, a)
  }

  // ---- Lengths ---------------------------------------------------------------------------------

  lemma SameLength(m: Mem, p: Pool, a: int, n: int)
    ensures |Unflagged(m, a)| == |Flagged(m, a)| == |Split(m, a, n)| == |Cut(m, a, n)| == |Spit(m, p, a, n)| == |m|
  {
    hide Rd, IsUsed, NextNode, ListOf;
    MergeLength(m, a);
    UnlinkLength(m, a);
    var s := Split(m, a, n);
    UnlinkLength(s, NextNode(s, a + n));
    MergeLength(Unlink(s, NextNode(s, a + n)), NextNode(s, a + n));
    LinkLength(Cut(m, a, n), ListHead(p, ListOf(Cut(m, a, n), a + n)), a + n);
    hide Merge, Unlink, Link;
  }

  lemma MergeLength(m: Mem, a: int)
    ensures |Merge(m, a)| == |m|
  {
    hide Rd;
  }

  lemma UnlinkLength(m: Mem, a: int)
    ensures |Unlink(m, a)| == |m|
  {
    hide Rd;
  }

  lemma LinkLength(m: Mem, h: int, a: int)
    ensures |Link(m, h, a)| == |m|
  {
    hide Rd;
  }

  // ---- Less than a header ------------------------------------------------------------------------

  // In a well-formed heap no list begins inside the header of a live block, nor at its start.
  lemma HeadIsNoHeader(m: Mem, p: Pool, N: set<int>, lists: FreeLists, a: int, n: int, c: int)
    requires WellFormed(m, p, N, lists) && Live(m, p, N, a) && 0 <= n < NODE_HEAD_SIZE && 0 <= c < LIST_NUM
    ensures Rd(m, ListHead(p, c) + NEXT) != a + n
  {
    hide Rd;
    assert Ring(m, ListHead(p, c), lists[c]);
    if lists[c] != [] {
      assert lists[c][0] in N && !IsUsed(m, lists[c][0]);
    }
  }

  // The last two writes: the head of the list points at the new node, and the kept node has its flag.
  lemma HeadPointsAt(m: Mem, p: Pool, a: int, n: int)
    requires PoolIn(m, p) && FirstNode(p) <= a && n + NODE_HEAD_SIZE + ALIGN_SIZE <= NodeSize(m, a)
    requires RestListed(m, a, n)
    ensures var c := ListOf(Cut(Unflagged(m, a), a, n), a + n);
            Rd(Smaller(m, p, a, n), ListHead(p, c) + NEXT) == a + n
  {
    hide Rd, Split, Absorbed, ListOf;
    var u := Unflagged(m, a);
    var cut := Cut(u, a, n);
    SameLength(m, p, a, n);
    SameLength(u, p, a, n);
    var h := ListHead(p, ListOf(cut, a + n));
    LinkedHead(cut, h, a + n);
    LinkLength(cut, h, a + n);
    hide Cut, Unflagged, Link, Flagged;
    FlagElsewhere(Link(cut, h, a + n), a, h + NEXT);
  }

  lemma LinkedHead(m: Mem, h: int, b: int)
    requires 0 <= h + NEXT < |m|
    ensures Rd(Link(m, h, b), h + NEXT) == b
  {
    var m1 := Wr(m, b + NEXT, Rd(m, h + NEXT));
    var m2 := Wr(m1, b + PREV, h);
    var m3 := Wr(m2, Rd(m2, h + NEXT) + PREV, b);
    assert |m3| == |m|;
    WrWords(m3, h + NEXT, b);
    hide Rd, Wr;
  }

  lemma FlagElsewhere(m: Mem, a: int, x: int)
    requires x != a + SIZE_AND_FLAG
    ensures Rd(Flagged(m, a), x) == Rd(m, x)
  {
  }

  // Cutting a block down to less than a header leaves no heap with that block, once the rest has gone
  // into a list.
  lemma CutBreaks(m: Mem, p: Pool, a: int, n: int)
    requires PoolIn(m, p) && FirstNode(p) <= a && !CutIsSound(m, a, n) && 0 <= n && RestListed(m, a, n)
    ensures !Survives(Smaller(m, p, a, n), p, a)
  {
    hide Rd, Smaller, RestListed;
    var m' := Smaller(m, p, a, n);
    var c := ListOf(Cut(Unflagged(m, a), a, n), a + n);
    HeadPointsAt(m, p, a, n);
    ListRange(m, a, n);
    forall N: set<int>, lists: FreeLists | WellFormed(m', p, N, lists) && Live(m', p, N, a)
      ensures false
    {
      HeadIsNoHeader(m', p, N, lists, a, n, c);
    }
  }

  lemma ListRange(m: Mem, a: int, n: int)
    requires RestListed(m, a, n)
    ensures 0 <= ListOf(Cut(Unflagged(m, a), a, n), a + n) < LIST_NUM
  {
  }

  // ---- When the rest has a list --------------------------------------------------------------------

  // Only the words a split writes have changed.
  ghost predicate SameBut(m: Mem, s: Mem, a: int, b: int, next: int) {
    forall x {:trigger Rd(s, x)} ::
      x != a + SIZE_AND_FLAG && x != b + PRE_NODE && x != b + SIZE_AND_FLAG && x != next + PRE_NODE ==>
        Rd(s, x) == Rd(m, x)
  }

  // The header writes when 8 or 12 bytes are kept: the new header overlaps the old one, but not its
  // size word.
  lemma LowSplit(m: Mem, p: Pool, N: set<int>, a: int, n: int)
    requires Chain(m, p, N) && Live(m, p, N, a) && (n == 8 || n == 12)
    requires n + NODE_HEAD_SIZE + ALIGN_SIZE <= NodeSize(m, a)
    ensures var (s, b, next) := (Split(Unflagged(m, a), a, n), a + n, NextNode(m, a));
            && Rd(s, b + SIZE_AND_FLAG) == NodeSize(m, a) - n && NextNode(s, b) == next && Rd(s, next + PRE_NODE) == b
            && SameBut(m, s, a, b, next)
  {
    NodeInMem(m, p, N, a);
    NodeLinks(m, p, N, a);
    NodeInMem(m, p, N, NextNode(m, a));
    SizeBelowPool(m, p, N, a);
    hide Chain;
  }

  // What a deletion writes, when neither neighbour is the node itself.
  lemma UnlinkKeeps(m: Mem, y: int, x: int)
    requires Rd(m, y + NEXT) != y && x != Rd(m, y + NEXT) + PREV && x != Rd(m, y + PREV) + NEXT
    requires x != y + PREV && x != y + NEXT
    ensures Rd(Unlink(m, y), x) == Rd(m, x)
  {
  }

  // The node after a free one, when both are merged into the node its back pointer names.
  lemma MergedSize(m: Mem, y: int, b: int)
    requires Rd(m, y + PRE_NODE) == b && 0 <= b + SIZE_AND_FLAG < |m| && b + NODE_HEAD_SIZE <= y
    requires Rd(m, y + SIZE_AND_FLAG) >= NODE_HEAD_SIZE
    ensures Rd(Merge(m, y), b + SIZE_AND_FLAG) == Rd(m, b + SIZE_AND_FLAG) + Rd(m, y + SIZE_AND_FLAG)
  {
  }

  // The neighbours of a listed node are list heads or other nodes.
  lemma Neighbours(m: Mem, p: Pool, N: set<int>, lists: FreeLists, y: int)
    requires WellFormed(m, p, N, lists) && y in N && !IsUsed(m, y)
    ensures Rd(m, y + NEXT) != y && (Rd(m, y + NEXT) < FirstNode(p) - 4 || Rd(m, y + NEXT) in N)
    ensures Rd(m, y + PREV) != y && (Rd(m, y + PREV) < FirstNode(p) - 4 || Rd(m, y + PREV) in N)
  {
    hide Rd, HeadIndex, Magic, NoAdjacentFree, WordAligned;
    assert Listed(m, lists, y);
    var c := ListOf(m, y);
    var k :| 0 <= k < |lists[c]| && lists[c][k] == y;
    assert Ring(m, ListHead(p, c), lists[c]) && RingAt(m, ListHead(p, c), lists[c], k);
    ChainEnds(m, p, N);
  }

  lemma RestSize(m: Mem, p: Pool, N: set<int>, lists: FreeLists, a: int, n: int)
    requires WellFormed(m, p, N, lists) && Live(m, p, N, a) && (n == 8 || n == 12)
    requires n + NODE_HEAD_SIZE + ALIGN_SIZE <= NodeSize(m, a)
    ensures 0 <= Rd(Cut(Unflagged(m, a), a, n), a + n + SIZE_AND_FLAG) < USED_FLAG
  {
    hide Rd, Split, Unlink, Merge, Unflagged, WellFormed, Chain;
    WellFormedChain(m, p, N, lists);
    var s, b, y := Split(Unflagged(m, a), a, n), a + n, NextNode(m, a);
    LowSplit(m, p, N, a, n);
    NodeLinks(m, p, N, a);
    SizeBelowPool(m, p, N, a);
    NodeInMem(m, p, N, a);
    NodeInMem(m, p, N, y);
    SameLength(m, p, a, n);
    SameLength(Unflagged(m, a), p, a, n);
    if !IsUsed(m, y) {
      RestWithNext(m, p, N, lists, a, n, s);
    }
  }

  lemma RestWithNext(m: Mem, p: Pool, N: set<int>, lists: FreeLists, a: int, n: int, s: Mem)
    requires WellFormed(m, p, N, lists) && Live(m, p, N, a) && 0 <= n && |s| == |m|
    requires n + NODE_HEAD_SIZE + ALIGN_SIZE <= NodeSize(m, a)
    requires var (b, y) := (a + n, NextNode(m, a));
             && Rd(s, b + SIZE_AND_FLAG) == NodeSize(m, a) - n && Rd(s, y + PRE_NODE) == b && !IsUsed(m, y)
             && SameBut(m, s, a, b, y)
    ensures var (b, y) := (a + n, NextNode(m, a));
            0 <= Rd(Merge(Unlink(s, y), y), b + SIZE_AND_FLAG) < USED_FLAG
  {
    hide Rd, Unlink, Merge, WellFormed, Chain, NextNode, NodeSize;
    WellFormedChain(m, p, N, lists);
    var b, y := a + n, NextNode(m, a);
    JoinedSize(m, p, N, lists, a);
    NodesApart(m, p, N, a, y);
    Neighbours(m, p, N, lists, y);
    var t := Unlink(s, y);
    UnlinkLength(s, y);
    UnlinkKeeps(s, y, b + SIZE_AND_FLAG);
    UnlinkKeeps(s, y, y + PRE_NODE);
    UnlinkKeeps(s, y, y + SIZE_AND_FLAG);
    MergedSize(t, y, b);
  }

  // A live block and the free one after it together stay below 2^31 bytes.
  lemma JoinedSize(m: Mem, p: Pool, N: set<int>, lists: FreeLists, a: int)
    requires WellFormed(m, p, N, lists) && Live(m, p, N, a) && !IsUsed(m, NextNode(m, a))
    ensures var y := NextNode(m, a);
            && y in N && y == a + NodeSize(m, a) && 0 < a && y + NODE_HEAD_SIZE <= |m|
            && NODE_HEAD_SIZE <= Rd(m, y + SIZE_AND_FLAG) && NodeSize(m, a) + Rd(m, y + SIZE_AND_FLAG) < USED_FLAG
  {
    hide Rd, Rings, Placed, Agree;
    NodeInMem(m, p, N, a);
    JoinFacts(m, p, N, lists, a);
    NodeInMem(m, p, N, NextNode(m, a));
    ChainEnds(m, p, N);
    NodeLinks(m, p, N, NextNode(m, a));
  }

  // No node begins between a and the node after it, nor close to either.
  lemma NodesApart(m: Mem, p: Pool, N: set<int>, a: int, y: int)
    requires Chain(m, p, N) && a in N && a != EndNode(p) && y == NextNode(m, a)
    ensures forall l :: l in N && l != y ==> l == a || l + NODE_HEAD_SIZE <= a || y + NODE_HEAD_SIZE <= l
    ensures FirstNode(p) <= a && y in N
  {
    hide Rd;
    assert NodeOk(m, N, a);
  }

  // A block cut down to 8 or 12 bytes always has a list for the rest.
  lemma RestIsListed(m: Mem, p: Pool, N: set<int>, lists: FreeLists, a: int, n: int)
    requires WellFormed(m, p, N, lists) && Live(m, p, N, a) && (n == 8 || n == 12)
    requires n + NODE_HEAD_SIZE + ALIGN_SIZE <= NodeSize(m, a)
    ensures RestListed(m, a, n)
  {
    hide Rd, Cut, Unflagged, WellFormed, Chain, ListOf;
    RestSize(m, p, N, lists, a, n);
    SizeHasList(Cut(Unflagged(m, a), a, n), a + n);
  }

  lemma SizeHasList(m: Mem, b: int)
    requires 0 <= Rd(m, b + SIZE_AND_FLAG) < USED_FLAG
    ensures 0 <= ListOf(m, b) < LIST_NUM
  {
    hide Rd, HeadIndex;
    HeadIndexRange(Rd(m, b + SIZE_AND_FLAG));
  }

  // Keeping nothing: the new header is the old one, taken for the node after itself.
  lemma NothingSplit(m: Mem, a: int)
    requires 0 <= a && a + NODE_HEAD_SIZE <= |m| && NodeSize(m, a) > 0
    ensures var s := Split(Unflagged(m, a), a, 0);
            && Rd(s, a + SIZE_AND_FLAG) == 0 && Rd(s, a + PREV) == Rd(m, a + PREV) && Rd(s, a + NEXT) == Rd(m, a + NEXT)
  {
  }

  // Deleting and merging a node that is its own neighbour leaves its size word.
  lemma SelfAbsorbed(s: Mem, a: int)
    requires 0 <= a && a + NODE_HEAD_SIZE <= |s| && Rd(s, a + SIZE_AND_FLAG) == 0
    requires Rd(s, a + NEXT) != a + SIZE_AND_FLAG && Rd(s, a + PREV) + NEXT != a + SIZE_AND_FLAG
    ensures Rd(Merge(Unlink(s, a), a), a + SIZE_AND_FLAG) == 0
  {
    SelfUnlinked(s, a);
    UnlinkLength(s, a);
    SelfMerged(Unlink(s, a), a);
    hide Rd, Merge, Unlink;
  }

  lemma SelfUnlinked(s: Mem, a: int)
    requires 0 <= a && a + NODE_HEAD_SIZE <= |s| && Rd(s, a + SIZE_AND_FLAG) == 0
    requires Rd(s, a + NEXT) != a + SIZE_AND_FLAG && Rd(s, a + PREV) + NEXT != a + SIZE_AND_FLAG
    ensures Rd(Unlink(s, a), a + SIZE_AND_FLAG) == 0
  {
  }

  lemma SelfMerged(s: Mem, a: int)
    requires 0 <= a && a + NODE_HEAD_SIZE <= |s| && Rd(s, a + SIZE_AND_FLAG) == 0
    ensures Rd(Merge(s, a), a + SIZE_AND_FLAG) == 0
  {
  }

  // A block cut down to nothing has a list for the rest, unless its task id is the address of its own
  // size word.
  lemma NothingIsListed(m: Mem, p: Pool, N: set<int>, lists: FreeLists, a: int)
    requires WellFormed(m, p, N, lists) && Live(m, p, N, a) && Rd(m, a + NEXT) != a + SIZE_AND_FLAG
    ensures RestListed(m, a, 0)
  {
    hide Rd, Split, Unflagged, Merge, Unlink, WellFormed, ListOf;
    WordsOfLive(m, p, N, lists, a);
    SameLength(m, p, a, 0);
    SameLength(Unflagged(m, a), p, a, 0);
    NothingLeft(m, a);
    SizeHasList(Cut(Unflagged(m, a), a, 0), a);
  }

  lemma NothingLeft(m: Mem, a: int)
    requires 0 <= a && a + NODE_HEAD_SIZE <= |m| && a % 4 == 0 && NodeSize(m, a) > 0
    requires |Split(Unflagged(m, a), a, 0)| == |m|
    requires Rd(m, a + PREV) == WORD - 1 - a && Rd(m, a + NEXT) != a + SIZE_AND_FLAG
    ensures Rd(Cut(Unflagged(m, a), a, 0), a + SIZE_AND_FLAG) == 0
  {
    hide Rd, Split, Unflagged, Merge, Unlink;
    var s := Split(Unflagged(m, a), a, 0);
    NothingSplit(m, a);
    MagicIsOdd(a);
    SelfAbsorbed(s, a);
    assert NextNode(s, a) == a;
  }

  lemma MagicIsOdd(a: int)
    requires a % 4 == 0
    ensures WORD - 1 - a + NEXT != a + SIZE_AND_FLAG
  {
  }

  lemma WordsOfLive(m: Mem, p: Pool, N: set<int>, lists: FreeLists, a: int)
    requires WellFormed(m, p, N, lists) && Live(m, p, N, a)
    ensures FirstNode(p) <= a && 0 < FirstNode(p) && a + NODE_HEAD_SIZE <= |m| && a % 4 == 0 && |m| <= WORD
    ensures NodeSize(m, a) >= NODE_HEAD_SIZE && Rd(m, a + PREV) == WORD - 1 - a
  {
    hide Rd, Rings, Placed, Agree;
    NodeInMem(m, p, N, a);
    NodeLinks(m, p, N, a);
  }

  // Keeping four bytes: the new header's back pointer is the old one's size word, so the address of the
  // block is taken for its size, and the next node for one at twice the address.
  lemma FourSplit(m: Mem, a: int)
    requires NODE_HEAD_SIZE < a < USED_FLAG && a + 20 <= |m| <= 2 * a && NodeSize(m, a) > 0
    ensures var s := Split(Unflagged(m, a), a, 4);
            Rd(s, a + 4 + SIZE_AND_FLAG) == a - 4 && |s| == |m|
  {
  }

  // Beyond the memory there is a free node of size 0, as far as the model goes.
  lemma BeyondAbsorbed(s: Mem, y: int, x: int)
    requires |s| <= y && NODE_HEAD_SIZE <= x < |s|
    ensures !IsUsed(s, y) && Rd(Merge(Unlink(s, y), y), x) == Rd(s, x)
  {
    assert Rd(Unlink(s, y), x) == Rd(s, x);
  }

  // A block cut down to four bytes has a list for the rest if twice its address is beyond the memory.
  lemma FourIsListed(m: Mem, p: Pool, N: set<int>, lists: FreeLists, a: int)
    requires WellFormed(m, p, N, lists) && Live(m, p, N, a) && NodeSize(m, a) >= 24
    requires a < USED_FLAG && |m| <= 2 * a
    ensures RestListed(m, a, 4)
  {
    var s := Split(Unflagged(m, a), a, 4);
    WordsOfLive(m, p, N, lists, a);
    RoomOfLive(m, p, N, a);
    FourSplit(m, a);
    hide Rd, Split, Unflagged, Merge, Unlink, WellFormed, ListOf, Chain;
    BeyondAbsorbed(s, 2 * a, a + 4 + SIZE_AND_FLAG);
    assert NextNode(s, a + 4) == 2 * a;
    SizeHasList(Cut(Unflagged(m, a), a, 4), a + 4);
  }

  lemma RoomOfLive(m: Mem, p: Pool, N: set<int>, a: int)
    requires Chain(m, p, N) && a in N && a != EndNode(p)
    ensures a + NodeSize(m, a) + NODE_HEAD_SIZE <= |m|
  {
    hide Rd;
    NodeLinks(m, p, N, a);
    NodeInMem(m, p, N, NextNode(m, a));
  }

  lemma WellFormedIsPool(m: Mem, p: Pool, N: set<int>, lists: FreeLists)
    requires WellFormed(m, p, N, lists)
    ensures PoolIn(m, p)
  {
  }

  lemma ItSurvives(m: Mem, p: Pool, N: set<int>, lists: FreeLists, a: int)
    requires WellFormed(m, p, N, lists) && Live(m, p, N, a)
    ensures Survives(m, p, a)
  {
  }
}
