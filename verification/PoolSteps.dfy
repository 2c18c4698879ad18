// The steps every heap operation is made of. Between steps a few nodes are "in hand": their
// flag, list or neighbours may be out of order. Each lemma takes one step and says what is
// still in hand afterwards; an operation is back to a well-formed heap when nothing is.

module PoolSteps {
  import opened MultiHead
  import opened PoolMemory
  import opened PoolRings
  import opened PoolChain

  ghost predicate Unlisted(lists: FreeLists, a: int) {
    forall c :: 0 <= c < LIST_NUM ==> a !in lists[c]
  }

  // No two adjacent free nodes, apart from those in hand.
  ghost predicate NoAdjacentFreeBut(m: Mem, p: Pool, N: set<int>, X: set<int>) {
    forall a {:trigger NextNode(m, a)} ::
      a in N && a != EndNode(p) && !IsUsed(m, a) && a !in X && NextNode(m, a) !in X ==> IsUsed(m, NextNode(m, a))
  }

  ghost predicate MagicBut(m: Mem, N: set<int>, X: set<int>) {
    forall a :: a in N && IsUsed(m, a) && a !in X ==> Rd(m, a + PREV) == WORD - 1 - a
  }

  // A well-formed heap, apart from the nodes X in hand.
  ghost predicate Loose(m: Mem, p: Pool, N: set<int>, lists: FreeLists, X: set<int>) {
    && Chain(m, p, N)
    && Rings(m, p, lists)
    && Placed(N, lists)
    && WordAligned(N)
    && Agree(m, N, lists, X)
    && NoAdjacentFreeBut(m, p, N, X)
    && MagicBut(m, N, X)
    && X <= N && EndNode(p) !in X
  }

  // The magic cell of no unlisted node of N was written, and nothing but headers of M.
  ghost predicate Quiet(m: Mem, m': Mem, p: Pool, M: set<int>, N: set<int>, lists: FreeLists) {
    && HeadersOnly(m, m', p, M)
    && (forall a :: a in N && Unlisted(lists, a) ==> Rd(m', a + PREV) == Rd(m, a + PREV))
  }

  lemma WellFormedIsLoose(m: Mem, p: Pool, N: set<int>, lists: FreeLists, X: set<int>)
    requires WellFormed(m, p, N, lists) && X <= N && EndNode(p) !in X
    ensures Loose(m, p, N, lists, X)
  {
    hide Rd, Chain, Rings, Placed;
  }

  lemma LooseIsWellFormed(m: Mem, p: Pool, N: set<int>, lists: FreeLists)
    requires Loose(m, p, N, lists, {})
    ensures WellFormed(m, p, N, lists)
  {
    hide Rd, Chain, Rings, Placed;
  }

  lemma RingsFrame(m: Mem, m': Mem, p: Pool, N: set<int>, lists: FreeLists)
    requires Rings(m, p, lists) && Placed(N, lists) && SameLinks(m, m', p, N)
    ensures Rings(m', p, lists)
  {
    hide Rd;
    forall c | 0 <= c < LIST_NUM
      ensures Ring(m', ListHead(p, c), lists[c])
    {
      assert Ring(m, ListHead(p, c), lists[c]);
      RingFrame(m, m', ListHead(p, c), lists[c]);
    }
  }

  lemma NodeInMem(m: Mem, p: Pool, N: set<int>, a: int)
    requires Chain(m, p, N) && a in N
    ensures 0 < FirstNode(p) <= a && a + NODE_HEAD_SIZE <= |m| && 0 <= Rd(m, a + SIZE_AND_FLAG) < WORD
  {
    hide Rd;
  }

  // What a merge computes lies in memory.
  lemma MergeStores(m: Mem, p: Pool, N: set<int>, a: int)
    requires Chain(m, p, N) && a in N && a != FirstNode(p) && a != EndNode(p)
    requires !IsUsed(m, a) && !IsUsed(m, PreNode(m, a))
    ensures var (pre, m1) := (PreNode(m, a), Wr(m, PreNode(m, a) + SIZE_AND_FLAG,
                                                Rd(m, PreNode(m, a) + SIZE_AND_FLAG) + Rd(m, a + SIZE_AND_FLAG)));
            && |m1| == |m| && 0 <= pre && pre + NODE_HEAD_SIZE <= |m| && 0 <= a && a + NODE_HEAD_SIZE <= |m|
            && 0 <= a + Rd(m1, a + SIZE_AND_FLAG) && a + Rd(m1, a + SIZE_AND_FLAG) + NODE_HEAD_SIZE <= |m|
    ensures forall x: int, v: int, k: Mem :: |Wr(k, x, v)| == |k|
  {
    MergeWords(m, p, N, a);
    NodeInMem(m, p, N, a);
    NodeInMem(m, p, N, PreNode(m, a));
    NodeInMem(m, p, N, NextNode(m, a));
    hide Chain;
  }

  lemma AgreeFrame(m: Mem, m': Mem, N: set<int>, lists: FreeLists, X: set<int>)
    requires Agree(m, N, lists, X) && Placed(N, lists)
    requires forall x :: x in N && x !in X ==> Rd(m', x + SIZE_AND_FLAG) == Rd(m, x + SIZE_AND_FLAG)
    ensures Agree(m', N, lists, X)
  {
    hide Rd, HeadIndex;
  }

  lemma MagicFrame(m: Mem, m': Mem, N: set<int>, X: set<int>)
    requires MagicBut(m, N, X)
    requires forall x :: x in N && x !in X ==> Rd(m', x + SIZE_AND_FLAG) == Rd(m, x + SIZE_AND_FLAG)
    requires forall x :: x in N && x !in X && IsUsed(m, x) ==> Rd(m', x + PREV) == Rd(m, x + PREV)
    ensures MagicBut(m', N, X)
  {
    hide Rd;
  }

  // Clearing or setting the flag of a node already in hand.
  lemma FlagStep(m: Mem, p: Pool, N: set<int>, lists: FreeLists, X: set<int>, a: int, w: int)
    requires Loose(m, p, N, lists, X) && a in X
    requires 0 <= w < WORD && GetSize(w) == NodeSize(m, a)
    ensures var m' := Wr(m, a + SIZE_AND_FLAG, w);
            && Loose(m', p, N, lists, X)
            && Rd(m', a + SIZE_AND_FLAG) == w
            && (forall x :: x in N && x != a ==> Rd(m', x + SIZE_AND_FLAG) == Rd(m, x + SIZE_AND_FLAG))
            && Quiet(m, m', p, N, N, lists)
  {
    hide Wr, Rd, Rings, Placed, Agree, Chain, HeadersOnly, NoAdjacentFreeBut, MagicBut;
    var m' := Wr(m, a + SIZE_AND_FLAG, w);
    FlagChain(m, p, N, a, w);
    RingsFrame(m, m', p, N, lists);
    NodeInMem(m, p, N, a);
    WrWords(m, a + SIZE_AND_FLAG, w);
    FlagNeighbours(m, p, N, X, a, w);
    AgreeFrame(m, m', N, lists, X);
    MagicFrame(m, m', N, X);
  }

  lemma FlagNeighbours(m: Mem, p: Pool, N: set<int>, X: set<int>, a: int, w: int)
    requires Chain(m, p, N) && a in N && a != EndNode(p) && a in X && NoAdjacentFreeBut(m, p, N, X)
    requires 0 <= w < WORD && GetSize(w) == NodeSize(m, a)
    ensures NoAdjacentFreeBut(Wr(m, a + SIZE_AND_FLAG, w), p, N, X)
  {
    hide Wr, Rd;
    WrWords(m, a + SIZE_AND_FLAG, w);
    var m' := Wr(m, a + SIZE_AND_FLAG, w);
    forall x | x in N && x != EndNode(p) && !IsUsed(m', x) && x !in X && NextNode(m', x) !in X
      ensures IsUsed(m', NextNode(m', x))
    {
      assert NodeOk(m, N, x);
      assert NextNode(m', x) == NextNode(m, x);
    }
  }

  // Taking more nodes in hand.
  lemma TakeInHand(m: Mem, p: Pool, N: set<int>, lists: FreeLists, X: set<int>, X': set<int>)
    requires Loose(m, p, N, lists, X) && X <= X' <= N && EndNode(p) !in X'
    ensures Loose(m, p, N, lists, X')
  {
    hide Rd, Chain, Rings, Placed, HeadIndex;
  }

  // A used, unlisted node with its magic word is no longer in hand.
  lemma SettleUsed(m: Mem, p: Pool, N: set<int>, lists: FreeLists, X: set<int>, a: int)
    requires Loose(m, p, N, lists, X) && a in X && IsUsed(m, a) && Unlisted(lists, a)
    requires Rd(m, a + PREV) == WORD - 1 - a
    ensures Loose(m, p, N, lists, X - {a})
  {
    hide Rd, Chain, Rings, Placed, HeadIndex;
  }

  lemma LooseParts(m: Mem, p: Pool, N: set<int>, lists: FreeLists, X: set<int>)
    requires Loose(m, p, N, lists, X)
    ensures Chain(m, p, N) && Rings(m, p, lists) && Placed(N, lists) && X <= N
  {
  }

  // LOS_ListDelete of a node in hand.
  lemma UnlistStep(m: Mem, p: Pool, N: set<int>, lists: FreeLists, X: set<int>, c: nat, k: nat)
    requires Loose(m, p, N, lists, X) && c < LIST_NUM && k < |lists[c]| && lists[c][k] in X
    ensures var y, m', lists' := lists[c][k], Unlink(m, lists[c][k]), lists[c := Omit(lists[c], k)];
            && Loose(m', p, N, lists', X)
            && SameNodes(m, m', N) && Quiet(m, m', p, N, N, lists)
            && Unlisted(lists', y)
            && (forall x :: Unlisted(lists, x) ==> Unlisted(lists', x))
            && (forall d :: 0 <= d < LIST_NUM ==> forall x :: x in lists[d] && x != y ==> x in lists'[d])
  {
    hide Unlink, Rd, Rings, HeadIndex, NodeOk, HeadersOnly;
    var y, m', lists' := lists[c][k], Unlink(m, lists[c][k]), lists[c := Omit(lists[c], k)];
    UnlinkRings(m, p, N, lists, c, k);
    ChainSameNodes(m, m', p, N);
    OmitPlaced(N, lists, c, k);
    OmitAgree(m, m', N, lists, X, c, k);
    UnlistMagic(m, m', N, lists, X, c);
    NeighboursFrame(m, m', p, N, X);
  }

  lemma NeighboursFrame(m: Mem, m': Mem, p: Pool, N: set<int>, X: set<int>)
    requires Chain(m, p, N) && NoAdjacentFreeBut(m, p, N, X) && SameNodes(m, m', N)
    ensures NoAdjacentFreeBut(m', p, N, X)
  {
    hide Rd;
    forall a | a in N && a != EndNode(p) && !IsUsed(m', a) && a !in X && NextNode(m', a) !in X
      ensures IsUsed(m', NextNode(m', a))
    {
      assert NodeOk(m, N, a);
      assert NextNode(m', a) == NextNode(m, a);
    }
  }

  lemma OmitAgree(m: Mem, m': Mem, N: set<int>, lists: FreeLists, X: set<int>, c: nat, k: nat)
    requires Agree(m, N, lists, X) && Placed(N, lists) && SameNodes(m, m', N)
    requires c < LIST_NUM && k < |lists[c]| && lists[c][k] in X
    ensures Agree(m', N, lists[c := Omit(lists[c], k)], X)
  {
    hide Rd, HeadIndex;
    var lists' := lists[c := Omit(lists[c], k)];
    forall d, i | 0 <= d < LIST_NUM && 0 <= i < |lists'[d]| && lists'[d][i] !in X
      ensures !IsUsed(m', lists'[d][i]) && ListOf(m', lists'[d][i]) == d
    {
      var i0 := if d == c && i >= k then i + 1 else i;
      assert lists'[d][i] == lists[d][i0];
    }
    forall a | a in N && a !in X && !IsUsed(m', a)
      ensures Listed(m', lists', a)
    {
      assert Listed(m, lists, a);
      OmitPlaced(N, lists, c, k);
    }
  }

  // A used node outside X is in no list, so a write to links of listed nodes spares its magic.
  lemma UnlistMagic(m: Mem, m': Mem, N: set<int>, lists: FreeLists, X: set<int>, c: nat)
    requires MagicBut(m, N, X) && Agree(m, N, lists, X) && SameNodes(m, m', N) && c < LIST_NUM
    requires forall b :: b in N && b !in lists[c] ==> Rd(m', b + PREV) == Rd(m, b + PREV)
    ensures MagicBut(m', N, X)
  {
    hide Rd, HeadIndex;
    forall a | a in N && IsUsed(m', a) && a !in X
      ensures Rd(m', a + PREV) == WORD - 1 - a
    {
      assert a !in lists[c];
    }
  }

  // osMemMergeNode of a node in hand into the node before it, also in hand.
  lemma MergeStep(m: Mem, p: Pool, N: set<int>, lists: FreeLists, X: set<int>, y: int)
    requires Loose(m, p, N, lists, X) && y in X && y != FirstNode(p) && PreNode(m, y) in X
    requires !IsUsed(m, y) && !IsUsed(m, PreNode(m, y)) && Unlisted(lists, y)
    ensures var m', pre := Merge(m, y), PreNode(m, y);
            && Loose(m', p, N - {y}, lists, X - {y})
            && pre in N && pre < y && !IsUsed(m', pre) && NextNode(m', pre) == NextNode(m, y)
            && NextNode(m, pre) == y && NextNode(m, y) in N
            && (forall x :: x in N && x != pre ==> Rd(m', x + SIZE_AND_FLAG) == Rd(m, x + SIZE_AND_FLAG))
            && Quiet(m, m', p, N, N - {y}, lists)
  {
    hide Merge, Rd, Rings, HeadIndex, NodeOk, HeadersOnly, Agree, Chain, SameLinks;
    var m', pre := Merge(m, y), PreNode(m, y);
    MergeWords(m, p, N, y);
    MergeChain(m, p, N, y);
    MergeEffect(m, p, N, y);
    UnlistedPlaced(N, lists, y);
    RingsFrame(m, m', p, N - {y}, lists);
    MergeAgree(m, m', p, N, lists, X, y);
    MergeNeighbours(m, m', p, N, X, y);
    LinksKept(m, m', p, N - {y});
    assert IsUsed(m', pre) == (NodeSize(m, pre) + NodeSize(m, y) >= USED_FLAG);
    NodeInMem(m, p, N, NextNode(m, y));
  }

  lemma LinksKept(m: Mem, m': Mem, p: Pool, N: set<int>)
    requires SameLinks(m, m', p, N)
    ensures forall b :: b in N ==> Rd(m', b + PREV) == Rd(m, b + PREV)
  {
  }

  lemma UnlistedPlaced(N: set<int>, lists: FreeLists, y: int)
    requires Placed(N, lists) && Unlisted(lists, y)
    ensures Placed(N - {y}, lists)
  {
  }

  lemma MergeAgree(m: Mem, m': Mem, p: Pool, N: set<int>, lists: FreeLists, X: set<int>, y: int)
    requires Agree(m, N, lists, X) && Placed(N, lists) && Unlisted(lists, y) && PreNode(m, y) in X
    requires forall x :: x in N && x != PreNode(m, y) ==> Rd(m', x + SIZE_AND_FLAG) == Rd(m, x + SIZE_AND_FLAG)
    ensures Agree(m', N - {y}, lists, X - {y})
  {
    hide Rd, HeadIndex;
    assert forall c, i :: 0 <= c < LIST_NUM && 0 <= i < |lists[c]| ==> lists[c][i] != y;
  }

  lemma MergeNeighbours(m: Mem, m': Mem, p: Pool, N: set<int>, X: set<int>, y: int)
    requires Chain(m, p, N) && NoAdjacentFreeBut(m, p, N, X) && y in X && PreNode(m, y) in X
    requires forall x :: x in N && x != PreNode(m, y) ==> Rd(m', x + SIZE_AND_FLAG) == Rd(m, x + SIZE_AND_FLAG)
    ensures NoAdjacentFreeBut(m', p, N - {y}, X - {y})
  {
    hide Rd;
    forall a | a in N - {y} && a != EndNode(p) && !IsUsed(m', a) && a !in X - {y} && NextNode(m', a) !in X - {y}
      ensures IsUsed(m', NextNode(m', a))
    {
      assert NodeOk(m, N, a);
      assert NextNode(m', a) == NextNode(m, a);
      assert PreNode(m, NextNode(m, a)) == a;
    }
  }

  // The header writes of osMemSpitNode on a node in hand; both halves are then in hand.
  lemma SplitStep(m: Mem, p: Pool, N: set<int>, lists: FreeLists, X: set<int>, a: int, n: int)
    requires Loose(m, p, N, lists, X) && a in X && Splittable(m, p, N, a, n) && n % ALIGN_SIZE == 0
    ensures var m', b := Split(m, a, n), a + n;
            && Loose(m', p, N + {b}, lists, X + {b})
            && b !in N && Unlisted(lists, b)
            && Rd(m', a + SIZE_AND_FLAG) == n && Rd(m', b + SIZE_AND_FLAG) == NodeSize(m, a) - n
            && NextNode(m', b) == NextNode(m, a) && NextNode(m, a) in N && PreNode(m', b) == a
            && !IsUsed(m', a) && !IsUsed(m', b)
            && (forall x :: x in N && x != a ==> Rd(m', x + SIZE_AND_FLAG) == Rd(m, x + SIZE_AND_FLAG))
            && Quiet(m, m', p, N + {b}, N, lists)
  {
    hide Split, Rd, Rings, HeadIndex, NodeOk, HeadersOnly, Agree, Chain, SameLinks, Placed, MagicBut, NoAdjacentFreeBut;
    var m', b := Split(m, a, n), a + n;
    NodeInMem(m, p, N, a);
    SplitWords(m, p, N, a, n);
    SplitSpaced(m, p, N, a, n);
    SplitChain(m, p, N, a, n);
    SplitEffect(m, p, N, a, n);
    NodeInMem(m', p, N + {b}, a);
    UnlistedNew(N, lists, b);
    RingsFrame(m, m', p, N, lists);
    SplitAgree(m, m', N, lists, X, a, b);
    SplitNeighbours(m, m', p, N, X, a, b);
    SplitMagic(m, m', p, N, X, a, b);
    LinksKept(m, m', p, N);
  }

  lemma UnlistedNew(N: set<int>, lists: FreeLists, b: int)
    requires Placed(N, lists) && b !in N
    ensures Unlisted(lists, b) && Placed(N + {b}, lists)
  {
  }

  lemma SplitAgree(m: Mem, m': Mem, N: set<int>, lists: FreeLists, X: set<int>, a: int, b: int)
    requires Agree(m, N, lists, X) && Placed(N, lists) && a in X && b !in N
    requires forall x :: x in N && x != a ==> Rd(m', x + SIZE_AND_FLAG) == Rd(m, x + SIZE_AND_FLAG)
    ensures Agree(m', N + {b}, lists, X + {b})
  {
    hide Rd, HeadIndex;
  }

  lemma SplitMagic(m: Mem, m': Mem, p: Pool, N: set<int>, X: set<int>, a: int, b: int)
    requires MagicBut(m, N, X) && a in X && SameLinks(m, m', p, N)
    requires forall x :: x in N && x != a ==> Rd(m', x + SIZE_AND_FLAG) == Rd(m, x + SIZE_AND_FLAG)
    ensures MagicBut(m', N + {b}, X + {b})
  {
    hide Rd;
  }

  lemma SplitNeighbours(m: Mem, m': Mem, p: Pool, N: set<int>, X: set<int>, a: int, b: int)
    requires Chain(m, p, N) && NoAdjacentFreeBut(m, p, N, X) && a in X
    requires forall x :: x in N && x != a ==> Rd(m', x + SIZE_AND_FLAG) == Rd(m, x + SIZE_AND_FLAG)
    ensures NoAdjacentFreeBut(m', p, N + {b}, X + {b})
  {
    hide Rd;
    forall x | x in N + {b} && x != EndNode(p) && !IsUsed(m', x) && x !in X + {b} && NextNode(m', x) !in X + {b}
      ensures IsUsed(m', NextNode(m', x))
    {
      assert NodeOk(m, N, x);
      assert NextNode(m', x) == NextNode(m, x);
    }
  }

  // Is the node before y absent, used or in hand?
  ghost predicate BackSettled(m: Mem, p: Pool, X: set<int>, y: int) {
    y == FirstNode(p) || IsUsed(m, PreNode(m, y)) || PreNode(m, y) in X
  }

  // LOS_ListAdd of a free node whose neighbours are not free: it is no longer in hand.
  lemma InsertStep(m: Mem, p: Pool, N: set<int>, lists: FreeLists, X: set<int>, y: int)
    requires Loose(m, p, N, lists, X) && y in X && !IsUsed(m, y) && Unlisted(lists, y)
    requires IsUsed(m, NextNode(m, y)) && BackSettled(m, p, X - {y}, y)
    ensures var c := ListOf(m, y);
            && 0 <= c < LIST_NUM
            && Loose(Link(m, ListHead(p, c), y), p, N, lists[c := [y] + lists[c]], X - {y})
            && SameNodes(m, Link(m, ListHead(p, c), y), N)
            && HeadersOnly(m, Link(m, ListHead(p, c), y), p, N)
            && (forall x :: x in N && x != y && Unlisted(lists, x) ==>
                  Rd(Link(m, ListHead(p, c), y), x + PREV) == Rd(m, x + PREV))
  {
    hide Link, Rd, Rings, HeadIndex, NodeOk, HeadersOnly;
    NodeInMem(m, p, N, y);
    HeadIndexRange(Rd(m, y + SIZE_AND_FLAG));
    var c := ListOf(m, y);
    var m', lists' := Link(m, ListHead(p, c), y), lists[c := [y] + lists[c]];
    LinkRings(m, p, N, lists, c, y);
    ChainSameNodes(m, m', p, N);
    InsertAgree(m, m', N, lists, X, c, y);
    InsertMagic(m, m', N, lists, X, c, y);
    NeighboursFrame(m, m', p, N, X);
    InsertNeighbours(m, m', p, N, X, y);
  }

  lemma InsertAgree(m: Mem, m': Mem, N: set<int>, lists: FreeLists, X: set<int>, c: nat, y: int)
    requires Agree(m, N, lists, X) && Placed(N, lists) && SameNodes(m, m', N)
    requires c < LIST_NUM && y in N && !IsUsed(m, y) && ListOf(m, y) == c && Unlisted(lists, y)
    ensures Agree(m', N, lists[c := [y] + lists[c]], X - {y})
  {
    hide Rd, HeadIndex;
    var lists' := lists[c := [y] + lists[c]];
    forall d, i | 0 <= d < LIST_NUM && 0 <= i < |lists'[d]| && lists'[d][i] !in X - {y}
      ensures !IsUsed(m', lists'[d][i]) && ListOf(m', lists'[d][i]) == d
    {
      if d != c {
        assert lists'[d][i] == lists[d][i];
      } else if i > 0 {
        assert lists'[d][i] == lists[d][i - 1];
      } else {
        assert lists'[d][i] == y;
      }
    }
    forall a | a in N && a !in X - {y} && !IsUsed(m', a)
      ensures Listed(m', lists', a)
    {
      if a != y {
        assert Listed(m, lists, a);
      }
    }
  }

  lemma InsertMagic(m: Mem, m': Mem, N: set<int>, lists: FreeLists, X: set<int>, c: nat, y: int)
    requires MagicBut(m, N, X) && Agree(m, N, lists, X) && SameNodes(m, m', N) && c < LIST_NUM
    requires y in N && !IsUsed(m, y)
    requires forall b :: b in N && b !in lists[c] && b != y ==> Rd(m', b + PREV) == Rd(m, b + PREV)
    ensures MagicBut(m', N, X - {y})
  {
    hide Rd, HeadIndex;
    forall a | a in N && IsUsed(m', a) && a !in X - {y}
      ensures Rd(m', a + PREV) == WORD - 1 - a
    {
      assert a !in lists[c];
    }
  }

  lemma InsertNeighbours(m: Mem, m': Mem, p: Pool, N: set<int>, X: set<int>, y: int)
    requires Chain(m, p, N) && Chain(m', p, N) && NoAdjacentFreeBut(m', p, N, X) && SameNodes(m, m', N)
    requires y in X && y in N && y != EndNode(p) && IsUsed(m, NextNode(m, y)) && BackSettled(m, p, X - {y}, y)
    ensures NoAdjacentFreeBut(m', p, N, X - {y})
  {
    hide Rd;
    assert NodeOk(m, N, y);
    forall a | a in N && a != EndNode(p) && !IsUsed(m', a) && a !in X - {y} && NextNode(m', a) !in X - {y}
      ensures IsUsed(m', NextNode(m', a))
    {
      assert NodeOk(m, N, a) && NextNode(m', a) == NextNode(m, a);
    }
  }

  // The link cells of a node in hand and in no list may be written freely.
  lemma OwnLinkStep(m: Mem, p: Pool, N: set<int>, lists: FreeLists, X: set<int>, a: int, x: int, v: int)
    requires Loose(m, p, N, lists, X) && a in X && Unlisted(lists, a) && LinkCell(x, a)
    ensures var m' := Wr(m, x, v);
            && Loose(m', p, N, lists, X) && Rd(m', x) == v && SameNodes(m, m', N) && HeadersOnly(m, m', p, N)
            && (forall y {:trigger Rd(m', y)} :: y != x ==> Rd(m', y) == Rd(m, y))
  {
    hide Wr, Rd, HeadIndex, NodeOk, Rings, Agree;
    var m' := Wr(m, x, v);
    NodeInMem(m, p, N, a);
    WrWords(m, x, v);
    OwnLinkSame(m, m', p, N, a, x);
    ChainSameNodes(m, m', p, N);
    UnlistedPlaced(N, lists, a);
    RingsFrame(m, m', p, N - {a}, lists);
    AgreeFrame(m, m', N, lists, X);
    MagicFrame(m, m', N, X);
    NeighboursFrame(m, m', p, N, X);
  }

  lemma OwnLinkSame(m: Mem, m': Mem, p: Pool, N: set<int>, a: int, x: int)
    requires Chain(m, p, N) && a in N && LinkCell(x, a) && |m'| == |m|
    requires forall y {:trigger Rd(m', y)} :: y != x ==> Rd(m', y) == Rd(m, y)
    ensures SameNodes(m, m', N) && SameLinks(m, m', p, N - {a}) && HeadersOnly(m, m', p, N)
  {
    hide Rd;
  }

  // A listed node's links point into memory, and not at itself.
  lemma ListedLinks(m: Mem, p: Pool, N: set<int>, lists: FreeLists, c: nat, k: nat)
    requires Chain(m, p, N) && Placed(N, lists) && Rings(m, p, lists) && c < LIST_NUM && k < |lists[c]|
    ensures var a := lists[c][k];
            && a in N
            && 0 <= Rd(m, a + PREV) && Rd(m, a + PREV) + 8 <= |m|
            && 0 <= Rd(m, a + NEXT) && Rd(m, a + NEXT) + 8 <= |m| && Rd(m, a + NEXT) != a
  {
    hide Rd;
    assert Ring(m, ListHead(p, c), lists[c]);
    assert RingAt(m, ListHead(p, c), lists[c], k);
  }

  lemma HeadLinks(m: Mem, p: Pool, N: set<int>, lists: FreeLists, c: nat)
    requires Chain(m, p, N) && Placed(N, lists) && Rings(m, p, lists) && c < LIST_NUM
    ensures 0 <= Rd(m, ListHead(p, c) + NEXT) && Rd(m, ListHead(p, c) + NEXT) + 8 <= |m|
    ensures 0 <= ListHead(p, c) && ListHead(p, c) + 8 <= |m|
  {
    hide Rd;
    assert Ring(m, ListHead(p, c), lists[c]);
  }

  // Where a free node not in hand is listed.
  lemma FindListed(m: Mem, p: Pool, N: set<int>, lists: FreeLists, X: set<int>, a: int) returns (c: nat, k: nat)
    requires Loose(m, p, N, lists, X) && a in N && a !in X && !IsUsed(m, a)
    ensures c < LIST_NUM && k < |lists[c]| && lists[c][k] == a && a != EndNode(p)
  {
    hide Rd, HeadIndex, Rings, Placed;
    assert Listed(m, lists, a);
    c := ListOf(m, a);
    k :| 0 <= k < |lists[c]| && lists[c][k] == a;
  }

  lemma NodeLinks(m: Mem, p: Pool, N: set<int>, a: int)
    requires Chain(m, p, N) && a in N && a != EndNode(p)
    ensures NextNode(m, a) in N && a + NODE_HEAD_SIZE <= NextNode(m, a) && PreNode(m, NextNode(m, a)) == a
    ensures NextNode(m, a) != FirstNode(p)
  {
    hide Rd;
    assert NodeOk(m, N, a);
  }

  lemma QuietTrans(m: Mem, m': Mem, m'': Mem, p: Pool, M: set<int>, N: set<int>, N': set<int>,
                   lists: FreeLists, lists': FreeLists)
    requires Quiet(m, m', p, M, N, lists) && Quiet(m', m'', p, M, N', lists') && N' <= N
    requires forall x :: Unlisted(lists, x) ==> Unlisted(lists', x)
    ensures Quiet(m, m'', p, M, N', lists)
  {
    hide Rd, Unlisted;
  }

  lemma QuietRefl(m: Mem, p: Pool, M: set<int>, N: set<int>, lists: FreeLists)
    ensures Quiet(m, m, p, M, N, lists)
  {
  }

  // The addresses osMemSpitNode writes are in memory.
  lemma SplitInMem(m: Mem, p: Pool, N: set<int>, a: int, n: int)
    requires Chain(m, p, N) && Splittable(m, p, N, a, n)
    ensures 0 <= a && a + NODE_HEAD_SIZE <= a + n && a + n + NODE_HEAD_SIZE <= NextNode(m, a)
    ensures NextNode(m, a) + NODE_HEAD_SIZE <= |m| && NextNode(m, a) in N
    ensures Rd(m, a + SIZE_AND_FLAG) == NodeSize(m, a) < USED_FLAG
  {
    hide Rd;
    NodeLinks(m, p, N, a);
  }

  lemma FreeNotEnd(m: Mem, p: Pool, N: set<int>, a: int)
    requires Chain(m, p, N) && a in N && !IsUsed(m, a)
    ensures a != EndNode(p)
  {
  }

  lemma HeadInMem(m: Mem, p: Pool, N: set<int>, c: int, a: int)
    requires Chain(m, p, N) && 0 <= c < LIST_NUM && a in N
    ensures 0 <= ListHead(p, c) && ListHead(p, c) + 8 <= |m| && ListHead(p, c) + 8 <= a
  {
  }

  lemma HeadersOnlyTrans(m: Mem, m': Mem, m'': Mem, p: Pool, M: set<int>, M': set<int>)
    requires HeadersOnly(m, m', p, M) && HeadersOnly(m', m'', p, M') && M' <= M
    ensures HeadersOnly(m, m'', p, M)
  {
    hide Rd;
    HeaderMono(p, M', M);
  }

  lemma UsedUnlisted(m: Mem, N: set<int>, lists: FreeLists, X: set<int>, a: int)
    requires Agree(m, N, lists, X) && IsUsed(m, a) && a !in X
    ensures Unlisted(lists, a)
  {
    hide Rd, HeadIndex;
  }

  // In a well-formed heap the node before a free node is used, and so is the node after it.
  lemma FreeNeighboursUsed(m: Mem, p: Pool, N: set<int>, lists: FreeLists, a: int)
    requires WellFormed(m, p, N, lists) && a in N && !IsUsed(m, a)
    ensures a != EndNode(p) && NextNode(m, a) in N && IsUsed(m, NextNode(m, a))
    ensures a != FirstNode(p) ==> PreNode(m, a) in N && NextNode(m, PreNode(m, a)) == a && IsUsed(m, PreNode(m, a))
  {
    hide Rd, Rings, Placed, Agree;
    FreeNotEnd(m, p, N, a);
    NodeLinks(m, p, N, a);
    if a != FirstNode(p) {
      PreIsBefore(m, p, N, a);
    }
  }

  // A node before a, known by its size word, is still before a.
  lemma StillBefore(m: Mem, m': Mem, p: Pool, N: set<int>, q: int, a: int)
    requires Chain(m', p, N) && q in N && q != EndNode(p) && NextNode(m, q) == a
    requires Rd(m', q + SIZE_AND_FLAG) == Rd(m, q + SIZE_AND_FLAG)
    ensures PreNode(m', a) == q
  {
    hide Rd;
    NodeLinks(m', p, N, q);
  }

  // What follows a node, two nodes deep.
  lemma NextAfter(m: Mem, p: Pool, N: set<int>, a: int)
    requires Chain(m, p, N) && a in N && a != EndNode(p)
    ensures var next := NextNode(m, a);
            && next in N && a < next
            && (!IsUsed(m, next) ==> next != EndNode(p) && NextNode(m, next) in N && next < NextNode(m, next))
  {
    hide Rd;
    NodeLinks(m, p, N, a);
    if !IsUsed(m, NextNode(m, a)) {
      FreeNotEnd(m, p, N, NextNode(m, a));
      NodeLinks(m, p, N, NextNode(m, a));
    }
  }

  // Clearing the flag of a used node of a well-formed heap: its neighbours, as osMemFreeNode sees them.
  lemma ReleaseFacts(m: Mem, m': Mem, p: Pool, N: set<int>, lists: FreeLists, a: int)
    requires WellFormed(m, p, N, lists) && a in N && a != EndNode(p)
    requires Chain(m', p, N) && NodeSize(m', a) == NodeSize(m, a)
    requires forall x :: x in N && x != a ==> Rd(m', x + SIZE_AND_FLAG) == Rd(m, x + SIZE_AND_FLAG)
    ensures NextNode(m', a) == NextNode(m, a) && (IsUsed(m', NextNode(m', a)) <==> IsUsed(m, NextNode(m, a)))
    ensures PreNode(m', a) == PreNode(m, a)
    ensures PreNode(m, a) == 0 <==> a == FirstNode(p)
    ensures a != FirstNode(p) ==> (IsUsed(m', PreNode(m', a)) <==> IsUsed(m, PreNode(m, a)))
    ensures a != FirstNode(p) ==> 0 <= PreNode(m', a) && PreNode(m', a) + NODE_HEAD_SIZE <= |m'|
    ensures !IsUsed(m', NextNode(m', a)) ==> IsUsed(m', NextNode(m', NextNode(m', a)))
    ensures a != FirstNode(p) && !IsUsed(m', PreNode(m', a)) ==> BackSettled(m', p, {}, PreNode(m', a))
  {
    hide Rd, Rings, Placed, Agree;
    NextAfter(m, p, N, a);
    if !IsUsed(m, NextNode(m, a)) {
      FreeNeighboursUsed(m, p, N, lists, NextNode(m, a));
    }
    if a != FirstNode(p) {
      PreIsBefore(m, p, N, a);
      var pre := PreNode(m, a);
      StillBefore(m, m', p, N, pre, a);
      if !IsUsed(m, pre) && pre != FirstNode(p) {
        FreeNeighboursUsed(m, p, N, lists, pre);
        StillBefore(m, m', p, N, PreNode(m, pre), pre);
      }
    }
  }

  // A free node of a well-formed heap is in the list for its size, and its size is below 2^31.
  lemma FreeIsListed(m: Mem, p: Pool, N: set<int>, lists: FreeLists, b: int)
    requires WellFormed(m, p, N, lists) && b in N && !IsUsed(m, b)
    ensures NODE_HEAD_SIZE <= NodeSize(m, b) < USED_FLAG && Rd(m, b + SIZE_AND_FLAG) == NodeSize(m, b)
    ensures 0 <= HeadIndex(NodeSize(m, b)) < LIST_NUM && b in lists[HeadIndex(NodeSize(m, b))]
  {
    hide Rd, HeadIndex, Rings, Placed;
    assert Listed(m, lists, b);
    FreeNotEnd(m, p, N, b);
    assert NodeOk(m, N, b);
  }

  lemma ListedIsFree(m: Mem, p: Pool, N: set<int>, lists: FreeLists, c: nat, i: nat)
    requires WellFormed(m, p, N, lists) && c < LIST_NUM && i < |lists[c]|
    ensures lists[c][i] in N && !IsUsed(m, lists[c][i])
    ensures 0 < lists[c][i] && lists[c][i] + NODE_HEAD_SIZE <= |m| && lists[c][i] != ListHead(p, c)
  {
    hide Rd, HeadIndex;
  }

  lemma ListedIndex(m: Mem, p: Pool, N: set<int>, lists: FreeLists, c: nat, i: nat)
    requires WellFormed(m, p, N, lists) && c < LIST_NUM && i < |lists[c]|
    ensures NodeSize(m, lists[c][i]) >= 0 && HeadIndex(NodeSize(m, lists[c][i])) == c
  {
    hide Rd, HeadIndex;
    assert ListOf(m, lists[c][i]) == c;
  }

  lemma RingOf(m: Mem, p: Pool, lists: FreeLists, c: nat)
    requires Rings(m, p, lists) && c < LIST_NUM
    ensures Ring(m, ListHead(p, c), lists[c])
  {
  }

  lemma HeadersOnlyRefl(m: Mem, p: Pool, M: set<int>)
    ensures HeadersOnly(m, m, p, M)
  {
  }

  lemma LooseChain(m: Mem, p: Pool, N: set<int>, lists: FreeLists, X: set<int>)
    requires Loose(m, p, N, lists, X)
    ensures Chain(m, p, N) && X <= N && EndNode(p) !in X
  {
  }
}
