// The dynamic memory allocator: LOS_MemInit, LOS_MemAlloc, LOS_MemAllocAlign, LOS_MemFree and
// LOS_MemRealloc, working in place on the words of the pool.

module DynamicPool {
  import opened MultiHead
  import opened PoolMemory
  import opened PoolRings
  import opened PoolChain
  import opened PoolSteps
  import opened PoolTiling
  import opened PoolRequests
  import opened PoolCut

  class DynamicPool {
    const ram: array<int>
    const pool: Pool

    // The addresses of all nodes, end sentinel included, and the contents of the 27 lists.
    ghost var nodes: set<int>
    ghost var lists: FreeLists

    ghost predicate Valid()
      reads this, ram
    {
      WellFormed(ram[..], pool, nodes, lists)
    }

    // Everything in order but the nodes in hand.
    ghost predicate LooseBut(X: set<int>)
      reads this, ram
    {
      Loose(ram[..], pool, nodes, lists, X)
    }

    constructor (ram: array<int>, base: int, size: int)
      ensures this.ram == ram && pool == Pool(base, size)
    {
      this.ram := ram;
      pool := Pool(base, size);
      nodes := {};
      lists := seq(LIST_NUM, _ => []);
    }

    function Word(x: int): (w: int)
      requires 0 <= x < ram.Length
      reads ram
      ensures w == Rd(ram[..], x)
    {
      ram[x]
    }

    method Store(x: int, v: int)
      requires 0 <= x < ram.Length
      modifies ram
      ensures ram[..] == Wr(old(ram[..]), x, v)
    {
      ram[x] := v;
    }

    // LOS_ListDelete
    method ListDelete(a: int)
      requires 0 <= a && a + NODE_HEAD_SIZE <= ram.Length
      requires 0 <= Rd(ram[..], a + PREV) && Rd(ram[..], a + PREV) + 8 <= ram.Length
      requires 0 <= Rd(ram[..], a + NEXT) && Rd(ram[..], a + NEXT) + 8 <= ram.Length
      requires Rd(ram[..], a + NEXT) != a
      modifies ram
      ensures ram[..] == Unlink(old(ram[..]), a)
    {
      Store(Word(a + NEXT) + PREV, Word(a + PREV));
      Store(Word(a + PREV) + NEXT, Word(a + NEXT));
      Store(a + NEXT, 0);
      Store(a + PREV, 0);
    }

    // LOS_ListAdd
    method ListAdd(h: int, a: int)
      requires 0 <= a && a + 8 <= ram.Length && 0 <= h && h + 8 <= ram.Length && (a + 8 <= h || h + 8 <= a)
      requires 0 <= Rd(ram[..], h + NEXT) && Rd(ram[..], h + NEXT) + 8 <= ram.Length
      modifies ram
      ensures ram[..] == Link(old(ram[..]), h, a)
    {
      Store(a + NEXT, Word(h + NEXT));
      Store(a + PREV, h);
      Store(Word(h + NEXT) + PREV, a);
      Store(h + NEXT, a);
    }

    // osMemMergeNode
    method MergeNode(a: int)
      requires Chain(ram[..], pool, nodes) && a in nodes && a != FirstNode(pool) && a != EndNode(pool)
      requires !IsUsed(ram[..], a) && !IsUsed(ram[..], PreNode(ram[..], a))
      modifies ram
      ensures ram[..] == Merge(old(ram[..]), a)
    {
      MergeStores(ram[..], pool, nodes, a);
      hide Chain, Wr, Rd, NodeOk, IsUsed;
      var pre := Word(a + PRE_NODE);
      Store(pre + SIZE_AND_FLAG, Word(pre + SIZE_AND_FLAG) + Word(a + SIZE_AND_FLAG));
      var next := a + Word(a + SIZE_AND_FLAG);
      Store(next + PRE_NODE, Word(a + PRE_NODE));
      Store(a + PREV, 0);
      Store(a + NEXT, 0);
      Store(a + PRE_NODE, 0);
    }

    // LOS_ListDelete of a listed node in hand, with its list.
    method Unlist(a: int, ghost c: nat, ghost k: nat, ghost X: set<int>)
      requires LooseBut(X) && a in X && c < LIST_NUM && k < |lists[c]| && lists[c][k] == a
      modifies ram, `lists
      ensures LooseBut(X) && lists == old(lists)[c := Omit(old(lists)[c], k)] && Unlisted(lists, a)
      ensures ram[..] == Unlink(old(ram[..]), a)
      ensures SameNodes(old(ram[..]), ram[..], nodes)
      ensures Quiet(old(ram[..]), ram[..], pool, nodes, nodes, old(lists))
      ensures forall x :: Unlisted(old(lists), x) ==> Unlisted(lists, x)
      ensures forall d :: 0 <= d < LIST_NUM ==> forall x :: x in old(lists)[d] && x != a ==> x in lists[d]
    {
      hide Loose, Unlink, Rings, Chain, Placed, Wr, Rd, Omit, Quiet, SameNodes, Unlisted;
      LooseParts(ram[..], pool, nodes, lists, X);
      ListedLinks(ram[..], pool, nodes, lists, c, k);
      NodeInMem(ram[..], pool, nodes, a);
      UnlistStep(ram[..], pool, nodes, lists, X, c, k);
      ListDelete(a);
      lists := lists[c := Omit(lists[c], k)];
    }

    // If the node after a is free, it leaves its list and merges into a.
    method AbsorbNext(a: int, ghost X: set<int>)
      requires LooseBut(X) && a in X && !IsUsed(ram[..], a)
      requires var m := ram[..]; var next := NextNode(m, a);
               next !in X && (!IsUsed(m, next) ==> IsUsed(m, NextNode(m, next)) && NextNode(m, next) !in X)
      modifies ram, `lists, `nodes
      ensures LooseBut(X) && !IsUsed(ram[..], a) && ram[..] == Absorbed(old(ram[..]), a)
      ensures nodes == old(nodes) - FreeNext(old(ram[..]), a)
      ensures IsUsed(ram[..], NextNode(ram[..], a)) && NextNode(ram[..], a) !in X
      ensures FreeNext(old(ram[..]), a) == {} ==> ram[..] == old(ram[..])
      ensures NextNode(ram[..], a) == if IsUsed(old(ram[..]), NextNode(old(ram[..]), a)) then NextNode(old(ram[..]), a)
                                      else NextNode(old(ram[..]), NextNode(old(ram[..]), a))
      ensures forall x :: x in nodes && x != a ==> Rd(ram[..], x + SIZE_AND_FLAG) == Rd(old(ram[..]), x + SIZE_AND_FLAG)
      ensures Quiet(old(ram[..]), ram[..], pool, old(nodes), nodes, old(lists))
      ensures forall x :: Unlisted(old(lists), x) ==> Unlisted(lists, x)
      ensures forall d :: 0 <= d < LIST_NUM ==> forall x :: x in old(lists)[d] && x in X ==> x in lists[d]
    {
      hide Unlink, Merge, Rings, Chain, Agree, Placed, Wr, Rd, HeadersOnly, NoAdjacentFreeBut, MagicBut, HeadIndex;
      ghost var m0, lists0 := ram[..], lists;
      NodeLinks(m0, pool, nodes, a);
      NodeInMem(m0, pool, nodes, a);
      NodeInMem(m0, pool, nodes, NextNode(m0, a));
      var next := a + GetSize(Word(a + SIZE_AND_FLAG));
      if !GetUsed(Word(next + SIZE_AND_FLAG)) {
        ghost var c, k := FindListed(m0, pool, nodes, lists, X, next);
        NodeLinks(m0, pool, nodes, next);
        TakeInHand(m0, pool, nodes, lists, X, X + {next});
        Unlist(next, c, k, X + {next});
        ghost var m1 := ram[..];
        MergeStep(m1, pool, nodes, lists, X + {next}, next);
        MergeNode(next);
        nodes := nodes - {next};
        assert X + {next} - {next} == X;
        QuietTrans(m0, m1, ram[..], pool, old(nodes), old(nodes), nodes, lists0, lists);
      } else {
        QuietRefl(m0, pool, nodes, nodes, lists0);
      }
    }

    // A free node in hand goes to the front of the list for its size. That list always exists, so
    // the source's NULL list head cannot occur.
    method Insert(y: int, ghost X: set<int>)
      requires LooseBut(X) && y in X && !IsUsed(ram[..], y) && Unlisted(lists, y)
      requires IsUsed(ram[..], NextNode(ram[..], y)) && BackSettled(ram[..], pool, X - {y}, y)
      modifies ram, `lists
      ensures LooseBut(X - {y}) && SameNodes(old(ram[..]), ram[..], nodes)
      ensures ram[..] == Inserted(old(ram[..]), pool, y)
      ensures HeadersOnly(old(ram[..]), ram[..], pool, nodes)
      ensures var c := ListOf(old(ram[..]), y); 0 <= c < LIST_NUM && lists == old(lists)[c := [y] + old(lists)[c]]
      ensures forall x :: x in nodes && x != y && Unlisted(old(lists), x) ==>
                Unlisted(lists, x) && Rd(ram[..], x + PREV) == Rd(old(ram[..]), x + PREV)
    {
      hide Link, Rings, Chain, Agree, Placed, Wr, Rd, HeadersOnly, NoAdjacentFreeBut, MagicBut, HeadIndex;
      ghost var m := ram[..];
      InsertStep(m, pool, nodes, lists, X, y);
      NodeInMem(m, pool, nodes, y);
      var c := HeadIndex(Word(y + SIZE_AND_FLAG));
      HeadLinks(m, pool, nodes, lists, c);
      HeadInMem(m, pool, nodes, c, y);
      ListAdd(ListHead(pool, c), y);
      lists := lists[c := [y] + lists[c]];
    }

    // osMemSpitNode: node a keeps n bytes; the rest, merged with a free node after it, becomes a
    // free node at the front of the list for its size. Node a itself stays in hand.
    method SpitNode(a: int, n: int)
      requires LooseBut({a}) && Splittable(ram[..], pool, nodes, a, n) && n % ALIGN_SIZE == 0
      requires var m := ram[..]; !IsUsed(m, NextNode(m, a)) ==> IsUsed(m, NextNode(m, NextNode(m, a)))
      modifies ram, `lists, `nodes
      ensures ram[..] == Spit(old(ram[..]), pool, a, n)
      ensures LooseBut({a}) && Rd(ram[..], a + SIZE_AND_FLAG) == n
      ensures nodes == old(nodes) - FreeNext(old(ram[..]), a) + {a + n}
      ensures !IsUsed(ram[..], a + n) && IsUsed(ram[..], NextNode(ram[..], a + n))
      ensures forall x :: x in nodes && x != a && x != a + n ==>
                Rd(ram[..], x + SIZE_AND_FLAG) == Rd(old(ram[..]), x + SIZE_AND_FLAG)
      ensures HeadersOnly(old(ram[..]), ram[..], pool, old(nodes) + {a + n})
      ensures forall x :: x in old(nodes) && x in nodes && Unlisted(old(lists), x) ==>
                Unlisted(lists, x) && Rd(ram[..], x + PREV) == Rd(old(ram[..]), x + PREV)
      ensures forall d :: 0 <= d < LIST_NUM && a in old(lists)[d] ==> a in lists[d]
    {
      hide Link, Split, Rings, Chain, Agree, Placed, Wr, Rd, HeadersOnly, NoAdjacentFreeBut, MagicBut, HeadIndex;
      hide Splittable, Absorbed, Inserted;
      ghost var m0, nodes0, lists0 := ram[..], nodes, lists;
      var b := a + n;
      SplitInMem(m0, pool, nodes, a, n);
      SplitStep(m0, pool, nodes, lists, {a}, a, n);
      SplitHeaders(a, n);
      nodes := nodes + {b};
      assert {a} + {b} == {a, b};
      ghost var m1 := ram[..];
      ghost var next := NextNode(m0, a);
      if !IsUsed(m0, next) {
        FreeNotEnd(m0, pool, nodes0, next);
        NodeLinks(m0, pool, nodes0, next);
      }
      AbsorbNext(b, {a, b});
      ghost var m2, lists2 := ram[..], lists;
      NodeLinks(m2, pool, nodes, a);
      Insert(b, {a, b});
      assert {a, b} - {b} == {a};
      QuietTrans(m0, m1, m2, pool, nodes0 + {b}, nodes0, nodes * nodes0, lists0, lists0);
      HeadersOnlyTrans(m0, m2, ram[..], pool, nodes0 + {b}, nodes);
    }

    // The header writes of osMemSpitNode.
    method SplitHeaders(a: int, n: int)
      requires Chain(ram[..], pool, nodes) && Splittable(ram[..], pool, nodes, a, n)
      modifies ram
      ensures ram[..] == Split(old(ram[..]), a, n)
    {
      hide Chain, Splittable;
      SplitInMem(ram[..], pool, nodes, a, n);
      var b := a + n;
      Store(b + PRE_NODE, a);
      Store(b + SIZE_AND_FLAG, Word(a + SIZE_AND_FLAG) - n);
      Store(a + SIZE_AND_FLAG, n);
      var next := b + GetSize(Word(b + SIZE_AND_FLAG));
      Store(next + PRE_NODE, b);
    }

    // A node in hand that has just lost its flag, with the node after it free at most once.
    ghost predicate Released(a: int)
      reads this, ram
    {
      && LooseBut({a}) && !IsUsed(ram[..], a) && Unlisted(lists, a)
      && (!IsUsed(ram[..], NextNode(ram[..], a)) ==> IsUsed(ram[..], NextNode(ram[..], NextNode(ram[..], a))))
    }

    // osMemFreeNode when the node before a is used or absent.
    method FreeAlone(a: int)
      requires Released(a) && BackSettled(ram[..], pool, {}, a)
      modifies ram, `lists, `nodes
      ensures LooseBut({})
      ensures nodes == old(nodes) - FreeNext(old(ram[..]), a)
      ensures forall x :: x in nodes ==> (IsUsed(ram[..], x) <==> IsUsed(old(ram[..]), x))
      ensures forall x :: x in nodes && IsUsed(old(ram[..]), x) ==>
                Rd(ram[..], x + SIZE_AND_FLAG) == Rd(old(ram[..]), x + SIZE_AND_FLAG)
      ensures HeadersOnly(old(ram[..]), ram[..], pool, old(nodes))
      ensures 0 <= Rd(ram[..], a + SIZE_AND_FLAG) < USED_FLAG
    {
      hide Unlink, Link, Merge, Rings, Chain, Agree, Placed, Wr, Rd, HeadersOnly, NoAdjacentFreeBut, MagicBut;
      hide HeadIndex;
      ghost var m0, nodes0 := ram[..], nodes;
      NextAfter(m0, pool, nodes, a);
      assert {a} - {a} == {};
      if a != FirstNode(pool) {
        PreIsBefore(m0, pool, nodes, a);
      }
      AbsorbNext(a, {a});
      ghost var m1 := ram[..];
      if a != FirstNode(pool) {
        StillBefore(m0, m1, pool, nodes, PreNode(m0, a), a);
      }
      Insert(a, {a});
      SizeBelowPool(ram[..], pool, nodes, a);
      HeadersOnlyTrans(m0, m1, ram[..], pool, nodes0, nodes);
    }

    // A node that has grown moves to the list for its new size.
    method Relist(y: int, ghost c: nat)
      requires LooseBut({y}) && !IsUsed(ram[..], y) && c < LIST_NUM && y in lists[c]
      requires IsUsed(ram[..], NextNode(ram[..], y)) && BackSettled(ram[..], pool, {}, y)
      modifies ram, `lists
      ensures LooseBut({}) && SameNodes(old(ram[..]), ram[..], nodes)
      ensures HeadersOnly(old(ram[..]), ram[..], pool, nodes)
    {
      hide Rings, Chain, Agree, Placed, Wr, Rd, HeadersOnly, NoAdjacentFreeBut, MagicBut, HeadIndex;
      ghost var m0 := ram[..];
      NextAfter(m0, pool, nodes, y);
      if y != FirstNode(pool) {
        PreIsBefore(m0, pool, nodes, y);
      }
      ghost var i :| 0 <= i < |lists[c]| && lists[c][i] == y;
      Unlist(y, c, i, {y});
      ghost var m1 := ram[..];
      assert {y} - {y} == {};
      Insert(y, {y});
      HeadersOnlyTrans(m0, m1, ram[..], pool, nodes, nodes);
    }

    // osMemFreeNode when the node before a is free: that node absorbs a and changes its list.
    method FreeIntoPrevious(a: int)
      requires Released(a) && a != FirstNode(pool)
      requires var pre := PreNode(ram[..], a); !IsUsed(ram[..], pre) && BackSettled(ram[..], pool, {}, pre)
      modifies ram, `lists, `nodes
      ensures LooseBut({})
      ensures nodes == old(nodes) - FreeNext(old(ram[..]), a) - {a}
      ensures Rd(ram[..], a + SIZE_AND_FLAG) == Rd(old(ram[..]), a + SIZE_AND_FLAG)
      ensures forall x :: x in nodes ==> (IsUsed(ram[..], x) <==> IsUsed(old(ram[..]), x))
      ensures forall x :: x in nodes && IsUsed(old(ram[..]), x) ==>
                Rd(ram[..], x + SIZE_AND_FLAG) == Rd(old(ram[..]), x + SIZE_AND_FLAG)
      ensures HeadersOnly(old(ram[..]), ram[..], pool, old(nodes))
      ensures 0 <= Rd(ram[..], a + SIZE_AND_FLAG) < USED_FLAG
    {
      hide Unlink, Link, Merge, Rings, Chain, Agree, Placed, Wr, Rd, HeadersOnly, NoAdjacentFreeBut, MagicBut;
      hide HeadIndex;
      ghost var m0, nodes0, lists0 := ram[..], nodes, lists;
      NextAfter(m0, pool, nodes, a);
      PreIsBefore(m0, pool, nodes, a);
      NodeInMem(m0, pool, nodes, a);
      var pre := Word(a + PRE_NODE);
      ghost var back := PreNode(m0, pre);
      if pre != FirstNode(pool) {
        PreIsBefore(m0, pool, nodes, pre);
      }
      ghost var c, k := FindListed(m0, pool, nodes, lists, {a}, pre);
      TakeInHand(m0, pool, nodes, lists, {a}, {a, pre});
      MergeStep(m0, pool, nodes, lists, {a, pre}, a);
      assert {a, pre} - {a} == {pre};
      MergeNode(a);
      nodes := nodes - {a};
      ghost var m1 := ram[..];
      AbsorbNext(pre, {pre});
      ghost var m2 := ram[..];
      if pre != FirstNode(pool) {
        StillBefore(m0, m2, pool, nodes, back, pre);
      }
      Relist(pre, c);
      ghost var m4 := ram[..];
      HeadersOnlyTrans(m1, m2, m4, pool, nodes0 - {a}, nodes);
      HeadersOnlyTrans(m0, m1, m4, pool, nodes0, nodes0 - {a});
      StaleSizeWord(m0, m1, m4, pool, nodes0, a);
      SizeBelowPool(m0, pool, nodes0, a);
    }

    // osMemFreeNode: the node loses its flag, merges with free neighbours, and the result goes to
    // the front of the list for its size.
    method FreeNode(a: int)
      requires Valid() && a in nodes && a != EndNode(pool) && IsUsed(ram[..], a)
      modifies ram, `lists, `nodes
      ensures Valid()
      ensures View(ram[..], nodes) == Release(View(old(ram[..]), old(nodes)), a)
      ensures forall b :: PayloadKept(old(ram[..]), ram[..], old(nodes), b)
      ensures UsedKept(old(ram[..]), ram[..], old(nodes), nodes, a)
      ensures HeadersOnly(old(ram[..]), ram[..], pool, old(nodes))
      ensures 0 <= Rd(ram[..], a + SIZE_AND_FLAG) < USED_FLAG
      ensures a !in nodes ==> Rd(ram[..], a + SIZE_AND_FLAG) == NodeSize(old(ram[..]), a)
    {
      hide View, Release, PayloadKept, Rings, Chain, Agree, Placed, Wr, Rd, HeadersOnly, NoAdjacentFreeBut;
      hide MagicBut, HeadIndex;
      ghost var m0, nodes0, lists0 := ram[..], nodes, lists;
      NodeInMem(m0, pool, nodes, a);
      UsedUnlisted(m0, nodes, lists, {}, a);
      WellFormedIsLoose(m0, pool, nodes, lists, {a});
      var w := GetSize(Word(a + SIZE_AND_FLAG));
      FlagStep(m0, pool, nodes, lists, {a}, a, w);
      ReleaseFacts(m0, Wr(m0, a + SIZE_AND_FLAG, w), pool, nodes, lists, a);
      Store(a + SIZE_AND_FLAG, w);
      ghost var m1 := ram[..];
      var pre := Word(a + PRE_NODE);
      if pre != 0 && !GetUsed(Word(pre + SIZE_AND_FLAG)) {
        FreeIntoPrevious(a);
      } else {
        FreeAlone(a);
      }
      LooseIsWellFormed(ram[..], pool, nodes, lists);
      HeadersOnlyTrans(m0, m1, ram[..], pool, nodes0, nodes0);
      KeptByOld(m0, ram[..], pool, nodes0);
      ReleaseView(m0, ram[..], pool, nodes0, nodes, lists0, a);
    }

    // osMemFindSuitableFreeBlock: 0 exactly when no free node is large enough; otherwise less than
    // twice the size of the smallest one that is.
    method FindSuitableFreeBlock(n: int) returns (a: int)
      requires Valid() && 0 <= n < WORD
      ensures a == 0 <==> forall b :: b in nodes && !IsUsed(ram[..], b) ==> NodeSize(ram[..], b) < n
      ensures a != 0 ==> BestFit(ram[..], nodes, a, n)
    {
      hide Rd, HeadIndex, WellFormed;
      HeadIndexRange(n);
      FitsStart(ram[..], pool, nodes, lists, n);
      var c := HeadIndex(n);
      a := 0;
      while c != NONE
        invariant c == NONE || 0 <= c < LIST_NUM
        invariant FitsFrom(ram[..], nodes, c, n)
        decreases if c == NONE then 0 else LIST_NUM - c
      {
        a := FirstFitIn(c, n);
        if a != 0 {
          ghost var k :| 0 <= k < |lists[c]| && lists[c][k] == a;
          FitInList(ram[..], pool, nodes, lists, c, k, n);
          return;
        }
        FitsLater(ram[..], pool, nodes, lists, c, n);
        c := NextHeadIndex(c);
      }
    }

    // The inner loop of osMemFindSuitableFreeBlock: the first node of list c that holds n bytes.
    method FirstFitIn(c: int, n: int) returns (a: int)
      requires Valid() && 0 <= c < LIST_NUM
      ensures a == 0 <==> forall i :: 0 <= i < |lists[c]| ==> NodeSize(ram[..], lists[c][i]) < n
      ensures a != 0 ==> a in lists[c] && NodeSize(ram[..], a) >= n
    {
      hide Rd, HeadIndex, Chain, Placed, Agree, NoAdjacentFree, Magic, WordAligned, Rings;
      ghost var m, L := ram[..], lists[c];
      var h := ListHead(pool, c);
      HeadLinks(m, pool, nodes, lists, c);
      RingOf(m, pool, lists, c);
      a := Word(h + NEXT);
      ghost var i := 0;
      if |L| > 0 {
        ListedIsFree(m, pool, nodes, lists, c, 0);
      }
      while a != h
        invariant i < |L| ==> L[i] != h
        invariant 0 <= i <= |L| && a == (if i < |L| then L[i] else h)
        invariant forall j :: 0 <= j < i ==> NodeSize(m, L[j]) < n
        decreases |L| - i
      {
        ListedIsFree(m, pool, nodes, lists, c, i);
        if Word(a + SIZE_AND_FLAG) >= n {
          assert NodeSize(m, lists[c][i]) >= n;
          return;
        }
        assert RingAt(m, h, L, i);
        a := Word(a + NEXT);
        i := i + 1;
        if i < |L| {
          ListedIsFree(m, pool, nodes, lists, c, i);
        }
      }
      a := 0;
    }

    // osMemSetMagicNumAndTaskid, on a node in hand.
    method SetMagicAndTaskId(a: int, taskId: int)
      requires LooseBut({a}) && Unlisted(lists, a)
      modifies ram
      ensures LooseBut({a}) && Rd(ram[..], a + PREV) == WORD - 1 - a
      ensures SameNodes(old(ram[..]), ram[..], nodes) && HeadersOnly(old(ram[..]), ram[..], pool, nodes)
    {
      hide Chain, Rings, Agree, Placed, Wr, Rd, HeadersOnly, NoAdjacentFreeBut, MagicBut, HeadIndex;
      ghost var m := ram[..];
      NodeInMem(m, pool, nodes, a);
      OwnLinkStep(m, pool, nodes, lists, {a}, a, a + PREV, WORD - 1 - a);
      Store(a + PREV, WORD - 1 - a);
      ghost var m1 := ram[..];
      OwnLinkStep(m1, pool, nodes, lists, {a}, a, a + NEXT, taskId);
      Store(a + NEXT, taskId);
      HeadersOnlyTrans(m, m1, ram[..], pool, nodes, nodes);
    }

    // The end of osMemAllocWithCheck: a free node in hand leaves its list and becomes used.
    method Claim(a: int, taskId: int, ghost c: nat)
      requires LooseBut({a}) && !IsUsed(ram[..], a) && c < LIST_NUM && a in lists[c]
      modifies ram, `lists
      ensures LooseBut({})
      ensures IsUsed(ram[..], a) && NodeSize(ram[..], a) == NodeSize(old(ram[..]), a)
      ensures forall x :: x in nodes && x != a ==> Rd(ram[..], x + SIZE_AND_FLAG) == Rd(old(ram[..]), x + SIZE_AND_FLAG)
      ensures HeadersOnly(old(ram[..]), ram[..], pool, nodes)
    {
      hide Chain, Rings, Agree, Placed, Wr, Rd, HeadersOnly, NoAdjacentFreeBut, MagicBut, HeadIndex;
      ghost var m1 := ram[..];
      ghost var i :| 0 <= i < |lists[c]| && lists[c][i] == a;
      Unlist(a, c, i, {a});
      ghost var m2 := ram[..];
      SetMagicAndTaskId(a, taskId);
      ghost var m3 := ram[..];
      NodeInMem(m3, pool, nodes, a);
      var w := SetUsed(Word(a + SIZE_AND_FLAG));
      FlagStep(m3, pool, nodes, lists, {a}, a, w);
      Store(a + SIZE_AND_FLAG, w);
      ghost var m4 := ram[..];
      SettleUsed(m4, pool, nodes, lists, {a}, a);
      assert {a} - {a} == {};
      HeadersOnlyTrans(m1, m2, m3, pool, nodes, nodes);
      HeadersOnlyTrans(m1, m3, m4, pool, nodes, nodes);
    }

    // osMemAllocWithCheck: takes a best-fit node for the rounded request, or changes nothing.
    method AllocWithCheck(size: int, taskId: int) returns (r: int)
      requires Valid() && 0 <= size < WORD && AllocSize(size) >= NODE_HEAD_SIZE
      modifies ram, `lists, `nodes
      ensures Valid()
      ensures r == 0 <==> forall b :: b in old(nodes) && !IsUsed(old(ram[..]), b) ==>
                NodeSize(old(ram[..]), b) < AllocSize(size)
      ensures r == 0 ==> ram[..] == old(ram[..]) && nodes == old(nodes) && lists == old(lists)
      ensures r != 0 ==> BestFit(old(ram[..]), old(nodes), r - NODE_HEAD_SIZE, AllocSize(size))
      ensures r != 0 ==>
                View(ram[..], nodes) == Occupy(View(old(ram[..]), old(nodes)), r - NODE_HEAD_SIZE, AllocSize(size))
      ensures r != 0 ==>
                && Live(ram[..], pool, nodes, r - NODE_HEAD_SIZE)
                && NodeSize(ram[..], r - NODE_HEAD_SIZE) >= AllocSize(size)
      ensures forall b :: PayloadKept(old(ram[..]), ram[..], old(nodes), b)
      ensures forall b :: UsedKept(old(ram[..]), ram[..], old(nodes), nodes, b)
    {
      hide PayloadKept, Chain, Rings, Agree, Placed, Wr, Rd, HeadersOnly, NoAdjacentFreeBut, MagicBut, HeadIndex;
      hide View, Occupy, AllocSize, BestFit;
      ghost var m0, nodes0, lists0 := ram[..], nodes, lists;
      var n := AllocSize(size);
      AllocSizeBounds(size);
      var a := FindSuitableFreeBlock(n);
      if a == 0 {
        HeadersOnlyRefl(m0, pool, nodes);
        KeptByOld(m0, m0, pool, nodes);
        return 0;
      }
      hide UsedKept;
      BestFitIsFree(m0, nodes, a, n);
      FreeNeighboursUsed(m0, pool, nodes, lists, a);
      NodeInMem(m0, pool, nodes, a);
      WellFormedIsLoose(m0, pool, nodes, lists, {});
      ghost var c, k := FindListed(m0, pool, nodes, lists, {}, a);
      TakeInHand(m0, pool, nodes, lists, {}, {a});
      if n + NODE_HEAD_SIZE + ALIGN_SIZE <= Word(a + SIZE_AND_FLAG) {
        SplitSpaced(m0, pool, nodes, a, n);
        SpitNode(a, n);
        assert nodes == nodes0 + {a + n};
      } else {
        HeadersOnlyRefl(m0, pool, nodes);
      }
      ghost var m1 := ram[..];
      Claim(a, taskId, c);
      ghost var m4 := ram[..];
      HeadersOnlyTrans(m0, m1, m4, pool, nodes, nodes);
      LooseIsWellFormed(m4, pool, nodes, lists);
      OccupyView(m0, m4, pool, nodes0, nodes, a, n);
      KeptByNew(m0, m4, pool, nodes0, nodes, a);
      KeptButFree(m0, m4, nodes0, a);
      return a + NODE_HEAD_SIZE;
    }

    // LOS_MemAlloc. Sizes with bit 31 set are refused.
    method MemAlloc(size: int, taskId: int) returns (r: int)
      requires Valid() && 0 <= size < WORD
      modifies ram, `lists, `nodes
      ensures Valid()
      ensures r == 0 <==> size == 0 || GetUsed(size) ||
                          forall b :: b in old(nodes) && !IsUsed(old(ram[..]), b) ==>
                            NodeSize(old(ram[..]), b) < AllocSize(size)
      ensures r == 0 ==> ram[..] == old(ram[..]) && nodes == old(nodes) && lists == old(lists)
      ensures r != 0 ==> Granted(old(ram[..]), old(nodes), ram[..], r, r - NODE_HEAD_SIZE, size, size)
      ensures r != 0 ==>
                (Names(ram[..], pool, nodes, r, r - NODE_HEAD_SIZE) <==>
                 NodeSize(ram[..], r - NODE_HEAD_SIZE) < ALIGNED_FLAG)
      ensures forall b :: PayloadKept(old(ram[..]), ram[..], old(nodes), b)
      ensures forall b :: UsedKept(old(ram[..]), ram[..], old(nodes), nodes, b)
    {
      hide PayloadKept, Chain, Rings, Agree, Placed, Rd, BestFit, AllocSize;
      KeptByOld(ram[..], ram[..], pool, nodes);
      HeadersOnlyRefl(ram[..], pool, nodes);
      if size == 0 {
        return 0;
      }
      if GetUsed(size) {
        return 0;
      }
      AllocSizeBounds(size);
      r := AllocWithCheck(size, taskId);
      if r != 0 {
        UnshiftedRecovers(ram[..], pool, nodes, r - NODE_HEAD_SIZE);
      }
    }

    // What a successful allocation promises: a best-fit block for `asked` bytes was taken, and `size`
    // bytes from r lie inside it.
    ghost predicate Granted(m: Mem, N: set<int>, m': Mem, r: int, a: int, asked: int, size: int)
      reads this
    {
      && BestFit(m, N, a, AllocSize(asked))
      && View(m', nodes) == Occupy(View(m, N), a, AllocSize(asked))
      && Live(m', pool, nodes, a)
      && a + NODE_HEAD_SIZE <= r && r + size <= NextNode(m', a)
    }

    // What LOS_MemAllocAlign makes of a padded size that wraps: a block that cannot hold the request is
    // taken from a well-formed heap, and then the gap word goes wherever the aligned address says.
    ghost predicate Overrun(m: Mem, N: set<int>, m': Mem, r: int, a: int, size: int, boundary: int)
      requires boundary > 0
      reads this
    {
      exists m1: Mem ::
        && WellFormed(m1, pool, nodes, lists)
        && BestFit(m, N, a, AllocSize(Padded(size, boundary)))
        && View(m1, nodes) == Occupy(View(m, N), a, AllocSize(Padded(size, boundary)))
        && NodeSize(m1, a) - NODE_HEAD_SIZE < size
        && r == AlignUp(a + NODE_HEAD_SIZE, boundary)
        && m' == StoredGap(m1, a + NODE_HEAD_SIZE, r)
    }

    // LOS_MemAllocAlign; a is the block it takes, 0 for none. All is well unless the padded size wraps
    // (AlignedRequestCovers).
    method MemAllocAlign(size: int, boundary: int, taskId: int) returns (r: int, ghost a: int)
      requires Valid() && 0 <= size < WORD && PowerOfTwo(boundary) && 4 <= boundary < WORD
      modifies ram, `lists, `nodes
      ensures a == 0 <==> size == 0 || GetUsed(Padded(size, boundary)) ||
                          forall b :: b in old(nodes) && !IsUsed(old(ram[..]), b) ==>
                            NodeSize(old(ram[..]), b) < AllocSize(Padded(size, boundary))
      ensures a == 0 ==> r == 0 && ram[..] == old(ram[..]) && nodes == old(nodes) && lists == old(lists)
      ensures size + boundary + 4 < WORD ==>
                && Valid()
                && (a != 0 ==> r != 0 && r % boundary == 0)
                && (a != 0 ==> Granted(old(ram[..]), old(nodes), ram[..], r, a, size + boundary + 4, size))
                && (a != 0 ==> (Names(ram[..], pool, nodes, r, a) <==>
                                r != a + NODE_HEAD_SIZE || NodeSize(ram[..], a) < ALIGNED_FLAG))
                && (forall b :: PayloadKept(old(ram[..]), ram[..], old(nodes), b))
                && (forall b :: UsedKept(old(ram[..]), ram[..], old(nodes), nodes, b))
      ensures size + boundary + 4 >= WORD && a != 0 ==>
                Overrun(old(ram[..]), old(nodes), ram[..], r, a, size, boundary)
    {
      hide PayloadKept, UsedKept, WellFormed, Chain, Rd, AllocSize, AlignUp, PowerOfTwo, View, Occupy, BestFit;
      hide Overrun, StoredGap, Names;
      KeptRefl(ram[..], nodes);
      ghost var m0, nodes0 := ram[..], nodes;
      WellFormedChain(m0, pool, nodes, lists);
      a := 0;
      if size == 0 {
        return 0, a;
      }
      var useSize := (size + boundary + 4) % WORD;
      if GetUsed(useSize) {
        return 0, a;
      }
      AllocSizeBounds(useSize);
      WordBoundary(boundary);
      var ptr := AllocWithCheck(useSize, taskId);
      ghost var m1 := ram[..];
      if ptr == 0 {
        AlignNull(boundary);
        return 0, a;
      }
      a := ptr - NODE_HEAD_SIZE;
      BestFitIsFree(m0, nodes0, a, AllocSize(useSize));
      WellFormedChain(m1, pool, nodes, lists);
      AlignedRequestCovers(m0, m1, pool, nodes0, nodes, a, size, boundary);
      if size + boundary + 4 < WORD {
        r := Shift(ptr, size, boundary);
        KeptTrans(m0, m1, ram[..], nodes0, nodes, nodes, a);
        KeptButFree(m0, ram[..], nodes0, a);
        UsedKeptButFree(m0, ram[..], nodes0, nodes, a);
      } else {
        r := AlignUp(ptr, boundary);
        StoreStrayGap(ptr, r);
        OverrunIs(m0, nodes0, m1, r, a, size, boundary);
      }
    }

    // The end of LOS_MemAllocAlign for a block that covers the request: the pointer moves up to the
    // boundary and leaves a gap word.
    method Shift(ptr: int, size: int, boundary: int) returns (q: int)
      requires Valid() && Live(ram[..], pool, nodes, ptr - NODE_HEAD_SIZE) && 0 <= size
      requires PowerOfTwo(boundary) && 4 <= boundary && size + boundary + 4 < USED_FLAG
      requires NodeSize(ram[..], ptr - NODE_HEAD_SIZE) >= size + boundary + 4 + NODE_HEAD_SIZE
      modifies ram
      ensures Valid() && View(ram[..], nodes) == View(old(ram[..]), nodes)
      ensures q % boundary == 0 && ptr <= q && q + size <= NextNode(ram[..], ptr - NODE_HEAD_SIZE)
      ensures Live(ram[..], pool, nodes, ptr - NODE_HEAD_SIZE)
      ensures Names(ram[..], pool, nodes, q, ptr - NODE_HEAD_SIZE) <==>
              q != ptr || NodeSize(ram[..], ptr - NODE_HEAD_SIZE) < ALIGNED_FLAG
      ensures PayloadKept(old(ram[..]), ram[..], nodes, ptr - NODE_HEAD_SIZE)
      ensures UsedKept(old(ram[..]), ram[..], nodes, nodes, ptr - NODE_HEAD_SIZE)
    {
      hide PayloadKept, UsedKept, Chain, Rings, Agree, Placed, Rd, AlignUp, PowerOfTwo, View;
      ghost var a := ptr - NODE_HEAD_SIZE;
      KeptRefl(ram[..], nodes);
      ShiftFits(ram[..], pool, nodes, a, size, boundary);
      UnshiftedRecovers(ram[..], pool, nodes, a);
      q := AlignUp(ptr, boundary);
      if ptr != q {
        StoreGap(a, q, q - ptr);
      }
    }

    lemma OverrunIs(m: Mem, N: set<int>, m1: Mem, r: int, a: int, size: int, boundary: int)
      requires boundary > 0 && WellFormed(m1, pool, nodes, lists) && BestFit(m, N, a, AllocSize(Padded(size, boundary)))
      requires View(m1, nodes) == Occupy(View(m, N), a, AllocSize(Padded(size, boundary)))
      requires NodeSize(m1, a) - NODE_HEAD_SIZE < size && r == AlignUp(a + NODE_HEAD_SIZE, boundary)
      ensures Overrun(m, N, StoredGap(m1, a + NODE_HEAD_SIZE, r), r, a, size, boundary)
    {
    }

    // The gap word when the block is too small for it; memory outside ram is not modelled.
    method StoreStrayGap(ptr: int, q: int)
      modifies ram
      ensures ram[..] == StoredGap(old(ram[..]), ptr, q)
    {
      if q != ptr && (q - 4) % WORD < ram.Length {
        Store((q - 4) % WORD, SetAligned((q - ptr) % WORD));
      }
    }

    // The gap word of LOS_MemAllocAlign.
    method StoreGap(ghost a: int, q: int, gap: int)
      requires Valid() && Live(ram[..], pool, nodes, a) && InPayload(ram[..], a, q - 4)
      requires q == a + NODE_HEAD_SIZE + gap && 0 <= gap < ALIGNED_FLAG
      modifies ram
      ensures Valid() && View(ram[..], nodes) == View(old(ram[..]), nodes) && SameNodes(old(ram[..]), ram[..], nodes)
      ensures Names(ram[..], pool, nodes, q, a)
      ensures PayloadKept(old(ram[..]), ram[..], nodes, a) && UsedKept(old(ram[..]), ram[..], nodes, nodes, a)
    {
      hide Rd, Wr, Chain, Rings, Agree, Placed, PayloadKept, View;
      PayloadWrite(ram[..], pool, nodes, lists, a, q - 4, gap + ALIGNED_FLAG);
      PayloadWriteKept(ram[..], pool, nodes, a, q - 4, gap + ALIGNED_FLAG);
      WrWords(ram[..], q - 4, gap + ALIGNED_FLAG);
      Store(q - 4, gap + ALIGNED_FLAG);
      ShiftedRecovers(ram[..], pool, nodes, a, gap);
    }

    // osMemCheckUsedNode under LOS_DLNK_SAFE_CHECK: walks the chain looking for the node.
    method CheckUsedNode(node: int) returns (ok: bool)
      requires Valid()
      ensures ok <==> Live(ram[..], pool, nodes, node)
    {
      hide Rd, Rings, Agree, Placed, WordAligned, Magic, NoAdjacentFree, Chain;
      ghost var m := ram[..];
      ChainEnds(m, pool, nodes);
      var tmp := FirstNode(pool);
      while tmp < EndNode(pool)
        invariant tmp in nodes
        invariant Live(m, pool, nodes, node) ==> tmp <= node
        decreases EndNode(pool) - tmp
      {
        NodeInMem(m, pool, nodes, tmp);
        if tmp == node && GetUsed(Word(tmp + SIZE_AND_FLAG)) {
          return true;
        } else if tmp > node {
          return false;
        }
        NodeLinks(m, pool, nodes, tmp);
        if node in nodes && tmp < node {
          ChainGap(m, pool, nodes, tmp, node);
        }
        tmp := tmp + GetSize(Word(tmp + SIZE_AND_FLAG));
      }
      return false;
    }

    // The node a pointer stands for, as LOS_MemFree and LOS_MemRealloc compute it.
    function NodeOf(ptr: int): int
      requires 4 <= ptr && ptr - 4 < ram.Length
      reads ram
      ensures NodeOf(ptr) == Recover(ram[..], ptr)
    {
      var w := Word(ptr - 4);
      (if GetAligned(w) then ptr - GetGap(w) - NODE_HEAD_SIZE else ptr - NODE_HEAD_SIZE) % WORD
    }

    // LOS_MemFree: frees exactly the pointers that lead back to a live block. The last clause says when
    // the same pointer would be accepted again.
    method MemFree(ptr: int) returns (ok: bool)
      requires Valid() && (ptr == 0 || 4 <= ptr < ram.Length)
      modifies ram, `lists, `nodes
      ensures Valid()
      ensures ok <==> ptr != 0 && Live(old(ram[..]), pool, old(nodes), Recover(old(ram[..]), ptr))
      ensures !ok ==> ram[..] == old(ram[..]) && nodes == old(nodes) && lists == old(lists)
      ensures ok ==> View(ram[..], nodes) == Release(View(old(ram[..]), old(nodes)), Recover(old(ram[..]), ptr))
      ensures forall b :: PayloadKept(old(ram[..]), ram[..], old(nodes), b)
      ensures ok ==> UsedKept(old(ram[..]), ram[..], old(nodes), nodes, Recover(old(ram[..]), ptr))
      ensures ok ==> !Live(ram[..], pool, nodes, Recover(old(ram[..]), ptr))
      ensures ok && Names(old(ram[..]), pool, old(nodes), ptr, Recover(old(ram[..]), ptr)) ==>
                var a := Recover(old(ram[..]), ptr);
                (Live(ram[..], pool, nodes, Recover(ram[..], ptr)) <==>
                   && ptr == a + NODE_HEAD_SIZE && a in nodes && NodeSize(ram[..], a) > ALIGNED_FLAG
                   && Live(ram[..], pool, nodes, Astray(ram[..], a)))
    {
      hide Rd, Rings, Agree, Placed, PayloadKept, UsedKept, View, Release, Chain, Recover, Astray;
      KeptRefl(ram[..], nodes);
      if ptr == 0 {
        return false;
      }
      var node := NodeOf(ptr);
      ok := CheckUsedNode(node);
      if ok {
        ghost var m0, nodes0 := ram[..], nodes;
        FreeNode(node);
        FreedIsNotLive(m0, ram[..], pool, nodes0, nodes, node);
        if Names(m0, pool, nodes0, ptr, node) {
          SecondFreeIff(m0, ram[..], pool, nodes0, nodes, ptr, node);
        }
      }
    }

    // A used node in hand, unlisted and with its magic word.
    ghost predicate Holding(a: int)
      reads this, ram
    {
      LooseBut({a}) && Unlisted(lists, a) && Rd(ram[..], a + PREV) == WORD - 1 - a
    }

    // Taking a used node in hand: its flag is cleared.
    method TakeUsed(a: int)
      requires Valid() && Live(ram[..], pool, nodes, a)
      modifies ram
      ensures ram[..] == Unflagged(old(ram[..]), a)
      ensures Holding(a) && !IsUsed(ram[..], a) && NodeSize(ram[..], a) == NodeSize(old(ram[..]), a)
      ensures forall x :: x in nodes && x != a ==> Rd(ram[..], x + SIZE_AND_FLAG) == Rd(old(ram[..]), x + SIZE_AND_FLAG)
      ensures HeadersOnly(old(ram[..]), ram[..], pool, nodes)
    {
      hide Rings, Chain, Agree, Placed, Wr, Rd, HeadersOnly, NoAdjacentFree, NoAdjacentFreeBut, MagicBut;
      hide HeadIndex, WordAligned;
      ghost var m0 := ram[..];
      NodeInMem(m0, pool, nodes, a);
      UsedUnlisted(m0, nodes, lists, {}, a);
      WellFormedIsLoose(m0, pool, nodes, lists, {a});
      var w := GetSize(Word(a + SIZE_AND_FLAG));
      FlagStep(m0, pool, nodes, lists, {a}, a, w);
      Store(a + SIZE_AND_FLAG, w);
    }

    // Putting it back.
    method PutUsed(a: int)
      requires Holding(a) && !IsUsed(ram[..], a)
      modifies ram
      ensures ram[..] == Flagged(old(ram[..]), a)
      ensures Valid() && Live(ram[..], pool, nodes, a) && NodeSize(ram[..], a) == NodeSize(old(ram[..]), a)
      ensures forall x :: x in nodes && x != a ==> Rd(ram[..], x + SIZE_AND_FLAG) == Rd(old(ram[..]), x + SIZE_AND_FLAG)
      ensures HeadersOnly(old(ram[..]), ram[..], pool, nodes)
    {
      hide Rings, Chain, Agree, Placed, Wr, Rd, HeadersOnly, NoAdjacentFreeBut, MagicBut, HeadIndex, WordAligned;
      ghost var m0 := ram[..];
      NodeInMem(m0, pool, nodes, a);
      var w := SetUsed(Word(a + SIZE_AND_FLAG));
      FlagStep(m0, pool, nodes, lists, {a}, a, w);
      Store(a + SIZE_AND_FLAG, w);
      SettleUsed(ram[..], pool, nodes, lists, {a}, a);
      assert {a} - {a} == {};
      LooseIsWellFormed(ram[..], pool, nodes, lists);
    }

    // osMemReAllocSmaller, down to any number of bytes. Once the rest has gone into a list, what is left
    // is a heap with the block exactly when a header is kept or nothing is cut.
    method ReAllocSmaller(n: int, a: int)
      requires Valid() && Live(ram[..], pool, nodes, a)
      requires 0 <= n <= NodeSize(ram[..], a) && n % ALIGN_SIZE == 0
      modifies ram, `lists, `nodes
      ensures ram[..] == Smaller(old(ram[..]), pool, a, n)
      ensures RestListed(old(ram[..]), a, n) ==> (Survives(ram[..], pool, a) <==> CutIsSound(old(ram[..]), a, n))
      ensures CutIsSound(old(ram[..]), a, n) ==>
                && Valid() && View(ram[..], nodes) == Shrink(View(old(ram[..]), old(nodes)), a, n)
                && Live(ram[..], pool, nodes, a) && NodeSize(ram[..], a) >= n
                && PayloadKept(old(ram[..]), ram[..], old(nodes), a)
                && UsedKept(old(ram[..]), ram[..], old(nodes), nodes, a)
                && forall x :: InPayload(old(ram[..]), a, x) && x < a + n ==> Rd(ram[..], x) == Rd(old(ram[..]), x)
    {
      hide WellFormed, Chain, Rd, View, Shrink, PayloadKept, UsedKept, Smaller, RestListed, Survives, Live;
      ghost var m0, lists0 := ram[..], lists;
      WordsOfLive(m0, pool, nodes, lists, a);
      WellFormedIsPool(m0, pool, nodes, lists);
      if n >= NODE_HEAD_SIZE || n + NODE_HEAD_SIZE + ALIGN_SIZE > GetSize(Word(a + SIZE_AND_FLAG)) {
        CutInPlace(n, a);
        ItSurvives(ram[..], pool, nodes, lists, a);
      } else {
        CutShort(n, a);
        if RestListed(m0, a, n) {
          CutBreaks(m0, pool, a, n);
        }
      }
    }

    // osMemReAllocSmaller when it leaves a header, or cuts nothing.
    method CutInPlace(n: int, a: int)
      requires Valid() && Live(ram[..], pool, nodes, a)
      requires 0 <= n <= NodeSize(ram[..], a) && n % ALIGN_SIZE == 0 && CutIsSound(ram[..], a, n)
      modifies ram, `lists, `nodes
      ensures ram[..] == Smaller(old(ram[..]), pool, a, n)
      ensures Valid() && View(ram[..], nodes) == Shrink(View(old(ram[..]), old(nodes)), a, n)
      ensures Live(ram[..], pool, nodes, a) && NodeSize(ram[..], a) >= n
      ensures PayloadKept(old(ram[..]), ram[..], old(nodes), a) && UsedKept(old(ram[..]), ram[..], old(nodes), nodes, a)
      ensures forall x :: InPayload(old(ram[..]), a, x) && x < a + n ==> Rd(ram[..], x) == Rd(old(ram[..]), x)
    {
      hide Rings, Chain, Agree, Placed, Wr, Rd, HeadersOnly, NoAdjacentFree, Magic, HeadIndex, WordAligned, View;
      hide Shrink, PayloadKept, Unflagged, Flagged, Spit;
      hide Loose;
      ghost var m0, nodes0, lists0 := ram[..], nodes, lists;
      NodeInMem(m0, pool, nodes, a);
      KeptRefl(m0, nodes);
      if n + NODE_HEAD_SIZE + ALIGN_SIZE <= GetSize(Word(a + SIZE_AND_FLAG)) {
        CutFacts(m0, pool, nodes, lists, a, n);
        TakeUsed(a);
        ghost var m1 := ram[..];
        SpitNode(a, n);
        ghost var m2 := ram[..];
        assert Holding(a) by { assert Unlisted(lists, a); }
        PutUsed(a);
        ghost var m3 := ram[..];
        HeadersOnlyGrow(m0, m1, pool, nodes0, nodes0 + {a + n});
        HeadersOnlyTrans(m0, m1, m2, pool, nodes0 + {a + n}, nodes0 + {a + n});
        HeadersOnlyTrans(m0, m2, m3, pool, nodes0 + {a + n}, nodes);
        KeptAround(m0, m3, pool, nodes0, a, a + n);
        ShrinkView(m0, m3, pool, nodes0, nodes, a, n);
      } else {
        NoShrink(m0, pool, nodes, a, n);
      }
    }

    // The word at any address; outside ram there is nothing to read or write.
    function Peek(x: int): (w: int)
      reads ram
      ensures w == Rd(ram[..], x)
    {
      if 0 <= x < ram.Length then ram[x] else 0
    }

    method Poke(x: int, v: int)
      modifies ram
      ensures ram[..] == Wr(old(ram[..]), x, v)
    {
      if 0 <= x < ram.Length {
        ram[x] := v;
      }
    }

    // The same steps when less than a header is kept and the addresses they compute may be any.
    method CutShort(n: int, a: int)
      requires n + NODE_HEAD_SIZE + ALIGN_SIZE <= NodeSize(ram[..], a)
      modifies ram
      ensures ram[..] == Smaller(old(ram[..]), pool, a, n)
    {
      hide Rd, Wr, Merge, Unlink, Link, Split;
      var b := a + n;
      Poke(a + SIZE_AND_FLAG, GetSize(Peek(a + SIZE_AND_FLAG)));
      SplitAnywhere(a, n);
      var next := b + GetSize(Peek(b + SIZE_AND_FLAG));
      if !GetUsed(Peek(next + SIZE_AND_FLAG)) {
        DeleteAnywhere(next);
        MergeAnywhere(next);
      }
      var w := Peek(b + SIZE_AND_FLAG);
      var c := if w < 0 then NONE else HeadIndex(w);
      if c != NONE {
        AddAnywhere(ListHead(pool, c), b);
      }
      Poke(a + SIZE_AND_FLAG, SetUsed(Peek(a + SIZE_AND_FLAG)));
    }

    method SplitAnywhere(a: int, n: int)
      modifies ram
      ensures ram[..] == Split(old(ram[..]), a, n)
    {
      hide Rd, Wr;
      Poke(a + n + PRE_NODE, a);
      Poke(a + n + SIZE_AND_FLAG, Peek(a + SIZE_AND_FLAG) - n);
      Poke(a + SIZE_AND_FLAG, n);
      var next := a + n + GetSize(Peek(a + n + SIZE_AND_FLAG));
      Poke(next + PRE_NODE, a + n);
    }

    method DeleteAnywhere(a: int)
      modifies ram
      ensures ram[..] == Unlink(old(ram[..]), a)
    {
      hide Rd, Wr;
      Poke(Peek(a + NEXT) + PREV, Peek(a + PREV));
      Poke(Peek(a + PREV) + NEXT, Peek(a + NEXT));
      Poke(a + NEXT, 0);
      Poke(a + PREV, 0);
    }

    method MergeAnywhere(a: int)
      modifies ram
      ensures ram[..] == Merge(old(ram[..]), a)
    {
      hide Rd, Wr;
      var pre := Peek(a + PRE_NODE);
      Poke(pre + SIZE_AND_FLAG, Peek(pre + SIZE_AND_FLAG) + Peek(a + SIZE_AND_FLAG));
      var next := a + Peek(a + SIZE_AND_FLAG);
      Poke(next + PRE_NODE, Peek(a + PRE_NODE));
      Poke(a + PREV, 0);
      Poke(a + NEXT, 0);
      Poke(a + PRE_NODE, 0);
    }

    method AddAnywhere(h: int, a: int)
      modifies ram
      ensures ram[..] == Link(old(ram[..]), h, a)
    {
      hide Rd, Wr;
      Poke(a + NEXT, Peek(h + NEXT));
      Poke(a + PREV, h);
      Poke(Peek(h + NEXT) + PREV, a);
      Poke(h + NEXT, a);
    }

    // osMemMergeNodeForReAllocBigger
    method MergeNodeForReAllocBigger(n: int, a: int)
      requires Valid() && Live(ram[..], pool, nodes, a) && !IsUsed(ram[..], NextNode(ram[..], a))
      requires NODE_HEAD_SIZE <= NodeSize(ram[..], a) < n && n % ALIGN_SIZE == 0
      requires n <= NodeSize(ram[..], a) + NodeSize(ram[..], NextNode(ram[..], a))
      modifies ram, `lists, `nodes
      ensures Valid() && View(ram[..], nodes) == Grow(View(old(ram[..]), old(nodes)), a, n)
      ensures Live(ram[..], pool, nodes, a) && NodeSize(ram[..], a) >= n
      ensures PayloadKept(old(ram[..]), ram[..], old(nodes), a) && UsedKept(old(ram[..]), ram[..], old(nodes), nodes, a)
      ensures forall x :: InPayload(old(ram[..]), a, x) ==> Rd(ram[..], x) == Rd(old(ram[..]), x)
    {
      hide Rings, Chain, Agree, Placed, Wr, Rd, HeadersOnly, NoAdjacentFree, Magic, HeadIndex, WordAligned, View;
      hide Grow, PayloadKept;
      hide Loose;
      ghost var m0, nodes0, lists0 := ram[..], nodes, lists;
      ghost var next := NextNode(m0, a);
      ghost var total := NodeSize(m0, a) + NodeSize(m0, next);
      ghost var z := a + n;
      JoinFacts(m0, pool, nodes, lists, a);
      TakeUsed(a);
      ghost var m1 := ram[..];
      JoinNext(a);
      ghost var m2, nodes2 := ram[..], nodes;
      LooseChain(m2, pool, nodes, lists, {a});
      NodeInMem(m2, pool, nodes, a);
      HeadersOnlyTrans(m0, m1, m2, pool, nodes0, nodes0);
      if n + NODE_HEAD_SIZE + ALIGN_SIZE <= Word(a + SIZE_AND_FLAG) {
        SpitNode(a, n);
        ghost var m3 := ram[..];
        assert nodes == nodes2 + {z};
        assert Holding(a) by { assert Unlisted(lists, a); }
        PutUsed(a);
        HeadersOnlyGrow(m0, m2, pool, nodes0, nodes0 + {z});
        HeadersOnlyTrans(m0, m2, m3, pool, nodes0 + {z}, nodes);
        HeadersOnlyTrans(m0, m3, ram[..], pool, nodes0 + {z}, nodes);
        KeptAround(m0, ram[..], pool, nodes0, a, z);
      } else {
        PutUsed(a);
        HeadersOnlyTrans(m0, m2, ram[..], pool, nodes0, nodes);
        KeptByOld(m0, ram[..], pool, nodes0);
        OwnPayloadKept(m0, ram[..], nodes0, a);
      }
      GrowView(m0, ram[..], pool, nodes0, nodes, a, n, total);
    }

    // LOS_ListDelete and osMemMergeNode of the free node after one in hand.
    method JoinNext(a: int)
      requires Holding(a) && !IsUsed(ram[..], a)
      requires var m := ram[..]; var next := NextNode(m, a);
               next in nodes && next > a && !IsUsed(m, next) && IsUsed(m, NextNode(m, next)) && NextNode(m, next) > a
      modifies ram, `lists, `nodes
      ensures Holding(a) && !IsUsed(ram[..], a)
      ensures nodes == old(nodes) - {NextNode(old(ram[..]), a)}
      ensures IsUsed(ram[..], NextNode(ram[..], a))
      ensures NodeSize(ram[..], a) == NodeSize(old(ram[..]), a) + NodeSize(old(ram[..]), NextNode(old(ram[..]), a))
      ensures forall x :: x in nodes && x != a ==> Rd(ram[..], x + SIZE_AND_FLAG) == Rd(old(ram[..]), x + SIZE_AND_FLAG)
      ensures HeadersOnly(old(ram[..]), ram[..], pool, old(nodes))
    {
      hide Rings, Chain, Agree, Placed, Wr, Rd, HeadersOnly, NoAdjacentFreeBut, MagicBut, HeadIndex, WordAligned;
      AbsorbNext(a, {a});
    }

    // memcpy of len bytes, a whole number of words, into the payload of the block at a.
    method Copy(ghost a: int, dst: int, src: int, len: int)
      requires Valid() && Live(ram[..], pool, nodes, a) && dst == a + NODE_HEAD_SIZE
      requires 0 <= len <= NodeSize(ram[..], a) - NODE_HEAD_SIZE && len % 4 == 0
      requires 0 <= src && src + len <= ram.Length && (src + len <= a || NextNode(ram[..], a) <= src)
      modifies ram
      ensures Valid() && View(ram[..], nodes) == View(old(ram[..]), nodes)
      ensures PayloadKept(old(ram[..]), ram[..], nodes, a) && UsedKept(old(ram[..]), ram[..], nodes, nodes, a)
      ensures SameNodes(old(ram[..]), ram[..], nodes)
      ensures Copied(old(ram[..]), ram[..], dst, src, len)
    {
      hide Rd, Wr, Rings, Agree, Placed, Chain, PayloadKept, UsedKept, View, WellFormed;
      ghost var m0 := ram[..];
      KeptRefl(m0, nodes);
      var k := 0;
      while k < len
        invariant 0 <= k <= len && k % 4 == 0
        invariant Valid() && View(ram[..], nodes) == View(m0, nodes)
        invariant PayloadKept(m0, ram[..], nodes, a) && UsedKept(m0, ram[..], nodes, nodes, a)
        invariant SameNodes(m0, ram[..], nodes)
        invariant Copied(m0, ram[..], dst, src, k)
        invariant forall x {:trigger Rd(ram[..], x)} :: x < dst || dst + len <= x ==> Rd(ram[..], x) == Rd(m0, x)
      {
        ghost var m := ram[..];
        var w := Word(src + k);
        CopyStep(m, pool, nodes, lists, a, dst + k, w);
        KeptTrans(m0, m, Wr(m, dst + k, w), nodes, nodes, nodes, a);
        Store(dst + k, w);
        k := k + 4;
      }
    }

    // The last resort of LOS_MemRealloc: allocate, copy the whole old payload, free.
    method MoveBlock(a: int, size: int, taskId: int) returns (r: int)
      requires Valid() && Live(ram[..], pool, nodes, a) && 0 <= size && size + NODE_HEAD_SIZE + 3 < WORD
      requires NodeSize(ram[..], a) < AllocSize(size)
      modifies ram, `lists, `nodes
      ensures Valid()
      ensures r == 0 <==> forall b :: b in old(nodes) && !IsUsed(old(ram[..]), b) ==>
                NodeSize(old(ram[..]), b) < AllocSize(size)
      ensures r == 0 ==> ram[..] == old(ram[..]) && nodes == old(nodes) && lists == old(lists)
      ensures r != 0 ==> BestFit(old(ram[..]), old(nodes), r - NODE_HEAD_SIZE, AllocSize(size))
      ensures r != 0 ==> View(ram[..], nodes) ==
                         Release(Occupy(View(old(ram[..]), old(nodes)), r - NODE_HEAD_SIZE, AllocSize(size)), a)
      ensures r != 0 ==>
                && Live(ram[..], pool, nodes, r - NODE_HEAD_SIZE)
                && NodeSize(ram[..], r - NODE_HEAD_SIZE) >= AllocSize(size)
      ensures r != 0 ==>
                Copied(old(ram[..]), ram[..], r, a + NODE_HEAD_SIZE, NodeSize(old(ram[..]), a) - NODE_HEAD_SIZE)
      ensures PayloadKept(old(ram[..]), ram[..], old(nodes), a) && UsedKept(old(ram[..]), ram[..], old(nodes), nodes, a)
    {
      hide Rd, WellFormed, Chain, PayloadKept, UsedKept, View, AllocSize, Copied, Release, Occupy, BestFit;
      ghost var m0, nodes0 := ram[..], nodes;
      AllocSizeBounds(size);
      WellFormedChain(m0, pool, nodes, lists);
      WellFormedIsWords(m0, pool, nodes, lists);
      KeptRefl(m0, nodes);
      NodeInMem(m0, pool, nodes, a);
      SizeIsWords(m0, pool, nodes, a);
      var len := GetSize(Word(a + SIZE_AND_FLAG)) - NODE_HEAD_SIZE;
      r := AllocWithCheck(size, taskId);
      if r != 0 {
        ghost var m1, nodes1, b := ram[..], nodes, r - NODE_HEAD_SIZE;
        BestFitIsFree(m0, nodes0, b, AllocSize(size));
        WellFormedChain(m1, pool, nodes, lists);
        MoveFacts(m0, m1, pool, nodes0, nodes1, a, b);
        Copy(b, r, a + NODE_HEAD_SIZE, len);
        ghost var m2 := ram[..];
        FreeNode(a);
        ghost var m3 := ram[..];
        MoveCopied(m0, m1, m2, m3, nodes0, nodes1, a, b, len);
        MoveKept(m0, m1, m2, m3, nodes0, nodes1, nodes, a, b);
        LiveStays(m2, m3, pool, nodes1, nodes, a, b);
      }
    }

    // LOS_MemRealloc of a live block to a non-zero size: cut in place, grown in place over a free
    // block after it, or moved; or nothing at all.
    method ReallocBlock(a: int, size: int, taskId: int) returns (r: int)
      requires Valid() && Live(ram[..], pool, nodes, a) && 0 <= size < WORD
      modifies ram, `lists, `nodes
      ensures CutIsSound(old(ram[..]), a, AllocSize(size)) ==>
                && Valid()
                && (r == 0 <==> CannotResize(old(ram[..]), old(nodes), a, AllocSize(size)))
                && (r == 0 ==> ram[..] == old(ram[..]) && nodes == old(nodes) && lists == old(lists))
                && (r != 0 ==> Reallocated(old(ram[..]), old(nodes), ram[..], r, a, size))
                && PayloadKept(old(ram[..]), ram[..], old(nodes), a)
                && UsedKept(old(ram[..]), ram[..], old(nodes), nodes, a)
      ensures !CutIsSound(old(ram[..]), a, AllocSize(size)) ==>
                && r == a + NODE_HEAD_SIZE && ram[..] == Smaller(old(ram[..]), pool, a, AllocSize(size))
                && (RestListed(old(ram[..]), a, AllocSize(size)) ==> !Survives(ram[..], pool, a))
    {
      hide Rd, Rings, Agree, Placed, Chain, PayloadKept, View, AllocSize, BestFit, UsedKept, Smaller, RestListed;
      hide Release, Occupy, Shrink, Grow, Survives;
      ghost var m0, nodes0 := ram[..], nodes;
      AllocSizeBounds(size);
      KeptRefl(m0, nodes);
      NodeInMem(m0, pool, nodes, a);
      NodeLinks(m0, pool, nodes, a);
      SizeIsWords(m0, pool, nodes, a);
      NodeInMem(m0, pool, nodes, NextNode(m0, a));
      var n := AllocSize(size);
      var nodeSize := GetSize(Word(a + SIZE_AND_FLAG));
      if nodeSize >= n {
        ReAllocSmaller(n, a);
        return a + NODE_HEAD_SIZE;
      }
      var next := a + nodeSize;
      if !GetUsed(Word(next + SIZE_AND_FLAG)) && Word(next + SIZE_AND_FLAG) + nodeSize >= n {
        MergeNodeForReAllocBigger(n, a);
        return a + NODE_HEAD_SIZE;
      }
      r := MoveBlock(a, size, taskId);
    }

    // The block at a was resized for size bytes, and r is the pointer to it: a live block which, unless
    // the rounding wrapped, has room for the request and begins with what the old one held.
    ghost predicate Reallocated(m: Mem, N: set<int>, m': Mem, r: int, a: int, size: int)
      reads this
    {
      && Resized(m, N, m', nodes, a, AllocSize(size), r)
      && Live(m', pool, nodes, r - NODE_HEAD_SIZE)
      && (size + NODE_HEAD_SIZE + 3 < WORD ==>
            && r + size <= NextNode(m', r - NODE_HEAD_SIZE)
            && Copied(m, m', r, a + NODE_HEAD_SIZE, Min(NodeSize(m, a) - NODE_HEAD_SIZE, size)))
    }

    // LOS_MemRealloc, for every size. The last clause is what the sizes do whose rounding wraps to less
    // than a header, when the block is long enough to be cut.
    method MemRealloc(ptr: int, size: int, taskId: int) returns (r: int)
      requires Valid() && (ptr == 0 || 4 <= ptr < ram.Length) && 0 <= size < WORD
      modifies ram, `lists, `nodes
      ensures ptr == 0 ==>
                && Valid()
                && (r == 0 <==> size == 0 || GetUsed(size) ||
                                forall b :: b in old(nodes) && !IsUsed(old(ram[..]), b) ==>
                                  NodeSize(old(ram[..]), b) < AllocSize(size))
                && (r == 0 ==> ram[..] == old(ram[..]) && nodes == old(nodes) && lists == old(lists))
                && (r != 0 ==> Granted(old(ram[..]), old(nodes), ram[..], r, r - NODE_HEAD_SIZE, size, size))
                && (forall b :: PayloadKept(old(ram[..]), ram[..], old(nodes), b))
                && (forall b :: UsedKept(old(ram[..]), ram[..], old(nodes), nodes, b))
      ensures ptr != 0 ==>
                var a := Recover(old(ram[..]), ptr);
                && (!Live(old(ram[..]), pool, old(nodes), a) ==>
                      r == 0 && Valid() && ram[..] == old(ram[..]) && nodes == old(nodes) && lists == old(lists))
                && (Live(old(ram[..]), pool, old(nodes), a) && size == 0 ==>
                      && r == 0 && Valid() && View(ram[..], nodes) == Release(View(old(ram[..]), old(nodes)), a)
                      && PayloadKept(old(ram[..]), ram[..], old(nodes), a)
                      && UsedKept(old(ram[..]), ram[..], old(nodes), nodes, a))
      ensures ptr != 0 && size != 0 ==>
                var a := Recover(old(ram[..]), ptr);
                Live(old(ram[..]), pool, old(nodes), a) && CutIsSound(old(ram[..]), a, AllocSize(size)) ==>
                  && Valid()
                  && (r == 0 <==> CannotResize(old(ram[..]), old(nodes), a, AllocSize(size)))
                  && (r == 0 ==> ram[..] == old(ram[..]) && nodes == old(nodes) && lists == old(lists))
                  && (r != 0 ==> Reallocated(old(ram[..]), old(nodes), ram[..], r, a, size))
                  && PayloadKept(old(ram[..]), ram[..], old(nodes), a)
                  && UsedKept(old(ram[..]), ram[..], old(nodes), nodes, a)
      ensures ptr != 0 && size != 0 ==>
                var a := Recover(old(ram[..]), ptr);
                Live(old(ram[..]), pool, old(nodes), a) && !CutIsSound(old(ram[..]), a, AllocSize(size)) ==>
                  && r == a + NODE_HEAD_SIZE && ram[..] == Smaller(old(ram[..]), pool, a, AllocSize(size))
                  && (RestListed(old(ram[..]), a, AllocSize(size)) ==> !Survives(ram[..], pool, a))
    {
      hide Rd, Rings, Agree, Placed, PayloadKept, View, Release, Chain, Recover, AllocSize, BestFit, UsedKept;
      hide Resized, CannotResize, Copied, Occupy, Smaller, RestListed, Survives, CutIsSound, Reallocated;
      KeptRefl(ram[..], nodes);
      if ptr == 0 {
        r := MemAlloc(size, taskId);
      } else if size == 0 {
        var freed := MemFree(ptr);
        r := 0;
      } else {
        var node := NodeOf(ptr);
        var ok := CheckUsedNode(node);
        if ok {
          r := ReallocBlock(node, size, taskId);
        } else {
          r := 0;
        }
      }
    }

    // LOS_DLnkInitMultiHead
    method InitMultiHead()
      requires PoolShape(ram[..], pool)
      modifies ram
      ensures |ram[..]| == |old(ram[..])| && Rings(ram[..], pool, NoLists())
    {
      hide Wr, Rd;
      for i := 0 to LIST_NUM
        invariant |ram[..]| == |old(ram[..])|
        invariant forall c :: 0 <= c < i ==> EmptyRing(ram[..], ListHead(pool, c))
      {
        var h := ListHead(pool, i);
        ghost var m0 := ram[..];
        WrWords(m0, h + NEXT, h);
        Store(h + NEXT, h);
        ghost var m1 := ram[..];
        WrWords(m1, h + PREV, h);
        Store(h + PREV, h);
      }
    }

    // LOS_MemInit: one free node between the list heads and the end sentinel.
    method MemInit(taskId: int) returns (ok: bool)
      requires 0 <= pool.base && pool.base + pool.size <= ram.Length <= WORD
      requires pool.base % ALIGN_SIZE == 0 && pool.size % ALIGN_SIZE == 0
      modifies ram, `lists, `nodes
      ensures ok <==> pool.base != 0 && pool.size >= MIN_POOL_SIZE && EndNode(pool) - FirstNode(pool) < USED_FLAG
      ensures ok ==> Valid() && View(ram[..], nodes) == Tiling({FirstNode(pool), EndNode(pool)}, {EndNode(pool)})
    {
      hide Wr, Rd, HeadIndex, Rings, Link;
      if pool.base == 0 || pool.size < MIN_POOL_SIZE {
        return false;
      }
      Store(pool.base, pool.base);
      Store(pool.base + 4, pool.size);
      InitMultiHead();
      ghost var m0 := ram[..];
      var first, end := FirstNode(pool), EndNode(pool);
      var size := (pool.size - (first - pool.base)) - NODE_HEAD_SIZE;
      Store(first + SIZE_AND_FLAG, size);
      Store(first + PRE_NODE, 0);
      HeadIndexRange(size);
      var c := HeadIndex(size);
      if c == NONE {
        return false;
      }
      InitFirst(m0, ram[..], pool, size);
      InitList(c, first);
      nodes := {first, end};
      lists := NoLists()[c := [first]];
      ghost var m3 := ram[..];
      InitEnd(end, first, taskId);
      InitWellFormed(m3, ram[..], pool, size, c);
      return true;
    }

    // LOS_ListTailInsert of the single free node into its empty list.
    method InitList(c: int, first: int)
      requires PoolIn(ram[..], pool) && 0 <= c < LIST_NUM && first == FirstNode(pool) && Rings(ram[..], pool, NoLists())
      modifies ram
      ensures |ram[..]| == |old(ram[..])| && Rings(ram[..], pool, NoLists()[c := [first]])
      ensures SameNodes(old(ram[..]), ram[..], {first})
    {
      hide Rd, Rings, Link;
      ghost var m := ram[..];
      InitHead(m, pool, c);
      LinkRings(m, pool, {first}, NoLists(), c, first);
      assert [first] + NoLists()[c] == [first];
      ListAdd(Word(ListHead(pool, c) + PREV), first);
    }

    // The end sentinel: cleared, then linked back and marked used.
    method InitEnd(end: int, first: int, taskId: int)
      requires 0 <= end && end + NODE_HEAD_SIZE <= ram.Length
      modifies ram
      ensures |ram[..]| == |old(ram[..])|
      ensures Rd(ram[..], end + PREV) == WORD - 1 - end && Rd(ram[..], end + PRE_NODE) == first
      ensures Rd(ram[..], end + SIZE_AND_FLAG) == USED_FLAG + NODE_HEAD_SIZE
      ensures forall x {:trigger Rd(ram[..], x)} :: !(end <= x < end + NODE_HEAD_SIZE) ==>
                Rd(ram[..], x) == Rd(old(ram[..]), x)
    {
      Store(end + PREV, 0);
      Store(end + NEXT, 0);
      Store(end + PRE_NODE, 0);
      Store(end + SIZE_AND_FLAG, 0);
      Store(end + PRE_NODE, first);
      Store(end + SIZE_AND_FLAG, NODE_HEAD_SIZE);
      Store(end + SIZE_AND_FLAG, SetUsed(Word(end + SIZE_AND_FLAG)));
      Store(end + PREV, WORD - 1 - end);
      Store(end + NEXT, taskId);
    }
  }
}
