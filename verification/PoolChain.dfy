// Splitting and merging nodes of the chain: what osMemSpitNode and osMemMergeNode do to the
// headers, and why the nodes keep tiling the pool.

module PoolChain {
  import opened MultiHead
  import opened PoolMemory

  // osMemMergeNode: node a is absorbed by the node before it.
  function Merge(m: Mem, a: int): Mem
  {
    var pre := PreNode(m, a);
    var m1 := Wr(m, pre + SIZE_AND_FLAG, Rd(m, pre + SIZE_AND_FLAG) + Rd(m, a + SIZE_AND_FLAG));
    var next := a + Rd(m1, a + SIZE_AND_FLAG);
    var m2 := Wr(m1, next + PRE_NODE, PreNode(m1, a));
    Wr(Wr(Wr(m2, a + PREV, 0), a + NEXT, 0), a + PRE_NODE, 0)
  }

  // The header writes of osMemSpitNode: node a keeps n bytes, a new node takes the rest.
  function Split(m: Mem, a: int, n: int): Mem
  {
    var b := a + n;
    var m1 := Wr(m, b + PRE_NODE, a);
    var m2 := Wr(m1, b + SIZE_AND_FLAG, Rd(m1, a + SIZE_AND_FLAG) - n);
    var m3 := Wr(m2, a + SIZE_AND_FLAG, n);
    Wr(m3, NextNode(m3, b) + PRE_NODE, b)
  }

  lemma MaxBelow(N: set<int>, a: int) returns (b: int)
    requires exists x :: x in N && x < a
    ensures b in N && b < a && forall x :: x in N && x < a ==> x <= b
  {
    b :| b in N && b < a;
    while exists x :: x in N && b < x < a
      invariant b in N && b < a
      decreases a - b
    {
      var x :| x in N && b < x < a;
      b := x;
    }
  }

  // The back pointer of a node other than the first is the node before it.
  lemma PreIsBefore(m: Mem, p: Pool, N: set<int>, a: int)
    requires Chain(m, p, N) && a in N && a != FirstNode(p)
    ensures PreNode(m, a) in N && PreNode(m, a) < a && NextNode(m, PreNode(m, a)) == a && PreNode(m, a) != EndNode(p)
  {
    assert FirstNode(p) in N && FirstNode(p) < a;
    var b := MaxBelow(N, a);
    assert NodeOk(m, N, b);
  }

  // Everything a merge does, word by word.
  lemma MergeWords(m: Mem, p: Pool, N: set<int>, a: int)
    requires Chain(m, p, N) && a in N && a != FirstNode(p) && a != EndNode(p)
    requires !IsUsed(m, a) && !IsUsed(m, PreNode(m, a))
    ensures var m', pre, next := Merge(m, a), PreNode(m, a), NextNode(m, a);
            && pre in N && next in N && pre < a < next && NextNode(m, pre) == a
            && |m'| == |m|
            && Rd(m', pre + SIZE_AND_FLAG) == NodeSize(m, pre) + NodeSize(m, a)
            && Rd(m', next + PRE_NODE) == pre
            && (forall x {:trigger Rd(m', x)} ::
                  x != pre + SIZE_AND_FLAG && x != next + PRE_NODE && !(a <= x < a + SIZE_AND_FLAG) ==>
                  Rd(m', x) == Rd(m, x))
  {
    PreIsBefore(m, p, N, a);
    assert NodeOk(m, N, a);
  }

  lemma MergeChain(m: Mem, p: Pool, N: set<int>, a: int)
    requires Chain(m, p, N) && a in N && a != FirstNode(p) && a != EndNode(p)
    requires !IsUsed(m, a) && !IsUsed(m, PreNode(m, a))
    ensures var m', pre := Merge(m, a), PreNode(m, a);
            && Chain(m', p, N - {a})
            && pre in N && pre < a
            && NextNode(m', pre) == NextNode(m, a)
  {
    hide Merge, Rd;
    var m', pre, next := Merge(m, a), PreNode(m, a), NextNode(m, a);
    MergeWords(m, p, N, a);
    assert NodeOk(m, N, a) && NodeOk(m, N, pre);
    forall b | b in N - {a} && b != EndNode(p)
      ensures NodeOk(m', N - {a}, b)
    {
      assert NodeOk(m, N, b);
      if b != pre {
        assert PreNode(m, NextNode(m, b)) == b && NextNode(m, b) != a;
        assert NextNode(m, b) != next;
      }
    }
  }

  // A merge only writes headers, and no link or size word of another node.
  lemma MergeEffect(m: Mem, p: Pool, N: set<int>, a: int)
    requires Chain(m, p, N) && a in N && a != FirstNode(p) && a != EndNode(p)
    requires !IsUsed(m, a) && !IsUsed(m, PreNode(m, a))
    ensures var m' := Merge(m, a);
            && HeadersOnly(m, m', p, N)
            && (forall b :: b in N && b != PreNode(m, a) ==> Rd(m', b + SIZE_AND_FLAG) == Rd(m, b + SIZE_AND_FLAG))
            && SameLinks(m, m', p, N - {a})
  {
    hide Merge, Rd;
    MergeWords(m, p, N, a);
  }

  // No link cell of a list head or of a node in N was written.
  ghost predicate SameLinks(m: Mem, m': Mem, p: Pool, N: set<int>) {
    && |m'| == |m|
    && (forall x {:trigger Rd(m', x)} :: p.base <= x < FirstNode(p) ==> Rd(m', x) == Rd(m, x))
    && (forall b :: b in N ==> Rd(m', b + PREV) == Rd(m, b + PREV))
    && (forall b :: b in N ==> Rd(m', b + NEXT) == Rd(m, b + NEXT))
  }

  // A node that can be cut after n bytes.
  ghost predicate Splittable(m: Mem, p: Pool, N: set<int>, a: int, n: int) {
    && a in N && a != EndNode(p) && !IsUsed(m, a)
    && NODE_HEAD_SIZE <= n && n + NODE_HEAD_SIZE <= NodeSize(m, a)
  }

  lemma SplitWords(m: Mem, p: Pool, N: set<int>, a: int, n: int)
    requires Chain(m, p, N) && Splittable(m, p, N, a, n)
    ensures var m', b, next := Split(m, a, n), a + n, NextNode(m, a);
            && next in N && a + 16 <= b && b + 16 <= next
            && |m'| == |m|
            && Rd(m', b + PRE_NODE) == a
            && Rd(m', b + SIZE_AND_FLAG) == NodeSize(m, a) - n
            && Rd(m', a + SIZE_AND_FLAG) == n
            && Rd(m', next + PRE_NODE) == b
            && (forall x {:trigger Rd(m', x)} ::
                  x != b + PRE_NODE && x != b + SIZE_AND_FLAG && x != a + SIZE_AND_FLAG && x != next + PRE_NODE ==>
                  Rd(m', x) == Rd(m, x))
  {
    assert NodeOk(m, N, a);
  }

  lemma SplitSpaced(m: Mem, p: Pool, N: set<int>, a: int, n: int)
    requires Chain(m, p, N) && Splittable(m, p, N, a, n)
    ensures a + n !in N && Spaced(p, N + {a + n})
  {
    hide Rd;
    assert NodeOk(m, N, a);
    var N' := N + {a + n};
    forall x, y | x in N' && y in N' && x < y
      ensures x + NODE_HEAD_SIZE <= y
    {
      if y == a + n && x != a {
        ChainGap(m, p, N, x, a);
      }
    }
  }

  lemma SplitNodes(m: Mem, p: Pool, N: set<int>, a: int, n: int, x: int)
    requires Chain(m, p, N) && Splittable(m, p, N, a, n)
    requires x in N + {a + n} && x != EndNode(p)
    ensures NodeOk(Split(m, a, n), N + {a + n}, x)
  {
    hide Split, Rd;
    SplitWords(m, p, N, a, n);
    SplitSpaced(m, p, N, a, n);
    assert NodeOk(m, N, a);
    if x != a + n {
      assert NodeOk(m, N, x);
      if x != a {
        assert NextNode(m, x) != NextNode(m, a);
      }
    }
  }

  lemma SplitChain(m: Mem, p: Pool, N: set<int>, a: int, n: int)
    requires Chain(m, p, N) && Splittable(m, p, N, a, n)
    ensures var m', b := Split(m, a, n), a + n;
            && Chain(m', p, N + {b})
            && NextNode(m', b) == NextNode(m, a)
  {
    hide Split, Rd, NodeOk;
    SplitWords(m, p, N, a, n);
    SplitSpaced(m, p, N, a, n);
    var N' := N + {a + n};
    forall x | x in N' && x != EndNode(p)
      ensures NodeOk(Split(m, a, n), N', x)
    {
      SplitNodes(m, p, N, a, n, x);
    }
  }

  lemma SplitEffect(m: Mem, p: Pool, N: set<int>, a: int, n: int)
    requires Chain(m, p, N) && Splittable(m, p, N, a, n)
    ensures var m', b := Split(m, a, n), a + n;
            && HeadersOnly(m, m', p, N + {b})
            && (forall x :: x in N && x != a ==> Rd(m', x + SIZE_AND_FLAG) == Rd(m, x + SIZE_AND_FLAG))
            && SameLinks(m, m', p, N)
  {
    hide Split, Rd;
    SplitWords(m, p, N, a, n);
    SplitSpaced(m, p, N, a, n);
  }

  lemma WrWords(m: Mem, x: int, v: int)
    requires 0 <= x < |m|
    ensures |Wr(m, x, v)| == |m| && Rd(Wr(m, x, v), x) == v
    ensures forall y {:trigger Rd(Wr(m, x, v), y)} :: y != x ==> Rd(Wr(m, x, v), y) == Rd(m, y)
  {
  }

  // Writing the size word of a node without changing the size it holds.
  lemma FlagChain(m: Mem, p: Pool, N: set<int>, a: int, w: int)
    requires Chain(m, p, N) && a in N && a != EndNode(p) && 0 <= w < WORD && GetSize(w) == NodeSize(m, a)
    ensures var m' := Wr(m, a + SIZE_AND_FLAG, w);
            && Chain(m', p, N)
            && HeadersOnly(m, m', p, N)
            && SameLinks(m, m', p, N)
  {
    hide Wr, Rd;
    var m' := Wr(m, a + SIZE_AND_FLAG, w);
    WrWords(m, a + SIZE_AND_FLAG, w);
    forall x | x in N && x != EndNode(p)
      ensures NodeOk(m', N, x)
    {
      assert NodeOk(m, N, x);
    }
  }
}
