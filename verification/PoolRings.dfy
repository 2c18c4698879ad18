// Circular doubly linked free lists kept inside the pool's memory: what LOS_ListAdd and
// LOS_ListDelete do to the words, and why the 27 lists stay lists.

module PoolRings {
  import opened MultiHead
  import opened PoolMemory

  // LOS_ListDelete
  function Unlink(m: Mem, a: int): Mem
  {
    var m1 := Wr(m, Rd(m, a + NEXT) + PREV, Rd(m, a + PREV));
    var m2 := Wr(m1, Rd(m1, a + PREV) + NEXT, Rd(m1, a + NEXT));
    var m3 := Wr(m2, a + NEXT, 0);
    Wr(m3, a + PREV, 0)
  }

  // LOS_ListAdd
  function Link(m: Mem, h: int, a: int): Mem
  {
    var m1 := Wr(m, a + NEXT, Rd(m, h + NEXT));
    var m2 := Wr(m1, a + PREV, h);
    var m3 := Wr(m2, Rd(m2, h + NEXT) + PREV, a);
    Wr(m3, h + NEXT, a)
  }

  function Omit(L: seq<int>, k: nat): seq<int>
    requires k < |L|
  {
    L[..k] + L[k + 1..]
  }

  predicate Apart(x: int, y: int) { x + 8 <= y || y + 8 <= x }

  // The link cells of a ring's head and members are in memory and do not overlap.
  ghost predicate Separate(m: Mem, h: int, L: seq<int>) {
    && 0 <= h && h + 8 <= |m|
    && (forall i :: 0 <= i < |L| ==> 0 <= L[i] && L[i] + 8 <= |m| && Apart(L[i], h))
    && (forall i, j :: 0 <= i < j < |L| ==> Apart(L[i], L[j]))
  }

  lemma UnlinkWords(m: Mem, h: int, L: seq<int>, k: nat)
    requires Ring(m, h, L) && Separate(m, h, L) && k < |L|
    ensures Unlink(m, L[k]) ==
            m[Succ(h, L, k) + PREV := Pred(h, L, k)][Pred(h, L, k) + NEXT := Succ(h, L, k)]
             [L[k] + NEXT := 0][L[k] + PREV := 0]
  {
    assert RingAt(m, h, L, k);
    assert Apart(L[k], Succ(h, L, k)) && Apart(L[k], Pred(h, L, k));
  }

  // One member's links after another member has been taken out.
  lemma UnlinkMember(m: Mem, h: int, L: seq<int>, k: nat, j: nat)
    requires Ring(m, h, L) && Separate(m, h, L) && k < |L| && j < |L| && j != k
    ensures Rd(Unlink(m, L[k]), L[j] + NEXT) == (if j + 1 == k then Succ(h, L, k) else Succ(h, L, j))
    ensures Rd(Unlink(m, L[k]), L[j] + PREV) == (if j == k + 1 then Pred(h, L, k) else Pred(h, L, j))
  {
    UnlinkWords(m, h, L, k);
    assert RingAt(m, h, L, j);
    assert Apart(L[j], L[k]) && Apart(L[j], h);
    if k > 0 && j != k - 1 { assert Apart(L[j], L[k - 1]); }
    if k + 1 < |L| && j != k + 1 { assert Apart(L[j], L[k + 1]); }
  }

  lemma UnlinkHead(m: Mem, h: int, L: seq<int>, k: nat)
    requires Ring(m, h, L) && Separate(m, h, L) && k < |L|
    ensures Rd(Unlink(m, L[k]), h + NEXT) == (if k == 0 then Succ(h, L, 0) else L[0])
    ensures Rd(Unlink(m, L[k]), h + PREV) == (if k == |L| - 1 then Pred(h, L, k) else L[|L| - 1])
  {
    UnlinkWords(m, h, L, k);
    assert Apart(L[k], h);
    if k > 0 { assert Apart(L[k - 1], h); }
    if k + 1 < |L| { assert Apart(L[k + 1], h); }
  }

  lemma UnlinkRing(m: Mem, h: int, L: seq<int>, k: nat)
    requires Ring(m, h, L) && Separate(m, h, L) && k < |L|
    ensures Ring(Unlink(m, L[k]), h, Omit(L, k))
  {
    hide Unlink;
    UnlinkHead(m, h, L, k);
    forall i | 0 <= i < |Omit(L, k)|
      ensures RingAt(Unlink(m, L[k]), h, Omit(L, k), i)
    {
      UnlinkMember(m, h, L, k, if i < k then i else i + 1);
    }
  }

  lemma LinkWords(m: Mem, h: int, L: seq<int>, a: int)
    requires Ring(m, h, L) && Separate(m, h, [a] + L)
    ensures Separate(m, h, L) && 0 <= a && a + 8 <= |m|
    ensures Link(m, h, a) ==
            m[a + NEXT := if |L| > 0 then L[0] else h][a + PREV := h]
             [(if |L| > 0 then L[0] else h) + PREV := a][h + NEXT := a]
  {
    assert ([a] + L)[0] == a;
    assert forall i :: 0 <= i < |L| ==> ([a] + L)[i + 1] == L[i];
    assert Apart(a, h);
  }

  // The four cells an insertion writes; all others keep their words.
  lemma LinkCells(m: Mem, h: int, L: seq<int>, a: int)
    requires Ring(m, h, L) && Separate(m, h, [a] + L)
    ensures var (m', s) := (Link(m, h, a), if |L| > 0 then L[0] else h);
            && Rd(m', a + NEXT) == s && Rd(m', a + PREV) == h && Rd(m', s + PREV) == a && Rd(m', h + NEXT) == a
            && forall x {:trigger Rd(m', x)} ::
                 x != a + NEXT && x != a + PREV && x != s + PREV && x != h + NEXT ==> Rd(m', x) == Rd(m, x)
  {
    LinkWords(m, h, L, a);
    assert ([a] + L)[0] == a && (L != [] ==> ([a] + L)[1] == L[0]);
    assert Apart(a, h) && (L != [] ==> Apart(L[0], h) && Apart(a, L[0]));
    hide Link, Ring, Separate;
  }

  // One member's links after a node has been put in front.
  lemma LinkMember(m: Mem, h: int, L: seq<int>, a: int, i: nat)
    requires Ring(m, h, L) && Separate(m, h, [a] + L) && i < |L|
    ensures RingAt(Link(m, h, a), h, [a] + L, i + 1)
  {
    hide Link, Rd;
    LinkCells(m, h, L, a);
    assert RingAt(m, h, L, i);
    var L' := [a] + L;
    assert L'[0] == a && L'[1] == L[0] && L'[i + 1] == L[i];
    assert Apart(L'[0], L'[i + 1]) && Apart(L'[i + 1], h) && (i > 0 ==> Apart(L'[1], L'[i + 1]));
    assert Succ(h, L', i + 1) == Succ(h, L, i) && Pred(h, L', i + 1) == if i > 0 then Pred(h, L, i) else a;
    hide Ring, Separate;
  }

  lemma LinkRing(m: Mem, h: int, L: seq<int>, a: int)
    requires Ring(m, h, L) && Separate(m, h, [a] + L)
    ensures Ring(Link(m, h, a), h, [a] + L)
  {
    hide Link, Rd;
    var L', m' := [a] + L, Link(m, h, a);
    LinkCells(m, h, L, a);
    assert L'[0] == a && Apart(a, h) && (L != [] ==> L'[|L|] == L[|L| - 1] && Apart(L'[1], h));
    assert RingAt(m', h, L', 0);
    forall i | 0 < i <= |L|
      ensures RingAt(m', h, L', i)
    {
      LinkMember(m, h, L, a, i - 1);
    }
  }

  // A ring only depends on the link cells of its head and members.
  lemma RingFrame(m: Mem, m': Mem, h: int, L: seq<int>)
    requires Ring(m, h, L)
    requires Rd(m', h + PREV) == Rd(m, h + PREV) && Rd(m', h + NEXT) == Rd(m, h + NEXT)
    requires forall i :: 0 <= i < |L| ==> Rd(m', L[i] + PREV) == Rd(m, L[i] + PREV)
    requires forall i :: 0 <= i < |L| ==> Rd(m', L[i] + NEXT) == Rd(m, L[i] + NEXT)
    ensures Ring(m', h, L)
  {
    forall i | 0 <= i < |L|
      ensures RingAt(m', h, L, i)
    {
      assert RingAt(m, h, L, i);
    }
  }

  // ---- All the lists of a pool -------------------------------------------------------

  lemma RingSeparate(m: Mem, p: Pool, N: set<int>, lists: FreeLists, c: nat)
    requires PoolIn(m, p) && Spaced(p, N) && Placed(N, lists) && c < LIST_NUM
    ensures Separate(m, ListHead(p, c), lists[c])
  {
    var L := lists[c];
    forall i, j | 0 <= i < j < |L|
      ensures Apart(L[i], L[j])
    {
      assert L[i] in N && L[j] in N && L[i] != L[j];
    }
  }

  // m' differs from m in link cells only, and of those only in list c's and a's.
  ghost predicate LinksWritten(m: Mem, m': Mem, p: Pool, N: set<int>, L: seq<int>, c: nat, a: int)
    requires c < LIST_NUM
  {
    && |m'| == |m|
    && (forall x {:trigger Rd(m', x)} :: Rd(m', x) != Rd(m, x) ==>
          LinkCell(x, ListHead(p, c)) || LinkCell(x, a) || exists i :: 0 <= i < |L| && LinkCell(x, L[i]))
  }

  predicate LinkCell(x: int, y: int) { x == y + PREV || x == y + NEXT }

  lemma LinksWrittenEffect(m: Mem, m': Mem, p: Pool, N: set<int>, L: seq<int>, c: nat, a: int)
    requires PoolIn(m, p) && Spaced(p, N) && c < LIST_NUM
    requires LinksWritten(m, m', p, N, L, c, a)
    requires a in N && forall i :: 0 <= i < |L| ==> L[i] in N
    ensures SameNodes(m, m', N)
    ensures HeadersOnly(m, m', p, N)
    ensures forall b :: b in N && b !in L && b != a ==>
              Rd(m', b + PREV) == Rd(m, b + PREV) && Rd(m', b + NEXT) == Rd(m, b + NEXT)
    ensures forall d :: 0 <= d < LIST_NUM && d != c ==>
              Rd(m', ListHead(p, d) + PREV) == Rd(m, ListHead(p, d) + PREV) &&
              Rd(m', ListHead(p, d) + NEXT) == Rd(m, ListHead(p, d) + NEXT)
  {
    hide Rd, LinksWritten, Spaced, PoolIn;
    WrittenHeaders(m, m', p, N, L, c, a);
    WrittenHeads(m, m', p, N, L, c, a);
    forall b | b in N
      ensures Rd(m', b + PRE_NODE) == Rd(m, b + PRE_NODE) && Rd(m', b + SIZE_AND_FLAG) == Rd(m, b + SIZE_AND_FLAG)
      ensures b !in L && b != a ==> Rd(m', b + PREV) == Rd(m, b + PREV) && Rd(m', b + NEXT) == Rd(m, b + NEXT)
    {
      WrittenNode(m, m', p, N, L, c, a, b);
    }
  }

  lemma WrittenHeaders(m: Mem, m': Mem, p: Pool, N: set<int>, L: seq<int>, c: nat, a: int)
    requires c < LIST_NUM && LinksWritten(m, m', p, N, L, c, a)
    requires a in N && forall i :: 0 <= i < |L| ==> L[i] in N
    ensures HeadersOnly(m, m', p, N)
  {
    hide Rd;
  }

  // The other heads keep their links,
  lemma WrittenHeads(m: Mem, m': Mem, p: Pool, N: set<int>, L: seq<int>, c: nat, a: int)
    requires Spaced(p, N) && c < LIST_NUM && LinksWritten(m, m', p, N, L, c, a)
    requires a in N && forall i :: 0 <= i < |L| ==> L[i] in N
    ensures forall d :: 0 <= d < LIST_NUM && d != c ==>
              Rd(m', ListHead(p, d) + PREV) == Rd(m, ListHead(p, d) + PREV) &&
              Rd(m', ListHead(p, d) + NEXT) == Rd(m, ListHead(p, d) + NEXT)
  {
    hide Rd;
  }

  // and every node keeps its back pointer and size word, and its links if it is not listed there.
  lemma WrittenNode(m: Mem, m': Mem, p: Pool, N: set<int>, L: seq<int>, c: nat, a: int, b: int)
    requires Spaced(p, N) && c < LIST_NUM && LinksWritten(m, m', p, N, L, c, a) && b in N
    requires a in N && forall i :: 0 <= i < |L| ==> L[i] in N
    ensures Rd(m', b + PRE_NODE) == Rd(m, b + PRE_NODE) && Rd(m', b + SIZE_AND_FLAG) == Rd(m, b + SIZE_AND_FLAG)
    ensures b !in L && b != a ==> Rd(m', b + PREV) == Rd(m, b + PREV) && Rd(m', b + NEXT) == Rd(m, b + NEXT)
  {
    hide Rd;
    assert FirstNode(p) <= b && ListHead(p, c) + 8 <= FirstNode(p);
    forall x | x in N && x != b
      ensures x + NODE_HEAD_SIZE <= b || b + NODE_HEAD_SIZE <= x
    {
    }
    hide Spaced, ListHead, FirstNode;
  }

  lemma LinkWritesLinks(m: Mem, p: Pool, N: set<int>, L: seq<int>, c: nat, a: int)
    requires c < LIST_NUM && Ring(m, ListHead(p, c), L) && Separate(m, ListHead(p, c), [a] + L)
    ensures LinksWritten(m, Link(m, ListHead(p, c), a), p, N, L, c, a)
  {
    hide Link;
    LinkWords(m, ListHead(p, c), L, a);
  }

  lemma UnlinkWritesLinks(m: Mem, p: Pool, N: set<int>, L: seq<int>, c: nat, k: nat)
    requires c < LIST_NUM && k < |L| && Ring(m, ListHead(p, c), L) && Separate(m, ListHead(p, c), L)
    ensures LinksWritten(m, Unlink(m, L[k]), p, N, L, c, L[k])
  {
    hide Unlink;
    UnlinkWords(m, ListHead(p, c), L, k);
  }

  // The rings of the other heads stay as they are.
  lemma OtherRings(m: Mem, m': Mem, p: Pool, lists: FreeLists, c: nat, L: seq<int>)
    requires Rings(m, p, lists) && c < LIST_NUM && Ring(m', ListHead(p, c), L)
    requires forall d :: 0 <= d < LIST_NUM && d != c ==>
               Rd(m', ListHead(p, d) + PREV) == Rd(m, ListHead(p, d) + PREV) &&
               Rd(m', ListHead(p, d) + NEXT) == Rd(m, ListHead(p, d) + NEXT)
    requires forall d, i :: 0 <= d < LIST_NUM && d != c && 0 <= i < |lists[d]| ==>
               Rd(m', lists[d][i] + PREV) == Rd(m, lists[d][i] + PREV) &&
               Rd(m', lists[d][i] + NEXT) == Rd(m, lists[d][i] + NEXT)
    ensures Rings(m', p, lists[c := L])
  {
    hide Rd;
    forall d | 0 <= d < LIST_NUM && d != c
      ensures Ring(m', ListHead(p, d), lists[d])
    {
      assert Ring(m, ListHead(p, d), lists[d]);
      RingFrame(m, m', ListHead(p, d), lists[d]);
    }
    hide Ring;
  }

  // Taking a free node out of its list leaves 27 lists, and touches nothing but links.
  lemma UnlinkRings(m: Mem, p: Pool, N: set<int>, lists: FreeLists, c: nat, k: nat)
    requires PoolIn(m, p) && Spaced(p, N) && Placed(N, lists) && Rings(m, p, lists)
    requires c < LIST_NUM && k < |lists[c]|
    ensures var a, m' := lists[c][k], Unlink(m, lists[c][k]);
            && Rings(m', p, lists[c := Omit(lists[c], k)])
            && Placed(N, lists[c := Omit(lists[c], k)])
            && SameNodes(m, m', N) && HeadersOnly(m, m', p, N)
            && (forall b :: b in N && b !in lists[c] ==> Rd(m', b + PREV) == Rd(m, b + PREV))
  {
    hide *;
    var L, h := lists[c], ListHead(p, c);
    var a, m' := L[k], Unlink(m, L[k]);
    RingSeparate(m, p, N, lists, c);
    ListedRing(m, p, N, lists, c, k);
    UnlinkRing(m, h, L, k);
    UnlinkWritesLinks(m, p, N, L, c, k);
    LinksWrittenEffect(m, m', p, N, L, c, a);
    OtherRings(m, m', p, lists, c, Omit(L, k));
    OmitPlaced(N, lists, c, k);
  }

  lemma ListedRing(m: Mem, p: Pool, N: set<int>, lists: FreeLists, c: nat, k: nat)
    requires Placed(N, lists) && Rings(m, p, lists) && c < LIST_NUM && k < |lists[c]|
    ensures Ring(m, ListHead(p, c), lists[c]) && lists[c][k] in N && forall i :: 0 <= i < |lists[c]| ==> lists[c][i] in N
    ensures forall d, i :: 0 <= d < LIST_NUM && d != c && 0 <= i < |lists[d]| ==>
              lists[d][i] in N && lists[d][i] !in lists[c] && lists[d][i] != lists[c][k]
  {
    hide Ring;
  }

  lemma OmitPlaced(N: set<int>, lists: FreeLists, c: nat, k: nat)
    requires Placed(N, lists) && c < LIST_NUM && k < |lists[c]|
    ensures Placed(N, lists[c := Omit(lists[c], k)])
    ensures lists[c][k] !in Omit(lists[c], k)
    ensures forall x :: x in lists[c] && x != lists[c][k] ==> x in Omit(lists[c], k)
    ensures forall x :: x in Omit(lists[c], k) ==> x in lists[c]
    ensures forall d :: 0 <= d < LIST_NUM && d != c ==> lists[c][k] !in lists[d]
  {
    var L, lists' := lists[c], lists[c := Omit(lists[c], k)];
    forall d, i, e, j | 0 <= d < LIST_NUM && 0 <= i < |lists'[d]| && 0 <= e < LIST_NUM && 0 <= j < |lists'[e]| &&
      (d != e || i != j)
      ensures lists'[d][i] != lists'[e][j]
    {
      var i0 := if d == c && i >= k then i + 1 else i;
      var j0 := if e == c && j >= k then j + 1 else j;
      assert lists'[d][i] == lists[d][i0] && lists'[e][j] == lists[e][j0];
    }
    forall x | x in L && x != L[k]
      ensures x in Omit(L, k)
    {
      var i :| 0 <= i < |L| && L[i] == x;
      assert Omit(L, k)[if i < k then i else i - 1] == x;
    }
  }

  // Adding an unlisted node at the front of a list leaves 27 lists, and touches nothing but links.
  lemma LinkRings(m: Mem, p: Pool, N: set<int>, lists: FreeLists, c: nat, a: int)
    requires PoolIn(m, p) && Spaced(p, N) && Placed(N, lists) && Rings(m, p, lists)
    requires c < LIST_NUM && a in N && forall d :: 0 <= d < LIST_NUM ==> a !in lists[d]
    ensures var m' := Link(m, ListHead(p, c), a);
            && Rings(m', p, lists[c := [a] + lists[c]])
            && Placed(N, lists[c := [a] + lists[c]])
            && SameNodes(m, m', N) && HeadersOnly(m, m', p, N)
            && (forall b :: b in N && b !in lists[c] && b != a ==> Rd(m', b + PREV) == Rd(m, b + PREV))
  {
    hide Link, Rd;
    var L, h := lists[c], ListHead(p, c);
    var m', lists' := Link(m, h, a), lists[c := [a] + L];
    LinkPlaced(N, lists, c, a);
    RingSeparate(m, p, N, lists', c);
    assert Ring(m, h, L);
    LinkRing(m, h, L, a);
    LinkWritesLinks(m, p, N, L, c, a);
    LinksWrittenEffect(m, m', p, N, L, c, a);
    OtherRings(m, m', p, lists, c, [a] + L);
  }

  lemma LinkPlaced(N: set<int>, lists: FreeLists, c: nat, a: int)
    requires Placed(N, lists) && c < LIST_NUM && a in N && forall d :: 0 <= d < LIST_NUM ==> a !in lists[d]
    ensures Placed(N, lists[c := [a] + lists[c]])
  {
    var lists' := lists[c := [a] + lists[c]];
    forall d, i, e, j | 0 <= d < LIST_NUM && 0 <= i < |lists'[d]| && 0 <= e < LIST_NUM && 0 <= j < |lists'[e]| &&
      (d != e || i != j)
      ensures lists'[d][i] != lists'[e][j]
    {
      assert d == c && i > 0 ==> lists'[d][i] == lists[d][i - 1];
      assert e == c && j > 0 ==> lists'[e][j] == lists[e][j - 1];
    }
  }
}
