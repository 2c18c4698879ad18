// Users of the allocator: one block allocated, written and freed, and the example that does so on
// a fresh pool.

module DynMemExample {
  import opened MultiHead
  import opened PoolMemory
  import opened PoolChain
  import opened PoolSteps
  import opened PoolTiling
  import opened PoolRequests
  import opened PoolLaws
  import opened DynamicPool

  // Some free block can hold the request.
  ghost predicate HasRoom(m: Mem, N: set<int>, size: int) {
    exists b :: b in N && !IsUsed(m, b) && NodeSize(m, b) >= AllocSize(size)
  }

  // The pointer LOS_MemAlloc hands out for a small request leads back to its block.
  lemma SmallIsNamed(m: Mem, m': Mem, p: Pool, N: set<int>, N': set<int>, a: int, size: int)
    requires Chain(m, p, N) && Chain(m', p, N') && 0 <= size && size + 39 <= ALIGNED_FLAG
    requires BestFit(m, N, a, AllocSize(size)) && View(m', N') == Occupy(View(m, N), a, AllocSize(size))
    ensures NodeSize(m', a) < ALIGNED_FLAG
  {
    hide Rd, Chain, View, Occupy, AllocSize;
    FreeNotEnd(m, p, N, a);
    AllocSizeBounds(size);
    OccupiedSize(m, m', p, N, N', a, AllocSize(size));
  }

  lemma SameView(m: Mem, m': Mem, N: set<int>, N': set<int>)
    requires N' == N && forall x :: x in N ==> (IsUsed(m', x) <==> IsUsed(m, x))
    ensures View(m', N') == View(m, N)
  {
    hide Rd;
  }

  // The three views of a block's life: taken, written, given back.
  lemma LifeOfBlock(m0: Mem, m2: Mem, m3: Mem, p: Pool, N0: set<int>, N1: set<int>, N3: set<int>,
                    lists0: FreeLists, lists3: FreeLists, a: int, n: int)
    requires WellFormed(m0, p, N0, lists0) && WellFormed(m3, p, N3, lists3) && BestFit(m0, N0, a, n) && n > 0
    requires View(m2, N1) == Occupy(View(m0, N0), a, n) && View(m3, N3) == Release(View(m2, N1), a)
    ensures View(m3, N3) == View(m0, N0)
  {
    hide Rd, WellFormed, BestFit, View, Occupy, Release;
    FreeUndoesAlloc(m0, m2, m3, p, N0, N1, N3, lists0, lists3, a, n);
    SameView(m0, m3, N0, N3);
  }

  // Allocate, write a word of what was handed out, free: the heap is as it was, and no other block
  // has changed.
  method UseOnce(d: DynamicPool, size: int, x: int, v: int, taskId: int) returns (ok: bool)
    requires d.Valid() && 0 <= x && x % 4 == 0 && x + 4 <= size && size + 39 <= ALIGNED_FLAG
    modifies d.ram, d`lists, d`nodes
    ensures d.Valid() && View(d.ram[..], d.nodes) == View(old(d.ram[..]), old(d.nodes))
    ensures ok <==> HasRoom(old(d.ram[..]), old(d.nodes), size)
    ensures forall b :: PayloadKept(old(d.ram[..]), d.ram[..], old(d.nodes), b)
  {
    hide WellFormed, PayloadKept, UsedKept, BestFit, View, Occupy, Release, AllocSize, Rd, Wr, Recover;
    ghost var m0, nodes0, lists0 := d.ram[..], d.nodes, d.lists;
    AllocSizeBounds(size);
    var r := d.MemAlloc(size, taskId);
    if r == 0 {
      return false;
    }
    ghost var m1, nodes1, a := d.ram[..], d.nodes, r - NODE_HEAD_SIZE;
    WellFormedChain(m0, d.pool, nodes0, lists0);
    WellFormedChain(m1, d.pool, nodes1, d.lists);
    SmallIsNamed(m0, m1, d.pool, nodes0, nodes1, a, size);
    PayloadWrite(m1, d.pool, nodes1, d.lists, a, r + x, v);
    PayloadWriteKept(m1, d.pool, nodes1, a, r + x, v);
    NamesWritten(m1, d.pool, nodes1, r, a, r + x, v);
    d.Store(r + x, v);
    ghost var m2 := d.ram[..];
    ok := d.MemFree(r);
    ghost var m3 := d.ram[..];
    LifeOfBlock(m0, m2, m3, d.pool, nodes0, nodes1, d.nodes, lists0, d.lists, a, AllocSize(size));
    UseKept(m0, m1, m2, m3, nodes0, nodes1, a, AllocSize(size));
  }

  lemma UseKept(m0: Mem, m1: Mem, m2: Mem, m3: Mem, N0: set<int>, N1: set<int>, a: int, n: int)
    requires BestFit(m0, N0, a, n)
    requires (forall b :: PayloadKept(m0, m1, N0, b)) && forall b :: UsedKept(m0, m1, N0, N1, b)
    requires PayloadKept(m1, m2, N1, a) && UsedKept(m1, m2, N1, N1, a)
    requires forall b :: PayloadKept(m2, m3, N1, b)
    ensures forall b :: PayloadKept(m0, m3, N0, b)
  {
    hide Rd;
    assert PayloadKept(m0, m1, N0, a) && UsedKept(m0, m1, N0, N1, a) && PayloadKept(m2, m3, N1, a);
    KeptAcross(m0, m1, m2, m3, N0, N1, a);
    KeptButFree(m0, m3, N0, a);
  }

  lemma KeptAcross(m0: Mem, m1: Mem, m2: Mem, m3: Mem, N0: set<int>, N1: set<int>, a: int)
    requires PayloadKept(m0, m1, N0, a) && UsedKept(m0, m1, N0, N1, a)
    requires PayloadKept(m1, m2, N1, a) && UsedKept(m1, m2, N1, N1, a)
    requires PayloadKept(m2, m3, N1, a)
    ensures PayloadKept(m0, m3, N0, a)
  {
    hide Rd;
    forall c, x | c in N0 && c != a && IsUsed(m0, c) && InPayload(m0, c, x)
      ensures Rd(m3, x) == Rd(m0, x)
    {
      assert c in N1 && IsUsed(m1, c) && InPayload(m1, c, x);
      assert c in N1 && IsUsed(m2, c) && InPayload(m2, c, x);
    }
  }

  // Example_Dyn_Mem: a pool, four bytes, one word written, and the pool as it was.
  method ExampleDynMem(d: DynamicPool, taskId: int) returns (ok: bool)
    requires 0 <= d.pool.base && d.pool.base + d.pool.size <= d.ram.Length <= WORD
    requires d.pool.base % ALIGN_SIZE == 0 && d.pool.size % ALIGN_SIZE == 0
    modifies d.ram, d`lists, d`nodes
    ensures var room := EndNode(d.pool) - FirstNode(d.pool);
            ok <==> d.pool.base != 0 && NODE_HEAD_SIZE + 4 <= room < USED_FLAG
    ensures ok ==>
              && d.Valid()
              && View(d.ram[..], d.nodes) == Tiling({FirstNode(d.pool), EndNode(d.pool)}, {EndNode(d.pool)})
  {
    hide Rd;
    var initialised := d.MemInit(taskId);
    if !initialised {
      return false;
    }
    FreshRoom(d.ram[..], d.pool, d.nodes, d.lists);
    ok := UseOnce(d, 4, 0, 828, taskId);
  }

  // A fresh pool has room for four bytes exactly when its one block holds a header and four bytes.
  lemma FreshRoom(m: Mem, p: Pool, N: set<int>, lists: FreeLists)
    requires WellFormed(m, p, N, lists) && View(m, N) == Tiling({FirstNode(p), EndNode(p)}, {EndNode(p)})
    ensures HasRoom(m, N, 4) <==> NODE_HEAD_SIZE + 4 <= EndNode(p) - FirstNode(p)
  {
    hide Rd, Rings, Placed, Agree;
    assert FirstNode(p) !in View(m, N).used;
    NodeLinks(m, p, N, FirstNode(p));
    assert NextNode(m, FirstNode(p)) == EndNode(p);
  }

  // ---- Blocks of more than 2^30 bytes ------------------------------------------------------------

  // Two blocks of 20 bytes taken from a fresh pool, the second given back, then the first.
  lemma TwoBlocks(f: int, e: int)
    requires f + 60 <= e
    ensures var (t0, t1) := (Tiling({f, e}, {e}), Tiling({f, f + 20, e}, {f, e}));
            && Occupy(t0, f, 20) == t1
            && Occupy(t1, f + 20, 20) == Tiling({f, f + 20, f + 40, e}, {f, f + 20, e})
            && Release(Tiling({f, f + 20, f + 40, e}, {f, f + 20, e}), f + 20) == t1
            && Release(t1, f) == t0
  {
    FirstTwo(f, e);
    SecondBack(f, e);
    FirstBack(f, e);
  }

  lemma FirstTwo(f: int, e: int)
    requires f + 60 <= e
    ensures Occupy(Tiling({f, e}, {e}), f, 20) == Tiling({f, f + 20, e}, {f, e})
    ensures Occupy(Tiling({f, f + 20, e}, {f, e}), f + 20, 20) == Tiling({f, f + 20, f + 40, e}, {f, f + 20, e})
  {
  }

  lemma SecondBack(f: int, e: int)
    requires f + 60 <= e
    ensures Release(Tiling({f, f + 20, f + 40, e}, {f, f + 20, e}), f + 20) == Tiling({f, f + 20, e}, {f, e})
  {
    var t := Tiling({f, f + 20, f + 40, e}, {f, f + 20, e});
    assert Adjacent(t, f + 20, f + 40);
    assert forall x :: x in t.nodes ==> (Swallowed(t, f + 20, x) <==> x == f + 40);
  }

  lemma FirstBack(f: int, e: int)
    requires f + 60 <= e
    ensures Release(Tiling({f, f + 20, e}, {f, e}), f) == Tiling({f, e}, {e})
  {
    var t := Tiling({f, f + 20, e}, {f, e});
    assert Adjacent(t, f, f + 20);
    assert forall x :: x in t.nodes ==> (Swallowed(t, f, x) <==> x == f + 20);
  }

  // The size of a block is the distance to the node after it.
  lemma SizeIsDistance(m: Mem, p: Pool, N: set<int>, lists: FreeLists, a: int, b: int)
    requires WellFormed(m, p, N, lists) && a in N && b in N && a < b && forall x :: x in N ==> x <= a || b <= x
    ensures NodeSize(m, a) == b - a && (!IsUsed(m, a) ==> Rd(m, a + SIZE_AND_FLAG) == b - a)
  {
    hide Rd;
    assert NodeOk(m, N, a);
  }

  // The one free node of a tiling.
  lemma OnlyFree(m: Mem, N: set<int>, a: int, n: int, f: int)
    requires BestFit(m, N, a, n) && N - View(m, N).used == {f}
    ensures a == f
  {
    hide Rd;
    assert a in N - View(m, N).used;
  }

  lemma ViewUsed(m: Mem, N: set<int>, a: int)
    requires a in N
    ensures IsUsed(m, a) <==> a in View(m, N).used
  {
    hide Rd;
  }

  // Four bytes from a heap whose only free block is at f.
  method TakeFour(d: DynamicPool, ghost f: int, taskId: int) returns (r: int)
    requires d.Valid() && f in d.nodes && d.nodes - View(d.ram[..], d.nodes).used == {f}
    requires NodeSize(d.ram[..], f) >= 20
    modifies d.ram, d`lists, d`nodes
    ensures d.Valid() && r == f + NODE_HEAD_SIZE
    ensures View(d.ram[..], d.nodes) == Occupy(View(old(d.ram[..]), old(d.nodes)), f, 20)
    ensures Names(d.ram[..], d.pool, d.nodes, r, f)
    ensures forall b :: PayloadKept(old(d.ram[..]), d.ram[..], old(d.nodes), b)
    ensures forall b :: UsedKept(old(d.ram[..]), d.ram[..], old(d.nodes), d.nodes, b)
  {
    hide WellFormed, PayloadKept, UsedKept, BestFit, View, Occupy, Rd, Recover;
    ghost var m0, nodes0, lists0 := d.ram[..], d.nodes, d.lists;
    assert AllocSize(4) == 20;
    ViewUsed(m0, nodes0, f);
    r := d.MemAlloc(4, taskId);
    OnlyFree(m0, nodes0, r - NODE_HEAD_SIZE, 20, f);
    WellFormedChain(m0, d.pool, nodes0, lists0);
    WellFormedChain(d.ram[..], d.pool, d.nodes, d.lists);
    SmallIsNamed(m0, d.ram[..], d.pool, nodes0, d.nodes, f, 4);
  }

  // On a pool with a block of 2^30 + 40 bytes: one task takes four bytes, another takes four bytes and
  // frees them twice. The second free is accepted, and what it releases is the first task's block. m and
  // N are the heap between the two frees.
  method FreeTwice(d: DynamicPool, taskId: int)
    returns (r: int, first: bool, second: bool, ghost m: Mem, ghost N: set<int>)
    requires 0 < d.pool.base && d.pool.base + d.pool.size <= d.ram.Length <= WORD
    requires d.pool.base % ALIGN_SIZE == 0 && d.pool.size % ALIGN_SIZE == 0
    requires EndNode(d.pool) - FirstNode(d.pool) == ALIGNED_FLAG + 40
    modifies d.ram, d`lists, d`nodes
    ensures first && second && d.Valid()
    ensures Names(m, d.pool, N, r, r - NODE_HEAD_SIZE) && !Live(d.ram[..], d.pool, d.nodes, r - NODE_HEAD_SIZE)
  {
    hide WellFormed, PayloadKept, UsedKept, View, Occupy, Release, Rd, Recover, Chain, Names, IsUsed, Astray;
    var f, e := FirstNode(d.pool), EndNode(d.pool);
    TwoBlocks(f, e);
    var initialised := d.MemInit(taskId);
    ViewNodes(d.ram[..], d.nodes);
    SizeIsDistance(d.ram[..], d.pool, d.nodes, d.lists, f, e);
    r := TakeFour(d, f, taskId);
    ghost var m1, N1 := d.ram[..], d.nodes;
    ViewNodes(m1, N1);
    SizeIsDistance(m1, d.pool, N1, d.lists, f + 20, e);
    var ptr := TakeFour(d, f + 20, taskId);
    ghost var m2, N2 := d.ram[..], d.nodes;
    ViewNodes(m2, N2);
    NamesKept(m1, m2, d.pool, N1, N2, r, f, f + 20);
    NamesParts(m2, d.pool, N2, ptr, f + 20);
    first := d.MemFree(ptr);
    m, N := d.ram[..], d.nodes;
    ViewNodes(m, N);
    NamesKept(m2, m, d.pool, N2, N, r, f, f + 20);
    SizeIsDistance(m, d.pool, N, d.lists, f + 20, e);
    ViewUsed(m, N, f + 20);
    AstrayHere(m, f + 20);
    NamesParts(m, d.pool, N, r, f);
    second := d.MemFree(ptr);
    ViewNodes(d.ram[..], d.nodes);
    NotUsedNotLive(d.ram[..], d.pool, d.nodes, f);
  }

  lemma ViewNodes(m: Mem, N: set<int>)
    ensures View(m, N).nodes == N
  {
  }

  lemma NamesParts(m: Mem, p: Pool, N: set<int>, ptr: int, a: int)
    requires Names(m, p, N, ptr, a)
    ensures Live(m, p, N, a) && Recover(m, ptr) == a
  {
  }

  // A freed block of 2^30 + 20 bytes leads its old pointer 20 bytes too far back.
  lemma AstrayHere(m: Mem, a: int)
    requires !IsUsed(m, a) && NodeSize(m, a) == ALIGNED_FLAG + 20 && 20 <= a < WORD
    ensures Recover(m, a + NODE_HEAD_SIZE) == a - 20
  {
    AstrayIsRecovered(m, a);
  }

  lemma NotUsedNotLive(m: Mem, p: Pool, N: set<int>, a: int)
    requires a !in View(m, N).used
    ensures !Live(m, p, N, a)
  {
    hide Rd;
  }

  // On a fresh pool with room for it, a block of 2^30 bytes or a little more is handed out, and the
  // pointer to it names no block: its owner cannot free it.
  method HugeBlock(d: DynamicPool, taskId: int) returns (r: int, freed: bool)
    requires 0 < d.pool.base && d.pool.base + d.pool.size <= d.ram.Length <= WORD
    requires d.pool.base % ALIGN_SIZE == 0 && d.pool.size % ALIGN_SIZE == 0
    requires ALIGNED_FLAG <= EndNode(d.pool) - FirstNode(d.pool) < USED_FLAG
    modifies d.ram, d`lists, d`nodes
    ensures d.Valid() && r != 0 && !freed
    ensures Live(d.ram[..], d.pool, d.nodes, r - NODE_HEAD_SIZE)
    ensures forall a :: !Names(d.ram[..], d.pool, d.nodes, r, a)
  {
    hide WellFormed, PayloadKept, UsedKept, View, Occupy, Rd, Recover, Chain, Names, IsUsed, BestFit, AllocSize;
    var f, e := FirstNode(d.pool), EndNode(d.pool);
    var initialised := d.MemInit(taskId);
    ghost var m0, N0, lists0 := d.ram[..], d.nodes, d.lists;
    ViewNodes(m0, N0);
    ViewUsed(m0, N0, f);
    SizeIsDistance(m0, d.pool, N0, d.lists, f, e);
    HugeSize();
    r := d.MemAlloc(0x3FFF_FFF0, taskId);
    OnlyFree(m0, N0, r - NODE_HEAD_SIZE, 0x4000_0000, f);
    ghost var m, N := d.ram[..], d.nodes;
    WellFormedChain(m0, d.pool, N0, lists0);
    WellFormedChain(m, d.pool, N, d.lists);
    ViewNodes(m, N);
    TakenFirst(f, e);
    OccupiedSize(m0, m, d.pool, N0, N, f, 0x4000_0000);
    OnlyUsed(m, d.pool, N, f);
    HugeIsLost(m, d.pool, N, f, r);
    freed := d.MemFree(r);
  }

  lemma HugeSize()
    ensures AllocSize(0x3FFF_FFF0) == 0x4000_0000
  {
  }

  lemma TakenFirst(f: int, e: int)
    ensures Occupy(Tiling({f, e}, {e}), f, 0x4000_0000).used == {f, e}
  {
  }

  lemma OnlyUsed(m: Mem, p: Pool, N: set<int>, f: int)
    requires View(m, N).used == {f, EndNode(p)}
    ensures forall a :: Live(m, p, N, a) ==> a == f
  {
    hide Rd;
    forall a | Live(m, p, N, a)
      ensures a == f
    {
      assert a in View(m, N).used;
    }
  }

  lemma HugeIsLost(m: Mem, p: Pool, N: set<int>, f: int, ptr: int)
    requires Chain(m, p, N) && Live(m, p, N, f) && (forall a :: Live(m, p, N, a) ==> a == f)
    requires NodeSize(m, f) >= ALIGNED_FLAG && ptr == f + NODE_HEAD_SIZE
    ensures !Live(m, p, N, Recover(m, ptr)) && forall a :: !Names(m, p, N, ptr, a)
  {
    hide Rd, Chain;
    UnshiftedRecovers(m, p, N, f);
  }
}
