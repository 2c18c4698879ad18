// Fixed-block pools: a header, then blocks of one size. The first word of a free block links to
// the next free one, that of an allocated block holds a magic number.

module Membox {
  import opened Arith
  import opened Lists

  const WORD: nat := 0x1_0000_0000
  const OS_MEMBOX_MAGIC: nat := 0xa55a5aa5
  const LOS_MEMBOX_MAGIC_SIZE: nat := 4
  const INFO_SIZE: nat := 12    // sizeof(LOS_MEMBOX_INFO): block size, block count, free list
  const NULL: nat := 0

  // LOS_MEMBOX_ALLIGNED(size + LOS_MEMBOX_MAGIC_SIZE), in 32 bits.
  function BlockSize(size: nat): nat
  {
    var padded := (size + LOS_MEMBOX_MAGIC_SIZE) % WORD;
    var up := (padded + 3) % WORD;
    up - up % 4
  }

  // The rounding leaves room for the magic number exactly when nothing wraps.
  lemma BlockSizeFitsIff(size: nat)
    requires size < WORD
    ensures BlockSize(size) >= size + 4 <==> size + 7 < WORD
    ensures size + 7 < WORD ==> BlockSize(size) < size + 8
    ensures BlockSize(size) % 4 == 0 && (BlockSize(size) == 0 <==> WORD - 7 <= size <= WORD - 4)
  {
  }

  // ---- Addresses ---------------------------------------------------------------------------

  // A pool at address base.
  datatype Geometry = Geometry(base: nat, blkSize: nat, blkNum: nat)

  predicate GeometryOk(g: Geometry) { Shaped(g) && NoneAtMagic(g) }

  // The blocks lie in the address space, and so do their users' addresses.
  predicate Shaped(g: Geometry) {
    && g.base > 0 && g.blkSize >= LOS_MEMBOX_MAGIC_SIZE && g.blkNum > 0
    && First(g) + g.blkNum * g.blkSize <= WORD
    && (g.blkSize == LOS_MEMBOX_MAGIC_SIZE ==> First(g) + g.blkNum * g.blkSize < WORD)
  }

  // No block that another can link to lies at the address that is the magic number.
  predicate NoneAtMagic(g: Geometry) {
    g.blkNum >= 2 ==> forall i: nat :: i < g.blkNum ==> Addr(g, i) != OS_MEMBOX_MAGIC
  }

  // How many blocks of a size fit behind the header.
  function BlockCount(boxSize: nat, size: nat): nat
    requires size > 0
  {
    if boxSize < INFO_SIZE then 0 else (boxSize - INFO_SIZE) / size
  }

  // As many as the pool has room for, and no more.
  lemma BlockCountIs(boxSize: nat, size: nat)
    requires size > 0
    ensures boxSize < INFO_SIZE ==> BlockCount(boxSize, size) == 0
    ensures boxSize >= INFO_SIZE ==>
              && INFO_SIZE + BlockCount(boxSize, size) * size <= boxSize
              && boxSize < INFO_SIZE + (BlockCount(boxSize, size) + 1) * size
  {
    if boxSize >= INFO_SIZE {
      DivModParts(boxSize - INFO_SIZE, size);
      Distribute(BlockCount(boxSize, size), 1, size);
    }
  }

  // The pool LOS_MemboxInit lays out.
  function PoolAt(base: nat, boxSize: nat, blkSize: nat): Geometry
    requires BlockSize(blkSize) > 0
  {
    Geometry(base, BlockSize(blkSize), BlockCount(boxSize, BlockSize(blkSize)))
  }

  function First(g: Geometry): nat { g.base + INFO_SIZE }

  // The address of block i.
  function Addr(g: Geometry, i: nat): nat { First(g) + i * g.blkSize }

  // The address the user of block i gets.
  function UserAddr(g: Geometry, i: nat): nat { Addr(g, i) + LOS_MEMBOX_MAGIC_SIZE }

  // (UINT32)pNode - (UINT32)(pstBoxInfo + 1) for the node four below a 32-bit user address.
  function Offset(g: Geometry, box: nat): int
  {
    var d := box - LOS_MEMBOX_MAGIC_SIZE - First(g);
    if d < 0 then d + WORD else d
  }

  // The block a well-placed offset belongs to.
  function Index(g: Geometry, offset: int): int
    requires g.blkSize > 0
  {
    offset / g.blkSize
  }

  lemma AddrBounds(g: Geometry, i: nat)
    requires GeometryOk(g) && i < g.blkNum
    ensures 0 < Addr(g, i) && Addr(g, i) + g.blkSize <= WORD
  {
    MulMono(i + 1, g.blkNum, g.blkSize);
  }

  lemma MultipleOfFour(i: nat, s: nat)
    requires s % 4 == 0
    ensures i * s % 4 == 0
  {
    var q := s / 4;
    assert i * s == i * (4 * q);
    Regroup(i, q);
  }

  lemma Regroup(i: nat, q: nat)
    ensures i * (4 * q) == 4 * (i * q)
  {
  }

  // In a word-aligned pool, and in any other whose address is not one more than a multiple of four,
  // no link can be the magic number, which is.
  lemma AddrIsNotMagic(g: Geometry)
    requires g.base % 4 != 1 && g.blkSize % 4 == 0
    ensures NoneAtMagic(g)
  {
    forall i: nat | i < g.blkNum
      ensures Addr(g, i) != OS_MEMBOX_MAGIC
    {
      MultipleOfFour(i, g.blkSize);
    }
  }

  lemma DivExact(i: nat, s: nat)
    requires s > 0
    ensures i * s / s == i && i * s % s == 0
  {
    DivModUnique(i * s, i, 0, s);
  }

  // Different blocks have different addresses.
  lemma AddrInjective(g: Geometry, i: nat, j: nat)
    requires GeometryOk(g) && i < j
    ensures Addr(g, i) < Addr(g, j)
  {
    MulMono(i + 1, j, g.blkSize);
  }

  lemma OffsetOfUser(g: Geometry, i: nat)
    requires GeometryOk(g) && i < g.blkNum
    ensures Offset(g, UserAddr(g, i)) == i * g.blkSize
    ensures Index(g, i * g.blkSize) == i && i * g.blkSize % g.blkSize == 0
  {
    AddrBounds(g, i);
    DivExact(i, g.blkSize);
  }

  lemma OffsetNat(g: Geometry, box: nat)
    requires GeometryOk(g) && box < WORD
    ensures 0 <= Offset(g, box) && Index(g, Offset(g, box)) >= 0
  {
    AddrBounds(g, 0);
    DivModParts(Offset(g, box), g.blkSize);
  }

  // osCheckBoxMem, but for the magic number: exactly the user addresses of blocks are well placed.
  predicate Placed(g: Geometry, box: nat)
    requires g.blkSize > 0
  {
    Offset(g, box) % g.blkSize == 0 && Index(g, Offset(g, box)) < g.blkNum
  }

  lemma PlacedIff(g: Geometry, box: nat)
    requires GeometryOk(g) && box < WORD
    ensures Index(g, Offset(g, box)) >= 0
    ensures Placed(g, box) <==> Index(g, Offset(g, box)) < g.blkNum && box == UserAddr(g, Index(g, Offset(g, box)))
  {
    OffsetNat(g, box);
    var o := Offset(g, box);
    var i := o / g.blkSize;
    DivModParts(o, g.blkSize);
    if i < g.blkNum {
      AddrBounds(g, i);
      OffsetOfUser(g, i);
    }
  }

  // ---- The pool as its users see it ----------------------------------------------------------

  // The link stored for the rest of the free list.
  function LinkTo(g: Geometry, free: seq<nat>): nat
  {
    if free == [] then NULL else Addr(g, free[0])
  }

  ghost predicate PoolOk(g: Geometry, head: nat, words: seq<nat>, free: seq<nat>) {
    Linked(g, head, words, free) && NoneAtMagic(g)
  }

  // free is the free list: its blocks are linked in order, all others hold the magic number.
  ghost predicate Linked(g: Geometry, head: nat, words: seq<nat>, free: seq<nat>) {
    && Shaped(g) && |words| == g.blkNum && Distinct(free) && head == LinkTo(g, free)
    && (forall i :: 0 <= i < |free| ==> free[i] < g.blkNum && words[free[i]] == LinkTo(g, free[i + 1..]))
    && (forall b: nat :: b < g.blkNum && b !in free ==> words[b] == OS_MEMBOX_MAGIC)
  }

  // A block is allocated exactly when its word is the magic number.
  lemma MagicIffAllocated(g: Geometry, head: nat, words: seq<nat>, free: seq<nat>, b: nat)
    requires PoolOk(g, head, words, free) && b < g.blkNum
    ensures words[b] == OS_MEMBOX_MAGIC <==> b !in free
  {
    if b in free {
      var i :| 0 <= i < |free| && free[i] == b;
      var rest := free[i + 1..];
      assert rest != [] ==> rest[0] == free[i + 1] && free[i] != free[i + 1];
      assert words[b] == LinkTo(g, rest);
    }
  }

  // So it is in every state of the pool exactly when no block that another can link to lies at the
  // address that is the magic number.
  lemma MagicTellsIff(g: Geometry)
    requires Shaped(g)
    ensures NoneAtMagic(g) <==>
            forall head, words, free, b: nat | Linked(g, head, words, free) && b < g.blkNum ::
              words[b] == OS_MEMBOX_MAGIC <==> b !in free
  {
    if NoneAtMagic(g) {
      forall head, words, free, b: nat | Linked(g, head, words, free) && b < g.blkNum
        ensures words[b] == OS_MEMBOX_MAGIC <==> b !in free
      {
        MagicIffAllocated(g, head, words, free, b);
      }
    } else {
      var j: nat :| j < g.blkNum && Addr(g, j) == OS_MEMBOX_MAGIC;
      var words, b := LinkAtMagic(g, j);
      assert Linked(g, Addr(g, b), words, [b, j]);
    }
  }

  // Two free blocks, the second at the magic address: the first reads as allocated.
  lemma LinkAtMagic(g: Geometry, j: nat) returns (words: seq<nat>, b: nat)
    requires Shaped(g) && g.blkNum >= 2 && j < g.blkNum && Addr(g, j) == OS_MEMBOX_MAGIC
    ensures b < g.blkNum && b != j && Linked(g, Addr(g, b), words, [b, j]) && words[b] == OS_MEMBOX_MAGIC
  {
    b := if j == 0 then 1 else 0;
    words := seq(g.blkNum, i => if i == j then NULL else OS_MEMBOX_MAGIC);
    hide Addr, Shaped;
    assert [b, j][1..] == [j] && [b, j][2..] == [];
  }

  // Handing out the first free block.
  lemma TakeFirst(g: Geometry, head: nat, words: seq<nat>, free: seq<nat>)
    requires PoolOk(g, head, words, free) && free != []
    ensures free[0] < g.blkNum && PoolOk(g, words[free[0]], words[free[0] := OS_MEMBOX_MAGIC], free[1..])
  {
    hide Addr, Shaped, GeometryOk, NoneAtMagic, LinkTo;
    var F := free[1..];
    assert free == [free[0]] + F;
    forall i | 0 <= i < |F|
      ensures F[i] < g.blkNum && words[free[0] := OS_MEMBOX_MAGIC][F[i]] == LinkTo(g, F[i + 1..])
    {
      assert F[i + 1..] == free[i + 2..];
    }
  }

  // Taking back an allocated block.
  lemma PutFirst(g: Geometry, head: nat, words: seq<nat>, free: seq<nat>, b: nat)
    requires PoolOk(g, head, words, free) && b < g.blkNum && b !in free
    ensures PoolOk(g, Addr(g, b), words[b := head], [b] + free)
  {
    hide Addr, Shaped, GeometryOk, NoneAtMagic;
    var F := [b] + free;
    forall i | 0 <= i < |F|
      ensures F[i] < g.blkNum && words[b := head][F[i]] == LinkTo(g, F[i + 1..])
    {
      if i > 0 {
        assert F[i + 1..] == free[i..];
      } else {
        assert F[1..] == free;
      }
    }
  }

  function Blocks(n: nat): (L: seq<nat>)
    ensures |L| == n
  {
    seq(n, i => i)
  }

  class Membox {
    const g: Geometry
    const words: array<nat>    // the first word of every block
    var freeNext: nat          // stFreeList.pstNext
    ghost var free: seq<nat>

    ghost predicate Valid()
      reads this, words
    {
      PoolOk(g, freeNext, words[..], free)
    }

    // The blocks are linked, whatever their addresses.
    ghost predicate Laid()
      reads this, words
    {
      Linked(g, freeNext, words[..], free)
    }

    // LOS_MemboxInit: true stands for LOS_OK; the pool lies at address base. Block sizes that round to
    // nothing are divided by.
    static method MemboxInit(base: nat, boxSize: nat, blkSize: nat) returns (ok: bool, m: Membox?)
      requires base + boxSize <= WORD && blkSize < WORD && BlockSize(blkSize) != 0
      requires BlockSize(blkSize) == LOS_MEMBOX_MAGIC_SIZE ==> base + boxSize < WORD
      ensures ok <==> base != NULL && blkSize != 0 && BlockCount(boxSize, BlockSize(blkSize)) > 0
      ensures ok ==>
                && m != null && fresh(m) && fresh(m.words) && m.Laid() && (m.Valid() <==> NoneAtMagic(m.g))
                && m.g == PoolAt(base, boxSize, blkSize) && m.free == Blocks(m.g.blkNum)
    {
      BlockSizeFitsIff(blkSize);
      if base == NULL {
        return false, null;
      }
      if blkSize == 0 {
        return false, null;
      }
      if boxSize < INFO_SIZE {
        return false, null;
      }
      var size := BlockSize(blkSize);
      var num := (boxSize - INFO_SIZE) / size;
      if num == 0 {
        return false, null;
      }
      DivModParts(boxSize - INFO_SIZE, size);
      m := new Membox(PoolAt(base, boxSize, blkSize));
      ok := true;
    }

    // The rest of LOS_MemboxInit: all blocks linked in order.
    constructor (g0: Geometry)
      requires Shaped(g0)
      ensures g == g0 && fresh(words) && Laid() && (Valid() <==> NoneAtMagic(g0)) && free == Blocks(g0.blkNum)
    {
      g := g0;
      words := new nat[g0.blkNum];
      new;
      freeNext := Addr(g, 0);
      var node := 0;
      while node < g.blkNum - 1
        invariant node <= g.blkNum - 1
        invariant freeNext == Addr(g, 0)
        invariant forall b :: 0 <= b < node ==> words[b] == Addr(g, b + 1)
      {
        words[node] := Addr(g, node + 1);
        node := node + 1;
      }
      words[node] := NULL;
      free := Blocks(g.blkNum);
      hide Addr;
      forall b: nat | b < g.blkNum
        ensures b in free
      {
        assert free[b] == b;
      }
    }

    // LOS_MemboxAlloc: the user address of the first free block, or null when there is none.
    method MemboxAlloc() returns (box: nat)
      requires Valid()
      modifies this, words
      ensures Valid()
      ensures old(free) == [] ==> box == NULL && free == []
      ensures old(free) != [] ==> box == UserAddr(g, old(free)[0]) && free == old(free)[1..]
    {
      box := NULL;
      HeadIff(g, freeNext, words[..], free);
      if freeNext != NULL {
        ghost var b := free[0];
        AddrBounds(g, b);
        OffsetOfUser(g, b);
        assert freeNext == Addr(g, b);
        TakeFirst(g, freeNext, words[..], free);
        var node := Index(g, freeNext - First(g));
        assert node == b;
        box := freeNext + LOS_MEMBOX_MAGIC_SIZE;
        freeNext := words[node];
        words[node] := OS_MEMBOX_MAGIC;
        free := free[1..];
      }
    }

    // LOS_MemboxFree: succeeds exactly for the user address of an allocated block.
    method MemboxFree(box: nat) returns (ok: bool)
      requires Valid() && box < WORD
      modifies this, words
      ensures Valid()
      ensures ok <==> exists b: nat :: b < g.blkNum && b !in old(free) && box == UserAddr(g, b)
      ensures ok ==>
                && free != [] && free == [free[0]] + old(free) && free[0] < g.blkNum && free[0] !in old(free)
                && box == UserAddr(g, free[0])
      ensures !ok ==> free == old(free)
    {
      if box == NULL {
        return false;
      }
      PlacedIff(g, box);
      var offset := Offset(g, box);
      if offset % g.blkSize != 0 {
        NotPlaced(g, box);
        return false;
      }
      if Index(g, offset) >= g.blkNum {
        NotPlaced(g, box);
        return false;
      }
      var b := Index(g, offset);
      MagicIffAllocated(g, freeNext, words[..], free, b);
      OnlyBlock(g, box, b);
      if words[b] != OS_MEMBOX_MAGIC {
        return false;
      }
      PutFirst(g, freeNext, words[..], free, b);
      words[b] := freeNext;
      freeNext := Addr(g, b);
      free := [b] + free;
      ok := true;
    }
  }

  lemma HeadIff(g: Geometry, head: nat, words: seq<nat>, free: seq<nat>)
    requires PoolOk(g, head, words, free)
    ensures head == NULL <==> free == []
  {
    if free != [] {
      AddrBounds(g, free[0]);
    }
  }

  lemma NotPlaced(g: Geometry, box: nat)
    requires GeometryOk(g) && box < WORD && !Placed(g, box)
    ensures forall b: nat :: b < g.blkNum ==> box != UserAddr(g, b)
  {
    forall b: nat | b < g.blkNum
      ensures box != UserAddr(g, b)
    {
      OffsetOfUser(g, b);
    }
  }

  lemma OnlyBlock(g: Geometry, box: nat, i: nat)
    requires GeometryOk(g) && i < g.blkNum && box == UserAddr(g, i)
    ensures forall b: nat :: b < g.blkNum && box == UserAddr(g, b) ==> b == i
  {
    forall b: nat | b < g.blkNum && b != i
      ensures UserAddr(g, b) != box
    {
      if b < i {
        AddrInjective(g, b, i);
      } else {
        AddrInjective(g, i, b);
      }
    }
  }
}
