// Size classes of the segregated free lists: the floor-log2 decision tree and
// the map from a block size to one of the 27 list heads.

module MultiHead {
  import opened Arith

  const MAX_LOG2: nat := 30
  const MIN_LOG2: nat := 4
  const LIST_NUM: nat := MAX_LOG2 - MIN_LOG2 + 1

  // The tree's answer for a word with bit 31 set.
  const NO_BIT: nat := 0xfffffff

  function Pow2(n: nat): (r: nat)
    ensures r >= 1
  {
    if n == 0 then 1 else 2 * Pow2(n - 1)
  }

  // True iff size has a bit set among the `count` bits above the bit worth `low`:
  // every mask of the decision tree is such a run of bits, with width Pow2(count).
  predicate AnyBit(size: nat, low: nat, width: nat)
    requires low > 0 && width > 0
  {
    (size / low) % width != 0
  }

  // LOS_Log2: one branch per mask test, in the order of the tree.
  function Log2(size: nat): (r: nat)
  {
    if AnyBit(size, 0x80000000, 2) then NO_BIT
    else if AnyBit(size, 0x10000, 0x8000) then Log2High(size)
    else Log2Low(size)
  }

  function Log2High(size: nat): nat
  {
    if AnyBit(size, 0x1000000, 0x80) then
      if AnyBit(size, 0x10000000, 8) then
        if AnyBit(size, 0x40000000, 2) then 30 else if AnyBit(size, 0x20000000, 2) then 29 else 28
      else if AnyBit(size, 0x4000000, 4) then
        if AnyBit(size, 0x8000000, 2) then 27 else 26
      else
        if AnyBit(size, 0x2000000, 2) then 25 else 24
    else
      if AnyBit(size, 0x100000, 16) then
        if AnyBit(size, 0x400000, 4) then
          if AnyBit(size, 0x800000, 2) then 23 else 22
        else
          if AnyBit(size, 0x200000, 2) then 21 else 20
      else if AnyBit(size, 0x40000, 4) then
        if AnyBit(size, 0x80000, 2) then 19 else 18
      else
        if AnyBit(size, 0x20000, 2) then 17 else 16
  }

  function Log2Low(size: nat): nat
  {
    if AnyBit(size, 0x100, 0x100) then
      if AnyBit(size, 0x1000, 16) then
        if AnyBit(size, 0x4000, 4) then
          if AnyBit(size, 0x8000, 2) then 15 else 14
        else
          if AnyBit(size, 0x2000, 2) then 13 else 12
      else if AnyBit(size, 0x400, 4) then
        if AnyBit(size, 0x800, 2) then 11 else 10
      else
        if AnyBit(size, 0x200, 2) then 9 else 8
    else
      if AnyBit(size, 0x10, 16) then
        if AnyBit(size, 0x40, 4) then
          if AnyBit(size, 0x80, 2) then 7 else 6
        else
          if AnyBit(size, 0x20, 2) then 5 else 4
      else if AnyBit(size, 4, 4) then
        if AnyBit(size, 8, 2) then 3 else 2
      else
        if AnyBit(size, 2, 2) then 1 else 0
  }

  // Below low * width, a run of bits is zero exactly when the word is below low.
  lemma AnyBitIsComparison(size: nat, low: nat, width: nat)
    requires low > 0 && width > 0 && size < low * width
    ensures AnyBit(size, low, width) <==> size >= low
  {
    Quotient(size, low, width);
    SmallModulo(size / low, width);
  }

  lemma Quotient(size: nat, low: nat, width: nat)
    requires low > 0 && size < low * width
    ensures 0 <= size / low < width && (size / low == 0 <==> size < low)
  {
    var q := size / low;
    assert size == low * q + size % low;
    if q >= width {
      MulMono(width, q, low);
    }
    if q >= 1 {
      MulMono(1, q, low);
    }
  }

  lemma SmallModulo(q: nat, width: nat)
    requires q < width
    ensures q % width == q
  {
  }

  lemma Pow2Low()
    ensures Pow2(0) == 1 && Pow2(1) == 2 && Pow2(2) == 4 && Pow2(3) == 8 && Pow2(4) == 16 && Pow2(5) == 32
    ensures Pow2(6) == 64 && Pow2(7) == 0x80 && Pow2(8) == 0x100 && Pow2(9) == 0x200 && Pow2(10) == 0x400
    ensures Pow2(11) == 0x800 && Pow2(12) == 0x1000 && Pow2(13) == 0x2000 && Pow2(14) == 0x4000 && Pow2(15) == 0x8000
  {
  }

  lemma Pow2High()
    ensures Pow2(16) == 0x10000 && Pow2(17) == 0x20000 && Pow2(18) == 0x40000 && Pow2(19) == 0x80000
    ensures Pow2(20) == 0x100000 && Pow2(21) == 0x200000 && Pow2(22) == 0x400000 && Pow2(23) == 0x800000
    ensures Pow2(24) == 0x1000000 && Pow2(25) == 0x2000000 && Pow2(26) == 0x4000000 && Pow2(27) == 0x8000000
    ensures Pow2(28) == 0x10000000 && Pow2(29) == 0x20000000 && Pow2(30) == 0x40000000 && Pow2(31) == 0x80000000
  {
    Pow2Low();
    assert Pow2(16) == 0x10000;
    assert Pow2(20) == 0x100000;
    assert Pow2(24) == 0x1000000;
    assert Pow2(28) == 0x10000000;
  }

  // One nibble of the tree at a time: each mask test is a comparison.
  lemma Nibble0(size: nat)
    requires 1 <= size < 0x10
    ensures 0 <= Log2Low(size) <= 3
    ensures Pow2(Log2Low(size)) <= size < 2 * Pow2(Log2Low(size))
  {
    Pow2Low();
    AnyBitIsComparison(size, 0x100, 0x100);
    AnyBitIsComparison(size, 0x10, 16);
    AnyBitIsComparison(size, 4, 4);
    if size >= 4 {
      AnyBitIsComparison(size, 8, 2);
    } else {
      AnyBitIsComparison(size, 2, 2);
    }
    hide AnyBit, Pow2;
  }

  lemma Nibble1(size: nat)
    requires 0x10 <= size < 0x100
    ensures 4 <= Log2Low(size) <= 7
    ensures Pow2(Log2Low(size)) <= size < 2 * Pow2(Log2Low(size))
  {
    Pow2Low();
    AnyBitIsComparison(size, 0x100, 0x100);
    AnyBitIsComparison(size, 0x10, 16);
    AnyBitIsComparison(size, 0x40, 4);
    if size >= 0x40 {
      AnyBitIsComparison(size, 0x80, 2);
    } else {
      AnyBitIsComparison(size, 0x20, 2);
    }
    hide AnyBit, Pow2;
  }

  lemma Nibble2(size: nat)
    requires 0x100 <= size < 0x1000
    ensures 8 <= Log2Low(size) <= 11
    ensures Pow2(Log2Low(size)) <= size < 2 * Pow2(Log2Low(size))
  {
    Pow2Low();
    AnyBitIsComparison(size, 0x100, 0x100);
    AnyBitIsComparison(size, 0x1000, 16);
    AnyBitIsComparison(size, 0x400, 4);
    if size >= 0x400 {
      AnyBitIsComparison(size, 0x800, 2);
    } else {
      AnyBitIsComparison(size, 0x200, 2);
    }
    hide AnyBit, Pow2;
  }

  lemma Nibble3(size: nat)
    requires 0x1000 <= size < 0x10000
    ensures 12 <= Log2Low(size) <= 15
    ensures Pow2(Log2Low(size)) <= size < 2 * Pow2(Log2Low(size))
  {
    Pow2Low();
    AnyBitIsComparison(size, 0x100, 0x100);
    AnyBitIsComparison(size, 0x1000, 16);
    AnyBitIsComparison(size, 0x4000, 4);
    if size >= 0x4000 {
      AnyBitIsComparison(size, 0x8000, 2);
    } else {
      AnyBitIsComparison(size, 0x2000, 2);
    }
    hide AnyBit, Pow2;
  }

  lemma Nibble4(size: nat)
    requires 0x10000 <= size < 0x100000
    ensures 16 <= Log2High(size) <= 19
    ensures Pow2(Log2High(size)) <= size < 2 * Pow2(Log2High(size))
  {
    Pow2High();
    AnyBitIsComparison(size, 0x1000000, 0x80);
    AnyBitIsComparison(size, 0x100000, 16);
    AnyBitIsComparison(size, 0x40000, 4);
    if size >= 0x40000 {
      AnyBitIsComparison(size, 0x80000, 2);
    } else {
      AnyBitIsComparison(size, 0x20000, 2);
    }
    hide AnyBit, Pow2;
  }

  lemma Nibble5(size: nat)
    requires 0x100000 <= size < 0x1000000
    ensures 20 <= Log2High(size) <= 23
    ensures Pow2(Log2High(size)) <= size < 2 * Pow2(Log2High(size))
  {
    Pow2High();
    AnyBitIsComparison(size, 0x1000000, 0x80);
    AnyBitIsComparison(size, 0x100000, 16);
    AnyBitIsComparison(size, 0x400000, 4);
    if size >= 0x400000 {
      AnyBitIsComparison(size, 0x800000, 2);
    } else {
      AnyBitIsComparison(size, 0x200000, 2);
    }
    hide AnyBit, Pow2;
  }

  lemma Nibble6(size: nat)
    requires 0x1000000 <= size < 0x10000000
    ensures 24 <= Log2High(size) <= 27
    ensures Pow2(Log2High(size)) <= size < 2 * Pow2(Log2High(size))
  {
    Pow2High();
    AnyBitIsComparison(size, 0x1000000, 0x80);
    AnyBitIsComparison(size, 0x10000000, 8);
    AnyBitIsComparison(size, 0x4000000, 4);
    if size >= 0x4000000 {
      AnyBitIsComparison(size, 0x8000000, 2);
    } else {
      AnyBitIsComparison(size, 0x2000000, 2);
    }
    hide AnyBit, Pow2;
  }

  lemma Nibble7(size: nat)
    requires 0x10000000 <= size < 0x80000000
    ensures 28 <= Log2High(size) <= 30
    ensures Pow2(Log2High(size)) <= size < 2 * Pow2(Log2High(size))
  {
    Pow2High();
    AnyBitIsComparison(size, 0x1000000, 0x80);
    AnyBitIsComparison(size, 0x10000000, 8);
    AnyBitIsComparison(size, 0x40000000, 2);
    if size < 0x40000000 {
      AnyBitIsComparison(size, 0x20000000, 2);
    }
    hide AnyBit, Pow2;
  }

  lemma Log2LowIsFloorLog2(size: nat)
    requires 0 < size < 0x10000
    ensures Log2Low(size) <= 15
    ensures Pow2(Log2Low(size)) <= size < 2 * Pow2(Log2Low(size))
  {
    hide Log2Low, Pow2;
    if size < 0x10 {
      Nibble0(size);
    } else if size < 0x100 {
      Nibble1(size);
    } else if size < 0x1000 {
      Nibble2(size);
    } else {
      Nibble3(size);
    }
  }

  lemma Log2HighIsFloorLog2(size: nat)
    requires 0x10000 <= size < 0x80000000
    ensures 16 <= Log2High(size) <= MAX_LOG2
    ensures Pow2(Log2High(size)) <= size < 2 * Pow2(Log2High(size))
  {
    hide Log2High, Pow2;
    if size < 0x100000 {
      Nibble4(size);
    } else if size < 0x1000000 {
      Nibble5(size);
    } else if size < 0x10000000 {
      Nibble6(size);
    } else {
      Nibble7(size);
    }
  }

  // The decision tree is floor-log2 on every 31-bit word.
  lemma Log2IsFloorLog2(size: nat)
    requires 0 < size < 0x80000000
    ensures Log2(size) <= MAX_LOG2
    ensures Pow2(Log2(size)) <= size < 2 * Pow2(Log2(size))
  {
    hide Log2Low, Log2High, Pow2;
    if size < 0x10000 {
      Log2LowIsFloorLog2(size);
    } else {
      Log2HighIsFloorLog2(size);
    }
  }

  // LOS_DLnkMultiHead: the list index for a size, NONE where the source returns NULL.
  const NONE: int := -1

  function HeadIndex(size: nat): (c: int)
  {
    var idx := Log2(size);
    if idx > MAX_LOG2 then NONE
    else if idx <= MIN_LOG2 then 0
    else idx - MIN_LOG2
  }

  // LOS_DLnkNextMultiHead: the list after list c, NONE after the last one.
  function NextHeadIndex(c: int): int
  {
    if c == LIST_NUM - 1 then NONE else c + 1
  }

  lemma Pow2Mono(a: nat, b: nat)
    requires a <= b
    ensures Pow2(a) <= Pow2(b)
  {
    if a < b {
      Pow2Mono(a, b - 1);
    }
  }

  lemma Log2Bit31(size: nat)
    requires 0x80000000 <= size < 0x100000000
    ensures Log2(size) == NO_BIT
  {
    hide Log2Low, Log2High, Pow2;
    assert size / 0x80000000 == 1;
  }

  lemma Log2Zero()
    ensures Log2(0) == 0
  {
  }

  // A list exists exactly for sizes below 2^31.
  lemma HeadIndexRange(size: nat)
    requires size < 0x100000000
    ensures HeadIndex(size) == NONE <==> size >= 0x80000000
    ensures size < 0x80000000 ==> 0 <= HeadIndex(size) < LIST_NUM
  {
    hide Log2;
    if size >= 0x80000000 {
      Log2Bit31(size);
    } else if size == 0 {
      Log2Zero();
    } else {
      Log2IsFloorLog2(size);
    }
  }

  lemma Log2Mono(a: nat, b: nat)
    requires a <= b < 0x80000000
    ensures Log2(a) <= Log2(b)
  {
    hide Log2;
    if a == 0 {
      Log2Zero();
    } else {
      Log2IsFloorLog2(a);
      Log2IsFloorLog2(b);
      if Log2(b) < Log2(a) {
        Pow2Mono(Log2(b) + 1, Log2(a));
      }
    }
  }

  // Larger sizes never sit in an earlier list.
  lemma HeadIndexMono(a: nat, b: nat)
    requires a <= b < 0x80000000
    ensures 0 <= HeadIndex(a) <= HeadIndex(b) < LIST_NUM
  {
    hide Log2;
    HeadIndexRange(a);
    HeadIndexRange(b);
    Log2Mono(a, b);
  }

  // Two node sizes of one list differ by less than a factor of two (every node is at least a header).
  lemma SameListWithinTwice(a: nat, b: nat)
    requires 16 <= a < 0x80000000 && 16 <= b < 0x80000000
    requires HeadIndex(a) == HeadIndex(b)
    ensures a < 2 * b
  {
    hide Log2;
    Log2IsFloorLog2(a);
    Log2IsFloorLog2(b);
    if a >= 2 * b {
      Log2Mono(b, a);
      if Log2(a) != Log2(b) {
        assert Log2(b) < MIN_LOG2;
        Pow2Mono(Log2(b) + 1, MIN_LOG2);
        Pow2Low();
      }
    }
  }
}
