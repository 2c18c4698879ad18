// The CRC of the XMODEM sender: a table-driven loop and the bit-by-bit division it stands for.

module Crc16 {

  // ---- Bit by bit --------------------------------------------------------------------------

  const POLY: bv16 := 0x1021

  function Xor(a: bv16, b: bv16): bv16 { a ^ b }

  predicate Top(crc: bv16) { crc & 0x8000 != 0 }

  function Double(crc: bv16): bv16 { crc << 1 }

  // One bit of the division by x^16 + x^12 + x^5 + 1.
  function Shift(crc: bv16): bv16
  {
    if Top(crc) then Xor(Double(crc), POLY) else Double(crc)
  }

  function Shift2(crc: bv16): bv16 { Shift(Shift(crc)) }

  function Shift4(crc: bv16): bv16 { Shift2(Shift2(crc)) }

  function Shift8(crc: bv16): bv16 { Shift4(Shift4(crc)) }

  // The byte enters at the top.
  function High(b: bv8): bv16 { (b as bv16) << 8 }

  function Feed(crc: bv16, b: bv8): bv16 { Shift8(Xor(crc, High(b))) }

  // The CRC of a byte string, from the initial value 0.
  function Crc(s: seq<bv8>): bv16
  {
    if s == [] then 0 else Feed(Crc(s[..|s| - 1]), s[|s| - 1])
  }

  // ---- The table -----------------------------------------------------------------------------

  // crc16tab in rows of sixteen.
  const ROW_0: seq<bv16> := [0x0000, 0x1021, 0x2042, 0x3063, 0x4084, 0x50a5, 0x60c6, 0x70e7,
                            0x8108, 0x9129, 0xa14a, 0xb16b, 0xc18c, 0xd1ad, 0xe1ce, 0xf1ef]
  const ROW_1: seq<bv16> := [0x1231, 0x0210, 0x3273, 0x2252, 0x52b5, 0x4294, 0x72f7, 0x62d6,
                            0x9339, 0x8318, 0xb37b, 0xa35a, 0xd3bd, 0xc39c, 0xf3ff, 0xe3de]
  const ROW_2: seq<bv16> := [0x2462, 0x3443, 0x0420, 0x1401, 0x64e6, 0x74c7, 0x44a4, 0x5485,
                            0xa56a, 0xb54b, 0x8528, 0x9509, 0xe5ee, 0xf5cf, 0xc5ac, 0xd58d]
  const ROW_3: seq<bv16> := [0x3653, 0x2672, 0x1611, 0x0630, 0x76d7, 0x66f6, 0x5695, 0x46b4,
                            0xb75b, 0xa77a, 0x9719, 0x8738, 0xf7df, 0xe7fe, 0xd79d, 0xc7bc]
  const ROW_4: seq<bv16> := [0x48c4, 0x58e5, 0x6886, 0x78a7, 0x0840, 0x1861, 0x2802, 0x3823,
                            0xc9cc, 0xd9ed, 0xe98e, 0xf9af, 0x8948, 0x9969, 0xa90a, 0xb92b]
  const ROW_5: seq<bv16> := [0x5af5, 0x4ad4, 0x7ab7, 0x6a96, 0x1a71, 0x0a50, 0x3a33, 0x2a12,
                            0xdbfd, 0xcbdc, 0xfbbf, 0xeb9e, 0x9b79, 0x8b58, 0xbb3b, 0xab1a]
  const ROW_6: seq<bv16> := [0x6ca6, 0x7c87, 0x4ce4, 0x5cc5, 0x2c22, 0x3c03, 0x0c60, 0x1c41,
                            0xedae, 0xfd8f, 0xcdec, 0xddcd, 0xad2a, 0xbd0b, 0x8d68, 0x9d49]
  const ROW_7: seq<bv16> := [0x7e97, 0x6eb6, 0x5ed5, 0x4ef4, 0x3e13, 0x2e32, 0x1e51, 0x0e70,
                            0xff9f, 0xefbe, 0xdfdd, 0xcffc, 0xbf1b, 0xaf3a, 0x9f59, 0x8f78]
  const ROW_8: seq<bv16> := [0x9188, 0x81a9, 0xb1ca, 0xa1eb, 0xd10c, 0xc12d, 0xf14e, 0xe16f,
                            0x1080, 0x00a1, 0x30c2, 0x20e3, 0x5004, 0x4025, 0x7046, 0x6067]
  const ROW_9: seq<bv16> := [0x83b9, 0x9398, 0xa3fb, 0xb3da, 0xc33d, 0xd31c, 0xe37f, 0xf35e,
                            0x02b1, 0x1290, 0x22f3, 0x32d2, 0x4235, 0x5214, 0x6277, 0x7256]
  const ROW_A: seq<bv16> := [0xb5ea, 0xa5cb, 0x95a8, 0x8589, 0xf56e, 0xe54f, 0xd52c, 0xc50d,
                            0x34e2, 0x24c3, 0x14a0, 0x0481, 0x7466, 0x6447, 0x5424, 0x4405]
  const ROW_B: seq<bv16> := [0xa7db, 0xb7fa, 0x8799, 0x97b8, 0xe75f, 0xf77e, 0xc71d, 0xd73c,
                            0x26d3, 0x36f2, 0x0691, 0x16b0, 0x6657, 0x7676, 0x4615, 0x5634]
  const ROW_C: seq<bv16> := [0xd94c, 0xc96d, 0xf90e, 0xe92f, 0x99c8, 0x89e9, 0xb98a, 0xa9ab,
                            0x5844, 0x4865, 0x7806, 0x6827, 0x18c0, 0x08e1, 0x3882, 0x28a3]
  const ROW_D: seq<bv16> := [0xcb7d, 0xdb5c, 0xeb3f, 0xfb1e, 0x8bf9, 0x9bd8, 0xabbb, 0xbb9a,
                            0x4a75, 0x5a54, 0x6a37, 0x7a16, 0x0af1, 0x1ad0, 0x2ab3, 0x3a92]
  const ROW_E: seq<bv16> := [0xfd2e, 0xed0f, 0xdd6c, 0xcd4d, 0xbdaa, 0xad8b, 0x9de8, 0x8dc9,
                            0x7c26, 0x6c07, 0x5c64, 0x4c45, 0x3ca2, 0x2c83, 0x1ce0, 0x0cc1]
  const ROW_F: seq<bv16> := [0xef1f, 0xff3e, 0xcf5d, 0xdf7c, 0xaf9b, 0xbfba, 0x8fd9, 0x9ff8,
                            0x6e17, 0x7e36, 0x4e55, 0x5e74, 0x2e93, 0x3eb2, 0x0ed1, 0x1ef0]

  function Row(h: bv8): seq<bv16>
    requires h < 16
  {
    if h == 0 then ROW_0
    else if h == 1 then ROW_1
    else if h == 2 then ROW_2
    else if h == 3 then ROW_3
    else if h == 4 then ROW_4
    else if h == 5 then ROW_5
    else if h == 6 then ROW_6
    else if h == 7 then ROW_7
    else if h == 8 then ROW_8
    else if h == 9 then ROW_9
    else if h == 10 then ROW_A
    else if h == 11 then ROW_B
    else if h == 12 then ROW_C
    else if h == 13 then ROW_D
    else if h == 14 then ROW_E
    else ROW_F
  }

  // crc16tab[i]
  function Table(i: bv8): bv16
  {
    Entry(Row(i >> 4), i & 15)
  }

  function Entry(row: seq<bv16>, l: bv8): bv16
  {
    if |row| == 16 && l < 16 then row[l as int] else 0
  }

  lemma Row0(l: bv8)
    requires l < 16
    ensures Entry(ROW_0, l) == Shift8(High(0 | l))
  {
  }

  lemma Row1(l: bv8)
    requires l < 16
    ensures Entry(ROW_1, l) == Shift8(High(16 | l))
  {
  }

  lemma Row2(l: bv8)
    requires l < 16
    ensures Entry(ROW_2, l) == Shift8(High(32 | l))
  {
  }

  lemma Row3(l: bv8)
    requires l < 16
    ensures Entry(ROW_3, l) == Shift8(High(48 | l))
  {
  }

  lemma Row4(l: bv8)
    requires l < 16
    ensures Entry(ROW_4, l) == Shift8(High(64 | l))
  {
  }

  lemma Row5(l: bv8)
    requires l < 16
    ensures Entry(ROW_5, l) == Shift8(High(80 | l))
  {
  }

  lemma Row6(l: bv8)
    requires l < 16
    ensures Entry(ROW_6, l) == Shift8(High(96 | l))
  {
  }

  lemma Row7(l: bv8)
    requires l < 16
    ensures Entry(ROW_7, l) == Shift8(High(112 | l))
  {
  }

  lemma Row8(l: bv8)
    requires l < 16
    ensures Entry(ROW_8, l) == Shift8(High(128 | l))
  {
  }

  lemma Row9(l: bv8)
    requires l < 16
    ensures Entry(ROW_9, l) == Shift8(High(144 | l))
  {
  }

  lemma RowA(l: bv8)
    requires l < 16
    ensures Entry(ROW_A, l) == Shift8(High(160 | l))
  {
  }

  lemma RowB(l: bv8)
    requires l < 16
    ensures Entry(ROW_B, l) == Shift8(High(176 | l))
  {
  }

  lemma RowC(l: bv8)
    requires l < 16
    ensures Entry(ROW_C, l) == Shift8(High(192 | l))
  {
  }

  lemma RowD(l: bv8)
    requires l < 16
    ensures Entry(ROW_D, l) == Shift8(High(208 | l))
  {
  }

  lemma RowE(l: bv8)
    requires l < 16
    ensures Entry(ROW_E, l) == Shift8(High(224 | l))
  {
  }

  lemma RowF(l: bv8)
    requires l < 16
    ensures Entry(ROW_F, l) == Shift8(High(240 | l))
  {
  }

  // Every entry of the table is the remainder of its index.
  lemma TableIs(i: bv8)
    ensures Table(i) == Shift8(High(i))
  {
    var h, l := i >> 4, i & 15;
    Nibbles(i);
    hide Shift8, High, Entry;
    HexRow(h, l);
  }

  lemma Nibbles(i: bv8)
    ensures i >> 4 < 16 && i & 15 < 16 && ((i >> 4) << 4) | (i & 15) == i
  {
  }

  lemma HexRow(h: bv8, l: bv8)
    requires h < 16 && l < 16
    ensures Entry(Row(h), l) == Shift8(High((h << 4) | l))
  {
    hide Shift8, High, Entry, ROW_0, ROW_1, ROW_2, ROW_3, ROW_4, ROW_5, ROW_6, ROW_7, ROW_8, ROW_9, ROW_A, ROW_B;
    hide ROW_C, ROW_D, ROW_E, ROW_F;
    if h == 0 {
      Row0(l);
    } else if h == 1 {
      Row1(l);
    } else if h == 2 {
      Row2(l);
    } else if h == 3 {
      Row3(l);
    } else if h == 4 {
      Row4(l);
    } else if h == 5 {
      Row5(l);
    } else if h == 6 {
      Row6(l);
    } else if h == 7 {
      Row7(l);
    } else if h == 8 {
      Row8(l);
    } else if h == 9 {
      Row9(l);
    } else if h == 10 {
      RowA(l);
    } else if h == 11 {
      RowB(l);
    } else if h == 12 {
      RowC(l);
    } else if h == 13 {
      RowD(l);
    } else if h == 14 {
      RowE(l);
    } else if h == 15 {
      RowF(l);
    }
  }

  // *(char *)buf widened to an int, sign and all.
  function Widened(b: bv8): bv16 { if b & 0x80 != 0 then 0xFF00 | (b as bv16) else b as bv16 }

  // ((crc >> 8) ^ *(char *)buf) & 0x00FF
  function Index(crc: bv16, b: bv8): bv8 { (((crc >> 8) ^ Widened(b)) & 0x00FF) as bv8 }

  function Upper(x: bv16): bv16 { x & 0xFF00 }

  function Lower(x: bv16): bv16 { x & 0x00FF }

  // crc << 8
  function Raise(x: bv16): bv16 { x << 8 }

  // The sign of the character does not matter: the index is the top byte of the sum.
  lemma IndexIs(crc: bv16, b: bv8)
    ensures High(Index(crc, b)) == Upper(Xor(crc, High(b)))
  {
  }

  lemma TopXor(x: bv16, y: bv16)
    ensures Top(Xor(x, y)) == (Top(x) != Top(y))
  {
  }

  lemma DoubleXor(x: bv16, y: bv16)
    ensures Double(Xor(x, y)) == Xor(Double(x), Double(y))
  {
  }

  lemma XorSym(a: bv16, b: bv16)
    ensures Xor(a, b) == Xor(b, a)
  {
  }

  lemma XorAssoc(a: bv16, b: bv16, p: bv16)
    ensures Xor(Xor(a, b), p) == Xor(a, Xor(b, p))
  {
  }

  lemma XorSwap(a: bv16, b: bv16, p: bv16)
    ensures Xor(Xor(a, b), p) == Xor(Xor(a, p), b)
  {
    XorAssoc(a, b, p);
    XorSym(b, p);
    XorAssoc(a, p, b);
    hide Xor;
  }

  lemma XorZero(a: bv16, p: bv16)
    ensures Xor(p, p) == 0 && Xor(a, 0) == a
  {
  }

  lemma XorBoth(a: bv16, b: bv16, p: bv16)
    ensures Xor(Xor(a, p), Xor(b, p)) == Xor(a, b)
  {
    XorAssoc(Xor(a, p), b, p);
    XorSwap(a, p, b);
    XorAssoc(Xor(a, b), p, p);
    XorZero(Xor(a, b), p);
    hide Xor;
  }

  // The division is linear: dividing x ^ y is dividing x and y.
  lemma ShiftLinear(x: bv16, y: bv16)
    ensures Shift(Xor(x, y)) == Xor(Shift(x), Shift(y))
  {
    TopXor(x, y);
    DoubleXor(x, y);
    XorSwap(Double(x), Double(y), POLY);
    XorAssoc(Double(x), Double(y), POLY);
    XorBoth(Double(x), Double(y), POLY);
    hide Top, Double, Xor;
  }

  lemma Shift2Linear(x: bv16, y: bv16)
    ensures Shift2(Xor(x, y)) == Xor(Shift2(x), Shift2(y))
  {
    ShiftLinear(x, y);
    ShiftLinear(Shift(x), Shift(y));
    hide Shift, Xor;
  }

  lemma Shift4Linear(x: bv16, y: bv16)
    ensures Shift4(Xor(x, y)) == Xor(Shift4(x), Shift4(y))
  {
    Shift2Linear(x, y);
    Shift2Linear(Shift2(x), Shift2(y));
    hide Shift2, Xor;
  }

  lemma Shift8Linear(x: bv16, y: bv16)
    ensures Shift8(Xor(x, y)) == Xor(Shift8(x), Shift8(y))
  {
    Shift4Linear(x, y);
    Shift4Linear(Shift4(x), Shift4(y));
    hide Shift4, Xor;
  }

  // The low byte only moves up.
  lemma LowByte(x: bv16)
    requires Upper(x) == 0
    ensures Shift8(x) == Raise(x)
  {
  }

  lemma Halves(x: bv16)
    ensures x == Xor(Upper(x), Lower(x)) && Upper(Lower(x)) == 0
  {
  }

  lemma LowOnly(crc: bv16, b: bv8)
    ensures Raise(Lower(Xor(crc, High(b)))) == Raise(crc)
  {
  }

  // One round of the loop feeds one byte.
  lemma TableStep(crc: bv16, b: bv8)
    ensures Xor(Raise(crc), Table(Index(crc, b))) == Feed(crc, b)
  {
    var x := Xor(crc, High(b));
    TableIs(Index(crc, b));
    IndexIs(crc, b);
    Halves(x);
    Shift8Linear(Upper(x), Lower(x));
    LowByte(Lower(x));
    LowOnly(crc, b);
    XorSym(Shift8(Upper(x)), Raise(crc));
    hide Shift8, High, Table, Index, Xor, Upper, Lower, Raise;
  }

  lemma CrcSnoc(s: seq<bv8>, b: bv8)
    ensures Crc(s + [b]) == Feed(Crc(s), b)
  {
    assert (s + [b])[..|s|] == s;
  }

  // LOS_xModemCRC16: the table-driven loop computes the bit-by-bit CRC.
  method XmodemCrc16(buf: seq<bv8>) returns (crc: bv16)
    ensures crc == Crc(buf)
  {
    hide Table, Index, Feed, Xor, Raise;
    crc := 0;
    var counter := 0;
    assert buf[..0] == [];
    while counter < |buf|
      invariant counter <= |buf| && crc == Crc(buf[..counter])
    {
      TableStep(crc, buf[counter]);
      assert buf[..counter + 1] == buf[..counter] + [buf[counter]];
      CrcSnoc(buf[..counter], buf[counter]);
      crc := Xor(Raise(crc), Table(Index(crc, buf[counter])));
      counter := counter + 1;
    }
    assert buf[..counter] == buf;
  }

  // (ccrc >> 8) & 0xFF and ccrc & 0xFF
  function HighByte(crc: bv16): bv8 { ((crc >> 8) & 0xFF) as bv8 }

  function LowByteOf(crc: bv16): bv8 { (crc & 0xFF) as bv8 }

  lemma FeedHigh(crc: bv16)
    ensures Xor(crc, High(HighByte(crc))) == Lower(crc)
  {
  }

  lemma FeedLow(crc: bv16)
    ensures Xor(Raise(Lower(crc)), High(LowByteOf(crc))) == 0
  {
  }

  lemma ShiftZero()
    ensures Shift8(0) == 0
  {
  }

  // What the receiver checks: with the CRC appended, high byte first, the CRC of the whole is zero.
  lemma AppendedCrcIsZero(s: seq<bv8>)
    ensures Crc(s + [HighByte(Crc(s)), LowByteOf(Crc(s))]) == 0
  {
    var c := Crc(s);
    var h, l := HighByte(c), LowByteOf(c);
    assert s + [h, l] == s + [h] + [l];
    CrcSnoc(s, h);
    CrcSnoc(s + [h], l);
    FeedHigh(c);
    Halves(c);
    LowByte(Lower(c));
    FeedLow(c);
    ShiftZero();
    hide Crc, High, Shift8, HighByte, LowByteOf, Xor, Raise, Lower, Upper;
  }
}
