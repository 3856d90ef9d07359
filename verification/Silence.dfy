/**
 The two silence records and the whitening sequence. The records are constants of the source, not computed
 by it, so they check what the transcoder computes: both hold one and the same frame, in either form, with
 every protected and every repeated bit in its place. The whitening bytes are a sequence of x^9 + x^4 + 1.
 */
module Silence {
  import opened Bits
  import opened Golay
  import opened Payload
  import opened Voice
  import opened ModeConv
  import opened Weights
  import opened GolayDistance

  /** The first word of silence, 0xF80. */
  function FirstWord(): (w: Word)
    ensures |w| == 12 && forall i: nat | i < 12 :: w[i] == (i < 5)
  {
    seq(12, i requires 0 <= i < 12 => i < 5)
  }

  /** The second, 0x1A9. */
  function SecondWord(): (w: Word)
    ensures |w| == 12 && forall i: nat | i < 12 :: w[i] == (i in {3, 4, 6, 8, 11})
  {
    seq(12, i requires 0 <= i < 12 => i in {3, 4, 6, 8, 11})
  }

  /** The third, 0x13F19C1. */
  function ThirdWord(): (w: Word)
    ensures |w| == 25 && forall i: nat | i < 25 :: w[i] == (i in {0, 3, 4, 5, 6, 7, 8, 12, 13, 16, 17, 18, 24})
  {
    seq(25, i requires 0 <= i < 25 => i in {0, 3, 4, 5, 6, 7, 8, 12, 13, 16, 17, 18, 24})
  }

  /** The frame of silence. */
  function Quiet(): Frame {
    Ambe(FirstWord(), SecondWord(), ThirdWord())
  }

  /** The second word's mask for that frame: PRNG_TABLE[0xF80] >> 1, 0x595ECA. */
  function QuietMask(): (w: Word)
    ensures |w| == 23 && forall i: nat | i < 23 :: w[i] == (i in {0, 2, 3, 6, 8, 10, 11, 12, 13, 15, 16, 19, 21})
  {
    seq(23, i requires 0 <= i < 23 => i in {0, 2, 3, 6, 8, 10, 11, 12, 13, 15, 16, 19, 21})
  }

  /** The first word as it is protected. */
  function FirstCoded(): (w: Word)
    ensures |w| == 24 && forall i: nat | i < 24 :: w[i] == (i in {0, 1, 2, 3, 4, 15, 17, 20})
  {
    seq(24, i requires 0 <= i < 24 => i in {0, 1, 2, 3, 4, 15, 17, 20})
  }

  /** And the second, before the mask. */
  function SecondCoded(): (w: Word)
    ensures |w| == 23 && forall i: nat | i < 23 :: w[i] == (i in {3, 4, 6, 8, 11, 13, 14, 15, 16, 20, 21, 22})
  {
    seq(23, i requires 0 <= i < 23 => i in {3, 4, 6, 8, 11, 13, 14, 15, 16, 20, 21, 22})
  }

  // ------------------------------------------------------------ the three tables

  /**
   Bits of a DMR record: the next protected bit is four places on, the next place belongs to the
   protected bit eighteen on.
   */
  lemma {:induction false} SpotsApart(k: nat)
    ensures Spot(0) == 0
    ensures k < 71 && k % 18 < 17 ==> Spot(k + 1) == Spot(k) + 4
    ensures k < 54 ==> Spot(k + 18) == Spot(k) + 1
  {
    assert (k + 18) % 18 == k % 18 && (k + 18) / 18 == k / 18 + 1;
    assert k % 18 < 17 ==> (k + 1) % 18 == k % 18 + 1 && (k + 1) / 18 == k / 18;
  }

  /** The same of the channel bits of a YSF record, twenty-six apart. */
  lemma {:induction false} CellsApart(i: nat)
    ensures Cell(0) == 0
    ensures i < 103 && i % 26 < 25 ==> Cell(i + 1) == Cell(i) + 4
    ensures i < 78 ==> Cell(i + 26) == Cell(i) + 1
  {
    assert (i + 26) % 26 == i % 26 && (i + 26) / 26 == i / 26 + 1;
    assert i % 26 < 25 ==> (i + 1) % 26 == i % 26 + 1 && (i + 1) / 26 == i / 26;
  }

  // ---------------------------------------------------------------- byte by byte

  predicate Spells(b: bv8, b0: bool, b1: bool, b2: bool, b3: bool, b4: bool, b5: bool, b6: bool, b7: bool) {
    && ByteBit(b, 0) == b0 && ByteBit(b, 1) == b1 && ByteBit(b, 2) == b2 && ByteBit(b, 3) == b3
    && ByteBit(b, 4) == b4 && ByteBit(b, 5) == b5 && ByteBit(b, 6) == b6 && ByteBit(b, 7) == b7
  }

  lemma {:induction false} Masks()
    ensures Mask(0) == 0x80 && Mask(1) == 0x40 && Mask(2) == 0x20 && Mask(3) == 0x10
    ensures Mask(4) == 0x08 && Mask(5) == 0x04 && Mask(6) == 0x02 && Mask(7) == 0x01
  {
  }

  lemma {:induction false} Byte00()
    ensures Spells(0x00, false, false, false, false, false, false, false, false)
  {
    hide Mask;
    Masks();
  }

  lemma {:induction false} Byte01()
    ensures Spells(0x01, false, false, false, false, false, false, false, true)
  {
    hide Mask;
    Masks();
  }

  lemma {:induction false} Byte0F()
    ensures Spells(0x0F, false, false, false, false, true, true, true, true)
  {
    hide Mask;
    Masks();
  }

  lemma {:induction false} Byte21()
    ensures Spells(0x21, false, false, true, false, false, false, false, true)
  {
    hide Mask;
    Masks();
  }

  lemma {:induction false} Byte2A()
    ensures Spells(0x2A, false, false, true, false, true, false, true, false)
  {
    hide Mask;
    Masks();
  }

  lemma {:induction false} Byte2F()
    ensures Spells(0x2F, false, false, true, false, true, true, true, true)
  {
    hide Mask;
    Masks();
  }

  lemma {:induction false} Byte33()
    ensures Spells(0x33, false, false, true, true, false, false, true, true)
  {
    hide Mask;
    Masks();
  }

  lemma {:induction false} Byte36()
    ensures Spells(0x36, false, false, true, true, false, true, true, false)
  {
    hide Mask;
    Masks();
  }

  lemma {:induction false} Byte39()
    ensures Spells(0x39, false, false, true, true, true, false, false, true)
  {
    hide Mask;
    Masks();
  }

  lemma {:induction false} Byte3D()
    ensures Spells(0x3D, false, false, true, true, true, true, false, true)
  {
    hide Mask;
    Masks();
  }

  lemma {:induction false} Byte43()
    ensures Spells(0x43, false, true, false, false, false, false, true, true)
  {
    hide Mask;
    Masks();
  }

  lemma {:induction false} Byte49()
    ensures Spells(0x49, false, true, false, false, true, false, false, true)
  {
    hide Mask;
    Masks();
  }

  lemma {:induction false} Byte51()
    ensures Spells(0x51, false, true, false, true, false, false, false, true)
  {
    hide Mask;
    Masks();
  }

  lemma {:induction false} Byte52()
    ensures Spells(0x52, false, true, false, true, false, false, true, false)
  {
    hide Mask;
    Masks();
  }

  lemma {:induction false} Byte61()
    ensures Spells(0x61, false, true, true, false, false, false, false, true)
  {
    hide Mask;
    Masks();
  }

  lemma {:induction false} Byte68()
    ensures Spells(0x68, false, true, true, false, true, false, false, false)
  {
    hide Mask;
    Masks();
  }

  lemma {:induction false} Byte6B()
    ensures Spells(0x6B, false, true, true, false, true, false, true, true)
  {
    hide Mask;
    Masks();
  }

  lemma {:induction false} Byte6C()
    ensures Spells(0x6C, false, true, true, false, true, true, false, false)
  {
    hide Mask;
    Masks();
  }

  lemma {:induction false} Byte73()
    ensures Spells(0x73, false, true, true, true, false, false, true, true)
  {
    hide Mask;
    Masks();
  }

  lemma {:induction false} Byte78()
    ensures Spells(0x78, false, true, true, true, true, false, false, false)
  {
    hide Mask;
    Masks();
  }

  lemma {:induction false} Byte7B()
    ensures Spells(0x7B, false, true, true, true, true, false, true, true)
  {
    hide Mask;
    Masks();
  }

  lemma {:induction false} Byte80()
    ensures Spells(0x80, true, false, false, false, false, false, false, false)
  {
    hide Mask;
    Masks();
  }

  lemma {:induction false} Byte81()
    ensures Spells(0x81, true, false, false, false, false, false, false, true)
  {
    hide Mask;
    Masks();
  }

  lemma {:induction false} Byte8C()
    ensures Spells(0x8C, true, false, false, false, true, true, false, false)
  {
    hide Mask;
    Masks();
  }

  lemma {:induction false} Byte8E()
    ensures Spells(0x8E, true, false, false, false, true, true, true, false)
  {
    hide Mask;
    Masks();
  }

  lemma {:induction false} Byte93()
    ensures Spells(0x93, true, false, false, true, false, false, true, true)
  {
    hide Mask;
    Masks();
  }

  lemma {:induction false} Byte9C()
    ensures Spells(0x9C, true, false, false, true, true, true, false, false)
  {
    hide Mask;
    Masks();
  }

  lemma {:induction false} Byte9F()
    ensures Spells(0x9F, true, false, false, true, true, true, true, true)
  {
    hide Mask;
    Masks();
  }

  lemma {:induction false} ByteA2()
    ensures Spells(0xA2, true, false, true, false, false, false, true, false)
  {
    hide Mask;
    Masks();
  }

  lemma {:induction false} ByteA9()
    ensures Spells(0xA9, true, false, true, false, true, false, false, true)
  {
    hide Mask;
    Masks();
  }

  lemma {:induction false} ByteB2()
    ensures Spells(0xB2, true, false, true, true, false, false, true, false)
  {
    hide Mask;
    Masks();
  }

  lemma {:induction false} ByteB9()
    ensures Spells(0xB9, true, false, true, true, true, false, false, true)
  {
    hide Mask;
    Masks();
  }

  lemma {:induction false} ByteD0()
    ensures Spells(0xD0, true, true, false, true, false, false, false, false)
  {
    hide Mask;
    Masks();
  }

  lemma {:induction false} ByteD7()
    ensures Spells(0xD7, true, true, false, true, false, true, true, true)
  {
    hide Mask;
    Masks();
  }

  lemma {:induction false} ByteE0()
    ensures Spells(0xE0, true, true, true, false, false, false, false, false)
  {
    hide Mask;
    Masks();
  }

  lemma {:induction false} ByteE4()
    ensures Spells(0xE4, true, true, true, false, false, true, false, false)
  {
    hide Mask;
    Masks();
  }

  lemma {:induction false} ByteE8()
    ensures Spells(0xE8, true, true, true, false, true, false, false, false)
  {
    hide Mask;
    Masks();
  }

  lemma {:induction false} ByteEF()
    ensures Spells(0xEF, true, true, true, false, true, true, true, true)
  {
    hide Mask;
    Masks();
  }

  lemma {:induction false} ByteF1()
    ensures Spells(0xF1, true, true, true, true, false, false, false, true)
  {
    hide Mask;
    Masks();
  }

  lemma {:induction false} ByteF8()
    ensures Spells(0xF8, true, true, true, true, true, false, false, false)
  {
    hide Mask;
    Masks();
  }

  // ------------------------------------------------------------ the DMR record

  /** The protected bits of the DMR record that are set. */
  predicate DmrOne(k: nat) {
    k in {0, 1, 2, 3, 4, 15, 17, 20, 24, 26, 28, 34, 36, 38, 43, 44, 46, 47, 50, 51, 52, 53, 54, 55, 59, 60, 63,
      64, 65, 71}
  }

  lemma {:induction false} DmrByte0(k: nat)
    requires k < 72 && k % 18 / 2 == 0
    ensures Bit(DMR_SILENCE, Spot(k)) == DmrOne(k)
  {
    hide ByteBit;
    assert DMR_SILENCE[0] == 0xB9;
    ByteB9();
  }

  lemma {:induction false} DmrByte1(k: nat)
    requires k < 72 && k % 18 / 2 == 1
    ensures Bit(DMR_SILENCE, Spot(k)) == DmrOne(k)
  {
    hide ByteBit;
    assert DMR_SILENCE[1] == 0xE8;
    ByteE8();
  }

  lemma {:induction false} DmrByte2(k: nat)
    requires k < 72 && k % 18 / 2 == 2
    ensures Bit(DMR_SILENCE, Spot(k)) == DmrOne(k)
  {
    hide ByteBit;
    assert DMR_SILENCE[2] == 0x81;
    Byte81();
  }

  lemma {:induction false} DmrByte3(k: nat)
    requires k < 72 && k % 18 / 2 == 3
    ensures Bit(DMR_SILENCE, Spot(k)) == DmrOne(k)
  {
    hide ByteBit;
    assert DMR_SILENCE[3] == 0x52;
    Byte52();
  }

  lemma {:induction false} DmrByte4(k: nat)
    requires k < 72 && k % 18 / 2 == 4
    ensures Bit(DMR_SILENCE, Spot(k)) == DmrOne(k)
  {
    hide ByteBit;
    assert DMR_SILENCE[4] == 0x61;
    Byte61();
  }

  lemma {:induction false} DmrByte5(k: nat)
    requires k < 72 && k % 18 / 2 == 5
    ensures Bit(DMR_SILENCE, Spot(k)) == DmrOne(k)
  {
    hide ByteBit;
    assert DMR_SILENCE[5] == 0x73;
    Byte73();
  }

  lemma {:induction false} DmrByte6(k: nat)
    requires k < 72 && k % 18 / 2 == 6
    ensures Bit(DMR_SILENCE, Spot(k)) == DmrOne(k)
  {
    hide ByteBit;
    assert DMR_SILENCE[6] == 0x00;
    Byte00();
  }

  lemma {:induction false} DmrByte7(k: nat)
    requires k < 72 && k % 18 / 2 == 7
    ensures Bit(DMR_SILENCE, Spot(k)) == DmrOne(k)
  {
    hide ByteBit;
    assert DMR_SILENCE[7] == 0x2A;
    Byte2A();
  }

  lemma {:induction false} DmrByte8(k: nat)
    requires k < 72 && k % 18 / 2 == 8
    ensures Bit(DMR_SILENCE, Spot(k)) == DmrOne(k)
  {
    hide ByteBit;
    assert DMR_SILENCE[8] == 0x6B;
    Byte6B();
  }

  lemma {:induction false} DmrBit(k: nat)
    requires k < 72
    ensures Bit(DMR_SILENCE, Spot(k)) == DmrOne(k)
  {
    hide Bit, DMR_SILENCE, DmrOne;
    var j := k % 18 / 2;
    if
    case j == 0 => DmrByte0(k);
    case j == 1 => DmrByte1(k);
    case j == 2 => DmrByte2(k);
    case j == 3 => DmrByte3(k);
    case j == 4 => DmrByte4(k);
    case j == 5 => DmrByte5(k);
    case j == 6 => DmrByte6(k);
    case j == 7 => DmrByte7(k);
    case j == 8 => DmrByte8(k);
  }

  // ------------------------------------------------------------ the YSF record

  /** The whitened channel bits of the YSF record that are set. */
  predicate YsfOne(i: nat) {
    i in {1, 2, 4, 5, 10, 12, 15, 17, 19, 23, 26, 31, 32, 35, 36, 37, 42, 44, 48, 52, 53, 54, 55, 57, 59, 60, 61,
      62, 64, 65, 66, 68, 72, 73, 74, 76, 77, 78, 79, 80, 85, 86, 92, 93, 94, 97, 98, 99, 102, 103}
  }

  lemma {:induction false} YsfByte0(i: nat)
    requires i < 104 && i % 26 / 2 == 0
    ensures Bit(YSF_SILENCE, Cell(i)) == YsfOne(i)
  {
    hide ByteBit;
    assert i in {0, 1, 26, 27, 52, 53, 78, 79};
    assert YSF_SILENCE[0] == 0x7B;
    Byte7B();
  }

  lemma {:induction false} YsfByte1(i: nat)
    requires i < 104 && i % 26 / 2 == 1
    ensures Bit(YSF_SILENCE, Cell(i)) == YsfOne(i)
  {
    hide ByteBit;
    assert i in {2, 3, 28, 29, 54, 55, 80, 81};
    assert YSF_SILENCE[1] == 0xB2;
    ByteB2();
  }

  lemma {:induction false} YsfByte2(i: nat)
    requires i < 104 && i % 26 / 2 == 2
    ensures Bit(YSF_SILENCE, Cell(i)) == YsfOne(i)
  {
    hide ByteBit;
    assert i in {4, 5, 30, 31, 56, 57, 82, 83};
    assert YSF_SILENCE[2] == 0x8E;
    Byte8E();
  }

  lemma {:induction false} YsfByte3(i: nat)
    requires i < 104 && i % 26 / 2 == 3
    ensures Bit(YSF_SILENCE, Cell(i)) == YsfOne(i)
  {
    hide ByteBit;
    assert i in {6, 7, 32, 33, 58, 59, 84, 85};
    assert YSF_SILENCE[3] == 0x43;
    Byte43();
  }

  lemma {:induction false} YsfByte4(i: nat)
    requires i < 104 && i % 26 / 2 == 4
    ensures Bit(YSF_SILENCE, Cell(i)) == YsfOne(i)
  {
    hide ByteBit;
    assert i in {8, 9, 34, 35, 60, 61, 86, 87};
    assert YSF_SILENCE[4] == 0x36;
    Byte36();
  }

  lemma {:induction false} YsfByte5(i: nat)
    requires i < 104 && i % 26 / 2 == 5
    ensures Bit(YSF_SILENCE, Cell(i)) == YsfOne(i)
  {
    hide ByteBit;
    assert i in {10, 11, 36, 37, 62, 63, 88, 89};
    assert YSF_SILENCE[5] == 0xE4;
    ByteE4();
  }

  lemma {:induction false} YsfByte6(i: nat)
    requires i < 104 && i % 26 / 2 == 6
    ensures Bit(YSF_SILENCE, Cell(i)) == YsfOne(i)
  {
    hide ByteBit;
    assert i in {12, 13, 38, 39, 64, 65, 90, 91};
    assert YSF_SILENCE[6] == 0xA2;
    ByteA2();
  }

  lemma {:induction false} YsfByte7(i: nat)
    requires i < 104 && i % 26 / 2 == 7
    ensures Bit(YSF_SILENCE, Cell(i)) == YsfOne(i)
  {
    hide ByteBit;
    assert i in {14, 15, 40, 41, 66, 67, 92, 93};
    assert YSF_SILENCE[7] == 0x39;
    Byte39();
  }

  lemma {:induction false} YsfByte8(i: nat)
    requires i < 104 && i % 26 / 2 == 8
    ensures Bit(YSF_SILENCE, Cell(i)) == YsfOne(i)
  {
    hide ByteBit;
    assert i in {16, 17, 42, 43, 68, 69, 94, 95};
    assert YSF_SILENCE[8] == 0x78;
    Byte78();
  }

  lemma {:induction false} YsfByte9(i: nat)
    requires i < 104 && i % 26 / 2 == 9
    ensures Bit(YSF_SILENCE, Cell(i)) == YsfOne(i)
  {
    hide ByteBit;
    assert i in {18, 19, 44, 45, 70, 71, 96, 97};
    assert YSF_SILENCE[9] == 0x49;
    Byte49();
  }

  lemma {:induction false} YsfByte10(i: nat)
    requires i < 104 && i % 26 / 2 == 10
    ensures Bit(YSF_SILENCE, Cell(i)) == YsfOne(i)
  {
    hide ByteBit;
    assert i in {20, 21, 46, 47, 72, 73, 98, 99};
    assert YSF_SILENCE[10] == 0x33;
    Byte33();
  }

  lemma {:induction false} YsfByte11(i: nat)
    requires i < 104 && i % 26 / 2 == 11
    ensures Bit(YSF_SILENCE, Cell(i)) == YsfOne(i)
  {
    hide ByteBit;
    assert i in {22, 23, 48, 49, 74, 75, 100, 101};
    assert YSF_SILENCE[11] == 0x68;
    Byte68();
  }

  lemma {:induction false} YsfByte12(i: nat)
    requires i < 104 && i % 26 / 2 == 12
    ensures Bit(YSF_SILENCE, Cell(i)) == YsfOne(i)
  {
    hide ByteBit;
    assert i in {24, 25, 50, 51, 76, 77, 102, 103};
    assert YSF_SILENCE[12] == 0x33;
    Byte33();
  }

  lemma {:induction false} YsfBit(i: nat)
    requires i < 104
    ensures Bit(YSF_SILENCE, Cell(i)) == YsfOne(i)
  {
    hide Bit, YSF_SILENCE, YsfOne;
    var j := i % 26 / 2;
    if
    case j == 0 => YsfByte0(i);
    case j == 1 => YsfByte1(i);
    case j == 2 => YsfByte2(i);
    case j == 3 => YsfByte3(i);
    case j == 4 => YsfByte4(i);
    case j == 5 => YsfByte5(i);
    case j == 6 => YsfByte6(i);
    case j == 7 => YsfByte7(i);
    case j == 8 => YsfByte8(i);
    case j == 9 => YsfByte9(i);
    case j == 10 => YsfByte10(i);
    case j == 11 => YsfByte11(i);
    case j == 12 => YsfByte12(i);
  }

  // -------------------------------------------------------------- the whitening

  predicate White(i: nat) {
    i in {0, 3, 6, 7, 8, 9, 11, 13, 14, 15, 17, 19, 23, 26, 31, 32, 35, 36, 37, 42, 44, 45, 46, 47, 49, 50, 52, 53,
      56, 57, 59, 64, 65, 66, 68, 69, 70, 71, 76, 77, 78, 79, 80, 81, 82, 83, 84, 90, 91, 92, 93, 95, 96, 97,
      98, 99, 103}
  }

  lemma {:induction false} WhiteByte0(i: nat)
    requires i < 104 && i / 8 == 0
    ensures Bit(WHITENING, i) == White(i)
  {
    hide ByteBit;
    assert WHITENING[0] == 0x93;
    Byte93();
  }

  lemma {:induction false} WhiteByte1(i: nat)
    requires i < 104 && i / 8 == 1
    ensures Bit(WHITENING, i) == White(i)
  {
    hide ByteBit;
    assert WHITENING[1] == 0xD7;
    ByteD7();
  }

  lemma {:induction false} WhiteByte2(i: nat)
    requires i < 104 && i / 8 == 2
    ensures Bit(WHITENING, i) == White(i)
  {
    hide ByteBit;
    assert WHITENING[2] == 0x51;
    Byte51();
  }

  lemma {:induction false} WhiteByte3(i: nat)
    requires i < 104 && i / 8 == 3
    ensures Bit(WHITENING, i) == White(i)
  {
    hide ByteBit;
    assert WHITENING[3] == 0x21;
    Byte21();
  }

  lemma {:induction false} WhiteByte4(i: nat)
    requires i < 104 && i / 8 == 4
    ensures Bit(WHITENING, i) == White(i)
  {
    hide ByteBit;
    assert WHITENING[4] == 0x9C;
    Byte9C();
  }

  lemma {:induction false} WhiteByte5(i: nat)
    requires i < 104 && i / 8 == 5
    ensures Bit(WHITENING, i) == White(i)
  {
    hide ByteBit;
    assert WHITENING[5] == 0x2F;
    Byte2F();
  }

  lemma {:induction false} WhiteByte6(i: nat)
    requires i < 104 && i / 8 == 6
    ensures Bit(WHITENING, i) == White(i)
  {
    hide ByteBit;
    assert WHITENING[6] == 0x6C;
    Byte6C();
  }

  lemma {:induction false} WhiteByte7(i: nat)
    requires i < 104 && i / 8 == 7
    ensures Bit(WHITENING, i) == White(i)
  {
    hide ByteBit;
    assert WHITENING[7] == 0xD0;
    ByteD0();
  }

  lemma {:induction false} WhiteByte8(i: nat)
    requires i < 104 && i / 8 == 8
    ensures Bit(WHITENING, i) == White(i)
  {
    hide ByteBit;
    assert WHITENING[8] == 0xEF;
    ByteEF();
  }

  lemma {:induction false} WhiteByte9(i: nat)
    requires i < 104 && i / 8 == 9
    ensures Bit(WHITENING, i) == White(i)
  {
    hide ByteBit;
    assert WHITENING[9] == 0x0F;
    Byte0F();
  }

  lemma {:induction false} WhiteByte10(i: nat)
    requires i < 104 && i / 8 == 10
    ensures Bit(WHITENING, i) == White(i)
  {
    hide ByteBit;
    assert WHITENING[10] == 0xF8;
    ByteF8();
  }

  lemma {:induction false} WhiteByte11(i: nat)
    requires i < 104 && i / 8 == 11
    ensures Bit(WHITENING, i) == White(i)
  {
    hide ByteBit;
    assert WHITENING[11] == 0x3D;
    Byte3D();
  }

  lemma {:induction false} WhiteByte12(i: nat)
    requires i < 104 && i / 8 == 12
    ensures Bit(WHITENING, i) == White(i)
  {
    hide ByteBit;
    assert WHITENING[12] == 0xF1;
    ByteF1();
  }

  lemma {:induction false} WhitenedBit(i: nat)
    requires i < 104
    ensures Bit(WHITENING, i) == White(i)
  {
    hide Bit, WHITENING, White;
    var j := i / 8;
    if
    case j == 0 => WhiteByte0(i);
    case j == 1 => WhiteByte1(i);
    case j == 2 => WhiteByte2(i);
    case j == 3 => WhiteByte3(i);
    case j == 4 => WhiteByte4(i);
    case j == 5 => WhiteByte5(i);
    case j == 6 => WhiteByte6(i);
    case j == 7 => WhiteByte7(i);
    case j == 8 => WhiteByte8(i);
    case j == 9 => WhiteByte9(i);
    case j == 10 => WhiteByte10(i);
    case j == 11 => WhiteByte11(i);
    case j == 12 => WhiteByte12(i);
  }

  // ------------------------------------------------------------- the seven bytes

  const QUIET_BYTES: seq<bv8> := [0xF8, 0x01, 0xA9, 0x9F, 0x8C, 0xE0, 0x80]

  predicate QuietOne(i: nat) {
    i in {0, 1, 2, 3, 4, 15, 16, 18, 20, 23, 24, 27, 28, 29, 30, 31, 32, 36, 37, 40, 41, 42, 48}
  }

  lemma {:induction false} QuietByte0(i: nat)
    requires i < 56 && i / 8 == 0
    ensures Bit(QUIET_BYTES, i) == QuietOne(i)
  {
    hide ByteBit;
    assert QUIET_BYTES[0] == 0xF8;
    ByteF8();
  }

  lemma {:induction false} QuietByte1(i: nat)
    requires i < 56 && i / 8 == 1
    ensures Bit(QUIET_BYTES, i) == QuietOne(i)
  {
    hide ByteBit;
    assert QUIET_BYTES[1] == 0x01;
    Byte01();
  }

  lemma {:induction false} QuietByte2(i: nat)
    requires i < 56 && i / 8 == 2
    ensures Bit(QUIET_BYTES, i) == QuietOne(i)
  {
    hide ByteBit;
    assert QUIET_BYTES[2] == 0xA9;
    ByteA9();
  }

  lemma {:induction false} QuietByte3(i: nat)
    requires i < 56 && i / 8 == 3
    ensures Bit(QUIET_BYTES, i) == QuietOne(i)
  {
    hide ByteBit;
    assert QUIET_BYTES[3] == 0x9F;
    Byte9F();
  }

  lemma {:induction false} QuietByte4(i: nat)
    requires i < 56 && i / 8 == 4
    ensures Bit(QUIET_BYTES, i) == QuietOne(i)
  {
    hide ByteBit;
    assert QUIET_BYTES[4] == 0x8C;
    Byte8C();
  }

  lemma {:induction false} QuietByte5(i: nat)
    requires i < 56 && i / 8 == 5
    ensures Bit(QUIET_BYTES, i) == QuietOne(i)
  {
    hide ByteBit;
    assert QUIET_BYTES[5] == 0xE0;
    ByteE0();
  }

  lemma {:induction false} QuietByte6(i: nat)
    requires i < 56 && i / 8 == 6
    ensures Bit(QUIET_BYTES, i) == QuietOne(i)
  {
    hide ByteBit;
    assert QUIET_BYTES[6] == 0x80;
    Byte80();
  }

  lemma {:induction false} QuietBit(i: nat)
    requires i < 56
    ensures Bit(QUIET_BYTES, i) == QuietOne(i)
  {
    hide Bit, QUIET_BYTES, QuietOne;
    var j := i / 8;
    if
    case j == 0 => QuietByte0(i);
    case j == 1 => QuietByte1(i);
    case j == 2 => QuietByte2(i);
    case j == 3 => QuietByte3(i);
    case j == 4 => QuietByte4(i);
    case j == 5 => QuietByte5(i);
    case j == 6 => QuietByte6(i);
  }

  /**
   The whitening is the sequence of x^9 + x^4 + 1 that begins with 100100111: eight bits at a time, the bits
   nine places on are the sum of those four places on and those here.
   */
  lemma {:induction false} WhiteningIsSequence(j: nat)
    requires j < 18
    ensures WHITENING[0] == 0x93 && WHITENING[1] & 0x80 == 0x80
    ensures (WHITENING[j + 1] << 1) | (WHITENING[j + 2] >> 7) ==
            ((WHITENING[j] << 4) | (WHITENING[j + 1] >> 4)) ^ WHITENING[j]
  {
  }

  // -------------------------------------------------------------------- one frame

  lemma {:induction false} QuietChannel(i: nat)
    requires i < 104
    ensures (YsfOne(i) != White(i)) == Channel(Quiet())[i]
  {
  }

  /** The YSF record holds the frame: every copy of every repeated bit. */
  lemma {:induction false} YsfSilence()
    ensures |YSF_SILENCE| == 13 && ChannelBits(YSF_SILENCE) == Channel(Quiet())
  {
    hide Bit, WHITENING, White, YsfOne, Quiet, Cell;
    forall i: nat | i < 104 ensures ChannelBits(YSF_SILENCE)[i] == Channel(Quiet())[i] {
      YsfSilenceAt(i);
    }
  }

  lemma {:induction false} YsfSilenceAt(i: nat)
    requires i < 104
    ensures |YSF_SILENCE| == 13 && ChannelBits(YSF_SILENCE)[i] == Channel(Quiet())[i]
  {
    hide Bit, WHITENING, White, YsfOne, Quiet, Cell;
    YsfBit(i);
    WhitenedBit(i);
    QuietChannel(i);
  }

  lemma {:induction false} WordCoded(w: Word, d: Word)
    requires |w| == 23 && |d| == 12 && Equations(w) && w[..12] == d
    ensures Encode23(d) == w
  {
    hide Equation, Encode23, Syndrome;
    CarriesIff(w);
    CarryingSyndrome(w);
    EncodedWhole(w);
  }

  /** The words of the frame as they are protected. */
  lemma {:induction false} QuietFirst()
    ensures Encode24(Quiet().a) == FirstCoded()
  {
    hide Encode23, Parity, Weight, Ones, Equations;
    var w := FirstCoded()[..23];
    assert w[..12] == FirstWord();
    FirstEquations(w);
    WordCoded(w, FirstWord());
    ParityOfWeight(w);
    EightPlaces(w);
    WeightSpelled(w);
  }

  lemma {:induction false} FirstEquations(w: Word)
    requires w == FirstCoded()[..23]
    ensures Equations(w)
  {
  }

  lemma {:induction false} EightPlaces(w: Word)
    requires w == FirstCoded()[..23]
    ensures Ones(w) == 8
  {
  }

  lemma {:induction false} QuietSecond()
    ensures Encode23(Quiet().b) == SecondCoded()
  {
    hide Encode23, Equations;
    SecondEquations();
    assert SecondCoded()[..12] == SecondWord();
    WordCoded(SecondCoded(), SecondWord());
  }

  lemma {:induction false} SecondEquations()
    ensures Equations(SecondCoded())
  {
  }

  /** The bits of the protected frame. */
  lemma {:induction false} QuietProtected(prng: Word -> Word, k: nat)
    requires Prng(prng) && prng(Quiet().a) == QuietMask() && k < 72
    ensures DmrOne(k) == Protected(prng, Quiet())[k]
  {
    hide Encode23, Encode24;
    QuietFirst();
    QuietSecond();
  }

  /** And the DMR record holds the frame, protected, under the source's mask for its first word. */
  lemma {:induction false} DmrSilence(prng: Word -> Word)
    requires Prng(prng) && prng(Quiet().a) == QuietMask()
    ensures |DMR_SILENCE| == 9 && RecordBits(DMR_SILENCE) == Protected(prng, Quiet())
  {
    hide Bit, DMR_SILENCE, DmrOne, Protected, Quiet, Spot;
    assert |DMR_SILENCE| == 9 by { SilenceSize(); }
    forall k: nat | k < 72 ensures RecordBits(DMR_SILENCE)[k] == Protected(prng, Quiet())[k] {
      DmrBit(k);
      QuietProtected(prng, k);
    }
  }

  lemma {:induction false} SilenceSize()
    ensures |DMR_SILENCE| == 9
  {
  }

  /** The silence that closes a call is one frame in both modes. */
  lemma {:induction false} OneSilence(prng: Word -> Word)
    requires Prng(prng) && prng(Quiet().a) == QuietMask()
    ensures |DMR_SILENCE| == 9 && |YSF_SILENCE| == 13
    ensures DmrFrame(prng, DMR_SILENCE) == Quiet() == YsfFrame(YSF_SILENCE)
  {
    hide ChannelBits, RecordBits, Protected, Stripped, Channel, Unrepeated, Quiet;
    DmrSilence(prng);
    StripProtected(prng, Quiet());
    YsfSilence();
    ChannelRoundTrip(Quiet());
  }

  /** The seven bytes of the frame. */
  lemma {:induction false} SevenBytes()
    ensures FromBytes(QUIET_BYTES) == Quiet() && ToBytes(Quiet()) == QUIET_BYTES
  {
    hide Bit, ByteBit, QuietOne, Pack, PackAll;
    var f := Quiet();
    var x := f.a + f.b + f.c + Zeros(7);
    forall i: nat | i < 56 ensures BitsOf(QUIET_BYTES)[i] == x[i] {
      QuietBit(i);
      QuietOneIs(i);
    }
    assert BitsOf(QUIET_BYTES) == x;
    PackAllBits(x);
    BitsInjective(ToBytes(f), QUIET_BYTES);
    BytesRoundTrip(f);
  }

  lemma {:induction false} QuietOneIs(i: nat)
    requires i < 56
    ensures QuietOne(i) == (Quiet().a + Quiet().b + Quiet().c + Zeros(7))[i]
  {
  }

  /** Whatever the mask table, the two unmasked words of the record are those of the frame. */
  lemma {:induction false} UnmaskedSilence()
    ensures |DMR_SILENCE| == 9
    ensures RecordBits(DMR_SILENCE)[..24] == Encode24(Quiet().a) && RecordBits(DMR_SILENCE)[47..] == Quiet().c
  {
    hide Bit, Spot, Encode24;
    QuietFirst();
    forall k: nat | k < 72 ensures RecordBits(DMR_SILENCE)[k] == DmrOne(k) {
      DmrBit(k);
    }
  }
}
