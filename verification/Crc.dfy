/**
 The CCITT-16 checksum of CRC.cpp (repeated in ysf_fich.c): generator 0x1021,
 start value zero, complemented, high byte stored before low byte.
 */
module Crc {
  import opened Bits

  /** The 16-bit register through its union of two bytes: crc8[0] is low, crc8[1] is high. */
  datatype Register = Register(low: bv8, high: bv8)

  /** One step of the division by x^16 + x^12 + x^5 + 1. */
  function Once(r: bv16): bv16 {
    if r & 0x8000 != 0 then (r << 1) ^ 0x1021 else r << 1
  }

  /** n shift-and-subtract steps. */
  function Reduce(r: bv16, n: nat): bv16
    decreases n
  {
    if n == 0 then r
    else Reduce(Once(r), n - 1)
  }

  /** CCITT16_TABLE2[b]. */
  function Table(b: bv8): Register {
    var r := Reduce((b as bv16) << 8, 8);
    Register((r & 0xff) as bv8, (r >> 8) as bv8)
  }

  function Xor(a: bv8, b: bv8): bv8 {
    a ^ b
  }

  /** The register after one more byte: (low << 8) ^ TABLE[high ^ byte]. */
  function Next(c: Register, b: bv8): Register {
    var t := Table(Xor(c.high, b));
    Register(t.low, Xor(c.low, t.high))
  }

  function Ccitt(s: seq<bv8>): Register
    decreases |s|
  {
    if s == [] then Register(0, 0) else Next(Ccitt(s[..|s| - 1]), s[|s| - 1])
  }

  function Complement(c: Register): Register {
    Register(!c.low, !c.high)
  }

  /** The two bytes that close a checked buffer. */
  function Trailer(s: seq<bv8>): (t: seq<bv8>)
    ensures |t| == 2
  {
    var c := Complement(Ccitt(s));
    [c.high, c.low]
  }

  /** The checksums of nothing and of one byte: start value, generator, complement and byte order. */
  lemma {:induction false} TrailersSpelled()
    ensures Trailer([]) == [0xFF, 0xFF] && Trailer([0x01]) == [0xEF, 0xDE]
  {
    FirstEntry();
    assert Ccitt([0x01]) == Next(Ccitt([]), 0x01) by {
      assert [0x01 as bv8][..0] == [];
    }
    assert Xor(0, 0x01) == 0x01 && Xor(0, 0x10) == 0x10;
  }

  lemma {:induction false} FirstEntry()
    ensures Table(0x01) == Register(0x21, 0x10)
  {
    assert Once(0x0100) == 0x0200 && Once(0x0200) == 0x0400 && Once(0x0400) == 0x0800 && Once(0x0800) == 0x1000;
    assert Once(0x1000) == 0x2000 && Once(0x2000) == 0x4000 && Once(0x4000) == 0x8000 && Once(0x8000) == 0x1021;
    assert Reduce(0x1021, 0) == 0x1021 && Reduce(0x8000, 1) == 0x1021 && Reduce(0x4000, 2) == 0x1021;
    assert Reduce(0x2000, 3) == 0x1021 && Reduce(0x1000, 4) == 0x1021 && Reduce(0x0800, 5) == 0x1021;
    assert Reduce(0x0400, 6) == 0x1021 && Reduce(0x0200, 7) == 0x1021 && Reduce(0x0100, 8) == 0x1021;
  }

  // ------------------------------------------------------------- bit by bit

  /** One step of the division with the next bit of the data. */
  function Feed(r: bv16, b: bool): bv16 {
    Once(if b then r ^ 0x8000 else r)
  }

  /** The remainder that the division leaves bit by bit. */
  function Remainder(bits: seq<bool>): bv16 {
    if bits == [] then 0 else Feed(Remainder(bits[..|bits| - 1]), bits[|bits| - 1])
  }

  function Word(c: Register): bv16 {
    ((c.high as bv16) << 8) | c.low as bv16
  }

  function EightTimes(r: bv16): bv16 {
    Once(Once(Once(Once(Once(Once(Once(Once(r))))))))
  }

  lemma {:induction false} EightSteps(r: bv16)
    ensures Reduce(r, 8) == EightTimes(r)
  {
    hide Once;
    ReduceOnce(r, 8);
    ReduceOnce(Once(r), 7);
    ReduceOnce(Once(Once(r)), 6);
    ReduceOnce(Once(Once(Once(r))), 5);
    ReduceOnce(Once(Once(Once(Once(r)))), 4);
    ReduceOnce(Once(Once(Once(Once(Once(r))))), 3);
    ReduceOnce(Once(Once(Once(Once(Once(Once(r)))))), 2);
    ReduceOnce(Once(Once(Once(Once(Once(Once(Once(r))))))), 1);
  }

  lemma {:induction false} ReduceOnce(r: bv16, n: nat)
    requires n > 0
    ensures Reduce(r, n) == Reduce(Once(r), n - 1)
    ensures Reduce(r, 0) == r
  {
  }

  function Sum(x: bv16, y: bv16): bv16 {
    x ^ y
  }

  lemma {:induction false} SumShifts(x: bv16, y: bv16)
    ensures Sum(x, y) << 1 == Sum(x << 1, y << 1)
  {
    calc {
      Sum(x, y) << 1;
      (x ^ y) << 1;
      (x << 1) ^ (y << 1);
      Sum(x << 1, y << 1);
    }
  }

  lemma {:induction false} SumTops(x: bv16, y: bv16)
    ensures Sum(x, y) & 0x8000 == Sum(x & 0x8000, y & 0x8000)
  {
  }

  lemma {:induction false} TopBit(x: bv16)
    ensures x & 0x8000 == 0 || x & 0x8000 == 0x8000
    ensures Sum(0x8000, 0x8000) == Sum(0, 0) == 0 && Sum(0, 0x8000) == Sum(0x8000, 0) == 0x8000
  {
  }

  lemma {:induction false} SumMoves(x: bv16, y: bv16, g: bv16)
    ensures Sum(Sum(x, y), g) == Sum(Sum(x, g), y) == Sum(x, Sum(y, g))
    ensures Sum(Sum(x, g), Sum(y, g)) == Sum(x, y)
  {
  }

  lemma {:induction false} OnceIs(x: bv16)
    ensures Once(x) == if x & 0x8000 == 0 then x << 1 else Sum(x << 1, 0x1021)
  {
  }

  lemma {:induction false} OnceLinear(x: bv16, y: bv16)
    ensures Once(Sum(x, y)) == Sum(Once(x), Once(y))
  {
    hide Once, Sum;
    OnceIs(x);
    OnceIs(y);
    OnceIs(Sum(x, y));
    SumShifts(x, y);
    SumTops(x, y);
    TopBit(x);
    TopBit(y);
    SumMoves(x << 1, y << 1, 0x1021);
  }

  /** The division of a sum whose second part is still to be fed: its top bit is fed and the rest moves up. */
  lemma {:induction false} FeedTop(r: bv16, d: bv16)
    ensures Once(Sum(r, d)) == Sum(Feed(r, d & 0x8000 != 0), d << 1)
  {
    hide Once, Sum;
    TopAndRest(r, d);
    TopBit(d);
    OnceLinear(Sum(r, d & 0x8000), d & 0x7fff);
    RestMoves(d);
    FeedIs(r, d & 0x8000 != 0);
  }

  lemma {:induction false} TopAndRest(r: bv16, d: bv16)
    ensures Sum(r, d) == Sum(Sum(r, d & 0x8000), d & 0x7fff)
  {
  }

  lemma {:induction false} RestMoves(d: bv16)
    ensures Once(d & 0x7fff) == d << 1
  {
    assert (d & 0x7fff) & 0x8000 == 0;
  }

  lemma {:induction false} FeedIs(r: bv16, b: bool)
    ensures Feed(r, b) == Once(Sum(r, if b then 0x8000 else 0))
  {
    hide Once;
    assert Sum(r, 0) == r;
  }

  function FeedEight(r: bv16, b: bv8): bv16 {
    Feed(Feed(Feed(Feed(Feed(Feed(Feed(Feed(r, ByteBit(b, 0)), ByteBit(b, 1)), ByteBit(b, 2)), ByteBit(b, 3)),
         ByteBit(b, 4)), ByteBit(b, 5)), ByteBit(b, 6)), ByteBit(b, 7))
  }

  /** Eight bits fed one by one are a byte added to the high byte, and divided out. */
  lemma {:induction false} FeedByte(r: bv16, b: bv8)
    ensures FeedEight(r, b) == EightTimes(Sum(r, (b as bv16) << 8))
  {
    hide Once, Sum, Feed, ByteBit;
    var d0 := (b as bv16) << 8;
    var d1, d2, d3, d4, d5, d6, d7, d8 := d0 << 1, d0 << 2, d0 << 3, d0 << 4, d0 << 5, d0 << 6, d0 << 7, d0 << 8;
    ByteTops(b);
    var r1 := Feed(r, ByteBit(b, 0));
    FeedTop(r, d0);
    var r2 := Feed(r1, ByteBit(b, 1));
    FeedTop(r1, d1);
    var r3 := Feed(r2, ByteBit(b, 2));
    FeedTop(r2, d2);
    var r4 := Feed(r3, ByteBit(b, 3));
    FeedTop(r3, d3);
    var r5 := Feed(r4, ByteBit(b, 4));
    FeedTop(r4, d4);
    var r6 := Feed(r5, ByteBit(b, 5));
    FeedTop(r5, d5);
    var r7 := Feed(r6, ByteBit(b, 6));
    FeedTop(r6, d6);
    FeedTop(r7, d7);
    SumZero(Feed(r7, ByteBit(b, 7)));
  }

  lemma {:induction false} SumZero(r: bv16)
    ensures Sum(r, 0) == r
  {
  }

  lemma {:induction false} ByteTops(b: bv8)
    ensures var d := (b as bv16) << 8;
      && (d & 0x8000 != 0 <==> ByteBit(b, 0)) && ((d << 1) & 0x8000 != 0 <==> ByteBit(b, 1))
      && ((d << 2) & 0x8000 != 0 <==> ByteBit(b, 2)) && ((d << 3) & 0x8000 != 0 <==> ByteBit(b, 3))
      && ((d << 4) & 0x8000 != 0 <==> ByteBit(b, 4)) && ((d << 5) & 0x8000 != 0 <==> ByteBit(b, 5))
      && ((d << 6) & 0x8000 != 0 <==> ByteBit(b, 6)) && ((d << 7) & 0x8000 != 0 <==> ByteBit(b, 7))
      && d << 8 == 0 && (d << 1) << 1 == d << 2 && (d << 2) << 1 == d << 3 && (d << 3) << 1 == d << 4
      && (d << 4) << 1 == d << 5 && (d << 5) << 1 == d << 6 && (d << 6) << 1 == d << 7 && (d << 7) << 1 == d << 8
  {
  }

  /** The table-driven step is eight steps of the division. */
  lemma {:induction false} WordOfNext(c: Register, b: bv8)
    ensures Word(Next(c, b)) == FeedEight(Word(c), b)
  {
    hide Once, Sum, Feed, FeedEight, ByteBit, EightTimes, Xor;
    var x := (Xor(c.high, b) as bv16) << 8;
    var l := c.low as bv16;
    FeedByte(Word(c), b);
    HighAndLow(c, b);
    EightLinear(x, l);
    LowMoves(c.low);
    EightSteps(x);
    Joined(EightTimes(x), c.low);
  }

  lemma {:induction false} HighAndLow(c: Register, b: bv8)
    ensures Sum(Word(c), (b as bv16) << 8) == Sum((Xor(c.high, b) as bv16) << 8, c.low as bv16)
  {
  }

  lemma {:induction false} EightLinear(x: bv16, y: bv16)
    ensures EightTimes(Sum(x, y)) == Sum(EightTimes(x), EightTimes(y))
  {
    hide Once, Sum;
    OnceLinear(x, y);
    var x1, y1 := Once(x), Once(y);
    OnceLinear(x1, y1);
    var x2, y2 := Once(x1), Once(y1);
    OnceLinear(x2, y2);
    var x3, y3 := Once(x2), Once(y2);
    OnceLinear(x3, y3);
    var x4, y4 := Once(x3), Once(y3);
    OnceLinear(x4, y4);
    var x5, y5 := Once(x4), Once(y4);
    OnceLinear(x5, y5);
    var x6, y6 := Once(x5), Once(y5);
    OnceLinear(x6, y6);
    OnceLinear(Once(x6), Once(y6));
  }

  lemma {:induction false} LowMoves(l: bv8)
    ensures EightTimes(l as bv16) == (l as bv16) << 8
  {
  }

  lemma {:induction false} Joined(r: bv16, low: bv8)
    ensures Word(Register((r & 0xff) as bv8, Xor(low, (r >> 8) as bv8))) == Sum(r, (low as bv16) << 8)
  {
  }

  /** The checksum that the table computes byte by byte is the remainder of the division bit by bit. */
  lemma {:induction false} CcittIsRemainder(s: seq<bv8>)
    ensures Word(Ccitt(s)) == Remainder(BitsOf(s))
    decreases |s|
  {
    hide Word, Feed, Next, FeedEight, Bit, Remainder;
    if s == [] {
      NothingFed();
    } else {
      var n := |s| - 1;
      CcittIsRemainder(s[..n]);
      WordOfNext(Ccitt(s[..n]), s[n]);
      LastByteFed(s);
    }
  }

  lemma {:induction false} NothingFed()
    ensures Word(Ccitt([])) == Remainder(BitsOf([]))
  {
  }

  lemma {:induction false} RemainderLast(bits: seq<bool>, b: bool)
    ensures Remainder(bits + [b]) == Feed(Remainder(bits), b)
  {
    hide Feed;
    assert (bits + [b])[..|bits|] == bits;
  }

  lemma {:induction false} RemainderTwo(bits: seq<bool>, a: bool, b: bool)
    ensures Remainder(bits + [a, b]) == Feed(Feed(Remainder(bits), a), b)
  {
    hide Feed, Remainder;
    RemainderLast(bits, a);
    RemainderLast(bits + [a], b);
    assert bits + [a] + [b] == bits + [a, b];
  }

  lemma {:induction false} RemainderFour(bits: seq<bool>, a: bool, b: bool, c: bool, d: bool)
    ensures Remainder(bits + [a, b, c, d]) == Feed(Feed(Feed(Feed(Remainder(bits), a), b), c), d)
  {
    hide Feed, Remainder;
    RemainderTwo(bits, a, b);
    RemainderTwo(bits + [a, b], c, d);
    assert bits + [a, b] + [c, d] == bits + [a, b, c, d];
  }

  function FirstHalf(b: bv8): seq<bool> {
    [ByteBit(b, 0), ByteBit(b, 1), ByteBit(b, 2), ByteBit(b, 3)]
  }

  function SecondHalf(b: bv8): seq<bool> {
    [ByteBit(b, 4), ByteBit(b, 5), ByteBit(b, 6), ByteBit(b, 7)]
  }

  lemma {:induction false} LastByteFed(s: seq<bv8>)
    requires s != []
    ensures Remainder(BitsOf(s)) == FeedEight(Remainder(BitsOf(s[..|s| - 1])), s[|s| - 1])
  {
    hide Feed, Remainder, ByteBit, BitsOf;
    var b, t := s[|s| - 1], BitsOf(s[..|s| - 1]);
    RemainderFour(t, ByteBit(b, 0), ByteBit(b, 1), ByteBit(b, 2), ByteBit(b, 3));
    RemainderFour(t + FirstHalf(b), ByteBit(b, 4), ByteBit(b, 5), ByteBit(b, 6), ByteBit(b, 7));
    BitsOfLast(s);
  }

  lemma {:induction false} BitsOfLast(s: seq<bv8>)
    requires s != []
    ensures BitsOf(s) == BitsOf(s[..|s| - 1]) + FirstHalf(s[|s| - 1]) + SecondHalf(s[|s| - 1])
  {
    hide ByteBit;
    var n := |s| - 1;
    var whole := BitsOf(s[..n]) + FirstHalf(s[n]) + SecondHalf(s[n]);
    forall i: nat | i < 8 * |s| ensures BitsOf(s)[i] == whole[i] {
      if i < 8 * n {
        assert s[..n][i / 8] == s[i / 8];
      } else {
        assert i / 8 == n && i % 8 == i - 8 * n;
      }
    }
  }

  // ------------------------------------------------------------------ bursts

  function Up(m: bv16): bv16 {
    (m << 1) | 1
  }

  predicate Meets(d: bv16, m: bv16) {
    d & m != 0
  }

  predicate TopFree(m: bv16) {
    m & 0x8000 == 0
  }

  /** The low j bits, for j up to sixteen. */
  function Low(j: nat): bv16 {
    match j
    case 0 => 0x0000 case 1 => 0x0001 case 2 => 0x0003 case 3 => 0x0007
    case 4 => 0x000f case 5 => 0x001f case 6 => 0x003f case 7 => 0x007f
    case 8 => 0x00ff case 9 => 0x01ff case 10 => 0x03ff case 11 => 0x07ff
    case 12 => 0x0fff case 13 => 0x1fff case 14 => 0x3fff case 15 => 0x7fff
    case _ => 0xffff
  }

  lemma {:induction false} LowGrows(j: nat)
    ensures j < 16 ==> Low(j + 1) == Up(Low(j)) && TopFree(Low(j))
    ensures j >= 16 ==> Low(j) == Low(j + 1) == 0xffff
    ensures Low(1) == 1
  {
  }

  /** Remainders that differ differ after one more bit by what the bits and the difference divide to. */
  lemma {:induction false} FedDifference(r: bv16, s: bv16, a: bool, b: bool)
    ensures Sum(Feed(r, a), Feed(s, b)) == Once(Sum(Sum(r, s), if a != b then 0x8000 else 0))
  {
    hide Once, Sum, Feed;
    var x, y: bv16 := if a then 0x8000 else 0, if b then 0x8000 else 0;
    FeedIs(r, a);
    FeedIs(s, b);
    OnceLinear(Sum(r, x), Sum(s, y));
    TopBit(0);
    Regroup(r, x, s, y);
  }

  lemma {:induction false} Regroup(r: bv16, x: bv16, s: bv16, y: bv16)
    ensures Sum(Sum(r, x), Sum(s, y)) == Sum(Sum(r, s), Sum(x, y))
  {
    hide Sum;
    SumMoves(r, x, Sum(s, y));
    SumMoves(r, s, y);
    SumMoves(Sum(r, s), y, x);
    SumSwaps(x, y);
  }

  lemma {:induction false} SumSwaps(x: bv16, y: bv16)
    ensures Sum(x, y) == Sum(y, x)
  {
  }

  /** A difference in one of the low bits given by m, below the top bit, moves up one place or comes back in
      the lowest: the generator ends in one. */
  lemma {:induction false} DifferenceStays(d: bv16, top: bv16, m: bv16)
    requires Meets(d, m) && TopFree(m) && (top == 0 || top == 0x8000)
    ensures Meets(Once(Sum(d, top)), Up(m))
  {
    hide Sum;
    var e := Sum(d, top);
    Covered(d, top, m);
    if e & 0x8000 != 0 {
      LowestBit(e, Up(m));
    } else {
      MovedUp(e, m);
    }
  }

  lemma {:induction false} Covered(d: bv16, top: bv16, m: bv16)
    requires m & 0x8000 == 0 && (top == 0 || top == 0x8000)
    ensures Sum(d, top) & m == d & m
  {
  }

  lemma {:induction false} LowestBit(e: bv16, m: bv16)
    requires m & 1 == 1
    ensures ((e << 1) ^ 0x1021) & m != 0
  {
    assert (((e << 1) ^ 0x1021) & m) & 1 == 1;
  }

  lemma {:induction false} MovedUp(e: bv16, m: bv16)
    requires e & m != 0 && m & 0x8000 == 0
    ensures (e << 1) & ((m << 1) | 1) != 0
  {
    assert (e << 1) & ((m << 1) | 1) == (e & m) << 1;
    assert (e & m) & 0x8000 == 0;
    NonzeroUp(e & m);
  }

  lemma {:induction false} NonzeroUp(v: bv16)
    requires v != 0 && v & 0x8000 == 0
    ensures v << 1 != 0
  {
    assert (v << 1) >> 1 == v;
  }

  lemma {:induction false} OnceZero(d: bv16)
    requires d != 0
    ensures Once(d) != 0
  {
    if d & 0x8000 != 0 {
      LowestBit(d, 0xffff);
    } else {
      NonzeroUp(d);
    }
  }

  /** Two remainders differ, within the lowest j bits if there are fewer than sixteen. */
  predicate DifferLow(r: bv16, s: bv16, j: nat) {
    Meets(Sum(r, s), Low(j))
  }

  lemma {:induction false} DifferNext(r: bv16, s: bv16, a: bool, b: bool, j: nat)
    requires DifferLow(r, s, j) && (j >= 16 ==> a == b)
    ensures DifferLow(Feed(r, a), Feed(s, b), j + 1)
  {
    hide Once, Sum, Feed, Low, Up, Meets, TopFree;
    FedDifference(r, s, a, b);
    LowGrows(j);
    if j < 16 {
      DifferenceStays(Sum(r, s), if a != b then 0x8000 else 0, Low(j));
    } else {
      DifferenceLasts(Sum(r, s));
    }
  }

  lemma {:induction false} DifferenceLasts(d: bv16)
    requires Meets(d, 0xffff)
    ensures Meets(Once(Sum(d, 0)), 0xffff)
  {
    hide Once, Sum;
    All(d);
    SumZero(d);
    OnceZero(d);
    All(Once(d));
  }

  lemma {:induction false} All(d: bv16)
    ensures d & 0xffff == d
  {
  }

  lemma {:induction false} DifferFirst(r: bv16, a: bool, b: bool)
    requires a != b
    ensures DifferLow(Feed(r, a), Feed(r, b), 1)
  {
    hide Once, Sum, Feed, Low;
    FedDifference(r, r, a, b);
    LowGrows(1);
    SumSame(r);
    OnceTop();
  }

  lemma {:induction false} SumSame(r: bv16)
    ensures Sum(r, r) == 0 && Sum(0, 0x8000) == 0x8000
  {
  }

  lemma {:induction false} OnceTop()
    ensures Once(0x8000) & 0x0001 != 0
  {
  }

  /** Bits that first differ at p and agree again from sixteen bits on leave different remainders. */
  lemma {:induction false} BurstDiffers(x: seq<bool>, y: seq<bool>, p: nat)
    requires |x| == |y| && p < |x| && x[..p] == y[..p] && x[p] != y[p]
    requires forall i: nat | p + 16 <= i < |x| :: x[i] == y[i]
    ensures DifferLow(Remainder(x), Remainder(y), |x| - p)
    decreases |x|
  {
    hide Feed, DifferLow;
    var n := |x| - 1;
    if p == n {
      assert x[..n] == y[..n];
      DifferFirst(Remainder(x[..n]), x[n], y[n]);
    } else {
      assert x[..n][..p] == x[..p] && y[..n][..p] == y[..p];
      BurstDiffers(x[..n], y[..n], p);
      DifferNext(Remainder(x[..n]), Remainder(y[..n]), x[n], y[n], n - p);
    }
  }

  lemma {:induction false} DifferLowMeans(r: bv16, j: nat)
    ensures !DifferLow(r, r, j)
  {
    SumSame(r);
  }

  /** Two buffers that differ, but in no bit outside the sixteen that begin at p. */
  ghost predicate Burst(s: seq<bv8>, x: seq<bv8>, p: nat) {
    |s| == |x| && s != x && forall i: nat | i < 8 * |s| && !(p <= i < p + 16) :: Bit(s, i) == Bit(x, i)
  }

  /** The checksum tells apart all buffers that differ within sixteen bits in a row, wherever they lie. */
  lemma {:induction false} BurstDetected(s: seq<bv8>, x: seq<bv8>, p: nat)
    requires Burst(s, x, p)
    ensures Ccitt(s) != Ccitt(x)
  {
    hide Ccitt, Remainder, DifferLow, Word, Bit, BitsOf;
    var a, b := BitsOf(s), BitsOf(x);
    if a == b {
      BitsInjective(s, x);
    }
    var q := FirstDifference(a, b);
    assert p <= q;
    CcittIsRemainder(s);
    CcittIsRemainder(x);
    BurstDiffers(a, b, q);
    DifferLowMeans(Remainder(a), |a| - q);
  }

  lemma {:induction false} FirstDifference(a: seq<bool>, b: seq<bool>) returns (q: nat)
    requires |a| == |b| && a != b
    ensures q < |a| && a[q] != b[q] && a[..q] == b[..q]
    decreases |a|
  {
    var n := |a| - 1;
    if a[..n] == b[..n] {
      q := n;
      assert a == a[..n] + [a[n]] && b == b[..n] + [b[n]];
    } else {
      q := FirstDifference(a[..n], b[..n]);
      assert a[..q] == a[..n][..q] && b[..q] == b[..n][..q];
    }
  }

  // ------------------------------------------------------------ sealed buffers

  /** The buffer closes with its checksum. */
  predicate Checks(s: seq<bv8>)
    requires |s| >= 2
  {
    s == s[..|s| - 2] + Trailer(s[..|s| - 2])
  }

  /** What is left of every buffer that closes with its checksum, whatever it holds. */
  function Residue(): Register {
    var t := Table(0xff);
    var u := Table(Xor(0xff, t.high));
    Register(u.low, Xor(t.low, u.high))
  }

  lemma {:induction false} SealedResidue(s: seq<bv8>)
    requires |s| >= 2 && Checks(s)
    ensures Ccitt(s) == Residue()
  {
    hide Table, Xor, Ccitt, Next, Residue;
    var n := |s| - 2;
    var c := Ccitt(s[..n]);
    assert s[n..] == Trailer(s[..n]);
    assert s[n] == s[n..][0] == !c.high && s[n + 1] == s[n..][1] == !c.low;
    assert s[..n + 1][..n] == s[..n] && s[..n + 2] == s;
    CcittLast(s);
    CcittLast(s[..n + 1]);
    ComplementFed(c);
  }

  lemma {:induction false} CcittLast(s: seq<bv8>)
    requires s != []
    ensures Ccitt(s) == Next(Ccitt(s[..|s| - 1]), s[|s| - 1])
  {
  }

  lemma {:induction false} ComplementFed(c: Register)
    ensures Next(Next(c, !c.high), !c.low) == Residue()
  {
    hide Table, Xor;
    Against(c.high);
    Cancels(c.low, Table(0xff).high);
  }

  lemma {:induction false} Against(h: bv8)
    ensures Xor(h, !h) == 0xff
  {
  }

  lemma {:induction false} Cancels(l: bv8, h: bv8)
    ensures Xor(Xor(l, h), !l) == Xor(0xff, h)
  {
  }

  /** A buffer closed with its checksum and then damaged within sixteen bits in a row, the checksum among
      them or not, does not close with its checksum. */
  lemma {:induction false} SealedBurstDetected(s: seq<bv8>, x: seq<bv8>, p: nat)
    requires |s| >= 2 && Checks(s) && Burst(s, x, p)
    ensures !Checks(x)
  {
    hide Ccitt, Residue, Burst, Checks;
    BurstSize(s, x, p);
    BurstDetected(s, x, p);
    SealedResidue(s);
    if Checks(x) {
      SealedResidue(x);
    }
  }

  lemma {:induction false} BurstSize(s: seq<bv8>, x: seq<bv8>, p: nat)
    requires Burst(s, x, p)
    ensures |s| == |x|
  {
  }

  method Accumulate(a: array<bv8>, n: nat) returns (crc: Register)
    requires n <= a.Length
    ensures crc == Ccitt(a[..n])
  {
    hide Next;
    crc := Register(0, 0);
    for i := 0 to n
      invariant crc == Ccitt(a[..i])
    {
      assert a[..i + 1][..i] == a[..i];
      crc := Next(crc, a[i]);
    }
  }

  method AddCcitt162(a: array<bv8>, length: nat)
    requires 2 < length <= a.Length
    modifies a
    ensures a[..length] == old(a[..length - 2]) + Trailer(old(a[..length - 2]))
    ensures a[length..] == old(a[length..])
  {
    hide Ccitt, Complement;
    var crc := Accumulate(a, length - 2);
    crc := Complement(crc);
    a[length - 1] := crc.low;
    a[length - 2] := crc.high;
  }

  /** Accepts exactly the buffers that AddCcitt162 produces. */
  method CheckCcitt162(a: array<bv8>, length: nat) returns (ok: bool)
    requires 2 < length <= a.Length
    ensures ok <==> Checks(a[..length])
  {
    hide Ccitt, Complement;
    var crc := Accumulate(a, length - 2);
    crc := Complement(crc);
    ok := crc.low == a[length - 1] && crc.high == a[length - 2];
    ghost var s := a[..length - 2];
    assert a[..length] == s + [a[length - 2], a[length - 1]];
    assert ok <==> [a[length - 2], a[length - 1]] == Trailer(s);
    assert (s + Trailer(s))[length - 2..] == Trailer(s);
    assert a[..length][length - 2..] == [a[length - 2], a[length - 1]];
  }
}
