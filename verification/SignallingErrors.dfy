/**
 What the product codes of DMR signalling are for. Headers are at least nine cells apart and embedded link
 controls eight, and the interleaver keeps the cells of one column so far apart on the air that a header is
 still known when up to seven coded bits in a row are wrong.
 */
module SignallingErrors {
  import opened Bits
  import opened Golay
  import opened Weights
  import opened DmrSignalling
  import opened HammingDistance

  // ------------------------------------------------------------ ones of a word

  /** The first one of a word that has any. */
  lemma {:induction false} FirstOne(w: Word) returns (i: nat)
    requires Weight(w) > 0
    ensures i < |w| && w[i] && Weight(w[i + 1..]) == Weight(w) - 1
    decreases |w|
  {
    if w[0] {
      i := 0;
    } else {
      i := FirstOne(w[1..]);
      assert w[1..][i + 1..] == w[i + 2..];
      i := i + 1;
    }
  }

  lemma {:induction false} TwoOnes(w: Word) returns (i: nat, j: nat)
    requires Weight(w) >= 2
    ensures i < j < |w| && w[i] && w[j] && Weight(w[j + 1..]) == Weight(w) - 2
  {
    i := FirstOne(w);
    j := FirstOne(w[i + 1..]);
    assert w[i + 1..][j + 1..] == w[j + i + 2..];
    j := j + i + 1;
  }

  lemma {:induction false} ThreeOnes(w: Word) returns (i: nat, j: nat, k: nat)
    requires Weight(w) >= 3
    ensures i < j < k < |w| && w[i] && w[j] && w[k]
  {
    i, j := TwoOnes(w);
    k := FirstOne(w[j + 1..]);
    k := k + j + 1;
  }

  /** Two pieces of a word weigh no more than the word. */
  lemma {:induction false} Pieces(w: Word, a: nat, b: nat, c: nat)
    requires a <= b <= c <= |w|
    ensures Weight(w) >= Weight(w[a..b]) + Weight(w[c..])
  {
    assert w == w[..a] + (w[a..b] + (w[b..c] + w[c..]));
    WeightSum(w[..a], w[a..b] + (w[b..c] + w[c..]));
    WeightSum(w[a..b], w[b..c] + w[c..]);
    WeightSum(w[b..c], w[c..]);
  }

  lemma {:induction false} ThreePieces(w: Word, a: nat, b: nat, c: nat, n: nat)
    requires a + n <= b && b + n <= c && c + n <= |w|
    ensures Weight(w) >= Weight(w[a..a + n]) + Weight(w[b..b + n]) + Weight(w[c..c + n])
  {
    hide Weight;
    Pieces(w, a, a + n, b);
    var y := w[b..];
    Pieces(y, 0, n, c - b);
    assert y[0..n] == w[b..b + n] && y[c - b..] == w[c..];
    var z := w[c..];
    Pieces(z, 0, n, n);
    assert z[0..n] == w[c..c + n];
  }

  /** One bit at most is set where no two are. */
  lemma {:induction false} AtMostOne(w: Word)
    requires forall i: nat, j: nat | i < j < |w| :: !(w[i] && w[j])
    ensures Weight(w) <= 1
  {
    if Weight(w) >= 2 {
      var i, j := TwoOnes(w);
      assert false;
    }
  }

  lemma {:induction false} Triangle(x: Word, v: Word, w: Word)
    requires |x| == |v| == |w|
    ensures Weight(Xor(v, w)) <= Weight(Xor(x, v)) + Weight(Xor(x, w))
  {
    WeightXor(Xor(x, v), Xor(x, w));
    assert Xor(Xor(x, v), Xor(x, w)) == Xor(v, w);
  }

  // ------------------------------------------------------------------- headers

  predicate IsMatrix(m: Word) {
    |m| == 196 && RowsCoded(m, 13) && ColumnsCoded(m, 15)
  }

  lemma {:induction false} RowOfXor(m: Word, n: Word, r: nat)
    requires |m| == |n| == 196 && r < 13
    ensures Row(Xor(m, n), r) == Xor(Row(m, r), Row(n, r)) == Xor(m, n)[15 * r + 1..15 * r + 16]
  {
  }

  lemma {:induction false} ColumnOfXor(m: Word, n: Word, c: nat)
    requires |m| == |n| == 196 && c < 15
    ensures Column(Xor(m, n), c) == Xor(Column(m, c), Column(n, c))
  {
  }

  /** Two coded matrices that differ in a column differ in three bits of it. */
  lemma {:induction false} ColumnsApart(m: Word, n: Word, c: nat)
    requires IsMatrix(m) && IsMatrix(n) && c < 15 && Column(m, c) != Column(n, c)
    ensures Weight(Column(Xor(m, n), c)) >= 3
  {
    hide Weight, Codeword, Column13;
    ColumnOfXor(m, n, c);
    ColumnDistance(Column(m, c), Column(n, c));
  }

  /** And in three bits of every row in which they differ. */
  lemma {:induction false} RowsApart(m: Word, n: Word, r: nat, c: nat)
    requires IsMatrix(m) && IsMatrix(n) && r < 13 && c < 15 && Column(Xor(m, n), c)[r]
    ensures Weight(Xor(m, n)[15 * r + 1..15 * r + 16]) >= 3
  {
    hide Weight, Codeword, Row15;
    RowOfXor(m, n, r);
    assert Row(Xor(m, n), r)[c];
    RowDistance(Row(m, r), Row(n, r));
  }

  lemma {:induction false} CellInColumn(m: Word, n: Word, a: nat)
    requires |m| == |n| == 196 && 1 <= a < 196 && m[a] != n[a]
    ensures Column(m, (a - 1) % 15) != Column(n, (a - 1) % 15)
  {
    var r, c := (a - 1) / 15, (a - 1) % 15;
    assert 15 * r + c + 1 == a;
    assert Column(m, c)[r] != Column(n, c)[r];
  }

  /** Different headers differ in at least nine of the 195 cells. */
  lemma {:induction false} HeaderDistance(m: Word, n: Word, a: nat)
    requires |m| == |n| == 196 && IsMatrix(m) && IsMatrix(n) && 1 <= a < 196 && m[a] != n[a]
    ensures Weight(Xor(m, n)) >= 9
  {
    hide Weight, IsMatrix;
    var x, c := Xor(m, n), (a - 1) % 15;
    CellInColumn(m, n, a);
    ColumnsApart(m, n, c);
    var i, j, k := ThreeOnes(Column(x, c));
    RowsApart(m, n, i, c);
    RowsApart(m, n, j, c);
    RowsApart(m, n, k, c);
    ThreePieces(x, 15 * i + 1, 15 * j + 1, 15 * k + 1, 15);
  }

  // ------------------------------------------------------ a burst of wrong bits

  /** Bit i of the coded bits is one of the seven from `at` on. */
  predicate Within(i: nat, at: nat) {
    at <= i < at + 7
  }

  /** The coded bits of the burst, in the order of the air, are those of the matrix but for seven in a row. */
  predicate Damaged(m: Word, out: seq<bv8>, at: nat)
    requires |m| == 196 && |out| == 33
  {
    forall a: nat | a < 196 && !Within(Shuffle(a), at) :: Bit(out, BurstBit(Shuffle(a))) == m[a]
  }

  lemma {:induction false} Modulo(x: nat, r: nat, q: nat)
    requires r < 196 && x == 196 * q + r
    ensures x % 196 == r
  {
  }

  /** Fifteen cells on, which is the next row, the place on the air moves back by 29. */
  lemma {:induction false} NextRow(a: nat, d: nat)
    requires a + 15 * d < 196
    ensures Shuffle(a + 15 * d) == (Shuffle(a) + 167 * d) % 196
  {
    var q, t := a * 181 / 196, Shuffle(a) + 167 * d;
    Modulo((a + 15 * d) * 181, t % 196, q + 13 * d + t / 196);
  }

  /** Cells of one column are at least seven coded bits apart. */
  lemma {:induction false} ColumnScattered(c: nat, r: nat, s: nat, at: nat)
    requires c < 15 && r < s < 13
    ensures !(Within(Shuffle(15 * r + c + 1), at) && Within(Shuffle(15 * s + c + 1), at))
  {
    hide Shuffle;
    var a, d := 15 * r + c + 1, s - r;
    assert 15 * s + c + 1 == a + 15 * d;
    NextRow(a, d);
    assert d in {1, 2, 3, 4, 5, 6, 7, 8, 9, 10, 11, 12};
  }

  /** The matrix as it is received. */
  function Heard(out: seq<bv8>): (y: Word)
    requires |out| == 33
    ensures |y| == 196 && forall a: nat | a < 196 :: y[a] == Bit(out, BurstBit(Shuffle(a)))
  {
    seq(196, a requires 0 <= a < 196 => Bit(out, BurstBit(Shuffle(a))))
  }

  /** Seven wrong bits in a row are at most one in every column. */
  lemma {:induction false} OneInEveryColumn(m: Word, out: seq<bv8>, at: nat, c: nat)
    requires |m| == 196 && |out| == 33 && c < 15 && Damaged(m, out, at)
    ensures Weight(Xor(Column(Heard(out), c), Column(m, c))) <= 1
  {
    hide Weight, Shuffle, BurstBit, Bit, Within;
    var w := Xor(Column(Heard(out), c), Column(m, c));
    forall i: nat, j: nat | i < j < |w| ensures !(w[i] && w[j]) {
      ColumnScattered(c, i, j, at);
    }
    AtMostOne(w);
  }

  /** Whatever seven coded bits in a row are wrong, only one matrix can have been sent. */
  lemma {:induction false} OneMatrix(m: Word, n: Word, out: seq<bv8>, i: nat, j: nat)
    requires IsMatrix(m) && IsMatrix(n) && |out| == 33 && Damaged(m, out, i) && Damaged(n, out, j)
    ensures m[1..] == n[1..]
  {
    hide Weight, Damaged, Codeword, Column13;
    forall a: nat | 1 <= a < 196 ensures m[a] == n[a] {
      var c := (a - 1) % 15;
      if m[a] != n[a] {
        CellInColumn(m, n, a);
      }
      if Column(m, c) != Column(n, c) {
        OneInEveryColumn(m, out, i, c);
        OneInEveryColumn(n, out, j, c);
        Triangle(Column(Heard(out), c), Column(m, c), Column(n, c));
        ColumnDistance(Column(m, c), Column(n, c));
      }
    }
  }

  /** The matrix carries the link control in its data cells. */
  ghost predicate IsHeader(m: Word, lc: seq<bv8>) {
    |lc| == 12 && |m| == 196 && IsMatrix(m) && forall p: nat | p < 96 :: m[DataCell(p)] == BitsOf(lc)[p]
  }

  /** So a header burst names its link control through any seven coded bits in a row. */
  lemma {:induction false} HeaderSurvivesBurst(lc: seq<bv8>, other: seq<bv8>, m: Word, n: Word, out: seq<bv8>, i: nat, j: nat)
    requires IsHeader(m, lc) && IsHeader(n, other) && |out| == 33 && Damaged(m, out, i) && Damaged(n, out, j)
    ensures lc == other
  {
    hide Damaged, IsMatrix, DataCell, BitsOf;
    OneMatrix(m, n, out, i, j);
    forall p: nat | p < 96 ensures BitsOf(lc)[p] == BitsOf(other)[p] {
      DataCellInRow(p);
      assert m[1..][DataCell(p) - 1] == n[1..][DataCell(p) - 1];
    }
    assert |BitsOf(lc)| == 96 && |BitsOf(other)| == 96;
    BitsInjective(lc, other);
  }

  // ------------------------------------------------------------ embedded link control

  predicate IsEmbedded(m: Word) {
    |m| == 128 && EmbRowsCoded(m, 8) && EmbColumnsEven(m)
  }

  /** Different embedded matrices differ in at least eight of the 128 cells. */
  lemma {:induction false} EmbeddedDistance(m: Word, n: Word, a: nat)
    requires |m| == |n| == 128 && IsEmbedded(m) && IsEmbedded(n) && a < 128 && m[a] != n[a]
    ensures Weight(Xor(m, n)) >= 8
  {
    hide Weight, IsEmbedded;
    var x, c := Xor(m, n), a % 16;
    assert 16 * (a / 16) + c == a;
    EvenColumn(m, n, c);
    var w := EmbColumn(x, c);
    assert w[a / 16];
    EvenOnes(w, a / 16);
    var i, j := TwoOnes(w);
    EmbRowsApart(m, n, i, c);
    EmbRowsApart(m, n, j, c);
    Pieces(x, 16 * i, 16 * i + 16, 16 * j);
    var z := x[16 * j..];
    Pieces(z, 0, 16, 16);
    assert z[0..16] == x[16 * j..16 * j + 16];
  }

  lemma {:induction false} EvenColumn(m: Word, n: Word, c: nat)
    requires IsEmbedded(m) && IsEmbedded(n) && c < 16
    ensures EmbColumn(Xor(m, n), c)[7] == Sum(EmbColumn(Xor(m, n), c), SEVEN)
  {
    hide Sum, EmbRowsCoded;
    assert EmbColumn(Xor(m, n), c) == Xor(EmbColumn(m, c), EmbColumn(n, c));
    SumLinear(EmbColumn(m, c), EmbColumn(n, c), SEVEN);
  }

  /** A word of even parity that is not zero has two ones. */
  lemma {:induction false} EvenOnes(w: Word, at: nat)
    requires |w| == 8 && w[7] == Sum(w, SEVEN) && at < 8 && w[at]
    ensures Weight(w) >= 2
  {
    hide Sum, Weight;
    SumIsChain(w, SEVEN);
    WeightZero(w);
    assert at in {0, 1, 2, 3, 4, 5, 6, 7};
    if Weight(w) < 2 {
      OnlyOne(w, at);
      assert false;
    }
  }

  lemma {:induction false} OnlyOne(w: Word, at: nat)
    requires at < |w| && w[at] && Weight(w) < 2
    ensures forall i: nat | i < |w| && i != at :: !w[i]
  {
    hide Weight;
    assert w == w[..at] + ([w[at]] + w[at + 1..]);
    WeightSum(w[..at], [w[at]] + w[at + 1..]);
    WeightSum([w[at]], w[at + 1..]);
    WeightZero([w[at]]);
    assert [w[at]][0];
    WeightZero(w[..at]);
    WeightZero(w[at + 1..]);
    forall i: nat | i < |w| && i != at ensures !w[i] {
      if i < at {
        assert w[i] == w[..at][i];
      } else {
        assert w[i] == w[at + 1..][i - at - 1];
      }
    }
  }

  lemma {:induction false} EmbRowsApart(m: Word, n: Word, r: nat, c: nat)
    requires IsEmbedded(m) && IsEmbedded(n) && r < 8 && c < 16 && EmbColumn(Xor(m, n), c)[r]
    ensures Weight(Xor(m, n)[16 * r..16 * r + 16]) >= 4
  {
    hide Weight, Codeword, Row16, EmbColumnsEven;
    assert Xor(m, n)[16 * r..16 * r + 16] == Xor(EmbRow(m, r), EmbRow(n, r));
    assert Xor(EmbRow(m, r), EmbRow(n, r))[c];
    LongDistance(EmbRow(m, r), EmbRow(n, r));
  }

  // --------------------------------------------------------------------- layout

  /** The data bits fill the nine data rows in order, behind three reserved cells. */
  lemma {:induction false} DataFillsRows(a: nat) returns (p: nat)
    requires 3 < a < 136 && (a - 1) % 15 < 11
    ensures p < 96 && DataCell(p) == a
  {
    var r, c := (a - 1) / 15, (a - 1) % 15;
    p := 11 * r + c - 3;
    if r > 0 {
      assert p - 8 == 11 * (r - 1) + c;
    }
  }

  /** The coded bits fill the burst in order, around the slot type and the sync. */
  lemma {:induction false} BurstFilled(n: nat) returns (i: nat)
    requires n < 264 && !(98 <= n < 166)
    ensures i < 196 && BurstBit(i) == n && forall j: nat | j < i :: BurstBit(j) < n
  {
    i := if n < 98 then n else n - 68;
  }

  /** The bits of an embedded link control fill the data cells in order, around the checksum. */
  lemma {:induction false} LcFillsRows(a: nat) returns (b: nat)
    requires a < 112 && a % 16 < 11 && !(a % 16 == 10 && a >= 32)
    ensures b < 72 && LcCell(b) == a
  {
    var r, c := a / 16, a % 16;
    b := if r < 2 then 11 * r + c else 22 + 10 * (r - 2) + c;
    if r >= 2 {
      assert b - 22 == 10 * (r - 2) + c;
    }
  }

  /** The five checksum bits spell the checksum. */
  lemma {:induction false} CrcSpelled(c: nat)
    requires c < 32
    ensures c == 16 * One(CrcBit(c, 0)) + 8 * One(CrcBit(c, 1)) + 4 * One(CrcBit(c, 2)) + 2 * One(CrcBit(c, 3)) + One(CrcBit(c, 4))
  {
  }

  /** The checksum of a call from station 3120101 to talkgroup 91. */
  lemma {:induction false} CrcOfTalkgroup91()
    ensures Crc5([0, 0, 0, 0, 0, 91, 47, 155, 229]) == 26
  {
    var lc: seq<bv8> := [0, 0, 0, 0, 0, 91, 47, 155, 229];
    assert ByteSum(lc) == ByteSum(lc[..8]) + 229;
    assert ByteSum(lc[..8]) == ByteSum(lc[..7]) + 155 by { assert lc[..8][..7] == lc[..7]; }
    assert ByteSum(lc[..7]) == ByteSum(lc[..6]) + 47 by { assert lc[..7][..6] == lc[..6]; }
    assert ByteSum(lc[..6]) == ByteSum(lc[..5]) + 91 by { assert lc[..6][..5] == lc[..5]; }
    ZeroByteSum(lc[..5]);
  }

  lemma {:induction false} ZeroByteSum(s: seq<bv8>)
    requires forall i: nat | i < |s| :: s[i] == 0
    ensures ByteSum(s) == 0
    decreases |s|
  {
    if s != [] {
      ZeroByteSum(s[..|s| - 1]);
    }
  }
}
