/**
 The product codes of DMR signalling (dmr_hbp.c): the block product turbo code of
 annex B.1.1 of ETSI TS 102 361-1, which carries a link control header, and the
 embedded link control of annex B.2.1, which travels in the middle of four bursts.
 */
module DmrSignalling {
  import opened Bits
  import opened Golay
  import opened Voice
  import opened Weights

  // ------------------------------------------------------------ Hamming codes

  /** One assignment of an encoder: bit `to` receives the sum of the bits `from`. */
  datatype Check = Check(from: seq<nat>, to: nat)

  /** The encoder of an n-bit word whose first k bits are data. */
  predicate Systematic(code: seq<Check>, k: nat, n: nat) {
    && (forall i: nat | i < |code| :: k <= code[i].to < n)
    && (forall i: nat | i < |code| :: Below(code[i].from, k))
    && (forall i: nat, j: nat | i < j < |code| :: code[i].to != code[j].to)
  }

  /** The assignments of hamming_encode15113_2, and a fifth that encode16114 adds. */
  function RowCheck(i: nat): (c: Check)
    requires i < 5
    ensures Below(c.from, 11) && c.to == 11 + i
  {
    if i == 0 then Check([0, 1, 2, 3, 5, 7, 8], 11)
    else if i == 1 then Check([1, 2, 3, 4, 6, 8, 9], 12)
    else if i == 2 then Check([2, 3, 4, 5, 7, 9, 10], 13)
    else if i == 3 then Check([0, 1, 2, 4, 6, 7, 10], 14)
    else Check([0, 2, 5, 6, 8, 9, 10], 15)
  }

  function Row15(): (code: seq<Check>)
    ensures Systematic(code, 11, 15)
  {
    seq(4, i requires 0 <= i < 4 => RowCheck(i))
  }

  function Row16(): (code: seq<Check>)
    ensures Systematic(code, 11, 16)
  {
    seq(5, i requires 0 <= i < 5 => RowCheck(i))
  }

  /** The assignments of hamming_encode1393. */
  function ColumnCheck(i: nat): (c: Check)
    requires i < 4
    ensures Below(c.from, 9) && c.to == 9 + i
  {
    if i == 0 then Check([0, 1, 3, 5, 6], 9)
    else if i == 1 then Check([0, 1, 2, 4, 6, 7], 10)
    else if i == 2 then Check([0, 1, 2, 3, 5, 7, 8], 11)
    else Check([0, 2, 4, 5, 8], 12)
  }

  function Column13(): (code: seq<Check>)
    ensures Systematic(code, 9, 13) && |code| == 4 && forall i: nat | i < 4 :: code[i].to == 9 + i
  {
    seq(4, i requires 0 <= i < 4 => ColumnCheck(i))
  }

  predicate Codeword(d: Word, code: seq<Check>, k: nat)
    requires Systematic(code, k, |d|) && k <= |d|
  {
    forall i: nat | i < |code| :: d[code[i].to] == Sum(d, code[i].from)
  }

  /** The codes are linear. */
  lemma CodewordClosed(d: Word, e: Word, code: seq<Check>, k: nat)
    requires |d| == |e| >= k && Systematic(code, k, |d|)
    requires Codeword(d, code, k) && Codeword(e, code, k)
    ensures Codeword(Xor(d, e), code, k)
  {
    hide Sum;
    forall i: nat | i < |code| ensures Xor(d, e)[code[i].to] == Sum(Xor(d, e), code[i].from) {
      SumLinear(d, e, code[i].from);
    }
  }

  /** Runs the assignments of an encoder on the n bits at `at`. */
  method HammingEncode(d: array<bool>, at: nat, code: seq<Check>, k: nat, n: nat)
    requires at + n <= d.Length && k <= n && Systematic(code, k, n)
    modifies d
    ensures Codeword(d[at..at + n], code, k)
    ensures forall i: nat | i < d.Length && !(at + k <= i < at + n) :: d[i] == old(d[i])
  {
    hide Sum;
    ghost var data := d[at..at + k];
    for i := 0 to |code|
      invariant d[at..at + k] == data
      invariant forall j: nat | j < i :: d[at + code[j].to] == Sum(data, code[j].from)
      invariant forall j: nat | j < d.Length && !(at + k <= j < at + n) :: d[j] == old(d[j])
    {
      var v := d[at..at + n];
      assert v[..k] == d[at..at + k] == data;
      SumFrame(v, data, code[i].from, k);
      d[at + code[i].to] := Sum(v, code[i].from);
    }
    ghost var w := d[at..at + n];
    assert w[..k] == d[at..at + k] == data;
    forall i: nat | i < |code| ensures w[code[i].to] == Sum(w, code[i].from) {
      SumFrame(w, data, code[i].from, k);
    }
  }

  // ------------------------------------------------- sums of rows of a matrix

  predicate Rows(rows: seq<Word>, n: nat) {
    forall r: nat | r < |rows| :: |rows[r]| == n
  }

  /** Entry c of every row. */
  function Across(rows: seq<Word>, n: nat, c: nat): (w: Word)
    requires Rows(rows, n) && c < n
    ensures |w| == |rows| && forall r: nat | r < |rows| :: w[r] == rows[r][c]
  {
    seq(|rows|, r requires 0 <= r < |rows| => rows[r][c])
  }

  /** The sum of the rows s. */
  function SumWords(rows: seq<Word>, n: nat, s: seq<nat>): (w: Word)
    requires Rows(rows, n) && Below(s, |rows|)
    ensures |w| == n
    decreases |s|
  {
    if s == [] then Zeros(n) else Xor(SumWords(rows, n, s[..|s| - 1]), rows[s[|s| - 1]])
  }

  lemma {:induction false} SumWordsAt(rows: seq<Word>, n: nat, s: seq<nat>, c: nat)
    requires Rows(rows, n) && Below(s, |rows|) && c < n
    ensures SumWords(rows, n, s)[c] == Sum(Across(rows, n, c), s)
    decreases |s|
  {
    if s != [] {
      SumWordsAt(rows, n, s[..|s| - 1], c);
    }
  }

  /** A sum of code words is a code word. */
  lemma {:induction false} SumWordsCoded(rows: seq<Word>, n: nat, s: seq<nat>, code: seq<Check>, k: nat)
    requires Rows(rows, n) && Below(s, |rows|) && k <= n && Systematic(code, k, n)
    requires forall r: nat | r < |rows| :: Codeword(rows[r], code, k)
    ensures Codeword(SumWords(rows, n, s), code, k)
    decreases |s|
  {
    hide Codeword;
    if s == [] {
      ZeroCodeword(code, k, n);
    } else {
      SumWordsCoded(rows, n, s[..|s| - 1], code, k);
      CodewordClosed(SumWords(rows, n, s[..|s| - 1]), rows[s[|s| - 1]], code, k);
    }
  }

  lemma ZeroCodeword(code: seq<Check>, k: nat, n: nat)
    requires k <= n && Systematic(code, k, n)
    ensures Codeword(Zeros(n), code, k)
  {
    hide Sum;
    forall i: nat | i < |code| ensures Zeros(n)[code[i].to] == Sum(Zeros(n), code[i].from) {
      SumZero(n, code[i].from);
    }
  }

  // --------------------------------------------------------------- BPTC(196,96)

  /** Row r of the 13 by 15 matrix held in the 196 deinterleaved bits; bit 0 is unused. */
  function Row(m: Word, r: nat): (w: Word)
    requires |m| == 196 && r < 13
    ensures |w| == 15 && forall c: nat | c < 15 :: w[c] == m[15 * r + c + 1]
  {
    m[15 * r + 1..15 * r + 16]
  }

  function Column(m: Word, c: nat): (w: Word)
    requires |m| == 196 && c < 15
    ensures |w| == 13 && forall r: nat | r < 13 :: w[r] == m[15 * r + c + 1]
  {
    seq(13, r requires 0 <= r < 13 => m[15 * r + c + 1])
  }

  predicate RowsCoded(m: Word, n: nat)
    requires |m| == 196 && n <= 13
  {
    forall r: nat | r < n :: Codeword(Row(m, r), Row15(), 11)
  }

  predicate ColumnsCoded(m: Word, n: nat)
    requires |m| == 196 && n <= 15
  {
    forall c: nat | c < n :: Codeword(Column(m, c), Column13(), 9)
  }

  /** When the nine data rows and all columns are code words, so are the four parity rows. */
  lemma ParityRowsCoded(m: Word)
    requires |m| == 196 && RowsCoded(m, 9) && ColumnsCoded(m, 15)
    ensures RowsCoded(m, 13)
  {
    hide Row15, Column13, Sum, Codeword;
    var rows := seq(9, r requires 0 <= r < 9 => Row(m, r));
    forall r: nat | 9 <= r < 13 ensures Codeword(Row(m, r), Row15(), 11) {
      var s := Column13()[r - 9].from;
      SumWordsCoded(rows, 15, s, Row15(), 11);
      forall c: nat | c < 15 ensures Row(m, r)[c] == SumWords(rows, 15, s)[c] {
        SumWordsAt(rows, 15, s, c);
        SumFrame(Column(m, c), Across(rows, 15, c), s, 9);
        ParityInColumn(m, c, r);
      }
      assert Row(m, r) == SumWords(rows, 15, s);
    }
  }

  lemma ParityInColumn(m: Word, c: nat, r: nat)
    requires |m| == 196 && c < 15 && 9 <= r < 13 && ColumnsCoded(m, 15)
    ensures m[15 * r + c + 1] == Sum(Column(m, c), Column13()[r - 9].from)
  {
    hide Column13, Sum;
    assert Codeword(Column(m, c), Column13(), 9);
    assert Column(m, c)[Column13()[r - 9].to] == Column(m, c)[r];
  }

  /** Where bit p of the 96 data bits sits among the 196. */
  function DataCell(p: nat): (a: nat)
    requires p < 96
    ensures 4 <= a < 136
  {
    if p < 8 then 4 + p else 16 + (p - 8) / 11 * 15 + (p - 8) % 11
  }

  /** A data bit lies in one of the nine data rows, ahead of the row's parity bits. */
  lemma DataCellInRow(p: nat)
    requires p < 96
    ensures var r, c := (DataCell(p) - 1) / 15, (DataCell(p) - 1) % 15; r < 9 && c < 11
  {
    if p >= 8 {
      var q, s := (p - 8) / 11, (p - 8) % 11;
      assert DataCell(p) - 1 == (q + 1) * 15 + s;
    }
  }

  /** The interleaver: position of deinterleaved bit a. */
  function Shuffle(a: nat): (i: nat)
    requires a < 196
    ensures i < 196
  {
    a * 181 % 196
  }

  lemma ShuffleInjective(a: nat, b: nat)
    requires a < 196 && b < 196 && Shuffle(a) == Shuffle(b)
    ensures a == b
  {
    Unshuffle(a);
    Unshuffle(b);
  }

  /** 13 is the inverse of 181 modulo 196. */
  lemma Unshuffle(a: nat)
    requires a < 196
    ensures Shuffle(a) * 13 % 196 == a
  {
    var t := 12 * a - 13 * (a * 181 / 196);
    assert Shuffle(a) * 13 == a + 196 * t;
  }

  /** Where interleaved bit i sits in a burst: around the slot type and sync bits 98 to 165. */
  function BurstBit(i: nat): (n: nat)
    requires i < 196
    ensures n < 264 && !(98 <= n < 166)
  {
    if i < 98 then i else i + 68
  }

  /** Rows, then columns, are encoded in place over the data bits. */
  method Matrix(bData: Word) returns (m: array<bool>)
    requires |bData| == 96
    ensures fresh(m) && m.Length == 196
    ensures forall p: nat | p < 96 :: m[DataCell(p)] == bData[p]
    ensures forall a: nat | a < 4 :: !m[a]
    ensures RowsCoded(m[..], 13) && ColumnsCoded(m[..], 15)
  {
    hide DataCell, Codeword;
    m := new bool[196](_ => false);
    for p := 0 to 96
      invariant forall a: nat | a < 4 :: !m[a]
      invariant forall q: nat | q < p :: m[DataCell(q)] == bData[q]
    {
      forall q: nat | q < p ensures DataCell(q) != DataCell(p) {
        DataCellInjective(q, p);
      }
      m[DataCell(p)] := bData[p];
    }
    ghost var empty := m[..4];
    EncodeRows(m, bData);
    EncodeColumns(m, bData);
    assert forall a: nat | a < 4 :: m[a] == m[..4][a] == empty[a];
    ParityRowsCoded(m[..]);
  }

  lemma DataCellInjective(p: nat, q: nat)
    requires p < q < 96
    ensures DataCell(p) < DataCell(q)
  {
  }

  method EncodeRows(m: array<bool>, bData: Word)
    requires m.Length == 196 && |bData| == 96
    requires forall p: nat | p < 96 :: m[DataCell(p)] == bData[p]
    modifies m
    ensures forall p: nat | p < 96 :: m[DataCell(p)] == bData[p]
    ensures RowsCoded(m[..], 9) && m[..4] == old(m[..4])
  {
    hide DataCell, Codeword, Row15;
    for r := 0 to 9
      invariant m[..4] == old(m[..4])
      invariant forall p: nat | p < 96 :: m[DataCell(p)] == bData[p]
      invariant RowsCoded(m[..], r)
    {
      ghost var before := m[..];
      HammingEncode(m, r * 15 + 1, Row15(), 11, 15);
      forall p: nat | p < 96 ensures m[DataCell(p)] == bData[p] {
        DataCellInRow(p);
        OutsideParity(DataCell(p), r);
      }
      forall k: nat | k < r + 1 ensures Codeword(Row(m[..], k), Row15(), 11) {
        if k < r {
          assert Row(m[..], k) == Row(before, k);
        } else {
          assert Row(m[..], r) == m[r * 15 + 1..r * 15 + 1 + 15];
        }
      }
    }
  }

  lemma OutsideParity(a: nat, r: nat)
    requires 0 < a < 136 && r < 9 && (a - 1) % 15 < 11
    ensures !(r * 15 + 1 + 11 <= a < r * 15 + 1 + 15)
  {
  }

  method EncodeColumns(m: array<bool>, bData: Word)
    requires m.Length == 196 && |bData| == 96 && RowsCoded(m[..], 9)
    requires forall p: nat | p < 96 :: m[DataCell(p)] == bData[p]
    modifies m
    ensures forall p: nat | p < 96 :: m[DataCell(p)] == bData[p]
    ensures RowsCoded(m[..], 9) && ColumnsCoded(m[..], 15) && m[..4] == old(m[..4])
  {
    hide DataCell, Codeword, Row15, Column13;
    ghost var start := m[..];
    for c := 0 to 15
      invariant m[..136] == start[..136]
      invariant ColumnsCoded(m[..], c)
    {
      ghost var before := m[..];
      EncodeColumn(m, c);
      assert m[..136] == start[..136] by {
        assert forall a: nat | a < 136 :: m[a] == before[a];
      }
      forall k: nat | k < c + 1 ensures Codeword(Column(m[..], k), Column13(), 9) {
        if k < c {
          OtherColumn(before, m[..], c, k);
        }
      }
    }
    assert m[..4] == m[..136][..4] == start[..4];
    forall r: nat | r < 9 ensures Codeword(Row(m[..], r), Row15(), 11) {
      assert Row(m[..], r) == m[..136][15 * r + 1..15 * r + 16];
      assert Row(start, r) == start[..136][15 * r + 1..15 * r + 16];
    }
    forall p: nat | p < 96 ensures m[DataCell(p)] == bData[p] {
      assert m[..136][DataCell(p)] == start[..136][DataCell(p)];
    }
  }

  /** Only column c changes, and of it only the four parity rows. */
  method EncodeColumn(m: array<bool>, c: nat)
    requires m.Length == 196 && c < 15
    modifies m
    ensures Codeword(Column(m[..], c), Column13(), 9)
    ensures forall a: nat | a < 196 && (a < 136 || (a - 1) % 15 != c) :: m[a] == old(m[a])
  {
    hide Codeword, Column13;
    ghost var before := m[..];
    var col := new bool[13];
    for a := 0 to 13
      invariant m[..] == before
      invariant forall k: nat | k < a :: col[k] == before[15 * k + c + 1]
    {
      col[a] := m[15 * a + c + 1];
    }
    HammingEncode(col, 0, Column13(), 9, 13);
    ghost var code := col[..];
    assert code == col[0..13];
    for a := 0 to 13
      invariant col[..] == code
      invariant forall k: nat | k < a :: m[15 * k + c + 1] == code[k]
      invariant forall k: nat | a <= k < 13 :: m[15 * k + c + 1] == before[15 * k + c + 1]
      invariant forall i: nat | i < 196 && (i < 136 || (i - 1) % 15 != c) :: m[i] == before[i]
    {
      InColumn(a, c);
      m[15 * a + c + 1] := col[a];
    }
    assert Column(m[..], c) == code;
  }

  lemma InColumn(a: nat, c: nat)
    requires a < 13 && c < 15
    ensures (15 * a + c + 1 - 1) % 15 == c && (15 * a + c + 1 < 136 <==> a < 9)
  {
  }

  lemma OtherColumn(m: Word, n: Word, c: nat, k: nat)
    requires |m| == |n| == 196 && c < 15 && k < 15 && k != c
    requires forall a: nat | a < 196 && (a < 136 || (a - 1) % 15 != c) :: m[a] == n[a]
    ensures Column(m, k) == Column(n, k)
  {
    forall r: nat | r < 13 ensures Column(m, k)[r] == Column(n, k)[r] {
      InColumn(r, k);
    }
  }

  /** bptc_encode: returns the coded matrix and leaves it, interleaved, in the burst. */
  method BptcEncode(inp: seq<bv8>, out: array<bv8>) returns (m: array<bool>)
    requires |inp| == 12 && out.Length == 33
    modifies out
    ensures fresh(m) && m.Length == 196
    ensures forall p: nat | p < 96 :: m[DataCell(p)] == BitsOf(inp)[p]
    ensures forall a: nat | a < 4 :: !m[a]
    ensures RowsCoded(m[..], 13) && ColumnsCoded(m[..], 15)
    ensures forall a: nat | a < 196 :: Bit(out[..], BurstBit(Shuffle(a))) == m[a]
    ensures forall n: nat | 98 <= n < 166 :: Bit(out[..], n) == Bit(old(out[..]), n)
  {
    hide DataCell, Codeword, Shuffle, BurstBit, Bit, RowsCoded, ColumnsCoded;
    m := Matrix(BitsOf(inp));
    var rawData := new bool[196](_ => false);
    ghost var matrix := m[..];
    for a := 0 to 196
      invariant m[..] == matrix && unchanged(out)
      invariant forall b: nat | b < a :: rawData[Shuffle(b)] == matrix[b]
    {
      forall b: nat | b < a ensures Shuffle(b) != Shuffle(a) {
        if Shuffle(b) == Shuffle(a) {
          ShuffleInjective(a, b);
        }
      }
      rawData[Shuffle(a)] := m[a];
    }
    var raw := rawData[..];
    assert out[..] == old(out[..]);
    StoreBurst(raw, out);
    forall a: nat | a < 196 ensures Bit(out[..], BurstBit(Shuffle(a))) == m[a] {
      assert raw[Shuffle(a)] == matrix[a];
    }
  }

  lemma TopEdge(x: bv8, b: bv8, k: nat)
    requires k < 8
    ensures ByteBit((x & 0x3F) | (b & 0xC0), k) == if k < 2 then ByteBit(b, k) else ByteBit(x, k)
  {
  }

  lemma BottomEdge(x: bv8, b: bv8, k: nat)
    requires k < 8
    ensures ByteBit((x & 0xFC) | ((b >> 4) & 0x03), k) == if k < 6 then ByteBit(x, k) else ByteBit(b, k - 4)
  {
  }

  /** The extraction at the end of bptc_encode. */
  method StoreBurst(raw: Word, out: array<bv8>)
    requires |raw| == 196 && out.Length == 33
    modifies out
    ensures forall i: nat | i < 196 :: Bit(out[..], BurstBit(i)) == raw[i]
    ensures forall n: nat | 98 <= n < 166 :: Bit(out[..], n) == Bit(old(out[..]), n)
  {
    hide Bit, ByteBit;
    ghost var before := out[..];
    StoreBits(out, 0, raw[..96]);
    ghost var first := out[..];
    var byte := Pack(raw[96..104]);
    out[12] := (out[12] & 0x3F) | (byte & 0xC0);
    out[20] := (out[20] & 0xFC) | ((byte >> 4) & 0x03);
    ghost var middle := out[..];
    StoreBits(out, 21, raw[100..]);
    forall j: nat | j < 96 ensures Bit(first, j) == raw[j] {
      assert Bit(first, 8 * 0 + j) == raw[..96][j];
    }
    StoredBurst(raw, before, first, middle, out[..], byte);
  }

  /** The bytes around the slot type: two bits of the code on either side. */
  lemma MiddleBits(raw: Word, before: seq<bv8>, first: seq<bv8>, middle: seq<bv8>, byte: bv8, n: nat)
    requires |raw| == 196 && |before| == |first| == |middle| == 33 && n < 168
    requires forall j: nat | j < 96 :: Bit(first, j) == raw[j]
    requires first[12..] == before[12..]
    requires forall k: nat | k < 8 :: ByteBit(byte, k) == raw[96..104][k]
    requires middle == first[12 := (first[12] & 0x3F) | (byte & 0xC0)][20 := (first[20] & 0xFC) | ((byte >> 4) & 0x03)]
    ensures Bit(middle, n) == if n < 98 then raw[n] else if n < 166 then Bit(before, n) else raw[n - 68]
  {
    hide ByteBit;
    assert n >= 96 ==> first[n / 8] == first[12..][n / 8 - 12] == before[12..][n / 8 - 12];
    if 96 <= n < 104 {
      TopEdge(first[12], byte, n - 96);
      assert ByteBit(byte, n - 96) == raw[96..104][n - 96];
    } else if 160 <= n {
      BottomEdge(first[20], byte, n - 160);
      assert n >= 166 ==> ByteBit(byte, n - 164) == raw[96..104][n - 164];
    } else if n < 96 {
      assert Bit(first, n) == raw[n];
    }
  }

  lemma StoredBurst(raw: Word, before: seq<bv8>, first: seq<bv8>, middle: seq<bv8>, out: seq<bv8>, byte: bv8)
    requires |raw| == 196 && |before| == |first| == |middle| == |out| == 33
    requires forall j: nat | j < 96 :: Bit(first, j) == raw[j]
    requires first[12..] == before[12..]
    requires forall k: nat | k < 8 :: ByteBit(byte, k) == raw[96..104][k]
    requires middle == first[12 := (first[12] & 0x3F) | (byte & 0xC0)][20 := (first[20] & 0xFC) | ((byte >> 4) & 0x03)]
    requires out[..21] == middle[..21]
    requires forall j: nat | j < 96 :: Bit(out, 8 * 21 + j) == raw[100..][j]
    ensures forall i: nat | i < 196 :: Bit(out, BurstBit(i)) == raw[i]
    ensures forall n: nat | 98 <= n < 166 :: Bit(out, n) == Bit(before, n)
  {
    hide Bit, ByteBit;
    forall n: nat | n < 168
      ensures n < 98 ==> Bit(out, n) == raw[n]
      ensures 98 <= n < 166 ==> Bit(out, n) == Bit(before, n)
      ensures 166 <= n ==> Bit(out, n) == raw[n - 68]
    {
      MiddleBits(raw, before, first, middle, byte, n);
      assert out[n / 8] == out[..21][n / 8] == middle[..21][n / 8];
      SameByte(out, middle, n);
    }
    forall i: nat | i < 196 ensures Bit(out, BurstBit(i)) == raw[i] {
      if i >= 100 {
        assert Bit(out, 8 * 21 + (i - 100)) == raw[100..][i - 100];
      }
    }
  }

  /** The burst determines the link control: each data bit can be read at one place. */
  lemma BptcRecoverable(inp: seq<bv8>, m: Word, out: seq<bv8>, p: nat)
    requires |inp| == 12 && |m| == 196 && |out| == 33 && p < 96
    requires forall q: nat | q < 96 :: m[DataCell(q)] == BitsOf(inp)[q]
    requires forall a: nat | a < 196 :: Bit(out, BurstBit(Shuffle(a))) == m[a]
    ensures Bit(inp, p) == Bit(out, BurstBit(Shuffle(DataCell(p))))
  {
    hide Bit, Shuffle, BurstBit, DataCell;
    assert BitsOf(inp)[p] == Bit(inp, p);
  }

  // ------------------------------------------------------ embedded link control

  /** Row r of the 8 by 16 matrix. */
  function EmbRow(m: Word, r: nat): (w: Word)
    requires |m| == 128 && r < 8
    ensures |w| == 16 && forall c: nat | c < 16 :: w[c] == m[16 * r + c]
  {
    m[16 * r..16 * r + 16]
  }

  function EmbColumn(m: Word, c: nat): (w: Word)
    requires |m| == 128 && c < 16
    ensures |w| == 8 && forall r: nat | r < 8 :: w[r] == m[16 * r + c]
  {
    seq(8, r requires 0 <= r < 8 => m[16 * r + c])
  }

  predicate EmbRowsCoded(m: Word, n: nat)
    requires |m| == 128 && n <= 8
  {
    forall r: nat | r < n :: Codeword(EmbRow(m, r), Row16(), 11)
  }

  const SEVEN: seq<nat> := [0, 1, 2, 3, 4, 5, 6]

  /** Every column has even parity: its last bit is the sum of the seven above. */
  predicate EmbColumnsEven(m: Word)
    requires |m| == 128
  {
    forall c: nat | c < 16 :: m[112 + c] == Sum(EmbColumn(m, c), SEVEN)
  }

  /** The parity row is itself a code word. */
  lemma EmbParityRowCoded(m: Word)
    requires |m| == 128 && EmbRowsCoded(m, 7) && EmbColumnsEven(m)
    ensures EmbRowsCoded(m, 8)
  {
    hide Row16, Sum, Codeword;
    var rows := seq(7, r requires 0 <= r < 7 => EmbRow(m, r));
    SumWordsCoded(rows, 16, SEVEN, Row16(), 11);
    forall c: nat | c < 16 ensures EmbRow(m, 7)[c] == SumWords(rows, 16, SEVEN)[c] {
      SumWordsAt(rows, 16, SEVEN, c);
      SumFrame(EmbColumn(m, c), Across(rows, 16, c), SEVEN, 7);
    }
    assert EmbRow(m, 7) == SumWords(rows, 16, SEVEN);
  }

  /** Where bit b of the 72 link control bits sits: two rows of eleven, five of ten. */
  function LcCell(b: nat): (a: nat)
    requires b < 72
    ensures a < 112 && a % 16 < 11
  {
    if b < 11 then b
    else if b < 22 then 5 + b
    else 32 + (b - 22) / 10 * 16 + (b - 22) % 10
  }

  lemma LcCellInjective(b: nat, d: nat)
    requires b < d < 72
    ensures LcCell(b) < LcCell(d)
  {
  }

  /** The byte sum modulo 31 that fills the five free cells of the data rows. */
  function Crc5(lc: seq<bv8>): (c: nat)
    ensures c < 31
  {
    ByteSum(lc) % 31
  }

  function ByteSum(lc: seq<bv8>): nat
    decreases |lc|
  {
    if lc == [] then 0 else ByteSum(lc[..|lc| - 1]) + lc[|lc| - 1] as int
  }

  /** Bit i of the checksum, most significant first, sits in column ten of row 2 + i. */
  predicate CrcBit(c: nat, i: nat)
    requires i < 5
  {
    (if i == 0 then c / 16 else if i == 1 then c / 8 else if i == 2 then c / 4 else if i == 3 then c / 2 else c) % 2 == 1
  }

  lemma LcCellNotCrc(b: nat, i: nat)
    requires b < 72 && i < 5
    ensures LcCell(b) != 42 + 16 * i
  {
  }

  /** The data half of the matrix: link control bits and checksum. */
  ghost predicate LcPlaced(m: Word, lc: seq<bv8>)
    requires |m| == 128 && |lc| == 9
  {
    && (forall b: nat | b < 72 :: m[LcCell(b)] == BitsOf(lc)[b])
    && (forall i: nat | i < 5 :: m[42 + 16 * i] == CrcBit(Crc5(lc), i))
  }

  /** Two matrices that agree ahead of the parity columns and the parity row place the same data. */
  lemma LcPlacedFrame(m: Word, n: Word, lc: seq<bv8>)
    requires |m| == |n| == 128 && |lc| == 9 && LcPlaced(m, lc)
    requires forall a: nat | a < 112 && a % 16 < 11 :: m[a] == n[a]
    ensures LcPlaced(n, lc)
  {
    hide LcCell, CrcBit, Crc5, BitsOf;
    forall i: nat | i < 5 ensures n[42 + 16 * i] == CrcBit(Crc5(lc), i) {
      assert (42 + 16 * i) % 16 == 10;
    }
  }

  /** encode_embedded_data: fills the matrix and reads it out column by column. */
  method EncodeEmbedded(lc: seq<bv8>) returns (data: array<bool>, raw: array<bool>)
    requires |lc| == 9
    ensures fresh(data) && fresh(raw) && data.Length == raw.Length == 128
    ensures LcPlaced(data[..], lc)
    ensures EmbRowsCoded(data[..], 8) && EmbColumnsEven(data[..])
    ensures forall a: nat | a < 128 :: raw[a] == data[a % 8 * 16 + a / 8]
  {
    hide LcPlaced, EmbRowsCoded, EmbColumnsEven;
    data := PlaceLc(lc);
    CodeEmbedded(data, lc);
    EmbParityRowCoded(data[..]);
    ghost var m := data[..];
    raw := new bool[128];
    var b := 0;
    for a := 0 to 128
      invariant data[..] == m
      invariant a < 128 ==> b == a % 8 * 16 + a / 8
      invariant forall k: nat | k < a :: raw[k] == m[k % 8 * 16 + k / 8]
    {
      raw[a] := data[b];
      if a < 127 {
        NextCell(a);
      }
      b := b + 16;
      if b > 127 {
        b := b - 127;
      }
    }
  }

  lemma NextCell(a: nat)
    requires a < 127
    ensures var b := a % 8 * 16 + a / 8;
            (a + 1) % 8 * 16 + (a + 1) / 8 == if b + 16 > 127 then b + 16 - 127 else b + 16
  {
  }

  method PlaceLc(lc: seq<bv8>) returns (data: array<bool>)
    requires |lc| == 9
    ensures fresh(data) && data.Length == 128 && LcPlaced(data[..], lc)
  {
    hide LcCell, CrcBit, Crc5, BitsOf;
    var embData := BitsOf(lc);
    var crc := Crc5(lc);
    data := new bool[128](_ => false);
    for i := 0 to 5
      invariant forall k: nat | k < i :: data[42 + 16 * k] == CrcBit(crc, k)
    {
      data[42 + 16 * i] := CrcBit(crc, i);
    }
    for b := 0 to 72
      invariant forall k: nat | k < 5 :: data[42 + 16 * k] == CrcBit(crc, k)
      invariant forall k: nat | k < b :: data[LcCell(k)] == embData[k]
    {
      forall k: nat | k < b ensures LcCell(k) != LcCell(b) {
        LcCellInjective(k, b);
      }
      forall k: nat | k < 5 ensures LcCell(b) != 42 + 16 * k {
        LcCellNotCrc(b, k);
      }
      data[LcCell(b)] := embData[b];
    }
  }

  method CodeEmbedded(data: array<bool>, lc: seq<bv8>)
    requires data.Length == 128 && |lc| == 9 && LcPlaced(data[..], lc)
    modifies data
    ensures LcPlaced(data[..], lc) && EmbRowsCoded(data[..], 7) && EmbColumnsEven(data[..])
  {
    hide LcPlaced, Row16, Codeword, Sum;
    ghost var start := data[..];
    for r := 0 to 7
      invariant forall a: nat | a < 128 && a % 16 < 11 :: data[a] == start[a]
      invariant EmbRowsCoded(data[..], r)
    {
      ghost var before := data[..];
      HammingEncode(data, 16 * r, Row16(), 11, 16);
      forall a: nat | a < 128 && a % 16 < 11 ensures data[a] == start[a] {
        assert data[a] == before[a];
      }
      forall k: nat | k < r + 1 ensures Codeword(EmbRow(data[..], k), Row16(), 11) {
        if k < r {
          assert EmbRow(data[..], k) == EmbRow(before, k);
        } else {
          assert EmbRow(data[..], r) == data[16 * r..16 * r + 16];
        }
      }
    }
    ghost var coded := data[..];
    for c := 0 to 16
      invariant data[..112] == coded[..112]
      invariant forall k: nat | k < c :: data[112 + k] == Sum(EmbColumn(coded, k), SEVEN)
    {
      SumFrame(EmbColumn(data[..], c), EmbColumn(coded, c), SEVEN, 7) by {
        forall r: nat | r < 7 ensures EmbColumn(data[..], c)[r] == EmbColumn(coded, c)[r] {
          assert data[..112][16 * r + c] == coded[..112][16 * r + c];
        }
        assert EmbColumn(data[..], c)[..7] == EmbColumn(coded, c)[..7];
      }
      data[112 + c] := Sum(EmbColumn(data[..], c), SEVEN);
    }
    KeepsSevenRows(coded, data[..]);
    forall a: nat | a < 112 && a % 16 < 11 ensures start[a] == data[a] {
      assert data[..112][a] == coded[..112][a];
    }
    LcPlacedFrame(start, data[..], lc);
  }

  lemma KeepsSevenRows(m: Word, n: Word)
    requires |m| == |n| == 128 && m[..112] == n[..112] && EmbRowsCoded(m, 7)
    requires forall c: nat | c < 16 :: n[112 + c] == Sum(EmbColumn(m, c), SEVEN)
    ensures EmbRowsCoded(n, 7) && EmbColumnsEven(n)
  {
    hide Row16, Codeword, Sum;
    forall r: nat | r < 7 ensures EmbRow(m, r) == EmbRow(n, r) {
      assert m[..112][16 * r..16 * r + 16] == n[..112][16 * r..16 * r + 16];
    }
    forall c: nat | c < 16 ensures n[112 + c] == Sum(EmbColumn(n, c), SEVEN) {
      forall r: nat | r < 7 ensures EmbColumn(m, c)[r] == EmbColumn(n, c)[r] {
        assert m[..112][16 * r + c] == n[..112][16 * r + c];
      }
      assert EmbColumn(m, c)[..7] == EmbColumn(n, c)[..7];
      SumFrame(EmbColumn(m, c), EmbColumn(n, c), SEVEN, 7);
    }
  }

  // -------------------------------------------------- signalling over a voice burst

  lemma JoinNibbles(x: bv8, b: bv8, k: nat)
    requires k < 8
    ensures ByteBit((x & 0xF0) | (b & 0x0F), k) == if k < 4 then ByteBit(x, k) else ByteBit(b, k)
    ensures ByteBit((x & 0x0F) | (b & 0xF0), k) == if k < 4 then ByteBit(b, k) else ByteBit(x, k)
  {
  }

  /**
   Replaces bits 4 .. 4 + 8 * |s| - 8 - 1 of the bytes from `at` on: the low nibble of
   the first, all of the middle ones, the high nibble of the last.
   */
  method Splice(d: array<bv8>, at: nat, s: seq<bv8>)
    requires |s| >= 2 && at + |s| <= d.Length
    modifies d
    ensures forall p: nat | p < 8 * d.Length ::
      Bit(d[..], p) == if 8 * at + 4 <= p < 8 * (at + |s|) - 4 then Bit(s, p - 8 * at) else Bit(old(d[..]), p)
  {
    hide ByteBit, Bit;
    ghost var before := d[..];
    var n := |s| - 1;
    d[at] := (d[at] & 0xF0) | (s[0] & 0x0F);
    for i := 1 to n
      invariant d[at] == (before[at] & 0xF0) | (s[0] & 0x0F)
      invariant forall j: nat | j < d.Length && j != at :: d[j] == if at < j < at + i then s[j - at] else before[j]
    {
      d[at + i] := s[i];
    }
    d[at + n] := (d[at + n] & 0x0F) | (s[n] & 0xF0);
    forall p: nat | p < 8 * d.Length
      ensures Bit(d[..], p) == if 8 * at + 4 <= p < 8 * (at + |s|) - 4 then Bit(s, p - 8 * at) else Bit(before, p)
    {
      SplicedBit(before, d[..], at, s, p);
    }
  }

  lemma SplicedBit(d: seq<bv8>, e: seq<bv8>, at: nat, s: seq<bv8>, p: nat)
    requires |s| >= 2 && at + |s| <= |d| == |e| && p < 8 * |d|
    requires e[at] == (d[at] & 0xF0) | (s[0] & 0x0F)
    requires e[at + |s| - 1] == (d[at + |s| - 1] & 0x0F) | (s[|s| - 1] & 0xF0)
    requires forall j: nat | j < |d| && j != at && j != at + |s| - 1 :: e[j] == if at < j < at + |s| then s[j - at] else d[j]
    ensures Bit(e, p) == if 8 * at + 4 <= p < 8 * (at + |s|) - 4 then Bit(s, p - 8 * at) else Bit(d, p)
  {
    hide ByteBit;
    var j := p / 8;
    if at <= j < at + |s| {
      assert (p - 8 * at) / 8 == j - at && (p - 8 * at) % 8 == p % 8;
      if j == at {
        JoinNibbles(d[at], s[0], p % 8);
      } else if j == at + |s| - 1 {
        JoinNibbles(d[j], s[|s| - 1], p % 8);
      }
    }
  }

  const MS_SOURCED_AUDIO_SYNC: seq<bv8> := [0x07, 0xF7, 0xD5, 0xDD, 0x57, 0xDF, 0xD0]

  /** The sync overlay of bridge_el_send_dmrd on the first burst of a superframe. */
  method OverlaySync(d: array<bv8>)
    requires d.Length == 33
    modifies d
    ensures SameVoice(old(d[..]), d[..])
    ensures forall p: nat | 108 <= p < 156 :: Bit(d[..], p) == Bit(MS_SOURCED_AUDIO_SYNC, p - 104)
  {
    hide Bit, ByteBit;
    Splice(d, 13, MS_SOURCED_AUDIO_SYNC);
  }

  /** The 32 embedded bits that burst n of a superframe carries. */
  function EmbeddedChunk(raw: Word, n: nat): (w: Word)
    requires |raw| == 128
    ensures |w| == 32
  {
    if 1 <= n < 5 then raw[32 * (n - 1)..32 * n] else Zeros(32)
  }

  /** get_embedded_data: a quarter of the embedded LC in bursts 1 to 4, zeros in burst 5. */
  method OverlayEmbedded(d: array<bv8>, raw: Word, n: nat) returns (lcss: nat)
    requires d.Length == 33 && |raw| == 128
    modifies d
    ensures SameVoice(old(d[..]), d[..])
    ensures forall p: nat | 116 <= p < 148 :: Bit(d[..], p) == EmbeddedChunk(raw, n)[p - 116]
    ensures forall p: nat | p < 264 && !(116 <= p < 148) :: Bit(d[..], p) == Bit(old(d[..]), p)
    ensures lcss == if n == 1 then 1 else if n == 4 then 2 else if 1 < n < 4 then 3 else 0
  {
    hide Bit, ByteBit;
    var bits := Zeros(4) + EmbeddedChunk(raw, n) + Zeros(4);
    var s := PackAll(bits);
    PackAllBits(bits);
    Splice(d, 14, s);
    forall p: nat | 116 <= p < 148 ensures Bit(d[..], p) == EmbeddedChunk(raw, n)[p - 116] {
      assert Bit(s, p - 112) == BitsOf(s)[p - 112] == bits[p - 112];
    }
    lcss := if n == 1 then 1 else if n == 4 then 2 else if 1 < n < 4 then 3 else 0;
  }

  /** get_emb_data: the sixteen EMB bits, given as the two bytes of their code word, around the embedded LC. */
  method OverlayEmb(d: array<bv8>, emb: seq<bv8>)
    requires d.Length == 33 && |emb| == 2
    modifies d
    ensures SameVoice(old(d[..]), d[..])
    ensures forall p: nat | p < 264 && !(108 <= p < 116) && !(148 <= p < 156) :: Bit(d[..], p) == Bit(old(d[..]), p)
    ensures forall k: nat | k < 8 :: Bit(d[..], 108 + k) == ByteBit(emb[0], k) && Bit(d[..], 148 + k) == ByteBit(emb[1], k)
  {
    hide Bit, ByteBit;
    SpliceByte(d, 13, emb[0]);
    SpliceByte(d, 18, emb[1]);
  }

  /** A byte over the low nibble of one byte and the high nibble of the next. */
  method SpliceByte(d: array<bv8>, at: nat, b: bv8)
    requires at + 2 <= d.Length
    modifies d
    ensures forall p: nat | p < 8 * d.Length && !(8 * at + 4 <= p < 8 * at + 12) :: Bit(d[..], p) == Bit(old(d[..]), p)
    ensures forall k: nat | k < 8 :: Bit(d[..], 8 * at + 4 + k) == ByteBit(b, k)
  {
    hide ByteBit;
    var s := [(b >> 4) & 0x0F, (b << 4) & 0xF0];
    Splice(d, at, s);
    forall k: nat | k < 8 ensures Bit(d[..], 8 * at + 4 + k) == ByteBit(b, k) {
      Halves(b, k);
      assert Bit(s, 4 + k) == Bit(s, 8 * at + 4 + k - 8 * at);
    }
  }

  lemma Halves(b: bv8, k: nat)
    requires k < 8
    ensures k < 4 ==> ByteBit((b >> 4) & 0x0F, k + 4) == ByteBit(b, k)
    ensures k >= 4 ==> ByteBit((b << 4) & 0xF0, k - 4) == ByteBit(b, k)
  {
  }

  /** Bursts 1 to 4 together hold every bit of the link control. */
  lemma EmbeddedRecoverable(lc: seq<bv8>, m: Word, raw: Word, bursts: seq<seq<bv8>>, b: nat)
    requires |lc| == 9 && |m| == |raw| == 128 && LcPlaced(m, lc) && b < 72
    requires forall a: nat | a < 128 :: raw[a] == m[a % 8 * 16 + a / 8]
    requires |bursts| == 4 && forall n: nat | n < 4 :: |bursts[n]| == 33
    requires forall n: nat, p: nat | n < 4 && 116 <= p < 148 :: Bit(bursts[n], p) == EmbeddedChunk(raw, n + 1)[p - 116]
    ensures var a := LcCell(b) % 16 * 8 + LcCell(b) / 16;
            Bit(lc, b) == Bit(bursts[a / 32], 116 + a % 32)
  {
    hide Bit, LcCell, CrcBit, Crc5, BitsOf, EmbeddedChunk;
    var cell := LcCell(b);
    var a := cell % 16 * 8 + cell / 16;
    ReadOut(cell);
    var n, k := a / 32, a % 32;
    ChunkBit(raw, n, k);
    assert Bit(bursts[n], 116 + k) == EmbeddedChunk(raw, n + 1)[116 + k - 116];
    assert raw[a] == m[a % 8 * 16 + a / 8];
    assert BitsOf(lc)[b] == Bit(lc, b);
  }

  lemma ReadOut(cell: nat)
    requires cell < 128
    ensures var a := cell % 16 * 8 + cell / 16;
            a < 128 && a % 8 * 16 + a / 8 == cell
  {
    var a := cell % 16 * 8 + cell / 16;
    assert a % 8 == cell / 16 && a / 8 == cell % 16;
  }

  lemma ChunkBit(raw: Word, n: nat, k: nat)
    requires |raw| == 128 && n < 4 && k < 32
    ensures EmbeddedChunk(raw, n + 1)[k] == raw[32 * n + k]
  {
  }
}
