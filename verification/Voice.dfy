/**
 One 49-bit AMBE voice frame in its two wire forms (ModeConv.cpp): 72 bits of a DMR
 burst, with Golay protection and a scrambled second word, and 104 bits of a YSF
 voice channel, with repeated bits, whitening and a 26 by 4 interleaver.
 */
module Voice {
  import opened Bits
  import opened Golay
  import opened Payload
  import Interleave

  /** The raw AMBE fields: 12, 12 and 25 bits. */
  datatype Ambe = Ambe(a: Word, b: Word, c: Word) {
    predicate Ok() {
      |a| == 12 && |b| == 12 && |c| == 25
    }
  }

  type Frame = f: Ambe | f.Ok() witness Ambe(Zeros(12), Zeros(12), Zeros(25))

  /** PRNG_TABLE[dat_a] >> 1, as any function from 12 bits to 23. */
  ghost predicate Prng(prng: Word -> Word) {
    forall a: Word | |a| == 12 :: |prng(a)| == 23
  }

  lemma XorTwice(x: Word, p: Word)
    requires |x| == |p|
    ensures Xor(Xor(x, p), p) == x
  {
  }

  // -------------------------------------------------------------- seven bytes

  /** ambe7ToABC. */
  function FromBytes(s: seq<bv8>): Frame
    requires |s| == 7
  {
    var b := BitsOf(s);
    Ambe(b[..12], b[12..24], b[24..49])
  }

  /** abcToAMBE7; the seven bits behind the frame are zero. */
  function ToBytes(f: Frame): (s: seq<bv8>)
    ensures |s| == 7
  {
    PackAll(f.a + f.b + f.c + Zeros(7))
  }

  lemma BytesRoundTrip(f: Frame)
    ensures FromBytes(ToBytes(f)) == f
  {
    hide Pack;
    var b := f.a + f.b + f.c + Zeros(7);
    PackAllBits(b);
    assert b == f.a + (f.b + (f.c + Zeros(7)));
    assert b[..12] == f.a;
    assert b[12..24] == f.b;
    assert b[24..49] == f.c;
  }

  // ---------------------------------------------------------------- DMR form

  /** The 72 protected bits, in the order of DMR_A_TABLE, DMR_B_TABLE and DMR_C_TABLE. */
  function Protected(prng: Word -> Word, f: Frame): (w: Word)
    requires |prng(f.a)| == 23
    ensures |w| == 72
  {
    Encode24(f.a) + Xor(Encode23(f.b), prng(f.a)) + f.c
  }

  /** Stripping the protection, as dmr33ToAMBE does. */
  function Stripped(prng: Word -> Word, w: Word): Frame
    requires |w| == 72 && |prng(w[..12])| == 23
  {
    Ambe(w[..12], Xor(w[24..47], prng(w[..12]))[..12], w[47..])
  }

  lemma StripProtected(prng: Word -> Word, f: Frame)
    requires Prng(prng)
    ensures Stripped(prng, Protected(prng, f)) == f
  {
    hide Encode24, Encode23;
    var w := Protected(prng, f);
    var e := Xor(Encode23(f.b), prng(f.a));
    assert w[..12] == Encode24(f.a)[..12];
    assert w[24..47] == e;
    assert w[47..] == f.c;
    XorTwice(Encode23(f.b), prng(f.a));
  }

  /** Where protected bit k sits in its 72-bit record: the three tables end to end. */
  function Spot(k: nat): (n: nat)
    requires k < 72
    ensures n < 72
  {
    k % 18 * 4 + k / 18
  }

  lemma SpotInjective(j: nat, k: nat)
    requires j < 72 && k < 72 && Spot(j) == Spot(k)
    ensures j == k
  {
    assert Spot(k) / 4 == k % 18 && Spot(k) % 4 == k / 18;
    assert Spot(j) / 4 == j % 18 && Spot(j) % 4 == j / 18;
  }

  /** The protected bits of a nine-byte record. */
  function RecordBits(v: seq<bv8>): (w: Word)
    requires |v| == 9
    ensures |w| == 72 && forall k: nat | k < 72 :: w[k] == Bit(v, Spot(k))
  {
    seq(72, k requires 0 <= k < 72 => Bit(v, Spot(k)))
  }

  /** One of the three loops of putAMBE2DMR: writes w from table position `from` on. */
  method Spread(v: array<bv8>, w: Word, from: nat)
    requires v.Length == 9 && from + |w| <= 72
    modifies v
    ensures forall k: nat | k < 72 ::
      Bit(v[..], Spot(k)) == if from <= k < from + |w| then w[k - from] else Bit(old(v[..]), Spot(k))
  {
    hide Bit, Spot;
    for i := 0 to |w|
      invariant forall k: nat | k < 72 ::
        Bit(v[..], Spot(k)) == if from <= k < from + i then w[k - from] else Bit(old(v[..]), Spot(k))
    {
      ghost var before := v[..];
      WriteBit(v, Spot(from + i), w[i]);
      forall k: nat | k < 72 && k != from + i ensures Bit(v[..], Spot(k)) == Bit(before, Spot(k)) {
        if Spot(k) == Spot(from + i) {
          SpotInjective(k, from + i);
        }
      }
    }
  }

  /** putAMBE2DMR up to the queue: the nine-byte record of a frame. */
  method DmrRecord(prng: Word -> Word, f: Frame) returns (v: array<bv8>)
    requires Prng(prng)
    ensures fresh(v) && v.Length == 9 && RecordBits(v[..]) == Protected(prng, f)
  {
    hide Bit, Spot, Encode24, Encode23;
    v := new bv8[9];
    var a := Encode24(f.a);
    var p := prng(f.a);
    var b := Encode23(f.b);
    b := Xor(b, p);
    Spread(v, a, 0);
    Spread(v, b, 24);
    Spread(v, f.c, 47);
  }

  // ------------------------------------------------------------ a DMR burst

  /** Where bit n of record j lies in a 33-byte burst; bits 108 to 155 are signalling. */
  function Where(j: nat, n: nat): (p: nat)
    requires j < 3 && n < 72
    ensures p < 264 && !(108 <= p < 156)
  {
    if j == 0 then n else if j == 2 then 192 + n else if 72 + n >= 108 then 72 + n + 48 else 72 + n
  }

  /** The three records fill a burst in order, around the 48 signalling bits in its middle. */
  lemma WhereInOrder(p: nat) returns (j: nat, n: nat)
    requires p < 264 && !(108 <= p < 156)
    ensures j < 3 && n < 72 && Where(j, n) == p
    ensures forall i: nat, m: nat | i < 3 && m < 72 && 72 * i + m < 72 * j + n :: Where(i, m) < p
  {
    var q := if p < 108 then p else p - 48;
    j, n := q / 72, q % 72;
  }

  /** The protected bits of voice frame j of a burst. */
  function BurstBits(d: seq<bv8>, j: nat): (w: Word)
    requires |d| == 33 && j < 3
    ensures |w| == 72 && forall k: nat | k < 72 :: w[k] == Bit(d, Where(j, Spot(k)))
  {
    seq(72, k requires 0 <= k < 72 => Bit(d, Where(j, Spot(k))))
  }

  /** Two bursts that differ at most in their signalling bits. */
  ghost predicate SameVoice(d: seq<bv8>, e: seq<bv8>) {
    |d| == |e| == 33 && forall p: nat | p < 264 && !(108 <= p < 156) :: Bit(d, p) == Bit(e, p)
  }

  /** Sync and embedded signalling written over a burst do not reach its voice. */
  lemma VoiceUntouched(d: seq<bv8>, e: seq<bv8>, j: nat)
    requires SameVoice(d, e) && j < 3
    ensures BurstBits(d, j) == BurstBits(e, j)
  {
    hide Bit, Spot;
  }

  /** getDMR's packing of three records into a burst. */
  method PackBurst(r: seq<seq<bv8>>, data: array<bv8>)
    requires |r| == 3 && |r[0]| == |r[1]| == |r[2]| == 9 && data.Length == 33
    modifies data
    ensures forall j: nat | j < 3 :: BurstBits(data[..], j) == RecordBits(r[j])
    ensures data[14..19] == old(data[14..19])
  {
    ghost var keep := data[14..19];
    var tmp := r[1];
    CopyTo(data, 0, r[0]);
    CopyTo(data, 9, tmp[..4]);
    data[13] := tmp[4] & 0xF0;
    data[19] := tmp[4] & 0x0F;
    CopyTo(data, 20, tmp[5..]);
    CopyTo(data, 24, r[2]);
    assert forall i: nat | i < 5 :: data[14 + i] == keep[i];
    assert data[14..19] == keep;
    ghost var d := data[..];
    assert forall i: nat | i < 9 :: d[..9][i] == r[0][i];
    assert forall i: nat | i < 4 :: d[9..13][i] == tmp[..4][i];
    assert forall i: nat | i < 4 :: d[20..24][i] == tmp[5..][i];
    assert forall i: nat | i < 9 :: d[24..][i] == r[2][i];
    assert d[..9] == r[0] && d[24..] == r[2];
    assert d[9..13] == r[1][..4] && d[20..24] == r[1][5..];
    PackedVoice(r, d);
  }

  method CopyTo(data: array<bv8>, at: nat, s: seq<bv8>)
    requires at + |s| <= data.Length
    modifies data
    ensures forall i: nat | i < data.Length ::
      data[i] == if at <= i < at + |s| then s[i - at] else old(data[i])
  {
    for k := 0 to |s|
      invariant forall i: nat | i < data.Length ::
        data[i] == if at <= i < at + k then s[i - at] else old(data[i])
    {
      data[at + k] := s[k];
    }
  }

  lemma Nibbles(b: bv8, k: nat)
    requires k < 8
    ensures k < 4 ==> ByteBit(b & 0xF0, k) == ByteBit(b, k)
    ensures k >= 4 ==> ByteBit(b & 0x0F, k) == ByteBit(b, k)
  {
  }

  lemma PackedVoice(r: seq<seq<bv8>>, d: seq<bv8>)
    requires |r| == 3 && |r[0]| == |r[1]| == |r[2]| == 9 && |d| == 33
    requires d[..9] == r[0] && d[9..13] == r[1][..4] && d[20..24] == r[1][5..] && d[24..] == r[2]
    requires d[13] == r[1][4] & 0xF0 && d[19] == r[1][4] & 0x0F
    ensures forall j: nat | j < 3 :: BurstBits(d, j) == RecordBits(r[j])
  {
    hide Spot, Bit, Where;
    forall j: nat, n: nat | j < 3 && n < 72 ensures Bit(d, Where(j, n)) == Bit(r[j], n) {
      VoiceBit(r, d, j, n);
    }
  }

  lemma VoiceBit(r: seq<seq<bv8>>, d: seq<bv8>, j: nat, n: nat)
    requires |r| == 3 && |r[0]| == |r[1]| == |r[2]| == 9 && |d| == 33 && j < 3 && n < 72
    requires d[..9] == r[0] && d[9..13] == r[1][..4] && d[20..24] == r[1][5..] && d[24..] == r[2]
    requires d[13] == r[1][4] & 0xF0 && d[19] == r[1][4] & 0x0F
    ensures Bit(d, Where(j, n)) == Bit(r[j], n)
  {
    hide ByteBit;
    var q := n / 8;
    if j == 0 {
      assert d[..9][q] == d[q];
    } else if j == 2 {
      assert d[24..][q] == d[24 + q];
    } else {
      MiddleBit(r[1], d, n);
    }
  }

  /** The record in the middle is cut between two nibbles. */
  lemma MiddleBit(v: seq<bv8>, d: seq<bv8>, n: nat)
    requires |v| == 9 && |d| == 33 && n < 72
    requires d[9..13] == v[..4] && d[20..24] == v[5..] && d[13] == v[4] & 0xF0 && d[19] == v[4] & 0x0F
    ensures Bit(d, Where(1, n)) == Bit(v, n)
  {
    hide ByteBit;
    var q := n / 8;
    if n < 32 {
      assert d[9..13][q] == d[9 + q];
    } else if n < 40 {
      Nibbles(v[4], n % 8);
    } else {
      assert d[20..24][q - 5] == d[15 + q];
    }
  }

  /** The reading loops of putDMR and dmr33ToAMBE: the three voice frames of a burst. */
  method BurstFrames(prng: Word -> Word, d: array<bv8>) returns (fs: seq<Frame>)
    requires d.Length == 33 && Prng(prng)
    ensures |fs| == 3 && forall j: nat | j < 3 :: fs[j] == Stripped(prng, BurstBits(d[..], j))
  {
    hide Bit, Spot, Where;
    fs := [];
    for j := 0 to 3
      invariant |fs| == j && forall i: nat | i < j :: fs[i] == Stripped(prng, BurstBits(d[..], i))
    {
      var w: Word := [];
      for k := 0 to 72
        invariant w == BurstBits(d[..], j)[..k]
      {
        w := w + [Bit(d[..], Where(j, Spot(k)))];
      }
      assert w == BurstBits(d[..], j);
      fs := fs + [Stripped(prng, w)];
    }
  }

  // ---------------------------------------------------------------- YSF form

  /** The 104 channel bits of a frame before whitening: a, b and the head of c three times over. */
  function Channel(f: Frame): (v: Word)
    ensures |v| == 104
  {
    seq(104, i requires 0 <= i < 104 =>
      if i < 36 then f.a[i / 3]
      else if i < 72 then f.b[(i - 36) / 3]
      else if i < 81 then f.c[(i - 72) / 3]
      else if i < 103 then f.c[i - 78]
      else false)
  }

  /** Reading the middle copy of each repeated bit, as putYSF does. */
  function Unrepeated(v: Word): Frame
    requires |v| == 104
  {
    Ambe(seq(12, i requires 0 <= i < 12 => v[3 * i + 1]),
         seq(12, i requires 0 <= i < 12 => v[3 * (i + 12) + 1]),
         seq(25, i requires 0 <= i < 25 => if i < 3 then v[3 * (i + 24) + 1] else v[i + 78]))
  }

  lemma ChannelRoundTrip(f: Frame)
    ensures Unrepeated(Channel(f)) == f
  {
    var g := Unrepeated(Channel(f));
    assert g.a == f.a;
    assert g.b == f.b;
    assert g.c == f.c;
  }

  /** INTERLEAVE_TABLE_26_4. */
  function Cell(i: nat): (n: nat)
    requires i < 104
    ensures n < 104
  {
    i % 26 * 4 + i / 26
  }

  lemma CellInjective(j: nat, k: nat)
    requires j < 104 && k < 104 && Cell(j) == Cell(k)
    ensures j == k
  {
    assert Cell(k) / 4 == k % 26 && Cell(k) % 4 == k / 26;
    assert Cell(j) / 4 == j % 26 && Cell(j) % 4 == j / 26;
  }

  predicate WhiteBit(i: nat)
    requires i < 104
  {
    Bit(WHITENING, i)
  }

  /** The channel bits of a thirteen-byte record: deinterleaved and unwhitened. */
  function ChannelBits(v: seq<bv8>): (w: Word)
    requires |v| == 13
    ensures |w| == 104 && forall i: nat | i < 104 :: w[i] == (Bit(v, Cell(i)) != WhiteBit(i))
  {
    seq(104, i requires 0 <= i < 104 => Bit(v, Cell(i)) != WhiteBit(i))
  }

  /** putAMBE2YSF up to the queue: from the protected DMR words to the thirteen-byte record. */
  method YsfRecord(prng: Word -> Word, a: Word, b: Word, c: Word) returns (v: array<bv8>)
    requires Prng(prng) && |a| == 24 && |b| == 23 && |c| == 25
    ensures fresh(v) && v.Length == 13
    ensures ChannelBits(v[..]) == Channel(Stripped(prng, a + b + c))
  {
    hide Bit, Cell, WHITENING;
    var datA := a[..12];
    var datB := Xor(b, prng(datA))[..12];
    assert (a + b + c)[..12] == datA && (a + b + c)[24..47] == b && (a + b + c)[47..] == c;
    var vch := Repeated(datA, datB, c);
    v := Whiten(vch);
  }

  /** The loops that lay out the channel bits, three copies of each protected bit. */
  method Repeated(datA: Word, datB: Word, c: Word) returns (vch: Word)
    requires |datA| == |datB| == 12 && |c| == 25
    ensures vch == Channel(Ambe(datA, datB, c))
  {
    vch := [];
    for i := 0 to 12
      invariant |vch| == 3 * i && forall k: nat | k < 3 * i :: vch[k] == datA[k / 3]
    {
      vch := vch + [datA[i], datA[i], datA[i]];
    }
    for i := 0 to 12
      invariant |vch| == 36 + 3 * i && forall k: nat | k < 36 :: vch[k] == datA[k / 3]
      invariant forall k: nat | 36 <= k < 36 + 3 * i :: vch[k] == datB[(k - 36) / 3]
    {
      vch := vch + [datB[i], datB[i], datB[i]];
    }
    vch := vch + [c[0], c[0], c[0]] + [c[1], c[1], c[1]] + [c[2], c[2], c[2]] + c[3..] + [false];
  }

  /** Scrambling and interleaving of the channel bits. */
  method Whiten(vch: Word) returns (v: array<bv8>)
    requires |vch| == 104
    ensures fresh(v) && v.Length == 13 && ChannelBits(v[..]) == vch
  {
    hide Bit, Cell, WHITENING;
    v := new bv8[13];
    for i := 0 to 104
      invariant forall k: nat | k < i :: Bit(v[..], Cell(k)) == (vch[k] != WhiteBit(k))
    {
      ghost var before := v[..];
      WriteBit(v, Cell(i), vch[i] != WhiteBit(i));
      forall k: nat | k < i ensures Bit(v[..], Cell(k)) == Bit(before, Cell(k)) {
        if Cell(k) == Cell(i) {
          CellInjective(k, i);
        }
      }
    }
  }

  /** The frame that a thirteen-byte record carries. */
  function YsfFrame(v: seq<bv8>): Frame
    requires |v| == 13
  {
    Unrepeated(ChannelBits(v))
  }

  /** Record j of a YSF payload: the last thirteen bytes of its section. */
  function PayloadRecord(frame: seq<bv8>, j: nat): (v: seq<bv8>)
    requires |frame| == FRAME_LENGTH && j < 5
    ensures |v| == 13
  {
    frame[35 + 18 * j..48 + 18 * j]
  }

  /** A frame with new sync, FICH or data channel bytes carries the same voice. */
  lemma PayloadUntouched(f: seq<bv8>, g: seq<bv8>, j: nat)
    requires |f| == |g| == FRAME_LENGTH && j < 5
    requires forall n: nat | n < FRAME_LENGTH && Inside(5, 13, n) :: f[n] == g[n]
    ensures PayloadRecord(f, j) == PayloadRecord(g, j)
  {
    forall k: nat | k < 13 ensures PayloadRecord(f, j)[k] == PayloadRecord(g, j)[k] {
      var n := 35 + 18 * j + k;
      assert (n - 30) % 18 == 5 + k;
      assert Inside(5, 13, n);
    }
  }

  /** The body of putYSF's loop: the frame in section j. */
  method SectionFrame(frame: array<bv8>, j: nat) returns (f: Frame)
    requires frame.Length == FRAME_LENGTH && j < 5
    ensures f == YsfFrame(PayloadRecord(frame[..], j))
  {
    hide Bit, Cell, WHITENING;
    ghost var v := PayloadRecord(frame[..], j);
    var vch: Word := [];
    for i := 0 to 104
      invariant vch == ChannelBits(v)[..i]
    {
      Interleave.SliceBit(frame[..], 35 + 18 * j, 13, Cell(i));
      assert frame[..][35 + 18 * j..35 + 18 * j + 13] == v;
      var s := Bit(frame[..], 240 + 40 + 144 * j + Cell(i));
      vch := vch + [s != WhiteBit(i)];
    }
    assert vch == ChannelBits(v);
    f := Unrepeated(vch);
  }
}
