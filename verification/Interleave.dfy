/**
 The symbol interleaver in front of every coded block. A block of width w carries
 20w symbols in 5w bytes; symbol i travels in the two bits starting at
 INTERLEAVE_TABLE[i] = (i mod w) * 40 + (i div w) * 2. The FICH and the data
 channel use w = 5 (INTERLEAVE_TABLE, INTERLEAVE_TABLE_5_20), the frame headers
 w = 9 (INTERLEAVE_TABLE_9_20).
 */
module Interleave {
  import opened Bits
  import opened Trellis
  import opened Convolution

  predicate Width(w: nat) {
    w == 5 || w == 9
  }

  function Place(w: nat, i: nat): (n: nat)
    requires Width(w) && i < 20 * w
    ensures n % 2 == 0 && n + 1 < 40 * w
  {
    if w == 5 then i % 5 * 40 + i / 5 * 2 else i % 9 * 40 + i / 9 * 2
  }

  /** The symbol that travels in bit n. */
  function Home(w: nat, n: nat): (i: nat)
    requires Width(w) && n < 40 * w
    ensures i < 20 * w
  {
    if w == 5 then n % 40 / 2 * 5 + n / 40 else n % 40 / 2 * 9 + n / 40
  }

  lemma PlaceHome(w: nat, i: nat)
    requires Width(w) && i < 20 * w
    ensures Home(w, Place(w, i)) == Home(w, Place(w, i) + 1) == i
  {
    var q, r := i / w, i % w;
    var n := r * 40 + q * 2;
    assert n == Place(w, i);
    assert n / 40 == (n + 1) / 40 == r && n % 40 == q * 2 && (n + 1) % 40 == q * 2 + 1;
    assert q * 2 / 2 == q && (q * 2 + 1) / 2 == q;
  }

  lemma {:induction false} InRows5(i: nat)
    requires i < 100
    ensures i % 5 < 4 ==> Place(5, i + 1) == Place(5, i) + 40
    ensures i + 5 < 100 ==> Place(5, i + 5) == Place(5, i) + 2
  {
    var q, r := i / 5, i % 5;
    assert i + 5 == 5 * (q + 1) + r;
  }

  lemma {:induction false} InRows9(i: nat)
    requires i < 180
    ensures i % 9 < 8 ==> Place(9, i + 1) == Place(9, i) + 40
    ensures i + 9 < 180 ==> Place(9, i + 9) == Place(9, i) + 2
  {
    var q, r := i / 9, i % 9;
    assert i + 9 == 9 * (q + 1) + r;
  }

  /** Within a row of w symbols the next is forty bits on; the next row is two bits on. */
  lemma {:induction false} PlacesInRows(w: nat, i: nat)
    requires Width(w) && i < 20 * w
    ensures Place(w, 0) == 0
    ensures i % w < w - 1 ==> Place(w, i + 1) == Place(w, i) + 40
    ensures i + w < 20 * w ==> Place(w, i + w) == Place(w, i) + 2
  {
    if w == 5 {
      InRows5(i);
    } else {
      InRows9(i);
    }
  }

  /** So symbols less than w apart travel at least 38 bits apart: a short burst hits one of them. */
  lemma {:induction false} NearSymbolsApart(w: nat, i: nat, j: nat)
    requires Width(w) && i < j < i + w && j < 20 * w
    ensures Place(w, i) + 38 <= Place(w, j) || Place(w, j) + 38 <= Place(w, i)
  {
    var q, r, p, t := i / w, i % w, j / w, j % w;
    assert i == q * w + r && j == p * w + t;
    assert p == q || p == q + 1;
  }

  /** The symbols of a received block, put back in order. */
  function Deinterleaved(block: seq<bv8>, w: nat): (r: seq<Dibit>)
    requires Width(w) && |block| == 5 * w
    ensures |r| == 20 * w
    ensures forall i: nat | i < 20 * w :: r[i] == Dibit(Bit(block, Place(w, i)), Bit(block, Place(w, i) + 1))
  {
    seq(20 * w, i requires 0 <= i < 20 * w => Dibit(Bit(block, Place(w, i)), Bit(block, Place(w, i) + 1)))
  }

  /** Two buffers that agree everywhere but in at most one bit. */
  ghost predicate OneBitAway(a: seq<bv8>, b: seq<bv8>) {
    |a| == |b| && exists p: nat :: AgreeBut(a, b, p)
  }

  ghost predicate AgreeBut(a: seq<bv8>, b: seq<bv8>, p: nat)
    requires |a| == |b|
  {
    forall i: nat | i < 8 * |a| && i != p :: Bit(a, i) == Bit(b, i)
  }

  lemma SameBlock(a: seq<bv8>)
    ensures OneBitAway(a, a)
  {
    assert AgreeBut(a, a, 0);
  }

  lemma {:induction false} DistanceOne(a: seq<Dibit>, b: seq<Dibit>, k: nat)
    requires |a| == |b|
    requires forall i: nat | i < |a| && i != k :: a[i] == b[i]
    requires k < |a| ==> Gap(a[k], b[k]) <= 1
    ensures Distance(a, b) <= 1
    ensures k >= |a| ==> Distance(a, b) == 0
    decreases |a|
  {
    if a != [] {
      DistanceOne(a[..|a| - 1], b[..|b| - 1], k);
    }
  }

  /** One wrong bit in the block is one wrong bit in the symbol stream. */
  lemma OneBitAwaySymbols(a: seq<bv8>, b: seq<bv8>, w: nat)
    requires Width(w) && |a| == |b| == 5 * w
    requires OneBitAway(a, b)
    ensures Distance(Deinterleaved(a, w), Deinterleaved(b, w)) <= 1
  {
    hide Bit, Place, Home;
    var p: nat :| AgreeBut(a, b, p);
    var x, y := Deinterleaved(a, w), Deinterleaved(b, w);
    var k := if p < 40 * w then Home(w, p) else 20 * w;
    forall i: nat | i < 20 * w && i != k ensures x[i] == y[i] {
      PlaceHome(w, i);
    }
    if k < 20 * w {
      assert Gap(x[k], y[k]) <= 1;
    }
    DistanceOne(x, y, k);
  }

  /** The interleaving loop: copies the symbols of convolved into the block at byte `at` of out. */
  method Scatter(convolved: array<bv8>, out: array<bv8>, at: nat, w: nat)
    requires Width(w) && convolved.Length == 5 * w && at + 5 * w <= out.Length && convolved != out
    modifies out
    ensures forall i: nat | i < 20 * w :: Deinterleaved(out[at..at + 5 * w], w)[i] == Symbol(convolved[..], i)
    ensures forall j: nat | j < out.Length && !(at <= j < at + 5 * w) :: out[j] == old(out[j])
  {
    hide Bit, Place, Home;
    var j := 0;
    for i := 0 to 20 * w
      invariant j == 2 * i
      invariant forall k: nat | k < i ::
        Dibit(Bit(out[..], 8 * at + Place(w, k)), Bit(out[..], 8 * at + Place(w, k) + 1)) == Symbol(convolved[..], k)
      invariant forall k: nat | k < out.Length && !(at <= k < at + 5 * w) :: out[k] == old(out[k])
    {
      var n := Place(w, i);
      var s0 := Bit(convolved[..], j);
      j := j + 1;
      var s1 := Bit(convolved[..], j);
      j := j + 1;
      ghost var before := out[..];
      WriteBit(out, 8 * at + n, s0);
      n := n + 1;
      WriteBit(out, 8 * at + n, s1);
      forall k: nat | k < i
        ensures Bit(out[..], 8 * at + Place(w, k)) == Bit(before, 8 * at + Place(w, k))
        ensures Bit(out[..], 8 * at + Place(w, k) + 1) == Bit(before, 8 * at + Place(w, k) + 1)
      {
        PlaceHome(w, k);
        PlaceHome(w, i);
      }
    }
    forall i: nat | i < 20 * w ensures Deinterleaved(out[at..at + 5 * w], w)[i] == Symbol(convolved[..], i) {
      SliceBit(out[..], at, 5 * w, Place(w, i));
      SliceBit(out[..], at, 5 * w, Place(w, i) + 1);
    }
  }

  /** Bit n of a slice is bit 8 * at + n of the whole. */
  lemma SliceBit(s: seq<bv8>, at: nat, len: nat, n: nat)
    requires at + len <= |s| && n < 8 * len
    ensures Bit(s[at..at + len], n) == Bit(s, 8 * at + n)
  {
    assert (8 * at + n) / 8 == at + n / 8 && (8 * at + n) % 8 == n % 8;
  }

  /** The decoding loop: feeds the block at byte `at` of bytes to a started decoder. */
  method Gather(dec: Decoder, bytes: array<bv8>, at: nat, w: nat)
    requires Width(w) && at + 5 * w <= bytes.Length
    requires dec.Shape()
    requires bytes as object !in {dec.metrics1, dec.metrics2, dec.decisions}
    modifies dec, dec.metrics1, dec.metrics2, dec.decisions
    ensures dec.Valid() && dec.received == Deinterleaved(bytes[at..at + 5 * w], w)
  {
    hide Bit, Place, Home;
    dec.Start();
    ghost var block := bytes[at..at + 5 * w];
    for i := 0 to 20 * w
      invariant dec.Valid() && dec.received == Deinterleaved(block, w)[..i]
      invariant bytes[at..at + 5 * w] == block
    {
      var n := Place(w, i);
      SliceBit(bytes[..], at, 5 * w, n);
      SliceBit(bytes[..], at, 5 * w, n + 1);
      assert bytes[..][at..at + 5 * w] == block;
      var s0 := Bit(bytes[..], 8 * at + n);
      n := n + 1;
      var s1 := Bit(bytes[..], 8 * at + n);
      dec.Decode(s0, s1);
    }
  }

  /** Decodes the block at byte `at`: the loop over its symbols, then chainback over all but four. */
  method DecodeBlock(dec: Decoder, bytes: array<bv8>, at: nat, w: nat) returns (output: array<bv8>)
    requires Width(w) && at + 5 * w <= bytes.Length
    requires dec.Shape()
    requires bytes as object !in {dec.metrics1, dec.metrics2, dec.decisions}
    modifies dec, dec.metrics1, dec.metrics2, dec.decisions
    ensures fresh(output) && 8 * output.Length == 20 * w + 4
    ensures BitsOf(output[..])[..20 * w - 4] == Recovered(Deinterleaved(bytes[at..at + 5 * w], w))
  {
    hide Deinterleaved, Trace, Bit, Metric, Decision, StateOf;
    Gather(dec, bytes, at, w);
    ghost var r := Deinterleaved(bytes[at..at + 5 * w], w);
    output := new bv8[(20 * w + 4) / 8];
    dec.Chainback(output, 20 * w - 4);
    ghost var o := BitsOf(output[..]);
    forall n: nat | n < 20 * w - 4 ensures o[n] == Recovered(r)[n] {
      assert o[n] == Bit(output[..], n) == Trace(dec.received, ZERO, dec.dp + n).d4;
    }
  }

  /** Encodes 20w bits into the block at byte `at`. */
  method EncodeBlock(conv: array<bv8>, out: array<bv8>, at: nat, w: nat)
    requires Width(w) && 8 * conv.Length >= 20 * w && at + 5 * w <= out.Length && conv != out
    modifies out
    ensures Deinterleaved(out[at..at + 5 * w], w) == Code(ZERO, BitsOf(conv[..])[..20 * w])
    ensures forall j: nat | j < out.Length && !(at <= j < at + 5 * w) :: out[j] == old(out[j])
  {
    hide Deinterleaved, Code, Symbol, Bit, BitsOf;
    var convolved := new bv8[5 * w];
    Convolution.Encode(conv, convolved, 20 * w);
    ghost var c := Code(ZERO, BitsOf(conv[..])[..20 * w]);
    Scatter(convolved, out, at, w);
    forall i: nat | i < 20 * w ensures Deinterleaved(out[at..at + 5 * w], w)[i] == c[i] {
      assert Symbol(convolved[..], i) == c[i];
    }
  }

  /** Every bit of a block belongs to a symbol, so the symbols determine the block. */
  lemma HomePlace(w: nat, n: nat)
    requires Width(w) && n < 40 * w
    ensures Place(w, Home(w, n)) == n - n % 2
  {
    var r, q := n / 40, n % 40 / 2;
    assert r < w && Home(w, n) == q * w + r;
    assert (q * w + r) / w == q && (q * w + r) % w == r;
  }

  lemma DeinterleavedInjective(a: seq<bv8>, b: seq<bv8>, w: nat)
    requires Width(w) && |a| == |b| == 5 * w && Deinterleaved(a, w) == Deinterleaved(b, w)
    ensures a == b
  {
    hide Place, Home, Bit;
    forall n: nat | n < 40 * w ensures BitsOf(a)[n] == BitsOf(b)[n] {
      HomePlace(w, n);
      var i := Home(w, n);
      assert Deinterleaved(a, w)[i] == Deinterleaved(b, w)[i];
    }
    BitsInjective(a, b);
  }
}
