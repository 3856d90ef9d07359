/**
 Two wrong bits in the blocks on the air. What the convolutional decoder makes of them is known to the
 bit (TwoWrongBits); here it goes on through the Golay words of a FICH and the checksum of a payload
 block, which is where such a block is saved or given up.
 */
module TwoBitBlocks {
  import opened Bits
  import opened Trellis
  import opened Interleave
  import Convolution
  import Crc
  import Fich
  import Golay
  import GolayDistance
  import Payload
  import T = TwoWrongBits
  import Weights

  // ----------------------------------------------------- from the air to symbols

  /** Two buffers that differ in bits p and q, and nowhere else. */
  ghost predicate Wrong(sent: seq<bv8>, block: seq<bv8>, p: nat, q: nat) {
    && |sent| == |block| && p < q < 8 * |block|
    && forall n: nat | n < 8 * |block| :: Bit(block, n) == (Bit(sent, n) != (n == p || n == q))
  }

  /** The coded bit that travels in bit n of a block. */
  function CodedAt(w: nat, n: nat): (k: nat)
    requires Width(w) && n < 40 * w
    ensures k < 40 * w
  {
    2 * Home(w, n) + n % 2
  }

  lemma {:induction false} CodedAtInjective(w: nat, m: nat, n: nat)
    requires Width(w) && m < 40 * w && n < 40 * w && CodedAt(w, m) == CodedAt(w, n)
    ensures m == n
  {
    hide Home, Place;
    HomePlace(w, m);
    HomePlace(w, n);
  }

  /** Where coded bit k travels. */
  function Carrier(w: nat, k: nat): (n: nat)
    requires Width(w) && k < 40 * w
    ensures n < 40 * w
  {
    Place(w, k / 2) + k % 2
  }

  lemma {:induction false} CarrierAt(w: nat, k: nat)
    requires Width(w) && k < 40 * w
    ensures CodedAt(w, Carrier(w, k)) == k
  {
    hide Home, Place;
    PlaceHome(w, k / 2);
  }

  lemma {:induction false} SymbolBit(block: seq<bv8>, w: nat, k: nat)
    requires Width(w) && |block| == 5 * w && k < 40 * w
    ensures T.CodedBit(Deinterleaved(block, w), k) == Bit(block, Carrier(w, k))
  {
    hide Bit, Place;
  }

  lemma {:induction false} SameSymbols(a: seq<Dibit>, b: seq<Dibit>)
    requires |a| == |b| && forall k: nat | k < 2 * |a| :: T.CodedBit(a, k) == T.CodedBit(b, k)
    ensures a == b
  {
    forall t: nat | t < |a| ensures a[t] == b[t] {
      assert T.CodedBit(a, 2 * t) == T.CodedBit(b, 2 * t);
      assert T.CodedBit(a, 2 * t + 1) == T.CodedBit(b, 2 * t + 1);
    }
  }

  lemma {:induction false} HitBit(u: seq<bool>, i: nat, j: nat, k: nat)
    requires i < j < 2 * |u| && k < 2 * |u|
    ensures T.CodedBit(T.Hit(u, i, j), k) == (T.CodedBit(Code(ZERO, u), k) != (k == i || k == j))
  {
    hide T.CodedBit, T.Flip, Code;
    var c := Code(ZERO, u);
    T.FlipBit(c, i, k);
    T.FlipBit(T.Flip(c, i), j, k);
  }

  function Lesser(a: nat, b: nat): nat {
    if a < b then a else b
  }

  function Greater(a: nat, b: nat): nat {
    if a < b then b else a
  }

  /** Two wrong bits on the air are two wrong bits of the code. */
  lemma {:induction false} WrongIsHit(sent: seq<bv8>, block: seq<bv8>, w: nat, u: seq<bool>, p: nat, q: nat)
    requires Width(w) && |sent| == 5 * w && |u| == 20 * w && Deinterleaved(sent, w) == Code(ZERO, u) && Wrong(sent, block, p, q)
    ensures var a, b := CodedAt(w, p), CodedAt(w, q);
      a != b && Deinterleaved(block, w) == T.Hit(u, Lesser(a, b), Greater(a, b))
  {
    hide Deinterleaved, Code, Bit, Place, Home, T.CodedBit, T.Hit, Carrier, CodedAt;
    var a, b := CodedAt(w, p), CodedAt(w, q);
    if a == b {
      CodedAtInjective(w, p, q);
    }
    var r, h := Deinterleaved(block, w), T.Hit(u, Lesser(a, b), Greater(a, b));
    forall k: nat | k < 2 * |r| ensures T.CodedBit(r, k) == T.CodedBit(h, k) {
      var n := Carrier(w, k);
      CarrierAt(w, k);
      SymbolBit(block, w, k);
      SymbolBit(sent, w, k);
      HitBit(u, Lesser(a, b), Greater(a, b), k);
      if k == a {
        CodedAtInjective(w, n, p);
      } else if k == b {
        CodedAtInjective(w, n, q);
      }
      assert Bit(block, n) == (Bit(sent, n) != (n == p || n == q));
    }
    SameSymbols(r, h);
  }

  // ---------------------------------------------------------------------- FICH

  /** The four patterns of errors in the first two data bits of a Golay word. */
  function FirstTwo(a: bool, b: bool): (e: Golay.Word)
    ensures |e| == 24
  {
    [a, b] + Golay.Zeros(22)
  }

  /** The table corrects errors in the first two data bits of a word. */
  ghost predicate RightForFirstTwo(table: Golay.Word -> Golay.Word)
    requires Golay.DecodingTable(table)
  {
    forall a: bool, b: bool :: table(Golay.Syndrome(FirstTwo(a, b)[..23]))[..12] == FirstTwo(a, b)[..12]
  }

  /** A table that looks for those four patterns and knows no others. */
  function FirstTwoTable(s: Golay.Word): (e: Golay.Word)
    ensures |e| == 23
  {
    if |s| != 11 then Golay.Zeros(23)
    else if s == Golay.Syndrome(FirstTwo(true, false)[..23]) then FirstTwo(true, false)[..23]
    else if s == Golay.Syndrome(FirstTwo(false, true)[..23]) then FirstTwo(false, true)[..23]
    else if s == Golay.Syndrome(FirstTwo(true, true)[..23]) then FirstTwo(true, true)[..23]
    else Golay.Zeros(23)
  }

  /** There are such tables: the four patterns have four syndromes. */
  lemma {:induction false} RightTableExists()
    ensures Golay.DecodingTable(FirstTwoTable) && RightForFirstTwo(FirstTwoTable)
  {
    hide Golay.Syndrome;
    var none, first, second, both :=
      FirstTwo(false, false)[..23], FirstTwo(true, false)[..23], FirstTwo(false, true)[..23], FirstTwo(true, true)[..23];
    NoErrorsSyndrome();
    assert first[0] && !first[1] && !second[0] && second[1] && both[0] && both[1] && !none[0] && !none[1];
    Golay.ShortErrorsDiffer(none, first);
    Golay.ShortErrorsDiffer(none, second);
    Golay.ShortErrorsDiffer(none, both);
    Golay.ShortErrorsDiffer(first, second);
    Golay.ShortErrorsDiffer(first, both);
    Golay.ShortErrorsDiffer(second, both);
    assert none == Golay.Zeros(23);
  }

  /** The table of the decoder, which knows all errors of up to three bits, is one. */
  lemma {:induction false} ThreeErrorTableIsRight(table: Golay.Word -> Golay.Word)
    requires Golay.DecodingTable(table) && GolayDistance.KnowsThree(table)
    ensures RightForFirstTwo(table)
  {
    hide Golay.Syndrome, Weights.Weight;
    forall a: bool, b: bool
      ensures table(Golay.Syndrome(FirstTwo(a, b)[..23]))[..12] == FirstTwo(a, b)[..12]
    {
      var e := FirstTwo(a, b)[..23];
      FirstTwoWeight(a, b);
      assert table(Golay.Syndrome(e)) == e;
      assert e[..12] == FirstTwo(a, b)[..12];
    }
  }

  lemma {:induction false} FirstTwoWeight(a: bool, b: bool)
    ensures Weights.Weight(FirstTwo(a, b)[..23]) <= 2
  {
    hide Weights.Weight;
    assert FirstTwo(a, b)[..23] == [a, b] + Golay.Zeros(21);
    Weights.WeightSum([a, b], Golay.Zeros(21));
    Weights.WeightZero(Golay.Zeros(21));
  }

  lemma {:induction false} NoErrorsSyndrome()
    ensures FirstTwo(false, false)[..23] == Golay.Zeros(23) && Golay.Syndrome(Golay.Zeros(23)) == Golay.Zeros(11)
  {
    Golay.DividedDone(Golay.Zeros(23), 0);
  }

  /** The errors a rival makes in the first Golay word. */
  function RivalErrors(k: nat): (e: Golay.Word)
    requires k < 4
    ensures |e| == 24
  {
    FirstTwo(Rivals[k].inputs[0], |Rivals[k].inputs| == 2)
  }

  lemma {:induction false} RivalErrorsAre(k: nat, n: nat)
    requires k < 4 && n < 100
    ensures Inputs(k, 100)[n] == (n < 24 && RivalErrors(k)[n])
  {
  }

  /** The Golay words that arrive when chainback delivers a rival: the first has the rival's errors. */
  lemma {:induction false} RivalWords(m: seq<bv8>, k: nat, c: seq<bool>, word: nat)
    requires |m| == 6 && k < 4 && word < 4 && c == T.RivalInputs(Fich.Message(m), k)[..96]
    ensures c[24 * word..24 * word + 24] ==
      if word == 0 then Golay.Xor(Golay.Encode24(Fich.DataWord(m, 0)), RivalErrors(k))
      else Golay.Encode24(Fich.DataWord(m, word))
  {
    hide Golay.Encode24, Fich.DataWord, Inputs, RivalErrors;
    var g := Golay.Encode24(Fich.DataWord(m, word));
    forall j: nat | j < 24 ensures c[24 * word + j] == (g[j] != (word == 0 && RivalErrors(k)[j])) {
      assert (24 * word + j) / 24 == word && (24 * word + j) % 24 == j;
      assert Fich.Message(m)[24 * word + j] == Fich.Coded(m)[24 * word + j] == g[j];
      RivalErrorsAre(k, 24 * word + j);
    }
  }

  /** The data word that a Golay word with a rival's errors is decoded to. */
  lemma {:induction false} RivalDecoded(table: Golay.Word -> Golay.Word, m: seq<bv8>, r: seq<Dibit>, k: nat, word: nat)
    requires |m| == 6 && |r| == 100 && k < 4 && word < 4 && Golay.DecodingTable(table)
    requires Convolution.Recovered(r) == T.RivalInputs(Fich.Message(m), k)[..96]
    ensures Fich.DecodedWord(table, r, word) == Fich.DataWord(m, word)
      <==> word > 0 || table(Golay.Syndrome(RivalErrors(k)[..23]))[..12] == RivalErrors(k)[..12]
  {
    hide Golay.Encode24, Fich.DataWord, Golay.Syndrome, RivalErrors, T.RivalInputs, Fich.Message, Convolution.Recovered,
         Golay.Decoded24;
    var c, d := Convolution.Recovered(r), Fich.DataWord(m, word);
    RivalWords(m, k, c, word);
    if word == 0 {
      assert c[24 * word..24 * word + 24] == c[0..24];
      Golay.DecodesIff(table, d, RivalErrors(k));
    } else {
      Golay.DecodeEncode24(table, d);
    }
  }

  lemma {:induction false} ReceivedIff(table: Golay.Word -> Golay.Word, m: seq<bv8>, block: seq<bv8>)
    requires |m| == 6 && |block| == 25 && Golay.DecodingTable(table)
    ensures Fich.Received(table, block) == m
      <==> forall word: nat | word < 4 :: Fich.DecodedWord(table, Deinterleaved(block, 5), word) == Fich.DataWord(m, word)
  {
    hide Golay.DecodingTable, Fich.DecodedWord, Bit, PackAll, Deinterleaved;
    var r := Deinterleaved(block, 5);
    var bits := Fich.ReceivedBits(table, r);
    PackAllBits(bits);
    if bits == BitsOf(m) {
      BitsInjective(PackAll(bits), m);
      forall word: nat | word < 4 ensures Fich.DecodedWord(table, r, word) == Fich.DataWord(m, word) {
        forall j: nat | j < 12 ensures Fich.DecodedWord(table, r, word)[j] == Fich.DataWord(m, word)[j] {
          assert (12 * word + j) / 12 == word && (12 * word + j) % 12 == j;
          assert bits[12 * word + j] == BitsOf(m)[12 * word + j];
        }
      }
    } else {
      var n: nat :| n < 48 && bits[n] != BitsOf(m)[n];
      assert Fich.DecodedWord(table, r, n / 12)[n % 12] != Fich.DataWord(m, n / 12)[n % 12];
    }
  }

  /** Every FICH survives every two wrong bits if the table is right for the first two data bits. */
  lemma {:induction false} FichSurvivesTwoBits(table: Golay.Word -> Golay.Word, sent: seq<bv8>, block: seq<bv8>, m: seq<bv8>, p: nat, q: nat)
    requires Golay.DecodingTable(table) && RightForFirstTwo(table)
    requires Fich.Carries(sent, m) && Wrong(sent, block, p, q)
    ensures Fich.Received(table, block) == m
  {
    hide Deinterleaved, Code, Convolution.Recovered, T.Fooled, T.Hit, CodedAt, T.RivalInputs, T.FooledBy, Bit, Fich.Coded,
         Golay.DecodingTable, RightForFirstTwo, Fich.Received, Fich.DecodedWord, Fich.DataWord;
    var u, r := Fich.Message(m), Deinterleaved(block, 5);
    var i, j := Lesser(CodedAt(5, p), CodedAt(5, q)), Greater(CodedAt(5, p), CodedAt(5, q));
    WrongIsHit(sent, block, 5, u, p, q);
    T.DecodesTwoBitsIff(u, i, j);
    if T.Fooled(u, i, j) {
      var k := T.DeliversRival(u, i, j);
      RightForRival(table, k);
      forall word: nat | word < 4 ensures Fich.DecodedWord(table, r, word) == Fich.DataWord(m, word) {
        RivalDecoded(table, m, r, k, word);
      }
    } else {
      assert u[..96] == Fich.Coded(m);
      forall word: nat | word < 4 ensures Fich.DecodedWord(table, r, word) == Fich.DataWord(m, word) {
        Fich.WordDecodes(table, m, r, word);
      }
    }
    ReceivedIff(table, m, block);
  }

  lemma {:induction false} RightForRival(table: Golay.Word -> Golay.Word, k: nat)
    requires Golay.DecodingTable(table) && RightForFirstTwo(table) && k < 4
    ensures table(Golay.Syndrome(RivalErrors(k)[..23]))[..12] == RivalErrors(k)[..12]
  {
  }

  /** The block that carries given symbols. */
  function Interleaved(c: seq<Dibit>, w: nat): (block: seq<bv8>)
    requires Width(w) && |c| == 20 * w
    ensures |block| == 5 * w
  {
    PackAll(seq(40 * w, n requires 0 <= n < 40 * w => T.CodedBit(c, CodedAt(w, n))))
  }

  lemma {:induction false} InterleavedBits(c: seq<Dibit>, w: nat)
    requires Width(w) && |c| == 20 * w
    ensures forall n: nat | n < 40 * w :: Bit(Interleaved(c, w), n) == T.CodedBit(c, CodedAt(w, n))
    ensures Deinterleaved(Interleaved(c, w), w) == c
  {
    hide Deinterleaved, T.CodedBit, Carrier, CodedAt, Bit, PackAll;
    var bits := seq(40 * w, n requires 0 <= n < 40 * w => T.CodedBit(c, CodedAt(w, n)));
    var block := Interleaved(c, w);
    PackAllBits(bits);
    forall n: nat | n < 40 * w ensures Bit(block, n) == T.CodedBit(c, CodedAt(w, n)) {
      assert BitsOf(block)[n] == bits[n];
    }
    var r := Deinterleaved(block, w);
    forall k: nat | k < 2 * |r| ensures T.CodedBit(r, k) == T.CodedBit(c, k) {
      SymbolBit(block, w, k);
      CarrierAt(w, k);
    }
    SameSymbols(r, c);
  }

  /** Every two wrong bits of a code can happen on the air. */
  lemma {:induction false} HitIsWrong(u: seq<bool>, w: nat, i: nat, j: nat)
    requires Width(w) && |u| == 20 * w && i < j < 40 * w
    ensures var a, b := Carrier(w, i), Carrier(w, j);
      Wrong(Interleaved(Code(ZERO, u), w), Interleaved(T.Hit(u, i, j), w), Lesser(a, b), Greater(a, b))
  {
    hide Deinterleaved, T.CodedBit, Carrier, CodedAt, Bit, Interleaved, Code, T.Hit;
    var a, b := Carrier(w, i), Carrier(w, j);
    var sent, block := Interleaved(Code(ZERO, u), w), Interleaved(T.Hit(u, i, j), w);
    InterleavedBits(Code(ZERO, u), w);
    InterleavedBits(T.Hit(u, i, j), w);
    CarrierAt(w, i);
    CarrierAt(w, j);
    forall n: nat | n < 40 * w ensures Bit(block, n) == (Bit(sent, n) != (n == a || n == b)) {
      HitBit(u, i, j, CodedAt(w, n));
      if CodedAt(w, n) == i {
        CodedAtInjective(w, n, a);
      } else if CodedAt(w, n) == j {
        CodedAtInjective(w, n, b);
      }
    }
  }

  /** Two coded bits that lie on one rival only, for each pattern of errors. */
  function OnlyRival(a: bool, b: bool): (x: (nat, nat, nat))
    requires a || b
    ensures x.2 < 4 && x.0 < x.1 < 12 && RivalErrors(x.2) == FirstTwo(a, b)
    ensures forall k: nat | k < 4 :: x.0 in Rivals[k].bits && x.1 in Rivals[k].bits <==> k == x.2
  {
    if !b then (4, 6, 0) else if a then (4, 10, 2) else (6, 10, 3)
  }

  const NoBytes: seq<bv8> := [0, 0, 0, 0, 0, 0]

  lemma {:induction false} NoBytesMessage()
    ensures !Fich.Message(NoBytes)[0] && !Fich.Message(NoBytes)[1]
  {
    hide Golay.Encode24;
    var d := Fich.DataWord(NoBytes, 0);
    assert Golay.Encode24(d)[..12] == d;
    assert Golay.Encode24(d)[0] == d[0] == BitsOf(NoBytes)[0];
    assert Golay.Encode24(d)[1] == d[1] == BitsOf(NoBytes)[1];
    assert !Bit(NoBytes, 0) && !Bit(NoBytes, 1);
  }

  /** Without errors there is nothing a table could get wrong. */
  lemma {:induction false} NoErrorsRight(table: Golay.Word -> Golay.Word)
    requires Golay.DecodingTable(table)
    ensures table(Golay.Syndrome(FirstTwo(false, false)[..23]))[..12] == FirstTwo(false, false)[..12]
  {
    NoErrorsSyndrome();
  }

  /** And only then: for a table that is wrong for one of them, there is a FICH that does not survive
      some two wrong bits. */
  lemma {:induction false} FichNeedsFirstTwo(table: Golay.Word -> Golay.Word)
      returns (sent: seq<bv8>, block: seq<bv8>, m: seq<bv8>, p: nat, q: nat)
    requires Golay.DecodingTable(table) && !RightForFirstTwo(table)
    ensures Fich.Carries(sent, m) && Wrong(sent, block, p, q) && Fich.Received(table, block) != m
  {
    hide Deinterleaved, Code, Convolution.Recovered, T.Hit, Carrier, T.RivalInputs, Bit, Fich.Message, Interleaved,
         Fich.Received, Fich.DecodedWord, Fich.DataWord, FirstTwo, Golay.Syndrome, RivalErrors, Wrong;
    var a: bool, b: bool :| table(Golay.Syndrome(FirstTwo(a, b)[..23]))[..12] != FirstTwo(a, b)[..12];
    NoErrorsRight(table);
    var x := OnlyRival(a, b);
    m := NoBytes;
    var u := Fich.Message(m);
    NoBytesMessage();
    sent, block := Interleaved(Code(ZERO, u), 5), Interleaved(T.Hit(u, x.0, x.1), 5);
    p, q := Lesser(Carrier(5, x.0), Carrier(5, x.1)), Greater(Carrier(5, x.0), Carrier(5, x.1));
    InterleavedBits(Code(ZERO, u), 5);
    InterleavedBits(T.Hit(u, x.0, x.1), 5);
    HitIsWrong(u, 5, x.0, x.1);
    IsFooled(u, x.0, x.1, x.2);
    var k := T.DeliversRival(u, x.0, x.1);
    assert k == x.2;
    RivalDecoded(table, m, Deinterleaved(block, 5), k, 0);
    ReceivedIff(table, m, block);
  }

  lemma {:induction false} IsFooled(u: seq<bool>, i: nat, j: nat, k: nat)
    requires k < 4 && |u| >= 6 && i in Rivals[k].bits && j in Rivals[k].bits && !u[0] && !u[1]
    ensures T.Fooled(u, i, j)
  {
    assert T.FooledBy(u, i, j, k);
    assert k == 0 || k == 1 || k == 2 || k == 3;
  }

  // ------------------------------------------------------------ payload blocks

  /** The wrong bits lie on a rival of the message, with its message bit zero. */
  predicate Unlucky(u: seq<bool>, w: nat, p: nat, q: nat)
    requires Width(w) && p < 40 * w && q < 40 * w
  {
    T.Fooled(u, Lesser(CodedAt(w, p), CodedAt(w, q)), Greater(CodedAt(w, p), CodedAt(w, q)))
  }

  /** A buffer that differs in the first byte only does not close with its checksum. */
  lemma {:induction false} DamageDetected(s: seq<bv8>, x: seq<bv8>)
    requires |s| == |x| > 2 && Crc.Checks(s) && s[0] != x[0] && s[1..] == x[1..]
    ensures !Crc.Checks(x)
  {
    hide Crc.Checks;
    assert forall i: nat | 0 < i < |s| :: s[i] == s[1..][i - 1] == x[1..][i - 1] == x[i];
    Crc.SealedBurstDetected(s, x, 0);
  }

  /** A rival changes the first byte of what is read, and nothing else. */
  lemma {:induction false} RivalBytes(u: seq<bool>, s: seq<bv8>, k: nat)
    requires k < 4 && |s| > 1 && |u| == 8 * |s| + 4 && u[..8 * |s|] == BitsOf(s)
    ensures var x := PackAll(T.RivalInputs(u, k)[..8 * |s|]); |x| == |s| && x[0] != s[0] && x[1..] == s[1..]
  {
    hide Bit, ByteBit, Pack;
    var v := T.RivalInputs(u, k)[..8 * |s|];
    var x := PackAll(v);
    PackAllBits(v);
    assert forall n: nat | n < 8 * |s| :: BitsOf(s)[n] == u[n];
    assert forall n: nat | 2 <= n < 8 * |s| :: v[n] == u[n];
    forall j: nat | 1 <= j < |s| ensures x[j] == s[j] {
      forall i: nat | 8 * j <= i < 8 * j + 8 ensures Bit(x, i) == Bit(s, i - 8 * j + 8 * j) {
        assert BitsOf(x)[i] == v[i] == u[i] == BitsOf(s)[i];
      }
      ByteFromBits(x, s, j, j);
    }
    T.RivalMeets(u, k);
    var t := T.Turn(k);
    assert v[t] != u[t];
    assert BitsOf(x)[t] != BitsOf(s)[t];
    if x[0] == s[0] {
      FirstByteBit(x, s, t);
    }
  }

  lemma {:induction false} FirstByteBit(x: seq<bv8>, s: seq<bv8>, t: nat)
    requires |x| == |s| > 0 && t < 8 && x[0] == s[0]
    ensures BitsOf(x)[t] == BitsOf(s)[t]
  {
  }

  /**
   A payload block with two wrong bits yields its data, or its checksum rejects it and it yields nothing,
   and which of the two is settled: never does it yield other data.
   */
  lemma {:induction false} BlockOfTwoBits(sent: seq<bv8>, block: seq<bv8>, dt: seq<bv8>, w: nat, p: nat, q: nat)
    requires Payload.Holds(sent, dt, w) && Wrong(sent, block, p, q)
    ensures Payload.Data(block, w) == if Unlucky(Payload.Message(dt), w, p, q) then Payload.None else Payload.Some(dt)
  {
    hide Deinterleaved, Code, BitsOf, PackAll, Convolution.Recovered, Payload.Whitened, Crc.Trailer, T.Fooled, T.Hit,
         CodedAt, T.RivalInputs, T.FooledBy, Crc.Checks, Bit;
    var u, s := Payload.Message(dt), Payload.Sealed(dt);
    var a, b := CodedAt(w, p), CodedAt(w, q);
    var i, j := Lesser(a, b), Greater(a, b);
    WrongIsHit(sent, block, w, u, p, q);
    SealedBits(dt);
    SealedChecks(dt);
    T.DecodesTwoBitsIff(u, i, j);
    if T.Fooled(u, i, j) {
      var k := T.DeliversRival(u, i, j);
      RivalBytes(u, s, k);
      DamageDetected(s, Payload.Read(block, w));
    } else {
      PackAllBits(BitsOf(s));
      BitsInjective(Payload.Read(block, w), s);
    }
  }

  lemma {:induction false} SealedBits(dt: seq<bv8>)
    requires |dt| <= 20
    ensures var s := Payload.Sealed(dt); |Payload.Message(dt)| == 8 * |s| + 4 && Payload.Message(dt)[..8 * |s|] == BitsOf(s)
  {
    hide Payload.Sealed, BitsOf;
  }

  lemma {:induction false} SealedChecks(dt: seq<bv8>)
    requires |dt| <= 20
    ensures var s := Payload.Sealed(dt); Crc.Checks(s) && Payload.Whitened(s[..|dt|]) == dt
  {
    hide Crc.Trailer, Payload.Whitened;
    var s := Payload.Sealed(dt);
    assert s[..|dt|] == Payload.Whitened(dt);
    Payload.WhitenedTwice(dt);
  }
}
