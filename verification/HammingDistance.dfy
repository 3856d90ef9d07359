/**
 The distance of the Hamming codes of DMR signalling. All three are one code: the row code is the cyclic code
 of x^4 + x + 1, the column code is the same with two bits fewer, and the longer row code the same with a
 parity bit over all.
 */
module HammingDistance {
  import opened Golay
  import opened Weights
  import opened DmrSignalling
  import opened GolayDistance

  // ------------------------------------------------------------- the assignments

  /** Assignment c holds in w. */
  predicate Right(w: Word, c: Check)
    requires Below(c.from, |w|) && c.to < |w|
  {
    w[c.to] == Sum(w, c.from)
  }

  lemma {:induction false} RowRight0(w: Word)
    requires |w| > 11
    ensures Right(w, RowCheck(0)) <==> IsSum(w[11], w[0], w[1], w[2], w[3], w[5], w[7], w[8])
  {
    hide Sum;
    SumIsChain(w, RowCheck(0).from);
  }

  lemma {:induction false} RowRight1(w: Word)
    requires |w| > 12
    ensures Right(w, RowCheck(1)) <==> IsSum(w[12], w[1], w[2], w[3], w[4], w[6], w[8], w[9])
  {
    hide Sum;
    SumIsChain(w, RowCheck(1).from);
  }

  lemma {:induction false} RowRight2(w: Word)
    requires |w| > 13
    ensures Right(w, RowCheck(2)) <==> IsSum(w[13], w[2], w[3], w[4], w[5], w[7], w[9], w[10])
  {
    hide Sum;
    SumIsChain(w, RowCheck(2).from);
  }

  lemma {:induction false} RowRight3(w: Word)
    requires |w| > 14
    ensures Right(w, RowCheck(3)) <==> IsSum(w[14], w[0], w[1], w[2], w[4], w[6], w[7], w[10])
  {
    hide Sum;
    SumIsChain(w, RowCheck(3).from);
  }

  lemma {:induction false} RowRight4(w: Word)
    requires |w| > 15
    ensures Right(w, RowCheck(4)) <==> IsSum(w[15], w[0], w[2], w[5], w[6], w[8], w[9], w[10])
  {
    hide Sum;
    SumIsChain(w, RowCheck(4).from);
  }

  lemma {:induction false} ColumnRight0(w: Word)
    requires |w| > 9
    ensures Right(w, ColumnCheck(0)) <==> IsSum(w[9], w[0], w[1], w[3], w[5], w[6], false, false)
  {
    hide Sum;
    SumIsChain(w, ColumnCheck(0).from);
  }

  lemma {:induction false} ColumnRight1(w: Word)
    requires |w| > 10
    ensures Right(w, ColumnCheck(1)) <==> IsSum(w[10], w[0], w[1], w[2], w[4], w[6], w[7], false)
  {
    hide Sum;
    SumIsChain(w, ColumnCheck(1).from);
  }

  lemma {:induction false} ColumnRight2(w: Word)
    requires |w| > 11
    ensures Right(w, ColumnCheck(2)) <==> IsSum(w[11], w[0], w[1], w[2], w[3], w[5], w[7], w[8])
  {
    hide Sum;
    SumIsChain(w, ColumnCheck(2).from);
  }

  lemma {:induction false} ColumnRight3(w: Word)
    requires |w| > 12
    ensures Right(w, ColumnCheck(3)) <==> IsSum(w[12], w[0], w[2], w[4], w[5], w[8], false, false)
  {
    hide Sum;
    SumIsChain(w, ColumnCheck(3).from);
  }

  predicate RowSpelled(w: Word)
    requires |w| == 15
  {
    && IsSum(w[11], w[0], w[1], w[2], w[3], w[5], w[7], w[8])
    && IsSum(w[12], w[1], w[2], w[3], w[4], w[6], w[8], w[9])
    && IsSum(w[13], w[2], w[3], w[4], w[5], w[7], w[9], w[10])
    && IsSum(w[14], w[0], w[1], w[2], w[4], w[6], w[7], w[10])
  }

  lemma {:induction false} RowSpelledIff(w: Word)
    requires |w| == 15
    ensures Codeword(w, Row15(), 11) <==> RowSpelled(w)
  {
    hide Sum, IsSum, RowCheck, Right;
    RowRight0(w);
    RowRight1(w);
    RowRight2(w);
    RowRight3(w);
    RowEach(w);
  }

  lemma {:induction false} RowEach(w: Word)
    requires |w| == 15
    ensures Codeword(w, Row15(), 11) == (Right(w, RowCheck(0)) && Right(w, RowCheck(1)) && Right(w, RowCheck(2)) && Right(w, RowCheck(3)))
  {
    hide Sum, RowCheck;
    var code := Row15();
    assert code[0] == RowCheck(0);
    assert code[1] == RowCheck(1);
    assert code[2] == RowCheck(2);
    assert code[3] == RowCheck(3);
  }

  predicate LongSpelled(w: Word)
    requires |w| == 16
  {
    && IsSum(w[11], w[0], w[1], w[2], w[3], w[5], w[7], w[8])
    && IsSum(w[12], w[1], w[2], w[3], w[4], w[6], w[8], w[9])
    && IsSum(w[13], w[2], w[3], w[4], w[5], w[7], w[9], w[10])
    && IsSum(w[14], w[0], w[1], w[2], w[4], w[6], w[7], w[10])
    && IsSum(w[15], w[0], w[2], w[5], w[6], w[8], w[9], w[10])
  }

  lemma {:induction false} LongSpelledIff(w: Word)
    requires |w| == 16
    ensures Codeword(w, Row16(), 11) <==> LongSpelled(w)
  {
    hide Sum, IsSum, RowCheck, Right;
    RowRight0(w);
    RowRight1(w);
    RowRight2(w);
    RowRight3(w);
    RowRight4(w);
    LongEach(w);
  }

  lemma {:induction false} LongEach(w: Word)
    requires |w| == 16
    ensures Codeword(w, Row16(), 11) == (Right(w, RowCheck(0)) && Right(w, RowCheck(1)) && Right(w, RowCheck(2)) && Right(w, RowCheck(3)) && Right(w, RowCheck(4)))
  {
    hide Sum, RowCheck;
    var code := Row16();
    assert code[0] == RowCheck(0);
    assert code[1] == RowCheck(1);
    assert code[2] == RowCheck(2);
    assert code[3] == RowCheck(3);
    assert code[4] == RowCheck(4);
  }

  predicate ColumnSpelled(w: Word)
    requires |w| == 13
  {
    && IsSum(w[9], w[0], w[1], w[3], w[5], w[6], false, false)
    && IsSum(w[10], w[0], w[1], w[2], w[4], w[6], w[7], false)
    && IsSum(w[11], w[0], w[1], w[2], w[3], w[5], w[7], w[8])
    && IsSum(w[12], w[0], w[2], w[4], w[5], w[8], false, false)
  }

  lemma {:induction false} ColumnSpelledIff(w: Word)
    requires |w| == 13
    ensures Codeword(w, Column13(), 9) <==> ColumnSpelled(w)
  {
    hide Sum, IsSum, ColumnCheck, Right;
    ColumnRight0(w);
    ColumnRight1(w);
    ColumnRight2(w);
    ColumnRight3(w);
    ColumnEach(w);
  }

  lemma {:induction false} ColumnEach(w: Word)
    requires |w| == 13
    ensures Codeword(w, Column13(), 9) == (Right(w, ColumnCheck(0)) && Right(w, ColumnCheck(1)) && Right(w, ColumnCheck(2)) && Right(w, ColumnCheck(3)))
  {
    hide Sum, ColumnCheck;
    var code := Column13();
    assert code[0] == ColumnCheck(0);
    assert code[1] == ColumnCheck(1);
    assert code[2] == ColumnCheck(2);
    assert code[3] == ColumnCheck(3);
  }

  // ------------------------------------------------------------------ distances

  /** Without data bits a code word has no parity bits. */
  lemma {:induction false} ZeroData(w: Word, code: seq<Check>, k: nat)
    requires Systematic(code, k, |w|) && k <= |w| && |code| == |w| - k && Codeword(w, code, k) && w[..k] == Zeros(k)
    requires forall i: nat | i < |code| :: code[i].to == k + i
    ensures w == Zeros(|w|)
  {
    hide Sum;
    forall i: nat | i < |w| ensures !w[i] {
      if i < k {
        assert w[i] == w[..k][i];
      } else {
        var c := code[i - k];
        SumFrame(w, Zeros(|w|), c.from, k);
        SumZero(|w|, c.from);
      }
    }
  }

  /** Some data bit of the word is set. */
  predicate RowSome(w: Word)
    requires |w| == 15
  {
    w[0] || w[1] || w[2] || w[3] || w[4] || w[5] || w[6] || w[7] || w[8] || w[9] || w[10]
  }

  function RowOnes(w: Word): nat
    requires |w| == 15
  {
    One(w[0]) + One(w[1]) + One(w[2]) + One(w[3]) + One(w[4]) + One(w[5]) + One(w[6]) + One(w[7]) + One(w[8]) + One(w[9]) + One(w[10]) + One(w[11]) + One(w[12]) + One(w[13]) + One(w[14])
  }

  lemma {:induction false} RowOnesWeight(w: Word)
    requires |w| == 15
    ensures Weight(w) == RowOnes(w)
  {
    hide Weight, One;
    assert w[0..] == w && w[15..] == [];
    WeightNone();
    WeightFour(w, 0);
    WeightFour(w, 4);
    WeightFour(w, 8);
    WeightOne(w, 12);
    WeightOne(w, 13);
    WeightOne(w, 14);
  }

  lemma {:induction false} RowEnough(w: Word)
    requires |w| == 15 && RowSpelled(w) && RowSome(w)
    ensures RowOnes(w) >= 3
  {
  }

  lemma {:induction false} RowNotZero(w: Word)
    requires |w| == 15 && w[..11] != Zeros(11)
    ensures RowSome(w)
  {
    var i: nat :| i < 11 && w[..11][i] != Zeros(11)[i];
    assert w[i] && i in {0, 1, 2, 3, 4, 5, 6, 7, 8, 9, 10};
  }

  /** Two words of the code are at least three bits apart. */
  lemma {:induction false} RowDistance(v: Word, w: Word)
    requires |v| == |w| == 15 && v != w
    requires Codeword(v, Row15(), 11) && Codeword(w, Row15(), 11)
    ensures Weight(Xor(v, w)) >= 3
  {
    hide Weight, Codeword, RowSpelled, RowOnes, RowSome;
    var x := Xor(v, w);
    CodewordClosed(v, w, Row15(), 11);
    if x[..11] == Zeros(11) {
      ZeroData(x, Row15(), 11);
      XorNone(v, w);
    } else {
      RowSpelledIff(x);
      RowNotZero(x);
      RowEnough(x);
      RowOnesWeight(x);
    }
  }

  /** Some data bit of the word is set. */
  predicate LongSome(w: Word)
    requires |w| == 16
  {
    w[0] || w[1] || w[2] || w[3] || w[4] || w[5] || w[6] || w[7] || w[8] || w[9] || w[10]
  }

  function LongOnes(w: Word): nat
    requires |w| == 16
  {
    One(w[0]) + One(w[1]) + One(w[2]) + One(w[3]) + One(w[4]) + One(w[5]) + One(w[6]) + One(w[7]) + One(w[8]) + One(w[9]) + One(w[10]) + One(w[11]) + One(w[12]) + One(w[13]) + One(w[14]) + One(w[15])
  }

  lemma {:induction false} LongOnesWeight(w: Word)
    requires |w| == 16
    ensures Weight(w) == LongOnes(w)
  {
    hide Weight, One;
    assert w[0..] == w && w[16..] == [];
    WeightNone();
    WeightFour(w, 0);
    WeightFour(w, 4);
    WeightFour(w, 8);
    WeightFour(w, 12);
  }

  lemma {:induction false} LongEnough(w: Word)
    requires |w| == 16 && LongSpelled(w) && LongSome(w)
    ensures LongOnes(w) >= 4
  {
  }

  lemma {:induction false} LongNotZero(w: Word)
    requires |w| == 16 && w[..11] != Zeros(11)
    ensures LongSome(w)
  {
    var i: nat :| i < 11 && w[..11][i] != Zeros(11)[i];
    assert w[i] && i in {0, 1, 2, 3, 4, 5, 6, 7, 8, 9, 10};
  }

  /** Two words of the code are at least four bits apart. */
  lemma {:induction false} LongDistance(v: Word, w: Word)
    requires |v| == |w| == 16 && v != w
    requires Codeword(v, Row16(), 11) && Codeword(w, Row16(), 11)
    ensures Weight(Xor(v, w)) >= 4
  {
    hide Weight, Codeword, LongSpelled, LongOnes, LongSome;
    var x := Xor(v, w);
    CodewordClosed(v, w, Row16(), 11);
    if x[..11] == Zeros(11) {
      ZeroData(x, Row16(), 11);
      XorNone(v, w);
    } else {
      LongSpelledIff(x);
      LongNotZero(x);
      LongEnough(x);
      LongOnesWeight(x);
    }
  }

  /** Some data bit of the word is set. */
  predicate ColumnSome(w: Word)
    requires |w| == 13
  {
    w[0] || w[1] || w[2] || w[3] || w[4] || w[5] || w[6] || w[7] || w[8]
  }

  function ColumnOnes(w: Word): nat
    requires |w| == 13
  {
    One(w[0]) + One(w[1]) + One(w[2]) + One(w[3]) + One(w[4]) + One(w[5]) + One(w[6]) + One(w[7]) + One(w[8]) + One(w[9]) + One(w[10]) + One(w[11]) + One(w[12])
  }

  lemma {:induction false} ColumnOnesWeight(w: Word)
    requires |w| == 13
    ensures Weight(w) == ColumnOnes(w)
  {
    hide Weight, One;
    assert w[0..] == w && w[13..] == [];
    WeightNone();
    WeightFour(w, 0);
    WeightFour(w, 4);
    WeightFour(w, 8);
    WeightOne(w, 12);
  }

  lemma {:induction false} ColumnEnough(w: Word)
    requires |w| == 13 && ColumnSpelled(w) && ColumnSome(w)
    ensures ColumnOnes(w) >= 3
  {
  }

  lemma {:induction false} ColumnNotZero(w: Word)
    requires |w| == 13 && w[..9] != Zeros(9)
    ensures ColumnSome(w)
  {
    var i: nat :| i < 9 && w[..9][i] != Zeros(9)[i];
    assert w[i] && i in {0, 1, 2, 3, 4, 5, 6, 7, 8};
  }

  /** Two words of the code are at least three bits apart. */
  lemma {:induction false} ColumnDistance(v: Word, w: Word)
    requires |v| == |w| == 13 && v != w
    requires Codeword(v, Column13(), 9) && Codeword(w, Column13(), 9)
    ensures Weight(Xor(v, w)) >= 3
  {
    hide Weight, Codeword, ColumnSpelled, ColumnOnes, ColumnSome;
    var x := Xor(v, w);
    CodewordClosed(v, w, Column13(), 9);
    if x[..9] == Zeros(9) {
      ZeroData(x, Column13(), 9);
      XorNone(v, w);
    } else {
      ColumnSpelledIff(x);
      ColumnNotZero(x);
      ColumnEnough(x);
      ColumnOnesWeight(x);
    }
  }

  // ----------------------------------------------------------------- one code

  /** The column code is the row code with two zeros ahead. */
  lemma {:induction false} ColumnIsShortRow(w: Word)
    requires |w| == 13
    ensures Codeword(w, Column13(), 9) <==> Codeword([false, false] + w, Row15(), 11)
  {
    hide Codeword;
    var x := [false, false] + w;
    assert forall i: nat | i < 13 :: x[i + 2] == w[i];
    ColumnSpelledIff(w);
    RowSpelledIff(x);
    ShortSpelled(w, x);
  }

  lemma {:induction false} ShortSpelled(w: Word, x: Word)
    requires |w| == 13 && |x| == 15 && !x[0] && !x[1] && forall i: nat | i < 13 :: x[i + 2] == w[i]
    ensures ColumnSpelled(w) <==> RowSpelled(x)
  {
    assert x[2] == w[0] && x[3] == w[1] && x[4] == w[2] && x[5] == w[3] && x[6] == w[4] && x[7] == w[5] && x[8] == w[6];
    assert x[9] == w[7] && x[10] == w[8] && x[11] == w[9] && x[12] == w[10] && x[13] == w[11] && x[14] == w[12];
  }

  /** The longer row code is the row code with a bit that makes the ones even. */
  lemma {:induction false} LongIsEvenRow(w: Word)
    requires |w| == 16
    ensures Codeword(w, Row16(), 11) <==> Codeword(w[..15], Row15(), 11) && Weight(w) % 2 == 0
  {
    hide Codeword, Weight, Parity, LongOdd, RowSpelled, LongSpelled;
    LongSpelledIff(w);
    RowSpelledIff(w[..15]);
    ParityOfWeight(w);
    LongOddIff(w);
    EvenSpelled(w);
  }

  predicate Odd4(w: Word, at: nat)
    requires at + 4 <= |w|
  {
    (w[at] != w[at + 1]) != (w[at + 2] != w[at + 3])
  }

  lemma {:induction false} ParityOne(w: Word, at: nat)
    requires at < |w|
    ensures Parity(w[at..]) == (Parity(w[at + 1..]) != w[at])
  {
    assert w[at..][1..] == w[at + 1..];
  }

  lemma {:induction false} ParityFour(w: Word, at: nat)
    requires at + 4 <= |w|
    ensures Parity(w[at..]) == (Odd4(w, at) != Parity(w[at + 4..]))
  {
    hide Parity;
    ParityOne(w, at);
    ParityOne(w, at + 1);
    ParityOne(w, at + 2);
    ParityOne(w, at + 3);
  }

  predicate LongOdd(w: Word)
    requires |w| == 16
  {
    (Odd4(w, 0) != Odd4(w, 4)) != (Odd4(w, 8) != Odd4(w, 12))
  }

  lemma {:induction false} LongOddIff(w: Word)
    requires |w| == 16
    ensures LongOdd(w) <==> Parity(w)
  {
    hide Odd4;
    assert w[0..] == w && w[16..] == [];
    ParityFour(w, 0);
    ParityFour(w, 4);
    ParityFour(w, 8);
    ParityFour(w, 12);
  }

  lemma {:induction false} FourRows(w: Word)
    requires |w| == 16 && RowSpelled(w[..15])
    ensures ((w[11] != w[12]) != (w[13] != w[14])) == ((w[1] != w[3]) != (w[4] != w[7]))
  {
    assert (w[11] != w[12]) == ((w[0] != w[4]) != ((w[5] != w[6]) != (w[7] != w[9])));
    assert (w[13] != w[14]) == ((w[0] != w[1]) != ((w[3] != w[5]) != (w[6] != w[9])));
  }

  lemma {:induction false} FifthIsParity(w: Word)
    requires |w| == 16 && RowSpelled(w[..15])
    ensures IsSum(w[15], w[0], w[2], w[5], w[6], w[8], w[9], w[10]) <==> !LongOdd(w)
  {
    hide RowSpelled;
    FourRows(w);
  }

  lemma {:induction false} EvenSpelled(w: Word)
    requires |w| == 16
    ensures LongSpelled(w) <==> RowSpelled(w[..15]) && !LongOdd(w)
  {
    hide IsSum, LongOdd;
    if RowSpelled(w[..15]) {
      FifthIsParity(w);
    }
  }

  /** A row code word moved round is a row code word. */
  lemma {:induction false} RowCyclic(w: Word)
    requires |w| == 15 && Codeword(w, Row15(), 11)
    ensures Codeword(w[1..] + [w[0]], Row15(), 11)
  {
    hide Codeword, RowSpelled;
    RowSpelledIff(w);
    RowSpelledIff(w[1..] + [w[0]]);
    MovedSpelled(w);
  }

  lemma {:induction false} MovedSpelled(w: Word)
    requires |w| == 15 && RowSpelled(w)
    ensures RowSpelled(w[1..] + [w[0]])
  {
  }

  /** The polynomial x^4 + x + 1 is a row code word. */
  lemma {:induction false} RowPolynomial()
    ensures Codeword([false, false, false, false, false, false, false, false, false, false, true, false, false, true, true], Row15(), 11)
  {
    hide Codeword;
    RowSpelledIff([false, false, false, false, false, false, false, false, false, false, true, false, false, true, true]);
  }
}
