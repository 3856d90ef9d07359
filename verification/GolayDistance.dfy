/**
 The minimum distance of the Golay code: different words are seven bits apart, and eight with the parity
 bit. So errors of up to three bits have different syndromes, and a table that knows them corrects them.
 */
module GolayDistance {
  import opened Golay
  import opened Weights

  // ------------------------------------------------------------- the parity bits

  /** The data bits that each parity bit is the sum of. */
  const CHECKS: seq<seq<nat>> := [
    [0, 2, 5, 8, 9, 10, 11],
    [0, 1, 2, 3, 5, 6, 8],
    [1, 2, 3, 4, 6, 7, 9],
    [2, 3, 4, 5, 7, 8, 10],
    [3, 4, 5, 6, 8, 9, 11],
    [0, 2, 4, 6, 7, 8, 11],
    [0, 1, 2, 3, 7, 10, 11],
    [0, 1, 3, 4, 5, 9, 10],
    [1, 2, 4, 5, 6, 10, 11],
    [0, 3, 6, 7, 8, 9, 10],
    [1, 4, 7, 8, 9, 10, 11]]

  lemma {:induction false} ChecksBelow(j: nat)
    requires j < 11
    ensures |CHECKS| == 11 && |CHECKS[j]| == 7 && Below(CHECKS[j], 12)
  {
  }

  /** The bits behind the data are the parity bits. */
  predicate Carries(w: Word)
    requires |w| == 23
  {
    forall j: nat | j < 11 :: ParityRight(w, j)
  }

  predicate ParityRight(w: Word, j: nat)
    requires |w| == 23 && j < 11
  {
    ChecksBelow(j);
    w[12 + j] == Sum(w, CHECKS[j])
  }

  /** Bit k is the sum of seven others. */
  predicate Equation(w: Word, k: nat, a: nat, b: nat, c: nat, d: nat, e: nat, f: nat, g: nat)
    requires |w| == 23 && k < 23 && a < 12 && b < 12 && c < 12 && d < 12 && e < 12 && f < 12 && g < 12
  {
    w[k] == (((w[a] != w[b]) != (w[c] != w[d])) != ((w[e] != w[f]) != w[g]))
  }

  /** The same, written out. */
  predicate Equations(w: Word)
    requires |w| == 23
  {
    && Equation(w, 12, 0, 2, 5, 8, 9, 10, 11)
    && Equation(w, 13, 0, 1, 2, 3, 5, 6, 8)
    && Equation(w, 14, 1, 2, 3, 4, 6, 7, 9)
    && Equation(w, 15, 2, 3, 4, 5, 7, 8, 10)
    && Equation(w, 16, 3, 4, 5, 6, 8, 9, 11)
    && Equation(w, 17, 0, 2, 4, 6, 7, 8, 11)
    && Equation(w, 18, 0, 1, 2, 3, 7, 10, 11)
    && Equation(w, 19, 0, 1, 3, 4, 5, 9, 10)
    && Equation(w, 20, 1, 2, 4, 5, 6, 10, 11)
    && Equation(w, 21, 0, 3, 6, 7, 8, 9, 10)
    && Equation(w, 22, 1, 4, 7, 8, 9, 10, 11)
  }

  lemma {:induction false} EquationIs(w: Word, j: nat, a: nat, b: nat, c: nat, d: nat, e: nat, f: nat, g: nat)
    requires |w| == 23 && j < 11 && |CHECKS| == 11 && CHECKS[j] == [a, b, c, d, e, f, g]
    requires a < 12 && b < 12 && c < 12 && d < 12 && e < 12 && f < 12 && g < 12
    ensures ParityRight(w, j) <==> Equation(w, 12 + j, a, b, c, d, e, f, g)
  {
    hide Sum;
    SumIsChain(w, CHECKS[j]);
  }

  lemma {:induction false} CarriesIff(w: Word)
    requires |w| == 23
    ensures Carries(w) <==> Equations(w)
  {
    hide ParityRight, Equation;
    EquationIs(w, 0, 0, 2, 5, 8, 9, 10, 11);
    EquationIs(w, 1, 0, 1, 2, 3, 5, 6, 8);
    EquationIs(w, 2, 1, 2, 3, 4, 6, 7, 9);
    EquationIs(w, 3, 2, 3, 4, 5, 7, 8, 10);
    EquationIs(w, 4, 3, 4, 5, 6, 8, 9, 11);
    EquationIs(w, 5, 0, 2, 4, 6, 7, 8, 11);
    EquationIs(w, 6, 0, 1, 2, 3, 7, 10, 11);
    EquationIs(w, 7, 0, 1, 3, 4, 5, 9, 10);
    EquationIs(w, 8, 1, 2, 4, 5, 6, 10, 11);
    EquationIs(w, 9, 0, 3, 6, 7, 8, 9, 10);
    EquationIs(w, 10, 1, 4, 7, 8, 9, 10, 11);
    EachOf(w);
  }

  lemma {:induction false} EachOf(w: Word)
    requires |w| == 23
    ensures Carries(w) ==
      (&& ParityRight(w, 0) && ParityRight(w, 1) && ParityRight(w, 2) && ParityRight(w, 3) && ParityRight(w, 4)
       && ParityRight(w, 5) && ParityRight(w, 6) && ParityRight(w, 7) && ParityRight(w, 8) && ParityRight(w, 9)
       && ParityRight(w, 10))
  {
    hide ParityRight;
  }

  lemma {:induction false} CarriesXor(v: Word, w: Word)
    requires |v| == |w| == 23 && Carries(v) && Carries(w)
    ensures Carries(Xor(v, w))
  {
    hide Sum;
    forall j: nat | j < 11 ensures ParityRight(Xor(v, w), j) {
      ChecksBelow(j);
      assert ParityRight(v, j) && ParityRight(w, j);
      SumLinear(v, w, CHECKS[j]);
    }
  }

  /** A word as it is written. */
  function Written(s: string): (w: Word)
    ensures |w| == |s|
  {
    seq(|s|, i requires 0 <= i < |s| => s[i] == '1')
  }

  lemma {:induction false} AlignedIs(i: nat, n: nat)
    requires i < 12 && n < 23
    ensures Aligned(i)[n] == (i <= n && n - i in {0, 1, 5, 6, 7, 9, 11})
  {
    if i <= n < i + 12 {
      assert Generator(n - i) == (n - i in {0, 1, 5, 6, 7, 9, 11});
    }
  }

  lemma {:induction false} LineIs(i: nat, w: Word)
    requires i < 12 && |w| == 23
    requires forall n: nat | n < 23 :: w[n] == (i <= n && n - i in {0, 1, 5, 6, 7, 9, 11})
    ensures Aligned(i) == w
  {
    forall n: nat | n < 23 ensures Aligned(i)[n] == w[n] {
      AlignedIs(i, n);
    }
  }

  lemma {:induction false} Line0()
    ensures Equations(Aligned(0))
  {
    LineIs(0, Written("11000111010100000000000"));
  }

  lemma {:induction false} Line1()
    ensures Equations(Aligned(1))
  {
    LineIs(1, Written("01100011101010000000000"));
  }

  lemma {:induction false} Line2()
    ensures Equations(Aligned(2))
  {
    LineIs(2, Written("00110001110101000000000"));
  }

  lemma {:induction false} Line3()
    ensures Equations(Aligned(3))
  {
    LineIs(3, Written("00011000111010100000000"));
  }

  lemma {:induction false} Line4()
    ensures Equations(Aligned(4))
  {
    LineIs(4, Written("00001100011101010000000"));
  }

  lemma {:induction false} Line5()
    ensures Equations(Aligned(5))
  {
    LineIs(5, Written("00000110001110101000000"));
  }

  lemma {:induction false} Line6()
    ensures Equations(Aligned(6))
  {
    LineIs(6, Written("00000011000111010100000"));
  }

  lemma {:induction false} Line7()
    ensures Equations(Aligned(7))
  {
    LineIs(7, Written("00000001100011101010000"));
  }

  lemma {:induction false} Line8()
    ensures Equations(Aligned(8))
  {
    LineIs(8, Written("00000000110001110101000"));
  }

  lemma {:induction false} Line9()
    ensures Equations(Aligned(9))
  {
    LineIs(9, Written("00000000011000111010100"));
  }

  lemma {:induction false} Line10()
    ensures Equations(Aligned(10))
  {
    LineIs(10, Written("00000000001100011101010"));
  }

  lemma {:induction false} Line11()
    ensures Equations(Aligned(11))
  {
    LineIs(11, Written("00000000000110001110101"));
  }

  /** Every line of the division carries its parity bits. */
  lemma {:induction false} LinesCarry(i: nat)
    requires i < 12
    ensures Carries(Aligned(i))
  {
    hide Equations, Carries, Aligned;
    CarriesIff(Aligned(i));
    if i == 0 {
      Line0();
    } else if i == 1 {
      Line1();
    } else if i == 2 {
      Line2();
    } else if i == 3 {
      Line3();
    } else if i == 4 {
      Line4();
    } else if i == 5 {
      Line5();
    } else if i == 6 {
      Line6();
    } else if i == 7 {
      Line7();
    } else if i == 8 {
      Line8();
    } else if i == 9 {
      Line9();
    } else if i == 10 {
      Line10();
    } else if i == 11 {
      Line11();
    }
  }

  /** So the division leaves nothing of a word that carries its parity bits. */
  lemma {:induction false} CarryingDivided(w: Word, i: nat)
    requires |w| == 23 && i <= 12 && Carries(w) && forall n: nat | n < i :: !w[n]
    ensures Divided(w, i) == Zeros(23)
    decreases 12 - i
  {
    hide Carries, Aligned;
    if i == 12 {
      CarriesIff(w);
      assert w == Zeros(23);
    } else {
      LinesCarry(i);
      if w[i] {
        CarriesXor(w, Aligned(i));
      }
      CarryingDivided(Clear(w, i), i + 1);
      assert Divided(w, i) == Divided(Clear(w, i), i + 1);
    }
  }

  lemma {:induction false} SyndromeXor(p: Word, q: Word)
    requires |p| == |q| == 23
    ensures Syndrome(Xor(p, q)) == Xor(Syndrome(p), Syndrome(q))
  {
    hide Divided;
    DividedXor(p, q, 0);
  }

  /** A word without data bits is its own syndrome. */
  lemma {:induction false} SyndromeLow(s: Word)
    requires |s| == 11
    ensures Syndrome(Zeros(12) + s) == s
  {
    DividedDone(Zeros(12) + s, 0);
  }

  function Parities(d: Word): (s: Word)
    requires |d| == 12
    ensures |s| == 11
  {
    seq(11, j requires 0 <= j < 11 => ParityOf(d, j))
  }

  predicate ParityOf(d: Word, j: nat)
    requires |d| == 12 && j < 11
  {
    ChecksBelow(j);
    Sum(d, CHECKS[j])
  }

  /** The words of the code are those that carry their parity bits. */
  lemma {:induction false} EncodedCarries(d: Word)
    requires |d| == 12
    ensures Carries(Encode23(d))
  {
    hide Sum, Divided, Syndrome;
    var w, s := d + Parities(d), Parities(d);
    forall j: nat | j < 11 ensures ParityRight(w, j) {
      ChecksBelow(j);
      SumFrame(w, d, CHECKS[j], 12);
    }
    CarryingSyndrome(w);
    assert w == Xor(d + Zeros(11), Zeros(12) + s);
    SyndromeXor(d + Zeros(11), Zeros(12) + s);
    SyndromeLow(s);
    XorNone(Syndrome(d + Zeros(11)), s);
  }

  lemma {:induction false} CarryingSyndrome(w: Word)
    requires |w| == 23 && Carries(w)
    ensures Syndrome(w) == Zeros(11)
  {
    CarryingDivided(w, 0);
  }

  // ------------------------------------------------------------------- distance

  /** Some data bit of the word is set. */
  predicate Some(w: Word)
    requires |w| == 23
  {
    w[0] || w[1] || w[2] || w[3] || w[4] || w[5] || w[6] || w[7] || w[8] || w[9] || w[10] || w[11]
  }

  function Ones(w: Word): nat
    requires |w| == 23
  {
    One(w[0]) + One(w[1]) + One(w[2]) + One(w[3]) + One(w[4]) + One(w[5]) + One(w[6]) + One(w[7]) + One(w[8])
    + One(w[9]) + One(w[10]) + One(w[11]) + One(w[12]) + One(w[13]) + One(w[14]) + One(w[15]) + One(w[16])
    + One(w[17]) + One(w[18]) + One(w[19]) + One(w[20]) + One(w[21]) + One(w[22])
  }

  lemma {:induction false} SevenWith(w: Word)
    requires |w| == 23 && Equations(w) && Some(w) && w[0] && w[1]
    ensures Ones(w) >= 7
  {
  }

  lemma {:induction false} SevenWithFirst(w: Word)
    requires |w| == 23 && Equations(w) && Some(w) && w[0] && !w[1]
    ensures Ones(w) >= 7
  {
  }

  lemma {:induction false} SevenWithSecond(w: Word)
    requires |w| == 23 && Equations(w) && Some(w) && !w[0] && w[1]
    ensures Ones(w) >= 7
  {
  }

  lemma {:induction false} SevenWithout(w: Word)
    requires |w| == 23 && Equations(w) && Some(w) && !w[0] && !w[1]
    ensures Ones(w) >= 7
  {
  }

  /** Seven ones or more: the twelve data bits and their eleven parity bits, all 4096 cases. */
  lemma {:induction false} SevenOnes(w: Word)
    requires |w| == 23 && Equations(w) && Some(w)
    ensures Ones(w) >= 7
  {
    hide Equations, Some, Ones;
    if w[0] && w[1] {
      SevenWith(w);
    } else if w[0] {
      SevenWithFirst(w);
    } else if w[1] {
      SevenWithSecond(w);
    } else {
      SevenWithout(w);
    }
  }

  /** A word of the code that is not zero has at least seven ones. */
  lemma {:induction false} CodeWeight(d: Word)
    requires |d| == 12 && d != Zeros(12)
    ensures Weight(Encode23(d)) >= 7
  {
    hide Carries, Equations, Weight, Some, Ones, Encode23;
    var w := Encode23(d);
    EncodedCarries(d);
    CarriesIff(w);
    SomeBit(w);
    WeightSpelled(w);
    SevenOnes(w);
  }

  lemma {:induction false} SomeBit(w: Word)
    requires |w| == 23 && w[..12] != Zeros(12)
    ensures Some(w)
  {
    var i: nat :| i < 12 && w[..12][i] != Zeros(12)[i];
    assert w[i] && i in {0, 1, 2, 3, 4, 5, 6, 7, 8, 9, 10, 11};
  }

  lemma {:induction false} OnesInFours(w: Word)
    requires |w| == 23
    ensures Ones(w) == Ones4(w, 0) + Ones4(w, 4) + Ones4(w, 8) + Ones4(w, 12) + Ones4(w, 16) + One(w[20]) + One(w[21]) + One(w[22])
  {
    hide One;
  }

  lemma {:induction false} WeightSpelled(w: Word)
    requires |w| == 23
    ensures Weight(w) == Ones(w)
  {
    hide Weight, One, Ones4, Ones;
    OnesInFours(w);
    assert w[0..] == w && w[23..] == [];
    WeightNone();
    WeightFour(w, 0);
    WeightFour(w, 4);
    WeightFour(w, 8);
    WeightFour(w, 12);
    WeightFour(w, 16);
    WeightOne(w, 20);
    WeightOne(w, 21);
    WeightOne(w, 22);
  }

  /** The code is closed under sums. */
  lemma {:induction false} EncodeXor(d: Word, e: Word)
    requires |d| == |e| == 12
    ensures Encode23(Xor(d, e)) == Xor(Encode23(d), Encode23(e))
  {
    hide Divided, Syndrome;
    assert Xor(d + Zeros(11), e + Zeros(11)) == Xor(d, e) + Zeros(11);
    SyndromeXor(d + Zeros(11), e + Zeros(11));
  }

  /** Different data words are encoded at least seven bits apart. */
  lemma {:induction false} MinimumDistance(d: Word, e: Word)
    requires |d| == |e| == 12 && d != e
    ensures Weight(Xor(Encode23(d), Encode23(e))) >= 7
  {
    hide Encode23, Weight;
    EncodeXor(d, e);
    if Xor(d, e) == Zeros(12) {
      XorNone(d, e);
    }
    CodeWeight(Xor(d, e));
  }

  /** And at least eight with the parity bit. */
  lemma {:induction false} MinimumDistance24(d: Word, e: Word)
    requires |d| == |e| == 12 && d != e
    ensures Weight(Xor(Encode24(d), Encode24(e))) >= 8
  {
    hide Encode23, Weight, Parity;
    MinimumDistance(d, e);
    var x := Xor(Encode23(d), Encode23(e));
    ParityXor(Encode23(d), Encode23(e));
    ParityOfWeight(x);
    assert Xor(Encode24(d), Encode24(e)) == x + [Parity(x)];
    WeightSum(x, [Parity(x)]);
    WeightZero([Parity(x)]);
    assert [Parity(x)][0] == Parity(x);
  }

  /** The last line of the division is a code word, 0xC75: this is the code and not its mirror image. */
  lemma {:induction false} LastUnit()
    ensures Encode23(Written("000000000001")) == Written("00000000000110001110101")
  {
    hide Divided, Syndrome, Encode23;
    var d, w := Written("000000000001"), Written("00000000000110001110101");
    LineIs(11, w);
    LinesCarry(11);
    CarryingSyndrome(w);
    EncodedWhole(w);
    assert w[..12] == d;
  }

  /** A word without syndrome is the code word of its data. */
  lemma {:induction false} EncodedWhole(w: Word)
    requires |w| == 23 && Syndrome(w) == Zeros(11)
    ensures w == Encode23(w[..12])
  {
    hide Divided, Syndrome;
    var c := Encode23(w[..12]);
    CodewordSyndrome(w[..12]);
    SyndromeXor(w, c);
    var x := Xor(w, c);
    assert forall i: nat | i < 12 :: c[i] == c[..12][i] == w[i];
    assert x == Zeros(12) + x[12..];
    SyndromeLow(x[12..]);
    assert Xor(Zeros(11), Zeros(11)) == Zeros(11);
    assert x == Zeros(23);
    XorNone(w, c);
  }

  // -------------------------------------------------------------- three errors

  /** Errors of up to three bits have different syndromes. */
  lemma {:induction false} ThreeErrorsDiffer(e: Word, f: Word)
    requires |e| == |f| == 23 && e != f && Weight(e) <= 3 && Weight(f) <= 3
    ensures Syndrome(e) != Syndrome(f)
  {
    hide Divided, Syndrome, Weight, Encode23;
    if Syndrome(e) == Syndrome(f) {
      var x := Xor(e, f);
      SyndromeXor(e, f);
      assert Xor(Syndrome(e), Syndrome(f)) == Zeros(11);
      EncodedWhole(x);
      WeightXor(e, f);
      if x[..12] == Zeros(12) {
        ZeroEncoded();
        XorNone(e, f);
      } else {
        CodeWeight(x[..12]);
      }
    }
  }

  lemma {:induction false} ZeroEncoded()
    ensures Encode23(Zeros(12)) == Zeros(23)
  {
    assert Zeros(12) + Zeros(11) == Zeros(23);
    DividedDone(Zeros(23), 0);
  }

  /** A table that knows all errors of up to three bits. */
  ghost predicate KnowsThree(table: Word -> Word) {
    forall e: Word | |e| == 23 && Weight(e) <= 3 :: table(Syndrome(e)) == e
  }

  /** With such a table the data come back through any three wrong bits, and a wrong parity bit besides. */
  lemma {:induction false} ThreeErrorsCorrected(table: Word -> Word, d: Word, e: Word)
    requires |d| == 12 && |e| == 24 && DecodingTable(table) && KnowsThree(table) && Weight(e[..23]) <= 3
    ensures |table(Syndrome(Xor(Encode24(d), e)[..23]))| == 23 && Decoded24(table, Xor(Encode24(d), e)) == d
  {
    hide Divided, Syndrome, Weight, Encode24, Decoded24;
    DecodesIff(table, d, e);
    assert table(Syndrome(e[..23])) == e[..23];
  }

  /** There is such a table. */
  ghost function ThreeTable(s: Word): (e: Word)
    ensures |e| == 23
  {
    if exists e: Word :: |e| == 23 && Weight(e) <= 3 && Syndrome(e) == s
    then var e: Word :| |e| == 23 && Weight(e) <= 3 && Syndrome(e) == s; e
    else Zeros(23)
  }

  lemma {:induction false} ThreeTableKnows()
    ensures DecodingTable(ThreeTable) && KnowsThree(ThreeTable)
  {
    hide Divided, Syndrome, Weight, ThreeTable;
    forall e: Word | |e| == 23 && Weight(e) <= 3 ensures ThreeTable(Syndrome(e)) == e {
      TableEntry(e);
    }
    WeightZero(Zeros(23));
    TableEntry(Zeros(23));
    SyndromeLow(Zeros(11));
    assert Zeros(12) + Zeros(11) == Zeros(23);
  }

  lemma {:induction false} TableEntry(e: Word)
    requires |e| == 23 && Weight(e) <= 3
    ensures ThreeTable(Syndrome(e)) == e
  {
    hide Divided, Syndrome, Weight;
    var f := ThreeTable(Syndrome(e));
    if f != e {
      ThreeErrorsDiffer(e, f);
    }
  }
}
