/**
 The (23,12) Golay code and its 24-bit extension, on words written as bit strings,
 most significant bit first. The lookup tables of the source are modelled by the
 functions they tabulate: ENCODING_TABLE_23127[d] >> 1 is d followed by the
 remainder of d * x^11 modulo the generator polynomial, and ENCODING_TABLE_24128
 adds an even-parity bit. DECODING_TABLE_23127 is a parameter of which only
 entry zero, which is zero, matters for words without errors.
 */
module Golay {

  type Word = seq<bool>

  function Zeros(n: nat): Word {
    seq(n, _ => false)
  }

  function Xor(a: Word, b: Word): (c: Word)
    requires |a| == |b|
    ensures |c| == |a| && forall j: nat | j < |c| :: c[j] == (a[j] != b[j])
  {
    seq(|a|, j requires 0 <= j < |a| => a[j] != b[j])
  }

  /** GENPOL, 0xc75: the coefficient of x^(11-j). */
  predicate Generator(j: nat)
    requires j < 12
  {
    j in {0, 1, 5, 6, 7, 9, 11}
  }

  /** The generator lined up under position i of a 23-bit word, (aux / X11) * GENPOL. */
  function Aligned(i: nat): (a: Word)
    requires i < 12
    ensures |a| == 23 && a[i] && forall j: nat | j < i :: !a[j]
  {
    assert Generator(0);
    seq(23, j requires 0 <= j < 23 => i <= j < i + 12 && Generator(j - i))
  }

  /** One step of long division: cancel the term at position i if it is there. */
  function Clear(p: Word, i: nat): (c: Word)
    requires |p| == 23 && i < 12
    ensures |c| == 23 && !c[i] && forall j: nat | j < i :: c[j] == p[j]
  {
    if p[i] then Xor(p, Aligned(i)) else p
  }

  /** Long division from position i on. */
  function Divided(p: Word, i: nat): (r: Word)
    requires |p| == 23 && i <= 12
    ensures |r| == 23
    ensures forall j: nat | j < i :: r[j] == p[j]
    ensures forall j: nat | i <= j < 12 :: !r[j]
    decreases 12 - i
  {
    if i == 12 then p else Divided(Clear(p, i), i + 1)
  }

  /** The remainder of a 23-bit word modulo the generator, eleven bits. */
  function Syndrome(p: Word): (s: Word)
    requires |p| == 23
    ensures |s| == 11
  {
    Divided(p, 0)[12..]
  }

  /** The division is linear. */
  lemma {:induction false} DividedXor(p: Word, q: Word, i: nat)
    requires |p| == |q| == 23 && i <= 12
    ensures Divided(Xor(p, q), i) == Xor(Divided(p, i), Divided(q, i))
    decreases 12 - i
  {
    if i < 12 {
      assert Clear(Xor(p, q), i) == Xor(Clear(p, i), Clear(q, i));
      DividedXor(Clear(p, i), Clear(q, i), i + 1);
    }
  }

  lemma {:induction false} PassedOver(p: Word, i: nat)
    requires |p| == 23 && i < 12 && !p[i]
    ensures Divided(p, i) == Divided(p, i + 1)
  {
  }

  lemma {:induction false} Cancelled(p: Word, i: nat)
    requires |p| == 23 && i < 12 && p[i]
    ensures Divided(Xor(p, Aligned(i)), i) == Divided(p, i)
  {
    PassedOver(Xor(p, Aligned(i)), i);
  }

  /** get_syndrome_23127. The source's one-hot aux is held here as the position of its bit. */
  method GetSyndrome(word: Word) returns (syndrome: Word)
    requires |word| == 23
    ensures syndrome == Syndrome(word)
  {
    hide Divided, Aligned;
    var pattern := word;
    var aux := 0;
    if exists i: nat | i < 12 :: pattern[i] {
      while exists i: nat | i < 12 :: pattern[i]
        invariant |pattern| == 23 && 0 <= aux < 12
        invariant forall j: nat | j < aux :: !pattern[j]
        invariant Divided(pattern, aux) == Divided(word, 0)
        decreases 12 - aux, pattern[aux]
      {
        while !pattern[aux]
          invariant 0 <= aux < 12
          invariant forall j: nat | j < aux :: !pattern[j]
          invariant exists i: nat | i < 12 :: pattern[i]
          invariant Divided(pattern, aux) == Divided(word, 0)
          decreases 12 - aux
        {
          PassedOver(pattern, aux);
          aux := aux + 1;
        }
        Cancelled(pattern, aux);
        pattern := Xor(pattern, Aligned(aux));
      }
    }
    DividedDone(pattern, aux);
    syndrome := pattern[12..];
  }

  lemma {:induction false} DividedDone(p: Word, i: nat)
    requires |p| == 23 && i <= 12
    requires forall j: nat | i <= j < 12 :: !p[j]
    ensures Divided(p, i) == p
    decreases 12 - i
  {
    if i < 12 {
      DividedDone(p, i + 1);
    }
  }

  /** ENCODING_TABLE_23127[d] >> 1. */
  function Encode23(d: Word): (c: Word)
    requires |d| == 12
    ensures |c| == 23 && c[..12] == d
  {
    d + Syndrome(d + Zeros(11))
  }

  predicate Parity(w: Word)
    decreases |w|
  {
    if w == [] then false else Parity(w[1..]) != w[0]
  }

  /** ENCODING_TABLE_24128[d]. */
  function Encode24(d: Word): (c: Word)
    requires |d| == 12
    ensures |c| == 24 && c[..12] == d
  {
    Encode23(d) + [Parity(Encode23(d))]
  }

  /** Every code word is a multiple of the generator. */
  lemma CodewordSyndrome(d: Word)
    requires |d| == 12
    ensures Syndrome(Encode23(d)) == Zeros(11)
  {
    var p := d + Zeros(11);
    var low := Zeros(12) + Syndrome(p);
    DividedXor(p, low, 0);
    DividedDone(low, 0);
    assert Encode23(d) == Xor(p, low);
    var r := Divided(p, 0);
    assert forall j: nat | j < 23 :: Xor(r, low)[j] == false;
  }

  /** The generator ends in one. */
  lemma AlignedEnd(i: nat)
    requires i < 12
    ensures Aligned(i)[i + 11]
  {
    var j := i + 11;
    assert j - i == 11 && Generator(j - i);
  }

  /** Long division of a word that ends before position i + 11 leaves something of it. */
  lemma {:induction false} DividedShort(p: Word, i: nat, j: nat)
    requires |p| == 23 && i <= 12 && i <= j < 23 && p[j] && forall k: nat | i + 11 <= k < 23 :: !p[k]
    ensures exists k: nat :: 12 <= k < 23 && Divided(p, i)[k]
    decreases 12 - i
  {
    if i < 12 {
      var q := Clear(p, i);
      AlignedEnd(i);
      assert p[i] ==> q == Xor(p, Aligned(i)) && q[i + 11];
      DividedShort(q, i + 1, if p[i] then i + 11 else j);
      assert Divided(p, i) == Divided(q, i + 1);
    } else {
      assert Divided(p, i)[j];
    }
  }

  /** Errors within the first eleven bits, if there are any, show in the syndrome. */
  lemma ShortErrorsShow(e: Word)
    requires |e| == 23 && (exists j: nat :: j < 11 && e[j]) && forall k: nat | 11 <= k < 23 :: !e[k]
    ensures Syndrome(e) != Zeros(11)
  {
    hide Divided;
    var j: nat :| j < 11 && e[j];
    DividedShort(e, 0, j);
    var k: nat :| 12 <= k < 23 && Divided(e, 0)[k];
    assert Syndrome(e)[k - 12];
  }

  /** So different errors within the first eleven bits have different syndromes. */
  lemma ShortErrorsDiffer(e: Word, f: Word)
    requires |e| == |f| == 23 && e != f && forall k: nat | 11 <= k < 23 :: !e[k] && !f[k]
    ensures Syndrome(e) != Syndrome(f)
  {
    hide Divided;
    var j: nat :| j < 23 && e[j] != f[j];
    assert Xor(e, f)[j];
    ShortErrorsShow(Xor(e, f));
    DividedXor(e, f, 0);
    var i: nat :| i < 11 && Syndrome(Xor(e, f))[i];
    assert Syndrome(e)[i] != Syndrome(f)[i];
  }

  /** What decoding needs of DECODING_TABLE_23127. */
  ghost predicate DecodingTable(table: Word -> Word) {
    (forall s: Word | |s| == 11 :: |table(s)| == 23) && table(Zeros(11)) == Zeros(23)
  }

  /** decode24128 on three bytes: drop the parity bit, correct, keep the data bits. */
  method Decode24(table: Word -> Word, code: Word) returns (d: Word)
    requires |code| == 24 && DecodingTable(table)
    ensures d == Decoded24(table, code)
  {
    var syndrome := GetSyndrome(code[..23]);
    var errorPattern := table(syndrome);
    d := Xor(code[..23], errorPattern)[..12];
  }

  function Decoded24(table: Word -> Word, code: Word): (d: Word)
    requires |code| == 24 && |table(Syndrome(code[..23]))| == 23
    ensures |d| == 12
  {
    Xor(code[..23], table(Syndrome(code[..23])))[..12]
  }

  /** A clean code word decodes to its data. */
  lemma DecodeEncode24(table: Word -> Word, d: Word)
    requires |d| == 12 && DecodingTable(table)
    ensures |table(Syndrome(Encode24(d)[..23]))| == 23
    ensures Decoded24(table, Encode24(d)) == d
  {
    CodewordSyndrome(d);
    assert Encode24(d)[..23] == Encode23(d);
  }

  /** A word with errors has the syndrome of its errors. */
  lemma ErrorSyndrome(d: Word, e: Word)
    requires |d| == 12 && |e| == 23
    ensures Syndrome(Xor(Encode23(d), e)) == Syndrome(e)
  {
    hide Divided;
    CodewordSyndrome(d);
    DividedXor(Encode23(d), e, 0);
    var r := Divided(Encode23(d), 0);
    assert forall j: nat | j < 11 :: r[12 + j] == Syndrome(Encode23(d))[j];
  }

  /**
   Exactly which errors are corrected: whatever bits e are wrong, the parity bit among them, the data
   come back if and only if the table's entry for the syndrome of e has the data bits of e.
   */
  lemma DecodesIff(table: Word -> Word, d: Word, e: Word)
    requires |d| == 12 && |e| == 24 && DecodingTable(table)
    ensures var w := Xor(Encode24(d), e); var t := table(Syndrome(e[..23]));
      |table(Syndrome(w[..23]))| == 23 && |t| == 23 && (Decoded24(table, w) == d <==> t[..12] == e[..12])
  {
    hide Divided, Syndrome;
    var w, t := Xor(Encode24(d), e), table(Syndrome(e[..23]));
    assert w[..23] == Xor(Encode23(d), e[..23]);
    ErrorSyndrome(d, e[..23]);
    var c := Decoded24(table, w);
    forall j: nat | j < 12 ensures c[j] == ((d[j] != e[j]) != t[j]) {
      assert Encode24(d)[j] == Encode24(d)[..12][j];
    }
    if t[..12] == e[..12] {
      assert forall j: nat | j < 12 :: t[j] == t[..12][j] && e[j] == e[..12][j];
    }
  }
}
