/** Sums and weights of words: what the distance of a code given by its parity checks is made of. */
module Weights {
  import opened Golay

  // ---------------------------------------------------------------------- sums

  /** The sum, modulo two, of the bits of d at the positions s. */
  predicate Sum(d: Word, s: seq<nat>)
    requires forall i: nat | i < |s| :: s[i] < |d|
    decreases |s|
  {
    if s == [] then false else Sum(d, s[..|s| - 1]) != d[s[|s| - 1]]
  }

  predicate Below(s: seq<nat>, k: nat) {
    forall i: nat | i < |s| :: s[i] < k
  }

  lemma {:induction false} SumFrame(d: Word, e: Word, s: seq<nat>, k: nat)
    requires Below(s, k) && k <= |d| && k <= |e| && d[..k] == e[..k]
    ensures Sum(d, s) == Sum(e, s)
    decreases |s|
  {
    if s != [] {
      var j := s[|s| - 1];
      SumFrame(d, e, s[..|s| - 1], k);
      assert d[..k][j] == e[..k][j];
    }
  }

  lemma {:induction false} SumLinear(d: Word, e: Word, s: seq<nat>)
    requires |d| == |e| && Below(s, |d|)
    ensures Sum(Xor(d, e), s) == (Sum(d, s) != Sum(e, s))
    decreases |s|
  {
    if s != [] {
      SumLinear(d, e, s[..|s| - 1]);
    }
  }

  lemma {:induction false} SumZero(n: nat, s: seq<nat>)
    requires Below(s, n)
    ensures !Sum(Zeros(n), s)
    decreases |s|
  {
    if s != [] {
      SumZero(n, s[..|s| - 1]);
    }
  }

  /** The sum of the bits at s, written out, for up to eight positions. */
  predicate Chain(d: Word, s: seq<nat>)
    requires |s| <= 8 && Below(s, |d|)
  {
    ((At(d, s, 0) != At(d, s, 1)) != (At(d, s, 2) != At(d, s, 3)))
    != ((At(d, s, 4) != At(d, s, 5)) != (At(d, s, 6) != At(d, s, 7)))
  }

  predicate At(d: Word, s: seq<nat>, i: nat)
    requires Below(s, |d|)
  {
    i < |s| && d[s[i]]
  }

  lemma {:induction false} SumIsChain(d: Word, s: seq<nat>)
    requires |s| <= 8 && Below(s, |d|)
    ensures Sum(d, s) == Chain(d, s)
    decreases |s|
  {
    if s != [] {
      var r := s[..|s| - 1];
      SumIsChain(d, r);
      forall i: nat | i < |r| ensures At(d, r, i) == At(d, s, i) {
      }
    }
  }

  predicate IsSum(p: bool, a: bool, b: bool, c: bool, d: bool, e: bool, f: bool, g: bool) {
    p == (((a != b) != (c != d)) != ((e != f) != g))
  }

  // ------------------------------------------------------------------- weights

  function Weight(w: Word): (n: nat)
    ensures n <= |w|
  {
    if w == [] then 0 else Weight(w[1..]) + One(w[0])
  }

  function One(b: bool): nat {
    if b then 1 else 0
  }

  lemma {:induction false} WeightSum(a: Word, b: Word)
    ensures Weight(a + b) == Weight(a) + Weight(b)
    decreases |a|
  {
    if a == [] {
      assert a + b == b;
    } else {
      WeightSum(a[1..], b);
      assert (a + b)[1..] == a[1..] + b;
    }
  }

  lemma {:induction false} WeightXor(a: Word, b: Word)
    requires |a| == |b|
    ensures Weight(Xor(a, b)) <= Weight(a) + Weight(b)
    decreases |a|
  {
    if a != [] {
      WeightXor(a[1..], b[1..]);
      assert Xor(a, b)[1..] == Xor(a[1..], b[1..]);
    }
  }

  lemma {:induction false} WeightZero(w: Word)
    ensures Weight(w) == 0 <==> forall i: nat | i < |w| :: !w[i]
    decreases |w|
  {
    if w != [] {
      WeightZero(w[1..]);
      assert forall i: nat | i < |w[1..]| :: w[1..][i] == w[i + 1];
    }
  }

  lemma {:induction false} WeightOne(w: Word, at: nat)
    requires at < |w|
    ensures Weight(w[at..]) == Weight(w[at + 1..]) + One(w[at])
  {
    assert w[at..][1..] == w[at + 1..];
  }

  lemma {:induction false} WeightNone()
    ensures Weight([]) == 0
  {
  }

  function Ones4(w: Word, at: nat): nat
    requires at + 4 <= |w|
  {
    Four(w[at], w[at + 1], w[at + 2], w[at + 3])
  }

  function Four(a: bool, b: bool, c: bool, d: bool): nat {
    One(a) + One(b) + One(c) + One(d)
  }

  lemma {:induction false} WeightFour(w: Word, at: nat)
    requires at + 4 <= |w|
    ensures Weight(w[at..]) == Ones4(w, at) + Weight(w[at + 4..])
  {
    hide Weight, One;
    WeightOne(w, at);
    WeightOne(w, at + 1);
    WeightOne(w, at + 2);
    WeightOne(w, at + 3);
  }

  lemma {:induction false} XorNone(a: Word, b: Word)
    requires |a| == |b| && Xor(a, b) == Zeros(|a|)
    ensures a == b
  {
    forall i: nat | i < |a| ensures a[i] == b[i] {
      assert !Xor(a, b)[i];
    }
  }

  lemma {:induction false} ParityOfWeight(w: Word)
    ensures Parity(w) <==> Weight(w) % 2 == 1
    decreases |w|
  {
    if w != [] {
      ParityOfWeight(w[1..]);
    }
  }

  lemma {:induction false} ParityXor(a: Word, b: Word)
    requires |a| == |b|
    ensures Parity(Xor(a, b)) == (Parity(a) != Parity(b))
    decreases |a|
  {
    if a != [] {
      ParityXor(a[1..], b[1..]);
      assert Xor(a, b)[1..] == Xor(a[1..], b[1..]);
    }
  }
}
