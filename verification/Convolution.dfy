/**
 The Viterbi decoder and the convolutional encoder of YSFConvolution.cpp (ysf_fich.c
 carries a second copy of the same code), verified against the trellis.
 */
module Convolution {
  import opened Bits
  import opened Trellis

  const NUM_OF_STATES_D2 := 8
  const NUM_OF_STATES := 16
  const M := 2
  const MAX_DECISIONS := 180

  function BranchTable1(i: nat): nat
    requires i < 8
  {
    if i < 4 then 0 else 1
  }

  function BranchTable2(i: nat): nat
    requires i < 8
  {
    if i == 1 || i == 2 || i == 5 || i == 6 then 1 else 0
  }

  /** The register contents that state number i stands for. */
  function StateOf(i: nat): State
    requires i < 16
  {
    State(i % 2 == 1, i / 2 % 2 == 1, i / 4 % 2 == 1, i / 8 == 1)
  }

  function Xor(a: nat, b: bool): nat {
    if (a == 1) != b then 1 else 0
  }

  /** The butterfly: states 2i and 2i + 1 are entered from states i and i + 8. */
  lemma ButterflyStates(i: nat)
    requires i < 8
    ensures Back(StateOf(2 * i), false) == Back(StateOf(2 * i + 1), false) == StateOf(i)
    ensures Back(StateOf(2 * i), true) == Back(StateOf(2 * i + 1), true) == StateOf(i + 8)
    ensures !StateOf(2 * i).d1 && StateOf(2 * i + 1).d1
  {
    if i == 0 {} else if i == 1 {} else if i == 2 {} else if i == 3 {}
    else if i == 4 {} else if i == 5 {} else if i == 6 {} else {}
  }

  /** The branch tables hold the symbol sent from state i < 8 on input zero. */
  lemma BranchTables(i: nat)
    requires i < 8
    ensures Emit(StateOf(i), false) == Dibit(BranchTable1(i) == 1, BranchTable2(i) == 1)
    ensures StateOf(i + 8) == StateOf(i).(d4 := true) && !StateOf(i).d4
  {
    if i == 0 {} else if i == 1 {} else if i == 2 {} else if i == 3 {}
    else if i == 4 {} else if i == 5 {} else if i == 6 {} else {}
  }

  lemma Butterfly(i: nat, x: Dibit)
    requires i < 8
    ensures var m := Xor(BranchTable1(i), x.g1) + Xor(BranchTable2(i), x.g2);
            && m <= 2
            && Branch(StateOf(2 * i), false, x) == Branch(StateOf(2 * i + 1), true, x) == m
            && Branch(StateOf(2 * i), true, x) == Branch(StateOf(2 * i + 1), false, x) == 2 - m
  {
    hide StateOf, BranchTable1, BranchTable2;
    ButterflyStates(i);
    BranchTables(i);
  }

  /** The add-compare-select recursion, in the terms the decoder computes it. */
  lemma ButterflySelects(r: seq<Dibit>, i: nat, x: Dibit)
    requires i < 8
    ensures var m := Xor(BranchTable1(i), x.g1) + Xor(BranchTable2(i), x.g2);
            var lo, hi := Metric(r, StateOf(i)), Metric(r, StateOf(i + 8));
            && m <= 2
            && Metric(r + [x], StateOf(2 * i)) == (if lo + m >= hi + (2 - m) then hi + (2 - m) else lo + m)
            && Decision(r + [x], StateOf(2 * i)) == (lo + m >= hi + (2 - m))
            && Metric(r + [x], StateOf(2 * i + 1)) == (if lo + (2 - m) >= hi + m then hi + m else lo + (2 - m))
            && Decision(r + [x], StateOf(2 * i + 1)) == (lo + (2 - m) >= hi + m)
  {
    hide StateOf, BranchTable1, BranchTable2, Xor, Branch, Back;
    Butterfly(i, x);
    ButterflyStates(i);
    assert (r + [x])[..|r + [x]| - 1] == r;
  }

  /** The decision word of the last symbol of r: bit i belongs to state i. */
  function Word(r: seq<Dibit>): (w: seq<bool>)
    requires r != []
    ensures |w| == 16 && forall i: nat | i < 16 :: w[i] == Decision(r, StateOf(i))
  {
    seq(16, i requires 0 <= i < 16 => Decision(r, StateOf(i)))
  }

  class Decoder {
    const metrics1: array<nat>
    const metrics2: array<nat>
    var oldMetrics: array<nat>
    var newMetrics: array<nat>
    const decisions: array<seq<bool>>   // one word of decision bits per decoded symbol
    var dp: nat
    ghost var received: seq<Dibit>

    /** The buffers the constructor allocates. */
    ghost predicate Shape()
      reads this
    {
      && metrics1 != metrics2 && metrics1.Length == metrics2.Length == NUM_OF_STATES
      && decisions.Length == MAX_DECISIONS
    }

    /** Between start and chainback: metrics and decisions are those of the symbols received. */
    ghost predicate Valid()
      reads this, metrics1, metrics2, decisions
    {
      && Shape()
      && ((oldMetrics == metrics1 && newMetrics == metrics2) || (oldMetrics == metrics2 && newMetrics == metrics1))
      && dp == |received| <= MAX_DECISIONS
      && (forall i: nat | i < 16 :: oldMetrics[i] == Metric(received, StateOf(i)))
      && Decided(dp)
    }

    ghost predicate Decided(n: nat)
      requires n <= |received| && n <= decisions.Length
      reads this, decisions
    {
      forall t: nat | t < n :: decisions[t] == Word(received[..t + 1])
    }

    constructor ()
      ensures Shape() && fresh(metrics1) && fresh(metrics2) && fresh(decisions)
      ensures oldMetrics == metrics1 && newMetrics == metrics2
    {
      metrics1 := new nat[16];
      metrics2 := new nat[16];
      decisions := new seq<bool>[180];
      oldMetrics := metrics1;
      newMetrics := metrics2;
      dp := 0;
      received := [];
    }

    method Start()
      requires Shape()
      modifies this, metrics1, metrics2
      ensures Valid() && received == []
    {
      for i := 0 to 16
        invariant forall j: nat | j < i :: metrics1[j] == 0
      {
        metrics1[i] := 0;
      }
      for i := 0 to 16
        invariant forall j: nat | j < 16 :: metrics1[j] == 0
        invariant forall j: nat | j < i :: metrics2[j] == 0
      {
        metrics2[i] := 0;
      }
      oldMetrics := metrics1;
      newMetrics := metrics2;
      dp := 0;
      received := [];
    }

    /**
     Add, compare and select for one received symbol. Metrics are 16-bit in the
     source; they stay at most twice the number of symbols, so they never wrap.
     */
    method Decode(s0: bool, s1: bool)
      requires Valid() && dp < MAX_DECISIONS
      modifies this, metrics1, metrics2, decisions
      ensures Valid() && received == old(received) + [Dibit(s0, s1)]
      ensures forall i: nat | i < 16 :: oldMetrics[i] <= 2 * |received| < 0x10000
    {
      ghost var r := received + [Dibit(s0, s1)];
      ghost var before := received;
      var word := Select(s0, s1);
      decisions[dp] := word;
      dp := dp + 1;
      oldMetrics, newMetrics := newMetrics, oldMetrics;
      received := r;
      forall t: nat | t < dp ensures decisions[t] == Word(received[..t + 1])
      {
        if t < dp - 1 {
          assert r[..t + 1] == before[..t + 1];
        } else {
          assert r[..t + 1] == r;
        }
      }
    }

    /** The loop of decode over the eight butterflies; returns the decision word. */
    method Select(s0: bool, s1: bool) returns (word: seq<bool>)
      requires oldMetrics != newMetrics && oldMetrics.Length == newMetrics.Length == NUM_OF_STATES
      requires forall k: nat | k < 16 :: oldMetrics[k] == Metric(received, StateOf(k))
      modifies newMetrics
      ensures forall k: nat | k < 16 :: newMetrics[k] == Metric(received + [Dibit(s0, s1)], StateOf(k))
      ensures word == Word(received + [Dibit(s0, s1)])
    {
      hide Metric, Decision, StateOf, Xor, BranchTable1, BranchTable2;
      word := seq(16, _ => false);
      for i := 0 to NUM_OF_STATES_D2
        invariant |word| == 16
        invariant forall k: nat | k < 16 :: oldMetrics[k] == Metric(received, StateOf(k))
        invariant forall k: nat | k < 2 * i :: newMetrics[k] == Metric(received + [Dibit(s0, s1)], StateOf(k))
        invariant forall k: nat | k < 2 * i :: word[k] == Decision(received + [Dibit(s0, s1)], StateOf(k))
      {
        ButterflySelects(received, i, Dibit(s0, s1));
        var j := i * 2;
        var metric := Xor(BranchTable1(i), s0) + Xor(BranchTable2(i), s1);

        var m0 := oldMetrics[i] + metric;
        var m1 := oldMetrics[i + NUM_OF_STATES_D2] + (M - metric);
        var decision0 := m0 >= m1;
        newMetrics[j + 0] := if decision0 then m1 else m0;

        m0 := oldMetrics[i] + (M - metric);
        m1 := oldMetrics[i + NUM_OF_STATES_D2] + metric;
        var decision1 := m0 >= m1;
        newMetrics[j + 1] := if decision1 then m1 else m0;

        word := word[j + 1 := decision1][j + 0 := decision0];
      }
    }

    /**
     Walks the decisions back from state zero and stores, for n below nBits, the
     bit shifted out of the register at time dp - nBits + n on the traced path.
     */
    method Chainback(out: array<bv8>, nBits: nat)
      requires Valid() && nBits <= dp && nBits <= 8 * out.Length
      requires out as object != decisions   // the two buffers are separate allocations
      modifies this`dp, out
      ensures dp == old(dp) - nBits
      ensures forall n: nat | n < nBits :: Bit(out[..], n) == Trace(received, ZERO, dp + n).d4
      ensures forall n: nat | nBits <= n < 8 * out.Length :: Bit(out[..], n) == Bit(old(out[..]), n)
    {
      hide Bit, Decision, StateOf, Metric;
      var state := 0;
      var n := nBits;
      ghost var T := dp;
      assert received[..T] == received;
      assert Trace(received, ZERO, T) == StateOf(0) by { ZeroIsFirst(); }
      while n > 0
        invariant 0 <= n <= nBits && dp == T - nBits + n
        invariant Decided(T)
        invariant 0 <= state < 256
        invariant Trace(received, ZERO, dp) == StateOf(state / 16)
        invariant forall k: nat | n <= k < nBits :: Bit(out[..], k) == Trace(received, ZERO, T - nBits + k).d4
        invariant forall k: nat | nBits <= k < 8 * out.Length :: Bit(out[..], k) == Bit(old(out[..]), k)
      {
        n := n - 1;
        dp := dp - 1;
        var i := state / 16;
        var bit := decisions[dp][i];
        TraceBack(received, ZERO, dp);
        Halve(state, bit);
        state := (if bit then 128 else 0) + state / 2;
        WriteBit(out, n, bit);
      }
    }
  }

  /** One step back along the traced path follows the decision of the symbol just removed. */
  lemma {:induction false} TraceBack(r: seq<Dibit>, s: State, t: nat)
    requires t < |r|
    ensures var q := Trace(r, s, t + 1);
            Trace(r, s, t) == Back(q, Decision(r[..t + 1], q))
    decreases |r|
  {
    if t + 1 < |r| {
      var p := r[..|r| - 1];
      TraceBack(p, Back(s, Decision(r, s)), t);
      assert p[..t + 1] == r[..t + 1];
    } else {
      assert r[..t + 1] == r;
    }
  }

  lemma ZeroIsFirst()
    ensures StateOf(0) == ZERO
  {
  }

  lemma Halve(state: nat, bit: bool)
    requires state < 256
    ensures var next := (if bit then 128 else 0) + state / 2;
            next < 256 && StateOf(next / 16) == Back(StateOf(state / 16), bit)
  {
    var i := state / 16;
    assert state / 2 / 16 == i / 2;
    assert ((if bit then 128 else 0) + state / 2) / 16 == (if bit then 8 else 0) + i / 2;
    if i < 4 {} else if i < 8 {} else if i < 12 {} else {}
  }

  /** Symbol i of a buffer of packed symbols. */
  function Symbol(s: seq<bv8>, i: nat): Dibit
    requires 2 * i + 1 < 8 * |s|
  {
    Dibit(Bit(s, 2 * i), Bit(s, 2 * i + 1))
  }

  /** Encodes the first nBits bits of inp; out receives the symbols in order. */
  method Encode(inp: array<bv8>, out: array<bv8>, nBits: nat)
    requires 0 < nBits <= 8 * inp.Length && 2 * nBits <= 8 * out.Length && inp != out
    modifies out
    ensures forall i: nat | i < nBits :: Symbol(out[..], i) == Code(ZERO, BitsOf(inp[..])[..nBits])[i]
    ensures forall n: nat | 2 * nBits <= n < 8 * out.Length :: Bit(out[..], n) == Bit(old(out[..]), n)
  {
    hide Bit;
    var d1, d2, d3, d4 := false, false, false, false;
    var k := 0;
    ghost var u := BitsOf(inp[..]);
    for i := 0 to nBits
      invariant k == 2 * i
      invariant State(d1, d2, d3, d4) == Run(ZERO, u[..i])
      invariant forall j: nat | j < i :: Symbol(out[..], j) == Code(ZERO, u[..i])[j]
      invariant forall n: nat | 2 * nBits <= n < 8 * out.Length :: Bit(out[..], n) == Bit(old(out[..]), n)
    {
      var d := Bit(inp[..], i);
      var g1 := (d != d3) != d4;
      var g2 := ((d != d1) != d2) != d4;
      assert u[..i + 1][..i] == u[..i] && u[..i + 1][i] == d;
      d4 := d3;
      d3 := d2;
      d2 := d1;
      d1 := d;
      ghost var before := out[..];
      WriteBit(out, k, g1);
      k := k + 1;
      WriteBit(out, k, g2);
      k := k + 1;
      assert Symbol(out[..], i) == Dibit(g1, g2);
      assert forall j: nat | j < i :: Symbol(out[..], j) == Symbol(before, j);
    }
  }

  /** A message of at least four bits that closes with the four zero bits the encoders append. */
  predicate ZeroTailed(u: seq<bool>) {
    |u| >= 4 && !u[|u| - 1] && !u[|u| - 2] && !u[|u| - 3] && !u[|u| - 4]
  }

  /** What chainback over all but four symbols delivers. */
  function Recovered(r: seq<Dibit>): (o: seq<bool>)
    requires |r| >= 4
    ensures |o| == |r| - 4 && forall n: nat | n < |o| :: o[n] == Trace(r, ZERO, 4 + n).d4
  {
    seq(|r| - 4, n requires 0 <= n < |r| - 4 => Trace(r, ZERO, 4 + n).d4)
  }

  /**
   Decoding undoes encoding through one wrong bit: for every zero-tailed message
   and every received stream at most one bit away from its code, chainback over
   all but four symbols stores the message without its tail.
   */
  lemma DecodeCorrectsOneBit(u: seq<bool>, r: seq<Dibit>)
    requires ZeroTailed(u) && |r| == |u|
    requires Distance(Code(ZERO, u), r) <= 1
    ensures Recovered(r) == u[..|u| - 4]
  {
    ZeroTail(ZERO, u);
    SingleErrorCorrected(u, r);
    forall n: nat | n < |u| - 4 ensures Recovered(r)[n] == u[n] {
      TraceReadsInputs(r, ZERO, n);
    }
  }
}
