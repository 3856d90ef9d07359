/**
 The rate-1/2, constraint-length-5 convolutional code shared by the FICH, the
 frame headers and the data channel, as a trellis, and what the Viterbi search
 over it guarantees. Generators: g1 = d + d3 + d4 and g2 = d + d1 + d2 + d4.
 */
module Trellis {

  /** The encoder's shift register: d1 is the newest of the last four inputs. */
  datatype State = State(d1: bool, d2: bool, d3: bool, d4: bool)

  /** One coded symbol: the g1 bit and the g2 bit. */
  datatype Dibit = Dibit(g1: bool, g2: bool)

  const ZERO := State(false, false, false, false)

  function Shift(s: State, d: bool): State {
    State(d, s.d1, s.d2, s.d3)
  }

  function Emit(s: State, d: bool): Dibit {
    Dibit((d != s.d3) != s.d4, ((d != s.d1) != s.d2) != s.d4)
  }

  /** The state reached from s by the inputs u. */
  function Run(s: State, u: seq<bool>): State
    decreases |u|
  {
    if u == [] then s else Shift(Run(s, u[..|u| - 1]), u[|u| - 1])
  }

  /** The coded symbols sent for the inputs u from state s. */
  function Code(s: State, u: seq<bool>): (c: seq<Dibit>)
    ensures |c| == |u|
    decreases |u|
  {
    if u == [] then [] else Code(s, u[..|u| - 1]) + [Emit(Run(s, u[..|u| - 1]), u[|u| - 1])]
  }

  /** What a single one leaves: 1 + x^3 + x^4 in the first bits and 1 + x + x^2 + x^4 in the second. */
  lemma {:induction false} ImpulseResponse()
    ensures Code(ZERO, [true, false, false, false, false]) ==
            [Dibit(true, true), Dibit(false, true), Dibit(false, true), Dibit(true, false), Dibit(true, true)]
  {
    var u := [true, false, false, false, false];
    assert u[..4][..3] == u[..3] && u[..3][..2] == u[..2] && u[..2][..1] == u[..1] && u[..1][..0] == u[..0] == [];
    assert Run(ZERO, u[..1]) == State(true, false, false, false);
    assert Run(ZERO, u[..2]) == State(false, true, false, false);
    assert Run(ZERO, u[..3]) == State(false, false, true, false);
    assert Run(ZERO, u[..4]) == State(false, false, false, true);
    assert Code(ZERO, u[..1]) == [Dibit(true, true)];
    assert Code(ZERO, u[..2]) == Code(ZERO, u[..1]) + [Dibit(false, true)];
    assert Code(ZERO, u[..3]) == Code(ZERO, u[..2]) + [Dibit(false, true)];
    assert Code(ZERO, u[..4]) == Code(ZERO, u[..3]) + [Dibit(true, false)];
    assert Code(ZERO, u) == Code(ZERO, u[..4]) + [Dibit(true, true)];
  }

  function Gap(a: Dibit, b: Dibit): (n: nat)
    ensures n <= 2
  {
    (if a.g1 != b.g1 then 1 else 0) + (if a.g2 != b.g2 then 1 else 0)
  }

  /** Hamming distance, in bits, between two symbol streams. */
  function Distance(a: seq<Dibit>, b: seq<Dibit>): nat
    requires |a| == |b|
    decreases |a|
  {
    if a == [] then 0 else Distance(a[..|a| - 1], b[..|b| - 1]) + Gap(a[|a| - 1], b[|b| - 1])
  }

  // ---------------------------------------------------------------- Viterbi

  /** The predecessor of s that shifted out the bit `out`. */
  function Back(s: State, out: bool): State {
    State(s.d2, s.d3, s.d4, out)
  }

  /** Cost of stepping into s from its predecessor `out` on receiving x. */
  function Branch(s: State, out: bool, x: Dibit): nat {
    Gap(Emit(Back(s, out), s.d1), x)
  }

  /** The path metric that the add-compare-select recursion keeps for s after r. */
  function Metric(r: seq<Dibit>, s: State): (m: nat)
    ensures m <= 2 * |r|
    decreases |r|
  {
    if r == [] then 0
    else
      var p, x := r[..|r| - 1], r[|r| - 1];
      var m0 := Metric(p, Back(s, false)) + Branch(s, false, x);
      var m1 := Metric(p, Back(s, true)) + Branch(s, true, x);
      if m0 >= m1 then m1 else m0
  }

  /** The decision bit stored for s when the last symbol of r arrives; ties go to 1. */
  predicate Decision(r: seq<Dibit>, s: State)
    requires r != []
  {
    var p, x := r[..|r| - 1], r[|r| - 1];
    Metric(p, Back(s, false)) + Branch(s, false, x) >= Metric(p, Back(s, true)) + Branch(s, true, x)
  }

  /** The state at time t on the path the stored decisions trace back from s. */
  function Trace(r: seq<Dibit>, s: State, t: nat): State
    requires t <= |r|
    decreases |r|
  {
    if t == |r| then s else Trace(r[..|r| - 1], Back(s, Decision(r, s)), t)
  }

  /** The inputs along that path. */
  function Survivor(r: seq<Dibit>, s: State): (u: seq<bool>)
    ensures |u| == |r|
    decreases |r|
  {
    if r == [] then [] else Survivor(r[..|r| - 1], Back(s, Decision(r, s))) + [s.d1]
  }

  /** The traced path is a path of the trellis into s, and its cost is the metric kept for s. */
  lemma {:induction false} SurvivorIsOptimalPath(r: seq<Dibit>, s: State)
    ensures Run(Trace(r, s, 0), Survivor(r, s)) == s
    ensures Distance(Code(Trace(r, s, 0), Survivor(r, s)), r) == Metric(r, s)
    decreases |r|
  {
    if r != [] {
      var p, q := r[..|r| - 1], Back(s, Decision(r, s));
      SurvivorIsOptimalPath(p, q);
      var u, v := Survivor(r, s), Survivor(p, q);
      assert u[..|u| - 1] == v;
      var c := Code(Trace(r, s, 0), u);
      assert c[..|c| - 1] == Code(Trace(p, q, 0), v);
    }
  }

  /** No path into s, from any start state, is closer to what was received than the metric says. */
  lemma {:induction false} MetricIsMinimum(r: seq<Dibit>, start: State, u: seq<bool>)
    requires |u| == |r|
    ensures Metric(r, Run(start, u)) <= Distance(Code(start, u), r)
    decreases |r|
  {
    if r != [] {
      var n := |r| - 1;
      var p, v := r[..n], u[..n];
      MetricIsMinimum(p, start, v);
      var q, s := Run(start, v), Run(start, u);
      assert Back(s, q.d4) == q;
      var c := Code(start, u);
      assert c[..n] == Code(start, v);
    }
  }

  /** Each state of the traced path is its predecessor shifted by the survivor's input. */
  lemma {:induction false} TraceSteps(r: seq<Dibit>, s: State, t: nat)
    requires t < |r|
    ensures Trace(r, s, t + 1) == Shift(Trace(r, s, t), Survivor(r, s)[t])
    decreases |r|
  {
    var p, q := r[..|r| - 1], Back(s, Decision(r, s));
    if t + 1 < |r| {
      TraceSteps(p, q, t);
    } else {
      assert Trace(p, q, t) == q;
    }
  }

  /** The bit shifted out at time t + 4 is the input the survivor took at time t. */
  lemma {:induction false} TraceReadsInputs(r: seq<Dibit>, s: State, t: nat)
    requires t + 4 <= |r|
    ensures Trace(r, s, t + 4).d4 == Survivor(r, s)[t]
  {
    TraceSteps(r, s, t);
    TraceSteps(r, s, t + 1);
    TraceSteps(r, s, t + 2);
    TraceSteps(r, s, t + 3);
  }

  // ------------------------------------------------------- minimum distance

  /** Front-to-back reading of the same code, used to compare two paths. */
  lemma {:induction false} CodeFromFront(s: State, u: seq<bool>)
    requires u != []
    ensures Run(s, u) == Run(Shift(s, u[0]), u[1..])
    ensures Code(s, u) == [Emit(s, u[0])] + Code(Shift(s, u[0]), u[1..])
    decreases |u|
  {
    var n := |u| - 1;
    if n == 0 {
      assert u[..0] == [] && u[1..] == [];
    } else {
      CodeFromFront(s, u[..n]);
      assert u[..n][1..] == u[1..][..n - 1];
      assert u[..n][0] == u[0];
    }
  }

  // ------------------------------------------------------------- sums of paths

  function Plus(a: Dibit, b: Dibit): Dibit {
    Dibit(a.g1 != b.g1, a.g2 != b.g2)
  }

  function PlusState(s: State, t: State): State {
    State(s.d1 != t.d1, s.d2 != t.d2, s.d3 != t.d3, s.d4 != t.d4)
  }

  function PlusInputs(u: seq<bool>, v: seq<bool>): (w: seq<bool>)
    requires |u| == |v|
    ensures |w| == |u|
  {
    seq(|u|, i requires 0 <= i < |u| => u[i] != v[i])
  }

  function PlusCode(a: seq<Dibit>, b: seq<Dibit>): (c: seq<Dibit>)
    requires |a| == |b|
    ensures |c| == |a|
  {
    seq(|a|, i requires 0 <= i < |a| => Plus(a[i], b[i]))
  }

  /** The code is linear in start state and inputs together. */
  lemma {:induction false} CodeLinear(s: State, u: seq<bool>, t: State, v: seq<bool>)
    requires |u| == |v|
    ensures Run(PlusState(s, t), PlusInputs(u, v)) == PlusState(Run(s, u), Run(t, v))
    ensures Code(PlusState(s, t), PlusInputs(u, v)) == PlusCode(Code(s, u), Code(t, v))
    decreases |u|
  {
    hide Emit, Plus, PlusState, Shift, PlusCode;
    if u != [] {
      var n := |u| - 1;
      var p, q := Run(s, u[..n]), Run(t, v[..n]);
      CodeLinear(s, u[..n], t, v[..n]);
      assert PlusInputs(u, v)[..n] == PlusInputs(u[..n], v[..n]);
      EmitLinear(p, u[n], q, v[n]);
      PlusLast(Code(s, u[..n]), Emit(p, u[n]), Code(t, v[..n]), Emit(q, v[n]));
    }
  }

  lemma {:induction false} EmitLinear(p: State, a: bool, q: State, b: bool)
    ensures Shift(PlusState(p, q), a != b) == PlusState(Shift(p, a), Shift(q, b))
    ensures Emit(PlusState(p, q), a != b) == Plus(Emit(p, a), Emit(q, b))
  {
  }

  lemma {:induction false} PlusLast(a: seq<Dibit>, x: Dibit, b: seq<Dibit>, y: Dibit)
    requires |a| == |b|
    ensures PlusCode(a + [x], b + [y]) == PlusCode(a, b) + [Plus(x, y)]
  {
  }

  function Ones(x: Dibit): (n: nat)
    ensures n <= 2
  {
    (if x.g1 then 1 else 0) + (if x.g2 then 1 else 0)
  }

  function Weight(c: seq<Dibit>): nat {
    if c == [] then 0 else Weight(c[..|c| - 1]) + Ones(c[|c| - 1])
  }

  lemma {:induction false} DistanceIsWeight(a: seq<Dibit>, b: seq<Dibit>)
    requires |a| == |b|
    ensures Distance(a, b) == Weight(PlusCode(a, b))
    decreases |a|
  {
    if a != [] {
      var n := |a| - 1;
      DistanceIsWeight(a[..n], b[..n]);
      assert PlusCode(a, b)[..n] == PlusCode(a[..n], b[..n]);
    }
  }

  // ------------------------------------------------------------ paths from the front

  /** Weight of the code of a path, first symbol first. */
  function Heft(d: State, x: seq<bool>): nat
    decreases |x|
  {
    if x == [] then 0 else Ones(Emit(d, x[0])) + Heft(Shift(d, x[0]), x[1..])
  }

  lemma {:induction false} WeightFromFront(c: seq<Dibit>)
    requires c != []
    ensures Weight(c) == Ones(c[0]) + Weight(c[1..])
    decreases |c|
  {
    var n := |c| - 1;
    if n > 0 {
      WeightFromFront(c[..n]);
      assert c[..n][1..] == c[1..][..n - 1];
    }
  }

  lemma {:induction false} HeftIsWeight(d: State, x: seq<bool>)
    ensures Heft(d, x) == Weight(Code(d, x))
    decreases |x|
  {
    if x != [] {
      CodeFromFront(d, x);
      HeftIsWeight(Shift(d, x[0]), x[1..]);
      WeightFromFront(Code(d, x));
    }
  }

  /** One step of a path that ends in state zero. */
  lemma {:induction false} Steps(d: State, x: seq<bool>)
    requires Run(d, x) == ZERO && (d != ZERO || x != [])
    ensures x != [] && Run(Shift(d, x[0]), x[1..]) == ZERO
    ensures Heft(d, x) == Ones(Emit(d, x[0])) + Heft(Shift(d, x[0]), x[1..])
  {
    if x != [] {
      CodeFromFront(d, x);
    }
  }

  predicate AnyInput(x: seq<bool>) {
    exists i :: 0 <= i < |x| && x[i]
  }

  /** The four rivals: start state, inputs up to the last one that differs, and coded bits that differ. */
  datatype Rival = Rival(start: State, inputs: seq<bool>, bits: set<nat>)

  const Rivals: seq<Rival> := [
    Rival(State(false, true, true, false), [true], {4, 6, 8, 9}),
    Rival(State(true, true, false, true), [true], {2, 7, 8, 9}),
    Rival(State(true, false, true, false), [true, true], {4, 9, 10, 11}),
    Rival(State(true, true, false, false), [false, true], {6, 8, 10, 11})]

  /** The inputs of rival k in a block of n symbols. */
  function Inputs(k: nat, n: nat): (x: seq<bool>)
    requires k < 4 && |Rivals[k].inputs| <= n
    ensures |x| == n
  {
    Rivals[k].inputs + seq(n - |Rivals[k].inputs|, _ => false)
  }

  ghost predicate IsRival(d: State, x: seq<bool>) {
    exists k: nat :: k < 4 && |Rivals[k].inputs| + 4 <= |x| && d == Rivals[k].start && x == Inputs(k, |x|)
  }

  lemma {:induction false} NotAnyInput(x: seq<bool>, i: nat)
    requires !AnyInput(x) && i < |x|
    ensures !x[i] && !AnyInput(x[1..])
  {
    assert forall j: nat | j < |x[1..]| :: x[1..][j] == x[j + 1];
  }

  /** Four zero inputs behind the last differing one: what the register still sends. */
  lemma {:induction false} Flush(d: State, x: seq<bool>)
    requires Run(d, x) == ZERO && d.d1 && !AnyInput(x)
    ensures |x| >= 4
    ensures Heft(d, x) >= Ones(Emit(d, false)) + Ones(Emit(State(false, d.d1, d.d2, d.d3), false))
              + Ones(Emit(State(false, false, d.d1, d.d2), false)) + Ones(Emit(State(false, false, false, d.d1), false))
  {
    hide Run, Heft, Emit, Ones, AnyInput;
    Steps(d, x);
    NotAnyInput(x, 0);
    var d1, x1 := Shift(d, x[0]), x[1..];
    Steps(d1, x1);
    NotAnyInput(x1, 0);
    var d2, x2 := Shift(d1, x1[0]), x1[1..];
    Steps(d2, x2);
    NotAnyInput(x2, 0);
    var d3, x3 := Shift(d2, x2[0]), x2[1..];
    Steps(d3, x3);
    NotAnyInput(x3, 0);
  }

  /** The first input is the only one that differs. */
  lemma {:induction false} FirstOnly(d: State, x: seq<bool>)
    requires Run(d, x) == ZERO && x != [] && x[0] && !AnyInput(x[1..])
    ensures Heft(d, x) >= 4 && |x| >= 5
    ensures Heft(d, x) == 4 ==> d == Rivals[0].start || d == Rivals[1].start
  {
    hide Run, Heft, AnyInput;
    Steps(d, x);
    Flush(Shift(d, x[0]), x[1..]);
  }

  /** The second input is the last that differs. */
  lemma {:induction false} SecondLast(d: State, x: seq<bool>)
    requires Run(d, x) == ZERO && |x| >= 2 && x[1] && !AnyInput(x[2..])
    ensures Heft(d, x) >= 4 && |x| >= 6
    ensures Heft(d, x) == 4 ==> (d == Rivals[2].start && x[0]) || (d == Rivals[3].start && !x[0])
  {
    hide Run, Heft, AnyInput;
    Steps(d, x);
    var d1, x1 := Shift(d, x[0]), x[1..];
    Steps(d1, x1);
    assert x1[1..] == x[2..];
    Flush(Shift(d1, x1[0]), x1[1..]);
  }

  /** The third input is the last that differs. */
  lemma {:induction false} ThirdLast(d: State, x: seq<bool>)
    requires Run(d, x) == ZERO && |x| >= 3 && x[2] && !AnyInput(x[3..])
    ensures Heft(d, x) >= 5
  {
    hide Run, Heft, AnyInput;
    Steps(d, x);
    var d1, x1 := Shift(d, x[0]), x[1..];
    Steps(d1, x1);
    var d2, x2 := Shift(d1, x1[0]), x1[1..];
    Steps(d2, x2);
    assert x2[1..] == x[3..];
    Flush(Shift(d2, x2[0]), x2[1..]);
  }

  /** An input differs at the third place or later: five bits or more. */
  lemma {:induction false} LaterDiffers(d: State, x: seq<bool>)
    requires Run(d, x) == ZERO && |x| >= 3 && AnyInput(x[2..])
    ensures Heft(d, x) >= 5
    decreases |x|
  {
    hide Run, Heft;
    Steps(d, x);
    if AnyInput(x[3..]) {
      assert x[1..][2..] == x[3..];
      LaterDiffers(Shift(d, x[0]), x[1..]);
    } else {
      AnyInputHead(x[2..]);
      assert x[2..][1..] == x[3..];
      ThirdLast(d, x);
    }
  }

  lemma {:induction false} AnyInputHead(x: seq<bool>)
    requires AnyInput(x)
    ensures x != [] && (x[0] || AnyInput(x[1..]))
  {
    var i: nat :| i < |x| && x[i];
    assert i > 0 ==> x[1..][i - 1];
  }

  lemma {:induction false} NoneLeft(x: seq<bool>, n: nat)
    requires n <= |x| && !AnyInput(x[n..])
    ensures x == x[..n] + seq(|x| - n, _ => false)
  {
    assert forall j: nat | j < |x[n..]| :: !x[n..][j];
    assert forall j: nat | n <= j < |x| :: x[j] == x[n..][j - n];
  }

  /**
   A path into state zero on which some input differs carries at least four bits, whatever state
   it starts in, and four only if it is one of the four rivals.
   */
  lemma {:induction false} LightPaths(d: State, x: seq<bool>)
    requires Run(d, x) == ZERO && AnyInput(x)
    ensures Heft(d, x) >= 4
    ensures Heft(d, x) == 4 ==> IsRival(d, x)
  {
    hide Run, Heft, AnyInput;
    AnyInputHead(x);
    if !AnyInput(x[1..]) {
      FirstOnly(d, x);
      NoneLeft(x, 1);
      assert x == Inputs(0, |x|) == Inputs(1, |x|);
    } else {
      AnyInputHead(x[1..]);
      assert x[1..][1..] == x[2..];
      if !AnyInput(x[2..]) {
        SecondLast(d, x);
        NoneLeft(x, 2);
        assert x[0] ==> x == Inputs(2, |x|);
        assert !x[0] ==> x == Inputs(3, |x|);
      } else {
        AnyInputHead(x[2..]);
        LaterDiffers(d, x);
      }
    }
  }

  /** Paths into one state that differ in any input are at least four bits apart on the air. */
  lemma {:induction false} MinimumDistance(s: State, u: seq<bool>, t: State, v: seq<bool>)
    requires |u| == |v| && u != v
    requires Run(s, u) == Run(t, v)
    ensures Distance(Code(s, u), Code(t, v)) >= 4
  {
    hide Run, Code, Distance;
    var d, x := PlusState(s, t), PlusInputs(u, v);
    CodeLinear(s, u, t, v);
    DistanceIsWeight(Code(s, u), Code(t, v));
    HeftIsWeight(d, x);
    var i: nat :| i < |u| && u[i] != v[i];
    assert x[i];
    LightPaths(d, x);
  }

  lemma {:induction false} Triangle(a: seq<Dibit>, b: seq<Dibit>, c: seq<Dibit>)
    requires |a| == |b| == |c|
    ensures Distance(a, c) <= Distance(a, b) + Distance(b, c)
    ensures Distance(a, b) == Distance(b, a)
    decreases |a|
  {
    if a != [] {
      var n := |a| - 1;
      Triangle(a[..n], b[..n], c[..n]);
    }
  }

  /**
   Single-error correction. Whatever start state is assumed, a message whose path
   ends in the state traced from is recovered exactly when at most one received
   bit is wrong.
   */
  lemma {:induction false} SingleErrorCorrected(u: seq<bool>, r: seq<Dibit>)
    requires |u| == |r| && Run(ZERO, u) == ZERO
    requires Distance(Code(ZERO, u), r) <= 1
    ensures Survivor(r, ZERO) == u
  {
    var v, t := Survivor(r, ZERO), Trace(r, ZERO, 0);
    SurvivorIsOptimalPath(r, ZERO);
    MetricIsMinimum(r, ZERO, u);
    Triangle(Code(ZERO, u), r, Code(t, v));
    Triangle(r, Code(t, v), r);
    if u != v {
      MinimumDistance(ZERO, u, t, v);
    }
  }

  /** Four zero inputs drive the register to zero from anywhere. */
  lemma {:induction false} ZeroTail(s: State, u: seq<bool>)
    requires |u| >= 4
    requires !u[|u| - 1] && !u[|u| - 2] && !u[|u| - 3] && !u[|u| - 4]
    ensures Run(s, u) == ZERO
  {
    var u1 := u[..|u| - 1];
    var u2 := u1[..|u1| - 1];
    var u3 := u2[..|u2| - 1];
    assert Run(s, u3) == Shift(Run(s, u3[..|u3| - 1]), false);
    assert Run(s, u2) == Shift(Run(s, u3), false);
    assert Run(s, u1) == Shift(Run(s, u2), false);
  }
}
