/**
 What the decoder does with two wrong bits. Its start state is free, so near the beginning of a
 block four rival paths come within four bits of every sent one. Two wrong bits on a rival make a
 tie, and the tie rule decides it by one bit of the message.
 */
module TwoWrongBits {
  import opened Trellis
  import Convolution

  // --------------------------------------------------------------- wrong bits

  /** Coded bit k of a stream: g1 and g2 of each symbol in turn. */
  function CodedBit(c: seq<Dibit>, k: nat): bool
    requires k < 2 * |c|
  {
    if k % 2 == 0 then c[k / 2].g1 else c[k / 2].g2
  }

  /** The stream with bit k wrong. */
  function Flip(c: seq<Dibit>, k: nat): (f: seq<Dibit>)
    requires k < 2 * |c|
    ensures |f| == |c|
  {
    var x := c[k / 2];
    c[k / 2 := if k % 2 == 0 then x.(g1 := !x.g1) else x.(g2 := !x.g2)]
  }

  lemma {:induction false} FlipWeight(c: seq<Dibit>, k: nat)
    requires k < 2 * |c|
    ensures Weight(Flip(c, k)) == Weight(c) + if CodedBit(c, k) then -1 else 1
    decreases |c|
  {
    var n := |c| - 1;
    if k / 2 < n {
      FlipWeight(c[..n], k);
      assert Flip(c, k)[..n] == Flip(c[..n], k);
    } else {
      assert Flip(c, k)[..n] == c[..n];
    }
  }

  lemma {:induction false} FlipBit(c: seq<Dibit>, k: nat, j: nat)
    requires k < 2 * |c| && j < 2 * |c|
    ensures CodedBit(Flip(c, k), j) == (CodedBit(c, j) != (j == k))
  {
  }

  lemma {:induction false} FlipPlus(a: seq<Dibit>, b: seq<Dibit>, k: nat)
    requires |a| == |b| && k < 2 * |a|
    ensures PlusCode(a, Flip(b, k)) == Flip(PlusCode(a, b), k)
  {
  }

  /** What is received when bits i and j of the code of u are wrong. */
  function Hit(u: seq<bool>, i: nat, j: nat): (r: seq<Dibit>)
    requires i < 2 * |u| && j < 2 * |u|
    ensures |r| == |u|
  {
    Flip(Flip(Code(ZERO, u), i), j)
  }

  /** The cost of a path is that of its difference to the sent one, with both bits flipped. */
  lemma {:induction false} HitDistance(u: seq<bool>, i: nat, j: nat, t: State, v: seq<bool>)
    requires |v| == |u| && i < j < 2 * |u|
    ensures var e := Code(t, PlusInputs(v, u));
      Distance(Code(t, v), Hit(u, i, j))
        == Weight(e) + (if CodedBit(e, i) then -1 else 1) + (if CodedBit(e, j) then -1 else 1)
  {
    hide Code, Distance, Flip, Weight, PlusCode, PlusInputs, CodedBit;
    var a, c := Code(t, v), Code(ZERO, u);
    CodeLinear(t, v, ZERO, u);
    assert PlusState(t, ZERO) == t;
    var e := PlusCode(a, c);
    DistanceIsWeight(a, Hit(u, i, j));
    FlipPlus(a, c, i);
    FlipPlus(a, Flip(c, i), j);
    FlipWeight(e, i);
    FlipWeight(Flip(e, i), j);
    FlipBit(e, i, j);
  }

  // ------------------------------------------------------------- the condition

  /** The message bit that the tie with rival k turns on. */
  function Turn(k: nat): nat
    requires k < 4
  {
    |Rivals[k].inputs| - 1
  }

  /** Both wrong bits lie on rival k, which fits the block, and the message bit is zero. */
  predicate FooledBy(u: seq<bool>, i: nat, j: nat, k: nat)
    requires k < 4
  {
    Turn(k) + 5 <= |u| && i in Rivals[k].bits && j in Rivals[k].bits && !u[Turn(k)]
  }

  predicate Fooled(u: seq<bool>, i: nat, j: nat) {
    FooledBy(u, i, j, 0) || FooledBy(u, i, j, 1) || FooledBy(u, i, j, 2) || FooledBy(u, i, j, 3)
  }

  // ---------------------------------------------------------- the rivals' codes

  function NoInputs(n: nat): seq<bool> {
    seq(n, _ => false)
  }

  const SAME := Dibit(false, false)

  lemma {:induction false} SilentTail(n: nat)
    ensures Run(ZERO, NoInputs(n)) == ZERO && Heft(ZERO, NoInputs(n)) == 0
    ensures forall t | 0 <= t < n :: Code(ZERO, NoInputs(n))[t] == SAME
  {
    if n > 0 {
      assert NoInputs(n)[1..] == NoInputs(n - 1);
      CodeFromFront(ZERO, NoInputs(n));
      SilentTail(n - 1);
    }
  }

  /** One input and then zeros: the register's contents leave it in five symbols. */
  lemma {:induction false} OneThenNoInputs(d: State, a: bool, n: nat)
    requires n >= 4
    ensures var x, c := [a] + NoInputs(n), Code(d, [a] + NoInputs(n));
      && Run(d, x) == ZERO
      && c[0] == Emit(d, a)
      && c[1] == Emit(State(a, d.d1, d.d2, d.d3), false)
      && c[2] == Emit(State(false, a, d.d1, d.d2), false)
      && c[3] == Emit(State(false, false, a, d.d1), false)
      && c[4] == Emit(State(false, false, false, a), false)
      && (forall t | 5 <= t <= n :: c[t] == SAME)
      && Heft(d, x) == Ones(c[0]) + Ones(c[1]) + Ones(c[2]) + Ones(c[3]) + Ones(c[4])
  {
    hide Run, Code, Heft, Emit, Ones;
    var x := [a] + NoInputs(n);
    Front(d, x);
    assert x[1..] == NoInputs(n);
    var d1 := Shift(d, a);
    FrontZero(d1, n);
    var d2 := Shift(d1, false);
    FrontZero(d2, n - 1);
    var d3 := Shift(d2, false);
    FrontZero(d3, n - 2);
    var d4 := Shift(d3, false);
    FrontZero(d4, n - 3);
    assert Shift(d4, false) == ZERO;
    SilentTail(n - 4);
  }

  lemma {:induction false} Front(d: State, x: seq<bool>)
    requires x != []
    ensures Run(d, x) == Run(Shift(d, x[0]), x[1..])
    ensures Code(d, x) == [Emit(d, x[0])] + Code(Shift(d, x[0]), x[1..])
    ensures Heft(d, x) == Ones(Emit(d, x[0])) + Heft(Shift(d, x[0]), x[1..])
  {
    CodeFromFront(d, x);
  }

  lemma {:induction false} FrontZero(d: State, n: nat)
    requires n > 0
    ensures Run(d, NoInputs(n)) == Run(Shift(d, false), NoInputs(n - 1))
    ensures Code(d, NoInputs(n)) == [Emit(d, false)] + Code(Shift(d, false), NoInputs(n - 1))
    ensures Heft(d, NoInputs(n)) == Ones(Emit(d, false)) + Heft(Shift(d, false), NoInputs(n - 1))
  {
    assert NoInputs(n)[1..] == NoInputs(n - 1);
    Front(d, NoInputs(n));
  }

  /** Rival k differs from the sent path in exactly its four bits. */
  lemma {:induction false} RivalCode(k: nat, n: nat)
    requires k < 4 && Turn(k) + 5 <= n
    ensures var e := Code(Rivals[k].start, Inputs(k, n));
      && Run(Rivals[k].start, Inputs(k, n)) == ZERO
      && Weight(e) == 4
      && forall b: nat | b < 2 * n :: CodedBit(e, b) <==> b in Rivals[k].bits
  {
    hide Run, Code, Heft, Weight;
    var d, x := Rivals[k].start, Inputs(k, n);
    HeftIsWeight(d, x);
    if k < 2 {
      assert x == [true] + NoInputs(n - 1);
      OneThenNoInputs(d, true, n - 1);
    } else {
      Front(d, x);
      assert x[1..] == [true] + NoInputs(n - 2);
      OneThenNoInputs(Shift(d, x[0]), true, n - 2);
    }
    var e := Code(d, x);
    forall b: nat | b < 2 * n ensures CodedBit(e, b) <==> b in Rivals[k].bits {
      var t := b / 2;
      if t > 5 {
        assert e[t] == SAME;
      } else {
        assert t == 0 || t == 1 || t == 2 || t == 3 || t == 4 || t == 5;
      }
    }
  }

  // --------------------------------------------------------------- the tie rule

  /** Distance of a path from what was received. */
  function Cost(s: State, w: seq<bool>, r: seq<Dibit>): nat
    requires |w| == |r|
  {
    Distance(Code(s, w), r)
  }

  lemma {:induction false} CostSplits(s: State, w: seq<bool>, r: seq<Dibit>, t: nat)
    requires |w| == |r| && t <= |w|
    ensures Run(s, w) == Run(Run(s, w[..t]), w[t..])
    ensures Cost(s, w, r) == Cost(s, w[..t], r[..t]) + Cost(Run(s, w[..t]), w[t..], r[t..])
    decreases |w|
  {
    hide Cost;
    var n := |w| - 1;
    if t == |w| {
      assert w[..t] == w && r[..t] == r && w[t..] == [] && r[t..] == [];
      CostOfNothing(Run(s, w));
    } else {
      var m := n - t;
      CostSplits(s, w[..n], r[..n], t);
      assert w[..n][..t] == w[..t] && r[..n][..t] == r[..t];
      assert w[..n][t..] == w[t..][..m] && r[..n][t..] == r[t..][..m];
      CostLast(s, w, r);
      CostLast(Run(s, w[..t]), w[t..], r[t..]);
    }
  }

  lemma {:induction false} CostOfNothing(s: State)
    ensures Cost(s, [], []) == 0 && Run(s, []) == s
  {
  }

  lemma {:induction false} CostLast(s: State, w: seq<bool>, r: seq<Dibit>)
    requires |w| == |r| > 0
    ensures var n := |w| - 1;
      Cost(s, w, r) == Cost(s, w[..n], r[..n]) + Gap(Emit(Run(s, w[..n]), w[n]), r[n])
  {
    var n := |w| - 1;
    assert Code(s, w)[..n] == Code(s, w[..n]);
  }

  /** The register holds the last four inputs. */
  lemma {:induction false} RunForgets(s: State, w: seq<bool>)
    requires |w| >= 4
    ensures var n := |w|; Run(s, w) == State(w[n - 1], w[n - 2], w[n - 3], w[n - 4])
  {
    var w1 := w[..|w| - 1];
    var w2 := w1[..|w1| - 1];
    var w3 := w2[..|w2| - 1];
    assert Run(s, w1) == Shift(Run(s, w2), w1[|w1| - 1]);
    assert Run(s, w2) == Shift(Run(s, w3), w2[|w2| - 1]);
    assert Run(s, w3) == Shift(Run(s, w3[..|w3| - 1]), w3[|w3| - 1]);
  }

  /** Cut short, the survivor is the survivor into the state it has reached. */
  lemma {:induction false} SurvivorPrefix(r: seq<Dibit>, s: State, t: nat)
    requires t <= |r|
    ensures Survivor(r, s)[..t] == Survivor(r[..t], Trace(r, s, t))
    ensures Trace(r, s, 0) == Trace(r[..t], Trace(r, s, t), 0)
    decreases |r|
  {
    if t == |r| {
      assert r[..t] == r && Survivor(r, s)[..t] == Survivor(r, s);
    } else {
      var p := r[..|r| - 1];
      SurvivorPrefix(p, Back(s, Decision(r, s)), t);
      assert p[..t] == r[..t];
      assert Survivor(r, s)[..t] == Survivor(p, Back(s, Decision(r, s)))[..t];
    }
  }

  /** A path through the predecessor that a strict comparison rejected costs more than the metric. */
  lemma {:induction false} TieRule(p: seq<Dibit>, s: State, w: seq<bool>)
    requires |w| == |p| > 0
    requires Run(s, w[..|w| - 1]).d4 && !Decision(p, Run(s, w))
    ensures Cost(s, w, p) > Metric(p, Run(s, w))
  {
    hide Cost, Decision, Metric;
    var n := |w| - 1;
    var q, b := Run(s, w), Run(s, w[..n]);
    MetricIsMinimum(p[..n], s, w[..n]);
    assert Cost(s, w[..n], p[..n]) >= Metric(p[..n], b) by { CostIs(s, w[..n], p[..n]); }
    CostLast(s, w, p);
    assert Back(q, true) == b && q.d1 == w[n];
    Rejects(p, q);
  }

  lemma {:induction false} CostIs(s: State, w: seq<bool>, r: seq<Dibit>)
    requires |w| == |r|
    ensures Cost(s, w, r) == Distance(Code(s, w), r)
  {
  }

  lemma {:induction false} Rejects(p: seq<Dibit>, q: State)
    requires p != [] && !Decision(p, q)
    ensures var n := |p| - 1; Metric(p[..n], Back(q, true)) + Branch(q, true, p[n]) > Metric(p, q)
  {
  }

  /** A path that meets the survivor, coming from the predecessor that ties prefer, costs more. */
  lemma {:induction false} Beaten(r: seq<Dibit>, s: State, w: seq<bool>, n: nat)
    requires |w| == |r| && 5 <= n <= |r|
    requires var v := Survivor(r, ZERO); w[n - 4..] == v[n - 4..] && w[n - 5] && !v[n - 5]
    ensures Cost(s, w, r) > Cost(Trace(r, ZERO, 0), Survivor(r, ZERO), r)
  {
    hide Cost, Run, Code, Distance, Trace, Survivor, Decision, Metric;
    var v, t := Survivor(r, ZERO), Trace(r, ZERO, 0);
    var q, p := Trace(r, ZERO, n), r[..n];
    SurvivorPrefix(r, ZERO, n);
    SurvivorIsOptimalPath(p, q);
    CostIs(t, v[..n], p);
    forall i: nat | n - 4 <= i < n ensures w[i] == v[i] {
      assert w[i] == w[n - 4..][i - (n - 4)] && v[i] == v[n - 4..][i - (n - 4)];
    }
    RunForgets(t, v[..n]);
    RunForgets(s, w[..n]);
    SurvivorPrefix(r, ZERO, n - 1);
    SurvivorIsOptimalPath(r[..n - 1], Trace(r, ZERO, n - 1));
    RunForgets(t, v[..n - 1]);
    RunForgets(s, w[..n - 1]);
    Convolution.TraceBack(r, ZERO, n - 1);
    assert w[..n][..n - 1] == w[..n - 1];
    TieRule(p, s, w[..n]);
    CostSplits(t, v, r, n);
    CostSplits(s, w, r, n);
    assert w[n..] == w[n - 4..][4..] && v[n..] == v[n - 4..][4..];
  }

  // ------------------------------------------------------------ the main result

  /** The path with the inputs of u changed as rival k changes them. */
  function RivalInputs(u: seq<bool>, k: nat): (v: seq<bool>)
    requires k < 4 && Turn(k) + 5 <= |u|
    ensures |v| == |u|
  {
    PlusInputs(Inputs(k, |u|), u)
  }

  lemma {:induction false} RivalMeets(u: seq<bool>, k: nat)
    requires k < 4 && Turn(k) + 5 <= |u|
    ensures var v, n := RivalInputs(u, k), Turn(k) + 5;
      v != u && v[n - 4..] == u[n - 4..] && v[n - 5] == !u[n - 5] && PlusInputs(v, u) == Inputs(k, |u|)
  {
    var v, n := RivalInputs(u, k), Turn(k) + 5;
    assert Inputs(k, |u|)[n - 5];
    assert v[n - 5] != u[n - 5];
  }

  /** A wrong survivor is a rival with both wrong bits on it, and the message bit is zero. */
  lemma {:induction false} WrongIsFooled(u: seq<bool>, i: nat, j: nat) returns (k: nat)
    requires Run(ZERO, u) == ZERO && i < j < 2 * |u| && Survivor(Hit(u, i, j), ZERO) != u
    ensures k < 4 && FooledBy(u, i, j, k) && Survivor(Hit(u, i, j), ZERO) == RivalInputs(u, k)
  {
    hide Run, Code, Distance, Weight, Survivor, Trace, Metric, CodedBit, Hit, Heft, Inputs, Cost;
    var r := Hit(u, i, j);
    var v, t := Survivor(r, ZERO), Trace(r, ZERO, 0);
    var x := PlusInputs(v, u);
    SurvivorIsOptimalPath(r, ZERO);
    MetricIsMinimum(r, ZERO, u);
    SentCost(u, i, j);
    HitDistance(u, i, j, t, v);
    CodeLinear(t, v, ZERO, u);
    assert PlusState(t, ZERO) == t && PlusState(ZERO, ZERO) == ZERO;
    DifferSomewhere(u, v);
    HeftIsWeight(t, x);
    LightPaths(t, x);
    k :| 0 <= k < 4 && |Rivals[k].inputs| + 4 <= |x| && t == Rivals[k].start && x == Inputs(k, |x|);
    RivalCode(k, |u|);
    RivalMeets(u, k);
    PlusTwice(v, u);
    assert v == RivalInputs(u, k);
    if u[Turn(k)] {
      CostIs(ZERO, u, r);
      CostIs(t, v, r);
      Beaten(r, ZERO, u, Turn(k) + 5);
    }
  }

  /** The sent path costs the two wrong bits. */
  lemma {:induction false} SentCost(u: seq<bool>, i: nat, j: nat)
    requires i < j < 2 * |u|
    ensures Distance(Code(ZERO, u), Hit(u, i, j)) == 2
  {
    hide Code, Distance, Weight, CodedBit, Hit, PlusInputs;
    HitDistance(u, i, j, ZERO, u);
    var e := Code(ZERO, PlusInputs(u, u));
    PlusSame(u);
    SilentTail(|u|);
    HeftIsWeight(ZERO, NoInputs(|u|));
    SameBits(e, i);
    SameBits(e, j);
  }

  lemma {:induction false} PlusSame(u: seq<bool>)
    ensures PlusInputs(u, u) == NoInputs(|u|)
  {
  }

  lemma {:induction false} SameBits(e: seq<Dibit>, k: nat)
    requires k < 2 * |e| && e[k / 2] == SAME
    ensures !CodedBit(e, k)
  {
  }

  lemma {:induction false} DifferSomewhere(u: seq<bool>, v: seq<bool>)
    requires |u| == |v| && u != v
    ensures AnyInput(PlusInputs(v, u))
  {
    var i: nat :| i < |u| && u[i] != v[i];
    assert PlusInputs(v, u)[i];
  }

  lemma {:induction false} PlusTwice(v: seq<bool>, u: seq<bool>)
    requires |u| == |v|
    ensures PlusInputs(PlusInputs(v, u), u) == v
  {
  }

  /** Two wrong bits on a rival, with the message bit zero, make the survivor wrong. */
  lemma {:induction false} FooledIsWrong(u: seq<bool>, i: nat, j: nat, k: nat)
    requires Run(ZERO, u) == ZERO && i < j < 2 * |u| && k < 4 && FooledBy(u, i, j, k)
    ensures Survivor(Hit(u, i, j), ZERO) != u
  {
    hide Run, Code, Distance, Weight, Trace, Metric, CodedBit, Hit, Heft, Inputs, Survivor, Cost;
    var r := Hit(u, i, j);
    if Survivor(r, ZERO) == u {
      var t, s, v := Trace(r, ZERO, 0), Rivals[k].start, RivalInputs(u, k);
      RivalCode(k, |u|);
      RivalMeets(u, k);
      HitDistance(u, i, j, s, v);
      CostIs(s, v, r);
      CostIs(t, u, r);
      Beaten(r, s, v, Turn(k) + 5);
      SurvivorIsOptimalPath(r, ZERO);
      CodeLinear(s, Inputs(k, |u|), ZERO, u);
      assert PlusState(s, ZERO) == s && PlusState(ZERO, ZERO) == ZERO;
      MinimumDistance(t, u, s, v);
      Triangle(Code(t, u), r, Code(s, v));
      Triangle(Code(s, v), r, Code(s, v));
    }
  }

  /**
   Two wrong bits are corrected, for every message that ends in state zero, if and only if they do
   not both lie on a rival while the message bit of that rival is zero.
   */
  lemma {:induction false} TwoBitsCorrectedIff(u: seq<bool>, i: nat, j: nat)
    requires Run(ZERO, u) == ZERO && i < j < 2 * |u|
    ensures Survivor(Hit(u, i, j), ZERO) == u <==> !Fooled(u, i, j)
  {
    hide Run, Survivor, Hit, FooledBy;
    if Survivor(Hit(u, i, j), ZERO) != u {
      var k := WrongIsFooled(u, i, j);
      assert k == 0 || k == 1 || k == 2 || k == 3;
    } else if FooledBy(u, i, j, 0) {
      FooledIsWrong(u, i, j, 0);
    } else if FooledBy(u, i, j, 1) {
      FooledIsWrong(u, i, j, 1);
    } else if FooledBy(u, i, j, 2) {
      FooledIsWrong(u, i, j, 2);
    } else if FooledBy(u, i, j, 3) {
      FooledIsWrong(u, i, j, 3);
    }
  }

  /** Wrong bits behind the first six symbols are always corrected, wherever the other one is. */
  lemma {:induction false} LaterBitCorrected(u: seq<bool>, i: nat, j: nat)
    requires Run(ZERO, u) == ZERO && i < j < 2 * |u| && j >= 12
    ensures Survivor(Hit(u, i, j), ZERO) == u
  {
    TwoBitsCorrectedIff(u, i, j);
  }

  /** A failing input in the blocks of 100 symbols of the program: the message of zeros, and both bits
      of the fifth symbol wrong. */
  lemma {:induction false} NotAllTwoBits()
    ensures var u := NoInputs(100); Convolution.ZeroTailed(u) && Convolution.Recovered(Hit(u, 8, 9)) != u[..96]
  {
    hide Convolution.Recovered, Hit;
    assert FooledBy(NoInputs(100), 8, 9, 0);
    DecodesTwoBitsIff(NoInputs(100), 8, 9);
  }

  /** Chainback delivers the survivor into state zero, without its last four bits. */
  lemma {:induction false} DeliversSurvivor(r: seq<Dibit>)
    requires |r| >= 4
    ensures Convolution.Recovered(r) == Survivor(r, ZERO)[..|r| - 4]
  {
    hide Run, Code, Survivor, Trace;
    forall t: nat | t < |r| - 4 ensures Convolution.Recovered(r)[t] == Survivor(r, ZERO)[t] {
      TraceReadsInputs(r, ZERO, t);
    }
  }

  /** The survivor into state zero ends in four zero bits. */
  lemma {:induction false} SurvivorTail(r: seq<Dibit>, u: seq<bool>)
    requires |r| == |u| && Convolution.ZeroTailed(u)
    ensures Survivor(r, ZERO)[|u| - 4..] == u[|u| - 4..]
  {
    hide Code, Survivor, Trace, Run;
    SurvivorIsOptimalPath(r, ZERO);
    RunForgets(Trace(r, ZERO, 0), Survivor(r, ZERO));
  }

  /** What chainback delivers, for every zero-tailed message and every two wrong bits. */
  lemma {:induction false} DecodesTwoBitsIff(u: seq<bool>, i: nat, j: nat)
    requires Convolution.ZeroTailed(u) && i < j < 2 * |u|
    ensures Convolution.Recovered(Hit(u, i, j)) == u[..|u| - 4] <==> !Fooled(u, i, j)
  {
    hide Fooled, Hit, Run, Code, Survivor, Convolution.Recovered;
    var v, n := Survivor(Hit(u, i, j), ZERO), |u| - 4;
    ZeroTail(ZERO, u);
    TwoBitsCorrectedIff(u, i, j);
    DeliversSurvivor(Hit(u, i, j));
    SurvivorTail(Hit(u, i, j), u);
    assert v == v[..n] + v[n..] && u == u[..n] + u[n..];
  }

  /** What chainback delivers otherwise: the message as a rival with both wrong bits on it changes it, that
      is, in its first two bits and nowhere else. */
  lemma {:induction false} DeliversRival(u: seq<bool>, i: nat, j: nat) returns (k: nat)
    requires Convolution.ZeroTailed(u) && i < j < 2 * |u| && Fooled(u, i, j)
    ensures k < 4 && FooledBy(u, i, j, k) && Convolution.Recovered(Hit(u, i, j)) == RivalInputs(u, k)[..|u| - 4]
  {
    hide Fooled, Hit, Run, Code, Survivor, RivalInputs, Convolution.Recovered;
    ZeroTail(ZERO, u);
    TwoBitsCorrectedIff(u, i, j);
    k := WrongIsFooled(u, i, j);
    DeliversSurvivor(Hit(u, i, j));
  }
}
