/**
 Three wrong bits. Paths that leave one state and meet again are seven bits apart, so three wrong bits
 can mislead the decoder only by a path that never left the state it started in together with the sent
 one. Behind the first eleven symbols such a path has already cost too much.
 */
module ThreeWrongBits {
  import opened Trellis
  import Convolution
  import T = TwoWrongBits

  /** The place of a state in the tables below. */
  function Index(s: State): (n: nat)
    ensures n < 16
  {
    (if s.d1 then 8 else 0) + (if s.d2 then 4 else 0) + (if s.d3 then 2 else 0) + if s.d4 then 1 else 0
  }

  // ------------------------------------------------------------ the free distance

  /** The least weight of a path from a state to state zero. */
  const OWES: seq<nat> := [0, 2, 3, 3, 4, 4, 4, 3, 5, 5, 4, 4, 4, 4, 4, 4]

  lemma {:induction false} OwesStep(d: State, a: bool)
    ensures OWES[Index(d)] <= Ones(Emit(d, a)) + OWES[Index(Shift(d, a))]
  {
  }

  lemma {:induction false} Owed(d: State, x: seq<bool>)
    requires Run(d, x) == ZERO
    ensures Heft(d, x) >= OWES[Index(d)]
    decreases |x|
  {
    hide Run, Heft, Emit, Ones, Shift;
    if d == ZERO {
      assert OWES[Index(ZERO)] == 0;
    } else {
      Steps(d, x);
      OwesStep(d, x[0]);
      Owed(Shift(d, x[0]), x[1..]);
    }
  }

  /** A path that leaves state zero and comes back carries at least seven bits. */
  lemma {:induction false} FreeDistance(x: seq<bool>)
    requires Run(ZERO, x) == ZERO && AnyInput(x)
    ensures Heft(ZERO, x) >= 7
    decreases |x|
  {
    hide Run, Heft;
    AnyInputHead(x);
    Steps(ZERO, x);
    if x[0] {
      Owed(Shift(ZERO, true), x[1..]);
    } else {
      FreeDistance(x[1..]);
    }
  }

  // ------------------------------------------------------- the price of a free start

  function Silent(n: nat): (r: seq<Dibit>)
    ensures |r| == n
  {
    seq(n, _ => T.SAME)
  }

  /** The least weight of a path of k symbols into each state, whatever state it starts in. */
  const HEADS: seq<seq<nat>> := [
    [0, 0, 0, 0, 0, 0, 0, 0, 0, 0, 0, 0, 0, 0, 0, 0],
    [0, 1, 1, 0, 1, 0, 0, 1, 0, 1, 1, 0, 1, 0, 0, 1],
    [0, 1, 1, 1, 1, 0, 1, 1, 1, 1, 1, 0, 1, 1, 0, 1],
    [0, 2, 1, 1, 2, 0, 1, 1, 1, 2, 1, 1, 2, 1, 1, 1],
    [0, 2, 1, 1, 2, 1, 2, 2, 2, 2, 1, 1, 2, 1, 1, 2],
    [0, 2, 2, 2, 3, 1, 2, 2, 2, 2, 2, 2, 3, 1, 1, 2],
    [0, 3, 2, 2, 3, 2, 3, 2, 2, 3, 2, 2, 3, 2, 1, 2],
    [0, 3, 3, 2, 3, 2, 3, 2, 2, 3, 3, 3, 3, 2, 2, 2],
    [0, 3, 3, 2, 3, 3, 3, 3, 2, 3, 3, 3, 3, 3, 2, 3],
    [0, 3, 4, 3, 3, 3, 3, 3, 2, 3, 4, 3, 3, 3, 3, 3],
    [0, 4, 4, 3, 3, 3, 3, 4, 2, 4, 4, 3, 3, 4, 3, 4],
    [0, 4, 4, 4, 3, 3, 3, 4, 2, 4, 4, 3, 3, 4, 4, 4]]

  /** One row of the table bounds the next. */
  ghost predicate Follows(p: seq<nat>, q: seq<nat>)
    requires |p| == |q| == 16
  {
    forall s: State, out: bool :: q[Index(s)] <= p[Index(Back(s, out))] + Branch(s, out, T.SAME)
  }

  lemma {:induction false} Row0()
    ensures |HEADS[0]| == |HEADS[1]| == 16 && Follows(HEADS[0], HEADS[1])
  {
  }

  lemma {:induction false} Row1()
    ensures |HEADS[1]| == |HEADS[2]| == 16 && Follows(HEADS[1], HEADS[2])
  {
  }

  lemma {:induction false} Row2()
    ensures |HEADS[2]| == |HEADS[3]| == 16 && Follows(HEADS[2], HEADS[3])
  {
  }

  lemma {:induction false} Row3()
    ensures |HEADS[3]| == |HEADS[4]| == 16 && Follows(HEADS[3], HEADS[4])
  {
  }

  lemma {:induction false} Row4()
    ensures |HEADS[4]| == |HEADS[5]| == 16 && Follows(HEADS[4], HEADS[5])
  {
  }

  lemma {:induction false} Row5()
    ensures |HEADS[5]| == |HEADS[6]| == 16 && Follows(HEADS[5], HEADS[6])
  {
  }

  lemma {:induction false} Row6()
    ensures |HEADS[6]| == |HEADS[7]| == 16 && Follows(HEADS[6], HEADS[7])
  {
  }

  lemma {:induction false} Row7()
    ensures |HEADS[7]| == |HEADS[8]| == 16 && Follows(HEADS[7], HEADS[8])
  {
  }

  lemma {:induction false} Row8()
    ensures |HEADS[8]| == |HEADS[9]| == 16 && Follows(HEADS[8], HEADS[9])
  {
  }

  lemma {:induction false} Row9()
    ensures |HEADS[9]| == |HEADS[10]| == 16 && Follows(HEADS[9], HEADS[10])
  {
  }

  lemma {:induction false} Row10()
    ensures |HEADS[10]| == |HEADS[11]| == 16 && Follows(HEADS[10], HEADS[11])
  {
  }

  lemma {:induction false} HeadsFollow(k: nat)
    requires k < 11
    ensures |HEADS[k]| == |HEADS[k + 1]| == 16 && Follows(HEADS[k], HEADS[k + 1])
  {
    hide Follows;
    if k == 0 {
      Row0();
    } else if k == 1 {
      Row1();
    } else if k == 2 {
      Row2();
    } else if k == 3 {
      Row3();
    } else if k == 4 {
      Row4();
    } else if k == 5 {
      Row5();
    } else if k == 6 {
      Row6();
    } else if k == 7 {
      Row7();
    } else if k == 8 {
      Row8();
    } else if k == 9 {
      Row9();
    } else if k == 10 {
      Row10();
    }
  }

  /** The metrics of a silent line, whose least values are the least weights. */
  lemma {:induction false} HeadCosts(k: nat, s: State)
    requires k <= 11
    ensures |HEADS[k]| == 16 && Metric(Silent(k), s) >= HEADS[k][Index(s)]
    decreases k
  {
    hide Index, Branch, Back;
    if k == 0 {
      assert HEADS[0] == seq(16, _ => 0);
    } else {
      HeadsFollow(k - 1);
      var r := Silent(k);
      assert r[..k - 1] == Silent(k - 1);
      HeadCosts(k - 1, Back(s, false));
      HeadCosts(k - 1, Back(s, true));
    }
  }

  /** Two streams that agree in their first n symbols. */
  predicate AgreeUpTo(a: seq<Dibit>, b: seq<Dibit>, n: nat)
    requires |a| == |b|
  {
    forall t: nat | t < n && t < |a| :: a[t] == b[t]
  }

  lemma {:induction false} DistanceSplits(a: seq<Dibit>, b: seq<Dibit>, n: nat)
    requires |a| == |b| && n <= |a|
    ensures Distance(a, b) == Distance(a[..n], b[..n]) + Distance(a[n..], b[n..])
    decreases |a|
  {
    var m := |a| - 1;
    if n == |a| {
      assert a[..n] == a && b[..n] == b && a[n..] == [] && b[n..] == [];
    } else {
      DistanceSplits(a[..m], b[..m], n);
      assert a[..m][..n] == a[..n] && b[..m][..n] == b[..n];
      assert a[..m][n..] == a[n..][..m - n] && b[..m][n..] == b[n..][..m - n];
    }
  }

  lemma {:induction false} DistanceSame(a: seq<Dibit>)
    ensures Distance(a, a) == 0
    decreases |a|
  {
    if a != [] {
      DistanceSame(a[..|a| - 1]);
    }
  }

  /** A path cut after n inputs. */
  lemma {:induction false} CodeSplits(s: State, u: seq<bool>, n: nat)
    requires n <= |u|
    ensures Code(s, u)[..n] == Code(s, u[..n]) && Code(s, u)[n..] == Code(Run(s, u[..n]), u[n..])
    ensures Run(s, u) == Run(Run(s, u[..n]), u[n..])
    decreases |u|
  {
    var m := |u| - 1;
    if n == |u| {
      assert u[..n] == u && u[n..] == [];
    } else {
      CodeSplits(s, u[..m], n);
      assert u[..m][..n] == u[..n] && u[..m][n..] == u[n..][..m - n];
      assert Code(s, u)[..n] == Code(s, u[..m])[..n];
      assert Code(s, u)[n..] == Code(s, u[..m])[n..] + [Emit(Run(s, u[..m]), u[m])];
    }
  }

  /** What the first eleven symbols and the rest of a path into state zero weigh, if some input differs:
      the first part four bits or more, or both together seven. */
  lemma {:induction false} HeadOrWhole(d: State, x: seq<bool>)
    requires |x| >= 11 && Run(d, x) == ZERO && AnyInput(x)
    ensures var c := Code(d, x); Weight(c[..11]) >= 4 || Weight(c[..11]) + Weight(c[11..]) >= 7
  {
    hide Run, Code, Heft, Weight, AnyInput, Metric;
    var m := Run(d, x[..11]);
    CodeSplits(d, x, 11);
    HeadWeighs(d, x[..11]);
    HeftIsWeight(m, x[11..]);
    Owed(m, x[11..]);
    if m == ZERO {
      if AnyInput(x[11..]) {
        FreeDistance(x[11..]);
      } else {
        HeftIsWeight(d, x[..11]);
        assert AnyInput(x[..11]) by { InputAhead(x); }
        LightPaths(d, x[..11]);
      }
    } else {
      HeadOrOwes(m);
    }
  }

  lemma {:induction false} InputAhead(x: seq<bool>)
    requires |x| >= 11 && AnyInput(x) && !AnyInput(x[11..])
    ensures AnyInput(x[..11])
  {
    var i: nat :| i < |x| && x[i];
    assert forall j: nat | j < |x[11..]| :: x[11..][j] == x[j + 11];
    assert x[..11][i];
  }

  lemma {:induction false} HeadWeighs(d: State, x: seq<bool>)
    requires |x| == 11
    ensures |HEADS[11]| == 16 && Weight(Code(d, x)) >= HEADS[11][Index(Run(d, x))]
  {
    hide Run, Code, Weight, Metric, Index;
    MetricIsMinimum(Silent(11), d, x);
    HeadCosts(11, Run(d, x));
    DistanceIsWeight(Code(d, x), Silent(11));
    PlusSilent(Code(d, x));
  }

  lemma {:induction false} PlusSilent(c: seq<Dibit>)
    ensures PlusCode(c, Silent(|c|)) == c
  {
    forall t: nat | t < |c| ensures PlusCode(c, Silent(|c|))[t] == c[t] {
      assert Plus(c[t], T.SAME) == c[t];
    }
  }

  lemma {:induction false} HeadOrOwes(s: State)
    requires s != ZERO
    ensures |HEADS[11]| == 16 && (HEADS[11][Index(s)] >= 4 || HEADS[11][Index(s)] + OWES[Index(s)] >= 7)
  {
  }

  /**
   Up to three wrong bits behind the first eleven symbols are corrected, in every message that ends in
   state zero.
   */
  lemma {:induction false} ThreeLaterBitsCorrected(u: seq<bool>, r: seq<Dibit>)
    requires Run(ZERO, u) == ZERO && |r| == |u| && AgreeUpTo(Code(ZERO, u), r, 11) && Distance(Code(ZERO, u), r) <= 3
    ensures Survivor(r, ZERO) == u
  {
    hide Run, Code, Distance, Survivor, Trace, Metric, Weight, AnyInput, PlusCode, PlusInputs;
    var v, t, c := Survivor(r, ZERO), Trace(r, ZERO, 0), Code(ZERO, u);
    var a := Code(t, v);
    if |u| < 11 {
      assert c == r;
      DistanceSame(c);
      SingleErrorCorrected(u, r);
    } else if v != u {
      var x := PlusInputs(v, u);
      SurvivorIsOptimalPath(r, ZERO);
      MetricIsMinimum(r, ZERO, u);
      CodeLinear(t, v, ZERO, u);
      assert PlusState(t, ZERO) == t && PlusState(ZERO, ZERO) == ZERO;
      T.DifferSomewhere(u, v);
      HeadOrWhole(t, x);
      var e := Code(t, x);
      assert e == PlusCode(a, c);
      SplitWeight(a, c, 11);
      DistanceSplits(a, r, 11);
      DistanceSplits(c, r, 11);
      assert c[..11] == r[..11];
      DistanceSame(c[..11]);
      Triangle(a[11..], r[11..], c[11..]);
      Triangle(c[11..], r[11..], c[11..]);
    }
  }

  lemma {:induction false} SplitWeight(a: seq<Dibit>, c: seq<Dibit>, n: nat)
    requires |a| == |c| && n <= |a|
    ensures var e := PlusCode(a, c);
      Weight(e[..n]) == Distance(a[..n], c[..n]) && Weight(e[n..]) == Distance(a[n..], c[n..])
  {
    DistanceIsWeight(a[..n], c[..n]);
    DistanceIsWeight(a[n..], c[n..]);
    assert PlusCode(a, c)[..n] == PlusCode(a[..n], c[..n]);
    forall i: nat | i < |a| - n ensures PlusCode(a, c)[n..][i] == PlusCode(a[n..], c[n..])[i] {
      assert a[n..][i] == a[n + i] && c[n..][i] == c[n + i];
    }
    assert PlusCode(a, c)[n..] == PlusCode(a[n..], c[n..]);
  }

  /** So chainback delivers the message. */
  lemma {:induction false} DecodesThreeLaterBits(u: seq<bool>, r: seq<Dibit>)
    requires Convolution.ZeroTailed(u) && |r| == |u| && AgreeUpTo(Code(ZERO, u), r, 11) && Distance(Code(ZERO, u), r) <= 3
    ensures Convolution.Recovered(r) == u[..|u| - 4]
  {
    hide Run, Code, Distance, Survivor, AgreeUpTo, Convolution.Recovered;
    ZeroTail(ZERO, u);
    ThreeLaterBitsCorrected(u, r);
    T.DeliversSurvivor(r);
  }
}
