/** `dropBurst` of hub/internal/apps/placement.go: one jump between two samples
    is taken out of the free-space series when it alone makes at least half of
    the net change.  float64 is modelled as real. */
module Burst {
  import opened Sequences
  import opened Trend

  function Abs(x: real): real {
    if x < 0.0 then 0.0 - x else x
  }

  function StepAt(ys: seq<real>, i: nat): real
    requires 0 < i < |ys|
  {
    ys[i] - ys[i - 1]
  }

  /** The first of the largest steps, and it is one. */
  ghost predicate IsWorst(ys: seq<real>, w: nat) {
    && 0 < w < |ys|
    && StepAt(ys, w) != 0.0
    && (forall i :: 0 < i < |ys| ==> Abs(StepAt(ys, i)) <= Abs(StepAt(ys, w)))
    && (forall i :: 0 < i < w ==> Abs(StepAt(ys, i)) < Abs(StepAt(ys, w)))
  }

  function Total(ys: seq<real>): real
    requires ys != []
  {
    ys[|ys| - 1] - ys[0]
  }

  /** The step that is taken for a burst. */
  ghost predicate IsBurst(ys: seq<real>, w: nat) {
    IsWorst(ys, w) && Total(ys) != 0.0 && 2.0 * Abs(StepAt(ys, w)) >= Abs(Total(ys))
  }

  /** Every sample from k on, shifted back by the step at k. */
  function Shifted(ys: seq<real>, k: nat): seq<real>
    requires 0 < k < |ys|
  {
    seq(|ys|, i requires 0 <= i < |ys| => if i < k then ys[i] else ys[i] - StepAt(ys, k))
  }

  /** What `dropBurst` returns for ys. */
  ghost predicate Dropped(ys: seq<real>, zs: seq<real>) {
    && |zs| == |ys|
    && (forall w :: IsBurst(ys, w) ==> zs == Shifted(ys, w))
    && ((forall w :: 0 < w < |ys| ==> !IsBurst(ys, w)) ==> zs == ys)
  }

  /** There is at most one burst. */
  lemma OneWorst(ys: seq<real>, v: nat)
    requires IsWorst(ys, v)
    ensures forall w :: IsWorst(ys, w) ==> w == v
  {
  }

  lemma {:induction false} NoStepsNoChange(ys: seq<real>, n: nat)
    requires 0 < n <= |ys| && forall i :: 0 < i < |ys| ==> StepAt(ys, i) == 0.0
    ensures ys[n - 1] == ys[0]
  {
    if n > 1 {
      NoStepsNoChange(ys, n - 1);
      assert StepAt(ys, n - 1) == 0.0;
    }
  }

  method DropBurst(ys: seq<real>) returns (zs: seq<real>)
    requires ys != []
    ensures Dropped(ys, zs)
  {
    var total := ys[|ys| - 1] - ys[0];
    if total == 0.0 {
      return ys;
    }
    var worst, jump := FindWorst(ys);
    if 0 <= worst {
      OneWorst(ys, worst);
    }
    if worst < 0 || Abs(jump) < 0.5 * Abs(total) {
      return ys;
    }
    zs := ys;
    var i := worst;
    while i < |zs|
      invariant worst <= i <= |zs| == |ys|
      invariant forall k :: 0 <= k < |ys| ==> zs[k] == if worst <= k < i then ys[k] - jump else ys[k]
    {
      zs := zs[i := zs[i] - jump];
      i := i + 1;
    }
    assert zs == Shifted(ys, worst);
    assert IsBurst(ys, worst);
  }

  /** The loop over the steps: -1 when none is different from zero. */
  method FindWorst(ys: seq<real>) returns (worst: int, jump: real)
    requires ys != []
    ensures if worst < 0 then worst == -1 && forall i :: 0 < i < |ys| ==> StepAt(ys, i) == 0.0
            else IsWorst(ys, worst) && jump == StepAt(ys, worst)
  {
    worst, jump := -1, 0.0;
    var i := 1;
    while i < |ys|
      invariant 1 <= i <= |ys| && -1 <= worst < i && worst != 0
      invariant worst < 0 ==> jump == 0.0
      invariant worst > 0 ==> jump == StepAt(ys, worst) != 0.0
      invariant forall k :: 0 < k < i ==> Abs(StepAt(ys, k)) <= Abs(jump)
      invariant forall k :: 0 < k < worst ==> Abs(StepAt(ys, k)) < Abs(jump)
    {
      var d := ys[i] - ys[i - 1];
      assert d == StepAt(ys, i);
      if Abs(d) > Abs(jump) {
        worst, jump := i, d;
      }
      i := i + 1;
    }
  }

  // ---------------------------------------------------------------- what is kept

  /** The length, the first sample and every step but one are kept, and that one
      becomes no step at all. */
  lemma DropKeepsSteps(ys: seq<real>, zs: seq<real>, i: nat)
    requires Dropped(ys, zs) && 0 < i < |ys|
    ensures zs[0] == ys[0]
    ensures StepAt(zs, i) == if IsBurst(ys, i) then 0.0 else StepAt(ys, i)
  {
    if w: nat :| IsBurst(ys, w) {
      if IsBurst(ys, i) {
        OneWorst(ys, i);
      }
    }
  }

  lemma {:induction false} StepsMakeRising(s: seq<real>, i: nat, j: nat)
    requires i <= j < |s| && forall k :: 0 < k < |s| ==> StepAt(s, k) >= 0.0
    ensures s[i] <= s[j]
  {
    if i < j {
      StepsMakeRising(s, i, j - 1);
      assert StepAt(s, j) >= 0.0;
    }
  }

  lemma {:induction false} StepsMakeFalling(s: seq<real>, i: nat, j: nat)
    requires i <= j < |s| && forall k :: 0 < k < |s| ==> StepAt(s, k) <= 0.0
    ensures s[i] >= s[j]
  {
    if i < j {
      StepsMakeFalling(s, i, j - 1);
      assert StepAt(s, j) <= 0.0;
    }
  }

  /** Taking the burst out turns neither falling into rising nor back, so the
      slope keeps its sign. */
  lemma DropKeepsDirection(xs: seq<real>, ys: seq<real>, zs: seq<real>)
    requires |xs| == |ys| && Spans(xs) && Dropped(ys, zs)
    ensures Falling(ys) ==> Falling(zs) && Slope(xs, zs) <= 0.0
    ensures Rising(ys) ==> Rising(zs) && Slope(xs, zs) >= 0.0
  {
    forall i | 0 < i < |ys|
      ensures StepAt(zs, i) == 0.0 || StepAt(zs, i) == StepAt(ys, i)
    {
      DropKeepsSteps(ys, zs, i);
    }
    if Falling(ys) {
      forall i, j | 0 <= i < j < |zs|
        ensures zs[i] >= zs[j]
      {
        StepsMakeFalling(zs, i, j);
      }
      SlopeFalls(xs, zs);
    }
    if Rising(ys) {
      forall i, j | 0 <= i < j < |zs|
        ensures zs[i] <= zs[j]
      {
        StepsMakeRising(zs, i, j);
      }
      SlopeRises(xs, zs);
    }
  }

  // ---------------------------------------------------------------- a burst on a line

  /** 0 before k and 1 from k on. */
  function Ramp(n: nat, k: nat): seq<real> {
    seq(n, i requires 0 <= i < n => if i < k then 0.0 else 1.0)
  }

  lemma RampRises(xs: seq<real>, k: nat)
    requires Spans(xs) && 0 < k < |xs|
    ensures Slope(xs, Ramp(|xs|, k)) > 0.0
  {
    SlopeRises(xs, Ramp(|xs|, k));
  }

  /** The gap at k as steps of its own: 0 before k and its length from k on. */
  function Gap(xs: seq<real>, k: nat): seq<real>
    requires 0 < k < |xs|
  {
    seq(|xs|, i requires 0 <= i < |xs| => if i < k then 0.0 else StepAt(xs, k))
  }

  lemma GapAt(xs: seq<real>, k: nat, i: nat)
    requires 0 < k < |xs| && i < |xs|
    ensures Gap(xs, k)[i] == 0.0 + Times(StepAt(xs, k), Ramp(|xs|, k)[i])
  {
  }

  lemma GapSlope(xs: seq<real>, k: nat)
    requires Spans(xs) && 0 < k < |xs|
    ensures Slope(xs, Gap(xs, k)) == Times(StepAt(xs, k), Slope(xs, Ramp(|xs|, k)))
  {
    forall i | 0 <= i < |xs|
      ensures Gap(xs, k)[i] == 0.0 + Times(StepAt(xs, k), Ramp(|xs|, k)[i])
    {
      GapAt(xs, k, i);
    }
    SlopeScales(xs, Gap(xs, k), 0.0, StepAt(xs, k), Ramp(|xs|, k));
  }

  /** The slope of the time that is left when the gap at k is closed: it is not
      negative, since that time still does not run back, and it is 1 exactly when
      there was no gap. */
  lemma ClosedSlope(xs: seq<real>, k: nat)
    requires Spans(xs) && 0 < k < |xs|
    ensures 0.0 <= Slope(xs, Shifted(xs, k)) <= 1.0
    ensures Slope(xs, Shifted(xs, k)) == 1.0 <==> StepAt(xs, k) == 0.0
  {
    GapSlope(xs, k);
    RampRises(xs, k);
    SlopeAdds(xs, xs, Gap(xs, k), Shifted(xs, k));
    SlopeOfTime(xs);
    SlopeRises(xs, Shifted(xs, k));
    Positive(StepAt(xs, k), Slope(xs, Ramp(|xs|, k)));
  }

  lemma Positive(d: real, s: real)
    requires d >= 0.0 && s > 0.0
    ensures Times(d, s) >= 0.0 && (Times(d, s) == 0.0 <==> d == 0.0)
  {
  }

  /** A line with a jump of c at k. */
  ghost predicate LineWithJump(xs: seq<real>, ys: seq<real>, a: real, b: real, c: real, k: nat) {
    && |ys| == |xs| && 0 < k < |xs|
    && forall i :: 0 <= i < |xs| ==> ys[i] == a + b * xs[i] + if i < k then 0.0 else c
  }

  lemma ShiftedLineAt(xs: seq<real>, ys: seq<real>, a: real, b: real, c: real, k: nat, i: nat)
    requires LineWithJump(xs, ys, a, b, c, k) && i < |xs|
    ensures Shifted(ys, k)[i] == a + Times(b, Shifted(xs, k)[i])
  {
    assert StepAt(ys, k) == b * xs[k] + c - b * xs[k - 1];
    assert b * StepAt(xs, k) == b * xs[k] - b * xs[k - 1];
    assert b * (xs[i] - StepAt(xs, k)) == b * xs[i] - b * StepAt(xs, k);
  }

  lemma ShiftedLineSlope(xs: seq<real>, ys: seq<real>, a: real, b: real, c: real, k: nat)
    requires Spans(xs) && LineWithJump(xs, ys, a, b, c, k)
    ensures Slope(xs, Shifted(ys, k)) == Times(b, Slope(xs, Shifted(xs, k)))
  {
    forall i | 0 <= i < |xs|
      ensures Shifted(ys, k)[i] == a + Times(b, Shifted(xs, k)[i])
    {
      ShiftedLineAt(xs, ys, a, b, c, k, i);
    }
    SlopeScales(xs, Shifted(ys, k), a, b, Shifted(xs, k));
  }

  lemma FactorUp(b: real, f: real)
    requires b >= 0.0 && 0.0 <= f <= 1.0
    ensures 0.0 <= Times(b, f) <= b
    ensures Times(b, f) == b <==> b == 0.0 || f == 1.0
  {
    ProductSign(b, f);
    ProductSign(b, 1.0 - f);
    Distribute(b, f, 1.0 - f);
  }

  lemma Factor(b: real, f: real)
    requires 0.0 <= f <= 1.0
    ensures b >= 0.0 ==> 0.0 <= Times(b, f) <= b
    ensures b <= 0.0 ==> b <= Times(b, f) <= 0.0
    ensures Times(b, f) == b <==> b == 0.0 || f == 1.0
  {
    if b >= 0.0 {
      FactorUp(b, f);
    } else {
      FactorUp(0.0 - b, f);
      Distribute(f, b, 0.0 - b);
    }
  }

  /** The jump goes but takes one interval of the trend with it: a real trend b
      under a burst comes through with its sign and no larger, and undamped
      exactly when it is 0 or the burst took no time. */
  lemma BurstDamps(xs: seq<real>, ys: seq<real>, zs: seq<real>, a: real, b: real, c: real, k: nat)
    requires Spans(xs) && LineWithJump(xs, ys, a, b, c, k)
    requires IsBurst(ys, k) && Dropped(ys, zs)
    ensures b >= 0.0 ==> 0.0 <= Slope(xs, zs) <= b
    ensures b <= 0.0 ==> b <= Slope(xs, zs) <= 0.0
    ensures Slope(xs, zs) == b <==> b == 0.0 || xs[k] == xs[k - 1]
  {
    ShiftedLineSlope(xs, ys, a, b, c, k);
    ClosedSlope(xs, k);
    Factor(b, Slope(xs, Shifted(xs, k)));
  }

  /** A series that is flat but for one step reads flat. */
  lemma FlatButOneStep(xs: seq<real>, ys: seq<real>, zs: seq<real>, a: real, c: real, k: nat)
    requires Spans(xs) && LineWithJump(xs, ys, a, 0.0, c, k) && Dropped(ys, zs)
    ensures Slope(xs, zs) == 0.0
    ensures forall i :: 0 <= i < |zs| ==> zs[i] == a
  {
    forall i | 0 < i < |ys|
      ensures StepAt(ys, i) == if i == k then c else 0.0
    {
    }
    if c != 0.0 {
      assert IsBurst(ys, k);
      BurstDamps(xs, ys, zs, a, 0.0, c, k);
    } else {
      assert forall w :: 0 < w < |ys| ==> !IsBurst(ys, w);
      SlopeOfLine(xs, ys, a, 0.0);
    }
  }

  // ---------------------------------------------------------------- a line without a burst

  ghost predicate Line(xs: seq<real>, ys: seq<real>, a: real, b: real) {
    |ys| == |xs| && forall i :: 0 <= i < |xs| ==> ys[i] == a + b * xs[i]
  }

  /** No two samples next to each other lie half of the whole span apart. */
  ghost predicate EvenlySampled(xs: seq<real>) {
    forall i :: 0 < i < |xs| ==> 2.0 * StepAt(xs, i) < Total(xs)
  }

  lemma AbsScales(b: real, d: real)
    requires d >= 0.0
    ensures Abs(b * d) == Abs(b) * d
  {
  }

  lemma PositiveRatio(m: real, d: real, t: real)
    requires m > 0.0 && t > 0.0
    ensures 2.0 * (m * d) >= m * t <==> 2.0 * d >= t
    ensures m * t > 0.0
  {
    assert 2.0 * (m * d) - m * t == m * (2.0 * d - t);
    if 2.0 * d < t {
      assert m * (t - 2.0 * d) > 0.0;
    } else {
      assert m * (2.0 * d - t) >= 0.0;
    }
  }

  lemma Ratio(b: real, d: real, t: real)
    requires b != 0.0 && d >= 0.0 && t > 0.0
    ensures 2.0 * Abs(b * d) >= Abs(b * t) <==> 2.0 * d >= t
    ensures b * t != 0.0
  {
    AbsScales(b, d);
    AbsScales(b, t);
    PositiveRatio(Abs(b), d, t);
  }

  lemma RatioOf(b: real, d: real, t: real, e: real, u: real)
    requires b != 0.0 && d >= 0.0 && t > 0.0 && e == b * d && u == b * t
    ensures 2.0 * Abs(e) >= Abs(u) <==> 2.0 * d >= t
    ensures u != 0.0
  {
    Ratio(b, d, t);
  }

  lemma LineStep(xs: seq<real>, ys: seq<real>, a: real, b: real, i: nat, j: nat)
    requires Line(xs, ys, a, b) && i < |xs| && j < |xs|
    ensures ys[j] - ys[i] == b * (xs[j] - xs[i])
  {
  }

  /** On a line the steps are to the total as the gaps are to the span. */
  lemma StepOnLine(xs: seq<real>, ys: seq<real>, a: real, b: real, i: nat)
    requires Spans(xs) && Line(xs, ys, a, b) && b != 0.0 && 0 < i < |xs|
    ensures 2.0 * Abs(StepAt(ys, i)) >= Abs(Total(ys)) <==> 2.0 * StepAt(xs, i) >= Total(xs)
    ensures Total(ys) != 0.0
  {
    LineStep(xs, ys, a, b, i - 1, i);
    LineStep(xs, ys, a, b, 0, |xs| - 1);
    RatioOf(b, StepAt(xs, i), Total(xs), StepAt(ys, i), Total(ys));
  }

  lemma {:induction false} SomeWorst(ys: seq<real>, n: nat) returns (w: nat)
    requires 1 < n <= |ys|
    ensures 0 < w < n
    ensures forall i :: 0 < i < n ==> Abs(StepAt(ys, i)) <= Abs(StepAt(ys, w))
    ensures forall i :: 0 < i < w ==> Abs(StepAt(ys, i)) < Abs(StepAt(ys, w))
  {
    w := 1;
    if n > 2 {
      w := SomeWorst(ys, n - 1);
      if Abs(StepAt(ys, n - 1)) > Abs(StepAt(ys, w)) {
        w := n - 1;
      }
    }
  }

  /** A steady trend keeps its slope through all of this exactly when it is flat
      or no silence of the machine took half of the week: otherwise the interval
      of that silence is taken for a burst. */
  lemma SteadyTrendIsKept(xs: seq<real>, ys: seq<real>, zs: seq<real>, a: real, b: real)
    requires Spans(xs) && Line(xs, ys, a, b) && Dropped(ys, zs)
    ensures Slope(xs, zs) == b <==> b == 0.0 || EvenlySampled(xs)
  {
    var w := SomeWorst(ys, |ys|);
    if b == 0.0 {
      FlatButOneStep(xs, ys, zs, a, 0.0, 1);
    } else if EvenlySampled(xs) {
      forall i | 0 < i < |ys|
        ensures !IsBurst(ys, i)
      {
        StepOnLine(xs, ys, a, b, i);
      }
      SlopeOfLine(xs, zs, a, b);
    } else {
      var i: nat :| 0 < i < |xs| && 2.0 * StepAt(xs, i) >= Total(xs);
      StepOnLine(xs, ys, a, b, i);
      StepOnLine(xs, ys, a, b, w);
      assert IsBurst(ys, w);
      BurstDamps(xs, ys, zs, a, b, 0.0, w);
    }
  }
}
