/** What the slope of hub/internal/apps/placement.go is for: it is that of the
    line closest to the samples, in the sum of the squared distances. */
module LeastSquares {
  import opened Trend
  import opened Burst
  import opened Placement

  function Square(x: real): real {
    Times(x, x)
  }

  lemma SquareSign(x: real)
    ensures Square(x) >= 0.0 && (Square(x) == 0.0 ==> x == 0.0)
  {
    if x > 0.0 {
      PositiveFactor(0.0, x, x);
    } else if x < 0.0 {
      PositiveFactor(x, 0.0, 0.0 - x);
    }
  }

  /** How far y is above the line a x + b at x. */
  function Above(x: real, y: real, a: real, b: real): real {
    y - Times(a, x) - b
  }

  /** The sum of the squared distances of the first n samples. */
  function Distance(xs: seq<real>, ys: seq<real>, a: real, b: real, n: nat): real
    requires n <= |xs| && n <= |ys|
  {
    if n == 0 then 0.0 else Distance(xs, ys, a, b, n - 1) + Square(Above(xs[n - 1], ys[n - 1], a, b))
  }

  function Aboves(xs: seq<real>, ys: seq<real>, m: real, c: real): seq<real>
    requires |xs| == |ys|
  {
    seq(|xs|, i requires 0 <= i < |xs| => Above(xs[i], ys[i], m, c))
  }

  /** The sum of the squared distances of two lines. */
  function Squares(xs: seq<real>, p: real, q: real, n: nat): real
    requires n <= |xs|
  {
    if n == 0 then 0.0 else Squares(xs, p, q, n - 1) + Square(Times(p, xs[n - 1]) + q)
  }

  lemma OneSample(x: real, y: real, m: real, c: real, a: real, b: real)
    ensures Square(Above(x, y, a, b))
         == Square(Above(x, y, m, c))
            + 2.0 * (Times(m - a, Times(Above(x, y, m, c), x)) + Times(c - b, Above(x, y, m, c)))
            + Square(Times(m - a, x) + (c - b))
  {
    var r, d := Above(x, y, m, c), Times(m - a, x) + (c - b);
    assert Above(x, y, a, b) == r + d;
    assert (r + d) * (r + d) == r * r + 2.0 * (r * d) + d * d;
    assert r * d == (m - a) * (r * x) + (c - b) * r;
  }

  lemma {:induction false} Against(xs: seq<real>, ys: seq<real>, m: real, c: real, a: real, b: real, n: nat)
    requires n <= |xs| == |ys|
    ensures Distance(xs, ys, a, b, n)
         == Distance(xs, ys, m, c, n)
            + 2.0 * (Times(m - a, Dot(xs, Aboves(xs, ys, m, c), n)) + Times(c - b, Sum(Aboves(xs, ys, m, c), n)))
            + Squares(xs, m - a, c - b, n)
  {
    if n > 0 {
      var x, y, rs := xs[n - 1], ys[n - 1], Aboves(xs, ys, m, c);
      Against(xs, ys, m, c, a, b, n - 1);
      OneSample(x, y, m, c, a, b);
      Distribute(m - a, Dot(xs, rs, n - 1), Times(rs[n - 1], x));
      Distribute(c - b, Sum(rs, n - 1), rs[n - 1]);
    }
  }

  lemma {:induction false} SumOfAboves(xs: seq<real>, ys: seq<real>, m: real, c: real, n: nat)
    requires n <= |xs| == |ys|
    ensures Sum(Aboves(xs, ys, m, c), n) == Sum(ys, n) - Times(m, Sum(xs, n)) - Times(c, n as real)
  {
    if n > 0 {
      SumOfAboves(xs, ys, m, c, n - 1);
      Distribute(m, Sum(xs, n - 1), xs[n - 1]);
      Distribute(c, (n - 1) as real, 1.0);
      assert Times(c, 1.0) == c;
    }
  }

  function OnLine(xs: seq<real>, m: real, c: real): seq<real> {
    seq(|xs|, i requires 0 <= i < |xs| => c + Times(m, xs[i]))
  }

  lemma LineHasSlope(xs: seq<real>, m: real, c: real)
    requires Spans(xs)
    ensures Slope(xs, OnLine(xs, m, c)) == m
  {
    SlopeOfLine(xs, OnLine(xs, m, c), c, m);
  }

  lemma AboveOnLine(xs: seq<real>, ys: seq<real>, m: real, c: real)
    requires |xs| == |ys|
    ensures forall i :: 0 <= i < |xs| ==> ys[i] == OnLine(xs, m, c)[i] + Aboves(xs, ys, m, c)[i]
  {
  }

  /** What the line with the slope leaves has no slope. */
  lemma NoSlopeIsLeft(xs: seq<real>, ys: seq<real>, c: real)
    requires |xs| == |ys| && Spans(xs)
    ensures Slope(xs, Aboves(xs, ys, Slope(xs, ys), c)) == 0.0
  {
    LineHasSlope(xs, Slope(xs, ys), c);
    AboveOnLine(xs, ys, Slope(xs, ys), c);
    SlopeAdds(xs, ys, OnLine(xs, Slope(xs, ys), c), Aboves(xs, ys, Slope(xs, ys), c));
  }

  /** The normal equations. */
  lemma NothingLeft(xs: seq<real>, ys: seq<real>, c: real)
    requires |xs| == |ys| && Spans(xs)
    requires Times(c, |xs| as real) == Sum(ys, |xs|) - Times(Slope(xs, ys), Sum(xs, |xs|))
    ensures Sum(Aboves(xs, ys, Slope(xs, ys), c), |xs|) == 0.0
    ensures Dot(xs, Aboves(xs, ys, Slope(xs, ys), c), |xs|) == 0.0
  {
    SumOfAboves(xs, ys, Slope(xs, ys), c, |xs|);
    NoSlopeIsLeft(xs, ys, c);
    FlatAndCentred(xs, Aboves(xs, ys, Slope(xs, ys), c));
  }

  lemma FlatAndCentred(xs: seq<real>, rs: seq<real>)
    requires |xs| == |rs| && Spans(xs) && Slope(xs, rs) == 0.0 && Sum(rs, |xs|) == 0.0
    ensures Dot(xs, rs, |xs|) == 0.0
  {
    DenominatorIsPositive(xs);
    var num, den := Cross(xs, rs, |xs|), Cross(xs, xs, |xs|);
    assert num == num / den * den == 0.0;
    NoFactor(|xs| as real, Dot(xs, rs, |xs|));
  }

  lemma NoFactor(n: real, x: real)
    requires n > 0.0 && n * x == 0.0
    ensures x == 0.0
  {
    PositiveFactor(x, 0.0, n);
    PositiveFactor(0.0, x, n);
    assert Times(x, n) == 0.0 == Times(0.0, n);
  }

  lemma {:induction false} SquaresSign(xs: seq<real>, p: real, q: real, n: nat)
    requires n <= |xs|
    ensures Squares(xs, p, q, n) >= 0.0
    ensures Squares(xs, p, q, n) == 0.0 ==> forall i :: 0 <= i < n ==> Times(p, xs[i]) + q == 0.0
  {
    if n > 0 {
      SquaresSign(xs, p, q, n - 1);
      SquareSign(Times(p, xs[n - 1]) + q);
    }
  }

  /** No line is closer to the samples than the one with the slope through their
      centre, and no other line is as close. */
  lemma SlopeIsBest(xs: seq<real>, ys: seq<real>, c: real, a: real, b: real)
    requires |xs| == |ys| && Spans(xs)
    requires Times(c, |xs| as real) == Sum(ys, |xs|) - Times(Slope(xs, ys), Sum(xs, |xs|))
    ensures Distance(xs, ys, Slope(xs, ys), c, |xs|) <= Distance(xs, ys, a, b, |xs|)
    ensures Distance(xs, ys, Slope(xs, ys), c, |xs|) == Distance(xs, ys, a, b, |xs|) ==> a == Slope(xs, ys) && b == c
  {
    var n, m := |xs|, Slope(xs, ys);
    DenominatorIsPositive(xs);
    NothingLeft(xs, ys, c);
    Against(xs, ys, m, c, a, b, n);
    SquaresSign(xs, m - a, c - b, n);
    if Squares(xs, m - a, c - b, n) == 0.0 {
      var p, q := m - a, c - b;
      assert Times(p, xs[0]) + q == 0.0 && Times(p, xs[n - 1]) + q == 0.0;
      NoSlope(p, q, xs[0], xs[n - 1]);
    }
  }

  lemma NoSlope(p: real, q: real, x: real, x': real)
    requires x < x' && Times(p, x) + q == 0.0 && Times(p, x') + q == 0.0
    ensures p == 0.0 && q == 0.0
  {
    assert (x' - x) * p == 0.0;
    NoFactor(x' - x, p);
  }

  ghost predicate ClosestLine(xs: seq<real>, ys: seq<real>, m: real, c: real)
    requires |xs| == |ys|
  {
    forall a, b :: Distance(xs, ys, m, c, |xs|) <= Distance(xs, ys, a, b, |xs|)
                   && (Distance(xs, ys, m, c, |xs|) == Distance(xs, ys, a, b, |xs|) ==> a == m && b == c)
  }

  lemma BestLine(xs: seq<real>, ys: seq<real>) returns (c: real)
    requires |xs| == |ys| && Spans(xs)
    ensures ClosestLine(xs, ys, Slope(xs, ys), c)
  {
    var rest := Sum(ys, |xs|) - Times(Slope(xs, ys), Sum(xs, |xs|));
    c := rest / |xs| as real;
    assert Times(c, |xs| as real) == rest;
    forall a, b
      ensures Distance(xs, ys, Slope(xs, ys), c, |xs|) <= Distance(xs, ys, a, b, |xs|)
      ensures Distance(xs, ys, Slope(xs, ys), c, |xs|) == Distance(xs, ys, a, b, |xs|) ==> a == Slope(xs, ys) && b == c
    {
      SlopeIsBest(xs, ys, c, a, b);
    }
  }

  /** The trend of a week of metrics with enough history is the slope of the one
      line closest to the samples, their burst taken out. */
  lemma TrendIsClosest(rs: seq<Reading>, slope: real, window: real) returns (zs: seq<real>, c: real)
    requires AWeek(rs) && IsTrend(rs, slope, window) && Enough(rs)
    ensures Dropped(Frees(rs), zs) && |zs| == |Days(rs)| && ClosestLine(Days(rs), zs, slope, c)
  {
    SameLength(rs);
    DaysSpan(rs);
    DenominatorIsPositive(Days(rs));
    zs :| Dropped(Frees(rs), zs) && slope == Slope(Days(rs), zs);
    c := BestLine(Days(rs), zs);
  }
}
