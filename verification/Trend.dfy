/** The disk trend of hub/internal/apps/placement.go: a least-squares slope over
    the free-space samples of a week, with one burst taken out first.  float64
    is modelled as real, so rounding is not part of it. */
module Trend {

  /** Products have a name of their own where a proof is not about what they are. */
  function Times(a: real, b: real): real {
    a * b
  }

  lemma PositiveFactor(p: real, q: real, f: real)
    requires f > 0.0
    ensures p < q <==> Times(p, f) < Times(q, f)
  {
    if p < q {
      assert (q - p) * f > 0.0;
    } else {
      assert (p - q) * f >= 0.0;
    }
  }

  /** The sum of the first n, and of the first n products. */
  function Sum(s: seq<real>, n: nat): real
    requires n <= |s|
  {
    if n == 0 then 0.0 else Sum(s, n - 1) + s[n - 1]
  }

  function Dot(xs: seq<real>, ys: seq<real>, n: nat): real
    requires n <= |xs| && n <= |ys|
  {
    if n == 0 then 0.0 else Dot(xs, ys, n - 1) + xs[n - 1] * ys[n - 1]
  }

  /** n * sum of xy - sum of x * sum of y: the numerator of the slope and, with
      the xs twice, its denominator. */
  function Cross(xs: seq<real>, ys: seq<real>, n: nat): real
    requires n <= |xs| && n <= |ys|
  {
    n as real * Dot(xs, ys, n) - Sum(xs, n) * Sum(ys, n)
  }

  function Slope(xs: seq<real>, ys: seq<real>): real
    requires |xs| == |ys|
  {
    var den := Cross(xs, xs, |xs|);
    if den == 0.0 then 0.0 else Cross(xs, ys, |xs|) / den
  }

  // ---------------------------------------------------------------- sums over pairs

  /** The sum of f(i, j) over i < n. */
  function Row(f: (int, int) -> real, j: int, n: nat): real {
    if n == 0 then 0.0 else Row(f, j, n - 1) + f(n - 1, j)
  }

  /** The sum of f(i, j) over i < j < n. */
  function OverPairs(f: (int, int) -> real, n: nat): real {
    if n == 0 then 0.0 else OverPairs(f, n - 1) + Row(f, n - 1, n - 1)
  }

  lemma {:induction false} RowSign(f: (int, int) -> real, j: int, n: nat)
    requires forall i :: 0 <= i < n ==> f(i, j) >= 0.0
    ensures Row(f, j, n) >= 0.0
    ensures n > 0 && f(0, j) > 0.0 ==> Row(f, j, n) > 0.0
  {
    if n > 0 {
      RowSign(f, j, n - 1);
    }
  }

  /** Pairs that are never negative add up to no less than zero, and to more when
      the first and the last make more. */
  lemma {:induction false} PairsSign(f: (int, int) -> real, n: nat)
    requires forall i, j :: 0 <= i < j < n ==> f(i, j) >= 0.0
    ensures OverPairs(f, n) >= 0.0
    ensures n > 1 && f(0, n - 1) > 0.0 ==> OverPairs(f, n) > 0.0
  {
    if n > 0 {
      PairsSign(f, n - 1);
      RowSign(f, n - 1, n - 1);
    }
  }

  lemma Distribute(b: real, p: real, q: real)
    ensures Times(b, p) + Times(b, q) == Times(b, p + q)
  {
    assert b * p + b * q == b * (p + q);
  }

  lemma {:induction false} RowScales(f: (int, int) -> real, g: (int, int) -> real, b: real, j: int, n: nat)
    requires forall i :: 0 <= i < n ==> g(i, j) == Times(b, f(i, j))
    ensures Row(g, j, n) == Times(b, Row(f, j, n))
  {
    if n > 0 {
      RowScales(f, g, b, j, n - 1);
      Distribute(b, Row(f, j, n - 1), f(n - 1, j));
    }
  }

  lemma {:induction false} PairsScale(f: (int, int) -> real, g: (int, int) -> real, b: real, n: nat)
    requires forall i, j :: 0 <= i < j < n ==> g(i, j) == Times(b, f(i, j))
    ensures OverPairs(g, n) == Times(b, OverPairs(f, n))
  {
    if n > 0 {
      PairsScale(f, g, b, n - 1);
      RowScales(f, g, b, n - 1, n - 1);
      Distribute(b, OverPairs(f, n - 1), Row(f, n - 1, n - 1));
    }
  }

  lemma {:induction false} RowAdds(f: (int, int) -> real, g: (int, int) -> real, h: (int, int) -> real, j: int, n: nat)
    requires forall i :: 0 <= i < n ==> h(i, j) == f(i, j) + g(i, j)
    ensures Row(h, j, n) == Row(f, j, n) + Row(g, j, n)
  {
    if n > 0 {
      RowAdds(f, g, h, j, n - 1);
    }
  }

  lemma {:induction false} PairsAdd(f: (int, int) -> real, g: (int, int) -> real, h: (int, int) -> real, n: nat)
    requires forall i, j :: 0 <= i < j < n ==> h(i, j) == f(i, j) + g(i, j)
    ensures OverPairs(h, n) == OverPairs(f, n) + OverPairs(g, n)
  {
    if n > 0 {
      PairsAdd(f, g, h, n - 1);
      RowAdds(f, g, h, n - 1, n - 1);
    }
  }

  // ---------------------------------------------------------------- Lagrange's identity

  /** (xj - xi)(yj - yi) */
  function Area(xs: seq<real>, ys: seq<real>): (int, int) -> real {
    (i, j) => if 0 <= i < |xs| && 0 <= j < |xs| && i < |ys| && j < |ys| then Times(xs[j] - xs[i], ys[j] - ys[i]) else 0.0
  }

  lemma RowStep(n: real, dot: real, sx: real, sy: real, x: real, y: real, a: real, b: real)
    ensures (n * (x * y) - x * sy - y * sx + dot) + Times(x - a, y - b)
         == (n + 1.0) * (x * y) - x * (sy + b) - y * (sx + a) + (dot + a * b)
  {
    assert (x - a) * (y - b) == x * y - x * b - a * y + a * b;
    assert (n + 1.0) * (x * y) == n * (x * y) + x * y;
    assert x * (sy + b) == x * sy + x * b;
    assert y * (sx + a) == y * sx + y * a;
  }

  /** What a row of areas comes to, as a function of its length. */
  function RowForm(xs: seq<real>, ys: seq<real>, j: nat): int -> real
    requires |xs| == |ys| && j < |xs|
  {
    n => if 0 <= n <= |xs|
         then n as real * (xs[j] * ys[j]) - xs[j] * Sum(ys, n) - ys[j] * Sum(xs, n) + Dot(xs, ys, n)
         else 0.0
  }

  lemma {:induction false} RowTelescopes(f: (int, int) -> real, j: int, n: nat, form: int -> real)
    requires form(0) == 0.0 && forall i :: 0 <= i < n ==> form(i + 1) == form(i) + f(i, j)
    ensures Row(f, j, n) == form(n)
  {
    if n > 0 {
      RowTelescopes(f, j, n - 1, form);
      assert form(n - 1 + 1) == form(n - 1) + f(n - 1, j);
    }
  }

  lemma RowFormStep(xs: seq<real>, ys: seq<real>, j: nat, i: nat)
    requires i < |xs| == |ys| && j < |xs|
    ensures RowForm(xs, ys, j)(i + 1) == RowForm(xs, ys, j)(i) + Area(xs, ys)(i, j)
  {
    RowStep(i as real, Dot(xs, ys, i), Sum(xs, i), Sum(ys, i), xs[j], ys[j], xs[i], ys[i]);
  }

  lemma RowExpanded(xs: seq<real>, ys: seq<real>, j: nat, n: nat)
    requires n <= |xs| == |ys| && j < |xs|
    ensures Row(Area(xs, ys), j, n) == RowForm(xs, ys, j)(n)
  {
    var form := RowForm(xs, ys, j);
    forall i | 0 <= i < n
      ensures form(i + 1) == form(i) + Area(xs, ys)(i, j)
    {
      RowFormStep(xs, ys, j, i);
    }
    RowTelescopes(Area(xs, ys), j, n, form);
  }

  lemma CrossStep(n: real, dot: real, sx: real, sy: real, x: real, y: real)
    ensures (n + 1.0) * (dot + x * y) - (sx + x) * (sy + y)
         == (n * dot - sx * sy) + (n * (x * y) - x * sy - y * sx + dot)
  {
    assert (n + 1.0) * (dot + x * y) == n * dot + n * (x * y) + dot + x * y;
    assert (sx + x) * (sy + y) == sx * sy + sx * y + x * sy + x * y;
  }

  lemma CrossGrows(xs: seq<real>, ys: seq<real>, n: nat)
    requires n < |xs| == |ys|
    ensures Cross(xs, ys, n + 1) == Cross(xs, ys, n) + RowForm(xs, ys, n)(n)
  {
    CrossStep(n as real, Dot(xs, ys, n), Sum(xs, n), Sum(ys, n), xs[n], ys[n]);
  }

  /** Lagrange: the numerator and the denominator are sums over pairs. */
  lemma {:induction false} Lagrange(xs: seq<real>, ys: seq<real>, n: nat)
    requires n <= |xs| == |ys|
    ensures Cross(xs, ys, n) == OverPairs(Area(xs, ys), n)
  {
    if n > 0 {
      Lagrange(xs, ys, n - 1);
      RowExpanded(xs, ys, n - 1, n - 1);
      CrossGrows(xs, ys, n - 1);
    }
  }

  // ---------------------------------------------------------------- signs

  ghost predicate Rising(s: seq<real>) {
    forall i, j :: 0 <= i < j < |s| ==> s[i] <= s[j]
  }

  ghost predicate Falling(s: seq<real>) {
    forall i, j :: 0 <= i < j < |s| ==> s[i] >= s[j]
  }

  /** Samples in order of time that span some. */
  ghost predicate Spans(xs: seq<real>) {
    |xs| > 1 && Rising(xs) && xs[0] < xs[|xs| - 1]
  }

  lemma ProductSign(a: real, b: real)
    requires a >= 0.0 && b >= 0.0
    ensures Times(a, b) >= 0.0 && (a > 0.0 && b > 0.0 ==> Times(a, b) > 0.0)
  {
  }

  lemma AreaSign(xs: seq<real>, ys: seq<real>, i: nat, j: nat)
    requires i < j < |xs| == |ys| && Rising(xs) && Rising(ys)
    ensures Area(xs, ys)(i, j) >= 0.0 && (xs[i] < xs[j] && ys[i] < ys[j] ==> Area(xs, ys)(i, j) > 0.0)
  {
    ProductSign(xs[j] - xs[i], ys[j] - ys[i]);
  }

  lemma AreaRises(xs: seq<real>, ys: seq<real>)
    requires |xs| == |ys| && Rising(xs) && Rising(ys)
    ensures forall i, j :: 0 <= i < j < |xs| ==> Area(xs, ys)(i, j) >= 0.0
    ensures |xs| > 1 && xs[0] < xs[|xs| - 1] && ys[0] < ys[|xs| - 1] ==> Area(xs, ys)(0, |xs| - 1) > 0.0
  {
    forall i, j | 0 <= i < j < |xs|
      ensures Area(xs, ys)(i, j) >= 0.0
    {
      AreaSign(xs, ys, i, j);
    }
    if |xs| > 1 {
      AreaSign(xs, ys, 0, |xs| - 1);
    }
  }

  /** The denominator is positive whenever the samples span any time at all, so
      the guard against dividing by zero is never taken. */
  lemma DenominatorIsPositive(xs: seq<real>)
    requires Spans(xs)
    ensures Cross(xs, xs, |xs|) > 0.0
  {
    Lagrange(xs, xs, |xs|);
    AreaRises(xs, xs);
    PairsSign(Area(xs, xs), |xs|);
  }

  lemma QuotientSign(n: real, d: real)
    requires d > 0.0
    ensures (n >= 0.0 ==> n / d >= 0.0) && (n > 0.0 ==> n / d > 0.0) && (n <= 0.0 ==> n / d <= 0.0)
  {
  }

  lemma SlopeIsQuotient(xs: seq<real>, ys: seq<real>)
    requires |xs| == |ys| && Spans(xs)
    ensures OverPairs(Area(xs, xs), |xs|) > 0.0
    ensures Slope(xs, ys) == OverPairs(Area(xs, ys), |xs|) / OverPairs(Area(xs, xs), |xs|)
  {
    DenominatorIsPositive(xs);
    Lagrange(xs, xs, |xs|);
    Lagrange(xs, ys, |xs|);
  }

  /** Free space that never shrinks has no negative slope... */
  lemma SlopeRises(xs: seq<real>, ys: seq<real>)
    requires |xs| == |ys| && Spans(xs) && Rising(ys)
    ensures Slope(xs, ys) >= 0.0
    ensures ys[0] < ys[|ys| - 1] ==> Slope(xs, ys) > 0.0
  {
    SlopeIsQuotient(xs, ys);
    AreaRises(xs, ys);
    PairsSign(Area(xs, ys), |xs|);
    QuotientSign(OverPairs(Area(xs, ys), |xs|), OverPairs(Area(xs, xs), |xs|));
  }

  // ---------------------------------------------------------------- linear data

  lemma ScaleArea(d: real, z: real, zi: real, a: real, b: real, u: real, ui: real)
    requires z == a + Times(b, u) && zi == a + Times(b, ui)
    ensures Times(d, z - zi) == Times(b, Times(d, u - ui))
  {
    assert z - zi == b * (u - ui);
    assert d * (b * (u - ui)) == b * (d * (u - ui));
  }

  lemma QuotientIs(n: real, p: real, d: real, b: real)
    requires d != 0.0 && n == Times(b, p)
    ensures n / d == Times(b, p / d)
  {
  }

  lemma AreaScales(xs: seq<real>, ys: seq<real>, a: real, b: real, us: seq<real>, i: nat, j: nat)
    requires i < |xs| == |ys| == |us| && j < |xs|
    requires ys[i] == a + Times(b, us[i]) && ys[j] == a + Times(b, us[j])
    ensures Area(xs, ys)(i, j) == Times(b, Area(xs, us)(i, j))
  {
    ScaleArea(xs[j] - xs[i], ys[j], ys[i], a, b, us[j], us[i]);
  }

  lemma OverPairsScale(xs: seq<real>, ys: seq<real>, a: real, b: real, us: seq<real>)
    requires |xs| == |ys| == |us|
    requires forall i :: 0 <= i < |ys| ==> ys[i] == a + Times(b, us[i])
    ensures OverPairs(Area(xs, ys), |xs|) == Times(b, OverPairs(Area(xs, us), |xs|))
  {
    var f, g := Area(xs, us), Area(xs, ys);
    forall i, j | 0 <= i < j < |xs|
      ensures g(i, j) == Times(b, f(i, j))
    {
      AreaScales(xs, ys, a, b, us, i, j);
    }
    PairsScale(f, g, b, |xs|);
  }

  /** Slopes scale, whatever is added to all samples. */
  lemma SlopeScales(xs: seq<real>, ys: seq<real>, a: real, b: real, us: seq<real>)
    requires |xs| == |ys| == |us| && Spans(xs)
    requires forall i :: 0 <= i < |ys| ==> ys[i] == a + Times(b, us[i])
    ensures Slope(xs, ys) == Times(b, Slope(xs, us))
  {
    OverPairsScale(xs, ys, a, b, us);
    SlopeIsQuotient(xs, us);
    SlopeIsQuotient(xs, ys);
    QuotientIs(OverPairs(Area(xs, ys), |xs|), OverPairs(Area(xs, us), |xs|), OverPairs(Area(xs, xs), |xs|), b);
  }

  lemma AddArea(d: real, z: real, zi: real, u: real, ui: real, v: real, vi: real)
    requires z == u + v && zi == ui + vi
    ensures Times(d, z - zi) == Times(d, u - ui) + Times(d, v - vi)
  {
    assert z - zi == (u - ui) + (v - vi);
  }

  lemma QuotientAdds(p: real, q: real, d: real)
    requires d != 0.0
    ensures (p + q) / d == p / d + q / d
  {
  }

  /** And add. */
  lemma SlopeAdds(xs: seq<real>, ys: seq<real>, us: seq<real>, vs: seq<real>)
    requires |xs| == |ys| == |us| == |vs| && Spans(xs)
    requires forall i :: 0 <= i < |ys| ==> ys[i] == us[i] + vs[i]
    ensures Slope(xs, ys) == Slope(xs, us) + Slope(xs, vs)
  {
    forall i, j | 0 <= i < j < |xs|
      ensures Area(xs, ys)(i, j) == Area(xs, us)(i, j) + Area(xs, vs)(i, j)
    {
      AddArea(xs[j] - xs[i], ys[j], ys[i], us[j], us[i], vs[j], vs[i]);
    }
    PairsAdd(Area(xs, us), Area(xs, vs), Area(xs, ys), |xs|);
    SlopeIsQuotient(xs, us);
    SlopeIsQuotient(xs, vs);
    SlopeIsQuotient(xs, ys);
    QuotientAdds(OverPairs(Area(xs, us), |xs|), OverPairs(Area(xs, vs), |xs|), OverPairs(Area(xs, xs), |xs|));
  }

  lemma SlopeOfTime(xs: seq<real>)
    requires Spans(xs)
    ensures Slope(xs, xs) == 1.0
  {
    SlopeIsQuotient(xs, xs);
  }

  /** Samples on a line have the line's slope. */
  lemma SlopeOfLine(xs: seq<real>, ys: seq<real>, a: real, b: real)
    requires |xs| == |ys| && Spans(xs)
    requires forall i :: 0 <= i < |ys| ==> ys[i] == a + b * xs[i]
    ensures Slope(xs, ys) == b
  {
    assert forall i :: 0 <= i < |ys| ==> ys[i] == a + Times(b, xs[i]);
    SlopeScales(xs, ys, a, b, xs);
    SlopeOfTime(xs);
  }

  /** ...and free space that never grows has no positive slope. */
  lemma SlopeFalls(xs: seq<real>, ys: seq<real>)
    requires |xs| == |ys| && Spans(xs) && Falling(ys)
    ensures Slope(xs, ys) <= 0.0
  {
    var up := seq(|ys|, i requires 0 <= i < |ys| => 0.0 - ys[i]);
    assert forall i :: 0 <= i < |ys| ==> ys[i] == 0.0 + Times(-1.0, up[i]);
    SlopeScales(xs, ys, 0.0, -1.0, up);
    SlopeRises(xs, up);
  }
}
