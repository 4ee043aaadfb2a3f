// The numbers of the performance report, over the reals: the growth rate of a resource and
// the nearest-rank percentile.

module Regression {
  import opened Common

  // ------------------------------------------------------------- growth

  datatype Sample = Sample(monotonicNs: int, value: real)

  function Sum(xs: seq<real>): real {
    if xs == [] then 0.0 else Sum(xs[..|xs| - 1]) + xs[|xs| - 1]
  }

  function Dot(xs: seq<real>, ys: seq<real>): real
    requires |xs| == |ys|
  {
    if xs == [] then 0.0
    else Dot(xs[..|xs| - 1], ys[..|xs| - 1]) + xs[|xs| - 1] * ys[|xs| - 1]
  }

  function Mean(xs: seq<real>): real
    requires xs != []
  {
    Sum(xs) / |xs| as real
  }

  /** The distances from the mean. */
  function Centred(xs: seq<real>): (v: seq<real>)
    requires xs != []
    ensures |v| == |xs|
  {
    seq(|xs|, i requires 0 <= i < |xs| => xs[i] - Mean(xs))
  }

  function Hours(samples: seq<Sample>, origin: int): seq<real> {
    seq(|samples|, i requires 0 <= i < |samples| => (samples[i].monotonicNs - origin) as real / 3600000000000.0)
  }

  function Values(samples: seq<Sample>): seq<real> {
    seq(|samples|, i requires 0 <= i < |samples| => samples[i].value)
  }

  function Spread(xs: seq<real>): real
    requires xs != []
  {
    Dot(Centred(xs), Centred(xs))
  }

  function Slope(xs: seq<real>, ys: seq<real>): real
    requires |xs| == |ys| && xs != [] && Spread(xs) != 0.0
  {
    Dot(Centred(ys), Centred(xs)) / Spread(xs)
  }

  function Intercept(xs: seq<real>, ys: seq<real>): real
    requires |xs| == |ys| && xs != [] && Spread(xs) != 0.0
  {
    Mean(ys) - Slope(xs, ys) * Mean(xs)
  }

  /** `_growth_per_hour`. */
  function GrowthPerHour(samples: seq<Sample>): real {
    if |samples| < 2 then 0.0
    else
      var xs := Hours(samples, samples[0].monotonicNs);
      if Spread(xs) == 0.0 then 0.0 else Slope(xs, Values(samples))
  }

  function Residuals(xs: seq<real>, ys: seq<real>, a: real, b: real): (r: seq<real>)
    requires |xs| == |ys|
    ensures |r| == |xs|
  {
    seq(|xs|, i requires 0 <= i < |xs| => ys[i] - a - b * xs[i])
  }

  /** The squared error of the line `a + b x`. */
  function Error(xs: seq<real>, ys: seq<real>, a: real, b: real): real
    requires |xs| == |ys|
  {
    Dot(Residuals(xs, ys, a, b), Residuals(xs, ys, a, b))
  }

  // ------------------------------------------------------------- sums of products

  lemma {:induction false} SquareOfSum(r: real, d: real)
    ensures (r + d) * (r + d) == r * r + 2.0 * (r * d) + d * d
  {
  }

  lemma {:induction false} TakeOut(k: real, s: real, t: real)
    ensures k * (s + t) == k * s + k * t
    ensures k * (s - t) == k * s - k * t
  {
  }

  predicate IsSum(s: seq<real>, r: seq<real>, d: seq<real>) {
    |s| == |r| == |d| && forall i :: 0 <= i < |s| ==> s[i] == r[i] + d[i]
  }

  lemma {:induction false} DotOfSum(s: seq<real>, r: seq<real>, d: seq<real>)
    requires IsSum(s, r, d)
    ensures Dot(s, s) == Dot(r, r) + 2.0 * Dot(r, d) + Dot(d, d)
  {
    if s != [] {
      var n := |s| - 1;
      DotOfSum(s[..n], r[..n], d[..n]);
      SquareOfSum(r[n], d[n]);
    }
  }

  predicate IsLine(d: seq<real>, p: real, q: real, v: seq<real>) {
    |d| == |v| && forall i :: 0 <= i < |d| ==> d[i] == p + q * v[i]
  }

  lemma {:induction false} LineTerm(r: real, p: real, q: real, v: real)
    ensures r * (p + q * v) == p * r + q * (r * v)
  {
    assert r * (q * v) == q * (r * v);
  }

  lemma {:induction false} LineDotStep(p: real, sr: real, q: real, dv: real, r: real, v: real, d: real, rd: real)
    requires d == p + q * v && rd == r * d
    ensures (p * sr + q * dv) + rd == p * (sr + r) + q * (dv + r * v)
  {
    LineTerm(r, p, q, v);
    TakeOut(p, sr, r);
    TakeOut(q, dv, r * v);
  }

  lemma {:induction false} DotWithLine(r: seq<real>, d: seq<real>, p: real, q: real, v: seq<real>)
    requires |r| == |d| && IsLine(d, p, q, v)
    ensures Dot(r, d) == p * Sum(r) + q * Dot(r, v)
  {
    if r == [] {
      assert p * 0.0 == 0.0 && q * 0.0 == 0.0;
    } else {
      var n := |r| - 1;
      DotWithLine(r[..n], d[..n], p, q, v[..n]);
      LineDotStep(p, Sum(r[..n]), q, Dot(r[..n], v[..n]), r[n], v[n], d[n], r[n] * d[n]);
    }
  }

  predicate IsScaled(m: seq<real>, k: real, v: seq<real>) {
    |m| == |v| && forall i :: 0 <= i < |m| ==> m[i] == k * v[i]
  }

  lemma {:induction false} ScaledTerm(k: real, v: real, w: real, m: real, s: real)
    requires m == k * v
    ensures m * w == k * (v * w)
    ensures k * s + m * w == k * (s + v * w)
  {
    assert (k * v) * w == k * (v * w);
    TakeOut(k, s, v * w);
  }

  lemma {:induction false} DotOfScaled(m: seq<real>, k: real, v: seq<real>, w: seq<real>)
    requires IsScaled(m, k, v) && |w| == |v|
    ensures Dot(m, w) == k * Dot(v, w)
  {
    if m == [] {
      TakeOut(k, 0.0, 0.0);
    } else {
      var n := |m| - 1;
      DotOfScaled(m[..n], k, v[..n], w[..n]);
      ScaledTerm(k, v[n], w[n], m[n], Dot(v[..n], w[..n]));
    }
  }

  lemma {:induction false} SumOfScaled(m: seq<real>, k: real, v: seq<real>)
    requires IsScaled(m, k, v)
    ensures Sum(m) == k * Sum(v)
  {
    if m == [] {
      TakeOut(k, 0.0, 0.0);
    } else {
      var n := |m| - 1;
      SumOfScaled(m[..n], k, v[..n]);
      TakeOut(k, Sum(v[..n]), v[n]);
    }
  }

  lemma {:induction false} SumTerm(r: real, d: real, w: real)
    ensures (r + d) * w == r * w + d * w
  {
  }

  lemma {:induction false} DotAdds(s: seq<real>, r: seq<real>, d: seq<real>, w: seq<real>)
    requires IsSum(s, r, d) && |w| == |s|
    ensures Dot(s, w) == Dot(r, w) + Dot(d, w)
  {
    if s != [] {
      var n := |s| - 1;
      DotAdds(s[..n], r[..n], d[..n], w[..n]);
      SumTerm(r[n], d[n], w[n]);
    }
  }

  lemma {:induction false} SumAdds(s: seq<real>, r: seq<real>, d: seq<real>)
    requires IsSum(s, r, d)
    ensures Sum(s) == Sum(r) + Sum(d)
  {
    if s != [] {
      var n := |s| - 1;
      SumAdds(s[..n], r[..n], d[..n]);
    }
  }

  predicate Shifted(xs: seq<real>, moved: seq<real>, d: real) {
    |xs| == |moved| && forall i :: 0 <= i < |xs| ==> moved[i] == xs[i] + d
  }

  lemma {:induction false} SumShifts(xs: seq<real>, moved: seq<real>, d: real)
    requires Shifted(xs, moved, d)
    ensures Sum(moved) == Sum(xs) + |xs| as real * d
  {
    if xs != [] {
      var n := |xs| - 1;
      SumShifts(xs[..n], moved[..n], d);
      assert |xs| as real * d == n as real * d + d;
    }
  }

  lemma {:induction false} CentredSumsToZero(xs: seq<real>)
    requires xs != []
    ensures Sum(Centred(xs)) == 0.0
  {
    SumShifts(xs, Centred(xs), -Mean(xs));
    MeanTimes(Sum(xs), |xs| as real, Mean(xs));
  }

  lemma {:induction false} MeanTimes(s: real, n: real, m: real)
    requires n > 0.0 && m == s / n
    ensures n * -m == -s
  {
    assert m * n == s;
    assert n * -m == -(m * n);
  }

  lemma {:induction false} PositiveProduct(a: real, b: real, t: real)
    requires a > 0.0 && b > 0.0 && t == a * b
    ensures t > 0.0
  {
  }

  lemma {:induction false} NegativeProduct(a: real, b: real, t: real)
    requires a < 0.0 && b < 0.0 && t == a * b
    ensures t > 0.0
  {
    FlipSigns(a, b);
    PositiveProduct(-a, -b, t);
  }

  lemma {:induction false} FlipSigns(a: real, b: real)
    ensures (-a) * (-b) == a * b
  {
  }

  lemma {:induction false} SquareSign(d: real, t: real)
    requires t == d * d
    ensures t >= 0.0
    ensures d != 0.0 ==> t > 0.0
    ensures d == 0.0 ==> t == 0.0
  {
    if d > 0.0 {
      PositiveProduct(d, d, t);
    } else if d < 0.0 {
      NegativeProduct(d, d, t);
    }
  }

  lemma {:induction false} SquareStep(before: real, d: real, after: real)
    requires after == before + d * d && before >= 0.0
    ensures after >= before
    ensures d != 0.0 ==> after > before
    ensures d == 0.0 ==> after == before
  {
    SquareSign(d, d * d);
  }

  predicate AllZero(d: seq<real>) {
    forall i :: 0 <= i < |d| ==> d[i] == 0.0
  }

  lemma {:induction false} SquaresAreNotNegative(d: seq<real>)
    ensures Dot(d, d) >= 0.0
    ensures AllZero(d) ==> Dot(d, d) == 0.0
    ensures !AllZero(d) ==> Dot(d, d) > 0.0
  {
    if d != [] {
      var n := |d| - 1;
      SquaresAreNotNegative(d[..n]);
      assert AllZero(d) <==> AllZero(d[..n]) && d[n] == 0.0;
      SquareStep(Dot(d[..n], d[..n]), d[n], Dot(d, d));
    }
  }

  // ------------------------------------------------------------- least squares

  /** The line that is `p` at the centre and rises by `q`, at each point. */
  function LineAt(v: seq<real>, p: real, q: real): (d: seq<real>)
    ensures IsLine(d, p, q, v)
  {
    seq(|v|, i requires 0 <= i < |v| => p + q * v[i])
  }

  /** How far a line lies over the computed one at the centre, and how much steeper it falls. */
  predicate Differs(xs: seq<real>, ys: seq<real>, a: real, b: real, p: real, q: real)
    requires |xs| == |ys| && xs != [] && Spread(xs) != 0.0
  {
    p == Mean(ys) - a - b * Mean(xs) && q == Slope(xs, ys) - b
  }

  lemma {:induction false} ResidualTerm(x: real, y: real, a: real, b: real, mx: real, my: real, best: real)
    ensures y - a - b * x == ((y - my) - best * (x - mx)) + ((my - a - b * mx) + (best - b) * (x - mx))
    ensures y - (my - best * mx) - best * x == (y - my) - best * (x - mx)
  {
    assert best * (x - mx) == best * x - best * mx;
    assert (best - b) * (x - mx) == best * (x - mx) - b * (x - mx);
    assert b * (x - mx) == b * x - b * mx;
  }

  lemma {:induction false} ResidualsSplit(xs: seq<real>, ys: seq<real>, a: real, b: real, p: real, q: real)
    requires |xs| == |ys| && xs != [] && Spread(xs) != 0.0 && Differs(xs, ys, a, b, p, q)
    ensures IsSum(Residuals(xs, ys, a, b), Residuals(xs, ys, Intercept(xs, ys), Slope(xs, ys)), LineAt(Centred(xs), p, q))
  {
    forall i | 0 <= i < |xs|
      ensures Residuals(xs, ys, a, b)[i]
              == Residuals(xs, ys, Intercept(xs, ys), Slope(xs, ys))[i] + LineAt(Centred(xs), p, q)[i]
    {
      ResidualTerm(xs[i], ys[i], a, b, Mean(xs), Mean(ys), Slope(xs, ys));
    }
  }

  function Times(k: real, v: seq<real>): (m: seq<real>)
    ensures IsScaled(m, k, v)
  {
    seq(|v|, i requires 0 <= i < |v| => k * v[i])
  }

  /** The values, from their mean, are the residuals and what the slope explains. */
  lemma {:induction false} ResidualsAndSlope(xs: seq<real>, ys: seq<real>)
    requires |xs| == |ys| && xs != [] && Spread(xs) != 0.0
    ensures IsSum(Centred(ys), Residuals(xs, ys, Intercept(xs, ys), Slope(xs, ys)), Times(Slope(xs, ys), Centred(xs)))
  {
    forall i | 0 <= i < |xs|
      ensures Centred(ys)[i] == Residuals(xs, ys, Intercept(xs, ys), Slope(xs, ys))[i]
                                + Times(Slope(xs, ys), Centred(xs))[i]
    {
      ResidualTerm(xs[i], ys[i], 0.0, 0.0, Mean(xs), Mean(ys), Slope(xs, ys));
    }
  }

  /** The residuals of the computed line are balanced and uncorrelated with x. */
  lemma {:induction false} BestIsOrthogonal(xs: seq<real>, ys: seq<real>)
    requires |xs| == |ys| && xs != [] && Spread(xs) != 0.0
    ensures var best := Residuals(xs, ys, Intercept(xs, ys), Slope(xs, ys));
            Sum(best) == 0.0 && Dot(best, Centred(xs)) == 0.0
  {
    var best, k := Residuals(xs, ys, Intercept(xs, ys), Slope(xs, ys)), Slope(xs, ys);
    var explained := Times(k, Centred(xs));
    ResidualsAndSlope(xs, ys);
    SumAdds(Centred(ys), best, explained);
    DotAdds(Centred(ys), best, explained, Centred(xs));
    SumOfScaled(explained, k, Centred(xs));
    DotOfScaled(explained, k, Centred(xs), Centred(xs));
    CentredSumsToZero(xs);
    CentredSumsToZero(ys);
    TakeOut(k, 0.0, 0.0);
    Quotient(Dot(Centred(ys), Centred(xs)), Spread(xs));
  }

  lemma {:induction false} Quotient(s: real, t: real)
    requires t != 0.0
    ensures s / t * t == s
  {
  }

  lemma {:induction false} OrthogonalToLines(r: seq<real>, d: seq<real>, p: real, q: real, v: seq<real>)
    requires |r| == |d| && IsLine(d, p, q, v) && Sum(r) == 0.0 && Dot(r, v) == 0.0
    ensures Dot(r, d) == 0.0
  {
    DotWithLine(r, d, p, q, v);
    assert p * 0.0 == 0.0 && q * 0.0 == 0.0;
  }

  /** The error of any line is that of the computed one and the squares of their distances. */
  lemma {:induction false} ErrorOver(xs: seq<real>, ys: seq<real>, a: real, b: real, p: real, q: real)
    requires |xs| == |ys| && xs != [] && Spread(xs) != 0.0 && Differs(xs, ys, a, b, p, q)
    ensures var gap := LineAt(Centred(xs), p, q);
            Error(xs, ys, a, b) == Error(xs, ys, Intercept(xs, ys), Slope(xs, ys)) + Dot(gap, gap)
  {
    var best, gap := Residuals(xs, ys, Intercept(xs, ys), Slope(xs, ys)), LineAt(Centred(xs), p, q);
    ResidualsSplit(xs, ys, a, b, p, q);
    DotOfSum(Residuals(xs, ys, a, b), best, gap);
    BestIsOrthogonal(xs, ys);
    OrthogonalToLines(best, gap, p, q, Centred(xs));
  }

  lemma {:induction false} NoGapNoDifference(xs: seq<real>, p: real, q: real)
    requires xs != [] && Spread(xs) != 0.0 && AllZero(LineAt(Centred(xs), p, q))
    ensures p == 0.0 && q == 0.0
  {
    var v := Centred(xs);
    SquaresAreNotNegative(v);
    CentredSumsToZero(xs);
    var i :| 0 <= i < |v| && v[i] != 0.0;
    ConstantLine(LineAt(v, p, q), p, q, v);
    assert LineAt(v, p, q)[i] == 0.0;
    Factor(q, v[i]);
  }

  lemma {:induction false} Factor(q: real, v: real)
    requires q * v == 0.0 && v != 0.0
    ensures q == 0.0
  {
  }

  /** A line that is zero at every point of a centred set is zero at its centre. */
  lemma {:induction false} ConstantLine(d: seq<real>, p: real, q: real, v: seq<real>)
    requires IsLine(d, p, q, v) && AllZero(d) && v != [] && Sum(v) == 0.0
    ensures p == 0.0
  {
    ZerosSum(d);
    SumOfLine(d, p, q, v);
    assert q * 0.0 == 0.0;
    Factor(p, |d| as real);
  }

  lemma {:induction false} ZerosSum(d: seq<real>)
    requires AllZero(d)
    ensures Sum(d) == 0.0
  {
    if d != [] { ZerosSum(d[..|d| - 1]); }
  }

  lemma {:induction false} LineSumStep(p: real, n: real, q: real, sv: real, v: real, d: real)
    requires d == p + q * v
    ensures (p * n + q * sv) + d == p * (n + 1.0) + q * (sv + v)
  {
    TakeOut(p, n, 1.0);
    TakeOut(q, sv, v);
  }

  lemma {:induction false} SumOfLine(d: seq<real>, p: real, q: real, v: seq<real>)
    requires IsLine(d, p, q, v)
    ensures Sum(d) == p * |d| as real + q * Sum(v)
  {
    if d == [] {
      assert p * 0.0 == 0.0 && q * 0.0 == 0.0;
    } else {
      var n := |d| - 1;
      SumOfLine(d[..n], p, q, v[..n]);
      LineSumStep(p, n as real, q, Sum(v[..n]), v[n], d[n]);
    }
  }

  /** No line fits better than the computed one, and every other line fits worse. */
  lemma {:induction false} SlopeIsUniqueBest(xs: seq<real>, ys: seq<real>, a: real, b: real)
    requires |xs| == |ys| && xs != [] && Spread(xs) != 0.0
    ensures var best := Error(xs, ys, Intercept(xs, ys), Slope(xs, ys));
            && best <= Error(xs, ys, a, b)
            && (Error(xs, ys, a, b) == best ==> b == Slope(xs, ys) && a == Intercept(xs, ys))
  {
    var p, q := Mean(ys) - a - b * Mean(xs), Slope(xs, ys) - b;
    ErrorOver(xs, ys, a, b, p, q);
    SquaresAreNotNegative(LineAt(Centred(xs), p, q));
    if AllZero(LineAt(Centred(xs), p, q)) {
      NoGapNoDifference(xs, p, q);
      SameLine(Mean(ys), Mean(xs), a, b, Slope(xs, ys));
    }
  }

  lemma {:induction false} SameLine(my: real, mx: real, a: real, b: real, best: real)
    requires my - a - b * mx == 0.0 && best - b == 0.0
    ensures b == best && a == my - best * mx
  {
  }

  // ------------------------------------------------------------- shifting

  lemma {:induction false} MeanMoves(s: real, n: real, d: real)
    requires n > 0.0
    ensures (s + n * d) / n == s / n + d
  {
    assert (s / n + d) * n == s + n * d;
  }

  lemma {:induction false} ShiftKeepsCentre(xs: seq<real>, moved: seq<real>, d: real)
    requires Shifted(xs, moved, d) && xs != []
    ensures Centred(moved) == Centred(xs)
  {
    SumShifts(xs, moved, d);
    MeanMoves(Sum(xs), |xs| as real, d);
    assert Mean(moved) == Mean(xs) + d;
  }

  predicate SomeDistinct(samples: seq<Sample>) {
    exists i, j :: 0 <= i < j < |samples| && samples[i].monotonicNs != samples[j].monotonicNs
  }

  lemma {:induction false} SpreadTellsDistinct(samples: seq<Sample>, origin: int)
    requires samples != []
    ensures Spread(Hours(samples, origin)) != 0.0 <==> SomeDistinct(samples)
  {
    var xs := Hours(samples, origin);
    SquaresAreNotNegative(Centred(xs));
    if SomeDistinct(samples) {
      var i, j :| 0 <= i < j < |samples| && samples[i].monotonicNs != samples[j].monotonicNs;
      assert xs[i] != xs[j];
      assert Centred(xs)[i] != Centred(xs)[j];
    } else {
      forall i | 0 <= i < |xs| ensures xs[i] == xs[0] {
        assert i > 0 ==> samples[0].monotonicNs == samples[i].monotonicNs;
      }
      AllEqualMean(xs, xs[0]);
    }
  }

  lemma {:induction false} AllEqualMean(xs: seq<real>, x: real)
    requires xs != [] && forall i :: 0 <= i < |xs| ==> xs[i] == x
    ensures Mean(xs) == x
  {
    SumOfEquals(xs, x);
    assert (|xs| as real * x) / |xs| as real == x;
  }

  lemma {:induction false} SumOfEquals(xs: seq<real>, x: real)
    requires forall i :: 0 <= i < |xs| ==> xs[i] == x
    ensures Sum(xs) == |xs| as real * x
  {
    if xs != [] {
      SumOfEquals(xs[..|xs| - 1], x);
      assert |xs| as real * x == (|xs| - 1) as real * x + x;
    }
  }

  lemma {:induction false} OriginsShift(samples: seq<Sample>, origin: int, first: int)
    ensures Shifted(Hours(samples, origin), Hours(samples, first), (origin - first) as real / 3600000000000.0)
  {
  }

  /**
   * With at least two distinct timestamps the growth is the slope of the one line through the
   * points (hours since any origin, value) that has the least squared error; without, it is 0.
   */
  lemma {:induction false} GrowthIsLeastSquares(samples: seq<Sample>, origin: int, a: real, b: real)
    requires samples != []
    ensures !SomeDistinct(samples) ==> GrowthPerHour(samples) == 0.0
    ensures SomeDistinct(samples) ==>
      var xs, ys, growth := Hours(samples, origin), Values(samples), GrowthPerHour(samples);
      && Spread(xs) != 0.0
      && Error(xs, ys, Intercept(xs, ys), growth) <= Error(xs, ys, a, b)
      && (Error(xs, ys, a, b) == Error(xs, ys, Intercept(xs, ys), growth) ==> b == growth && a == Intercept(xs, ys))
  {
    var first := samples[0].monotonicNs;
    SpreadTellsDistinct(samples, first);
    if SomeDistinct(samples) {
      SpreadTellsDistinct(samples, origin);
      OriginsShift(samples, origin, first);
      ShiftKeepsCentre(Hours(samples, origin), Hours(samples, first), (origin - first) as real / 3600000000000.0);
      SlopeIsUniqueBest(Hours(samples, origin), Values(samples), a, b);
    }
  }

  function Moved(samples: seq<Sample>, d: int): seq<Sample> {
    seq(|samples|, i requires 0 <= i < |samples| => Sample(samples[i].monotonicNs + d, samples[i].value))
  }

  /** Moving every timestamp by the same amount changes nothing. */
  lemma {:induction false} GrowthIgnoresShift(samples: seq<Sample>, d: int)
    ensures GrowthPerHour(Moved(samples, d)) == GrowthPerHour(samples)
  {
    if |samples| >= 2 {
      var moved := Moved(samples, d);
      assert Hours(moved, moved[0].monotonicNs) == Hours(samples, samples[0].monotonicNs);
      assert Values(moved) == Values(samples);
    }
  }

  // ------------------------------------------------------------- percentiles

  predicate Less(a: real, b: real) {
    a < b
  }

  function Ordered(s: seq<real>): seq<real> {
    Sort(s, Less)
  }

  predicate Sorted(s: seq<real>) {
    forall i, j :: 0 <= i < j < |s| ==> s[i] <= s[j]
  }

  /** How many values are at most `v`. */
  function AtMost(s: seq<real>, v: real): nat {
    if s == [] then 0 else AtMost(s[1..], v) + (if s[0] <= v then 1 else 0)
  }

  lemma {:induction false} InsertCounts(x: real, s: seq<real>, v: real)
    ensures AtMost(Insert(x, s, Less), v) == AtMost(s, v) + (if x <= v then 1 else 0)
  {
    if s == [] || Less(x, s[0]) {
      assert Insert(x, s, Less)[1..] == s;
    } else {
      InsertCounts(x, s[1..], v);
      assert Insert(x, s, Less)[1..] == Insert(x, s[1..], Less);
    }
  }

  lemma {:induction false} InOrderReaches(s: seq<real>, i: nat, j: nat)
    requires InOrder(s, Less) && i <= j < |s|
    ensures s[i] <= s[j]
  {
    if i < j {
      InOrderReaches(s, i, j - 1);
      assert !Less(s[j], s[j - 1]);
    }
  }

  lemma {:induction false} OrderedIsSorted(s: seq<real>)
    ensures Sorted(Ordered(s)) && |Ordered(s)| == |s|
  {
    var t := Ordered(s);
    SortSorts(s, Less);
    forall i, j | 0 <= i < j < |t| ensures t[i] <= t[j] { InOrderReaches(t, i, j); }
  }

  lemma {:induction false} OrderedKeeps(s: seq<real>, v: real)
    ensures AtMost(Ordered(s), v) == AtMost(s, v)
    ensures v in Ordered(s) <==> v in s
  {
    if s != [] {
      OrderedKeeps(s[1..], v);
      InsertCounts(s[0], Ordered(s[1..]), v);
    }
    assert v in Ordered(s) <==> v in multiset(Ordered(s));
    assert v in s <==> v in multiset(s);
  }

  lemma {:induction false} SortedCounts(s: seq<real>, k: nat, v: real)
    requires Sorted(s) && k < |s|
    ensures s[k] <= v ==> AtMost(s, v) >= k + 1
    ensures v < s[k] ==> AtMost(s, v) <= k
  {
    if k > 0 {
      SortedCounts(s[1..], k - 1, v);
      assert s[0] <= s[k];
    } else {
      if v < s[0] { NoneAtMost(s, v); }
    }
  }

  lemma {:induction false} NoneAtMost(s: seq<real>, v: real)
    requires forall i :: 0 <= i < |s| ==> v < s[i]
    ensures AtMost(s, v) == 0
  {
    if s != [] { NoneAtMost(s[1..], v); }
  }

  function Ceiling(x: real): (c: int)
    ensures x <= c as real < x + 1.0
  {
    if x == x.Floor as real then x.Floor else x.Floor + 1
  }

  function Share(percentile: real, n: nat): real {
    percentile / 100.0 * n as real
  }

  lemma {:induction false} ShareInRange(percentile: real, n: nat)
    requires n > 0 && 0.0 < percentile <= 100.0
    ensures 0.0 < Share(percentile, n) <= n as real
  {
    var part := percentile / 100.0;
    assert 0.0 < part <= 1.0;
  }

  function Rank(share: real): nat {
    if Ceiling(share) > 1 then Ceiling(share) else 1
  }

  datatype Percentile = NoSamples | InvalidPercentile | At(value: real)

  /** `nearest_rank`. */
  function NearestRank(values: seq<real>, percentile: real): Percentile {
    if values == [] then NoSamples
    else if !(0.0 < percentile <= 100.0) then InvalidPercentile
    else
      var rank := Rank(Share(percentile, |values|));
      ShareInRange(percentile, |values|);
      OrderedIsSorted(values);
      At(Ordered(values)[rank - 1])
  }

  /** The result is the smallest sample that at least that share of the samples does not exceed. */
  lemma {:induction false} NearestRankIsSmallest(values: seq<real>, percentile: real, other: real)
    requires values != [] && 0.0 < percentile <= 100.0
    ensures var v := NearestRank(values, percentile).value;
            && v in values
            && AtMost(values, v) as real >= Share(percentile, |values|)
            && (other < v ==> (AtMost(values, other) as real) < Share(percentile, |values|))
  {
    var share := Share(percentile, |values|);
    var rank := Rank(share);
    ShareInRange(percentile, |values|);
    OrderedIsSorted(values);
    var v := Ordered(values)[rank - 1];
    SortedCounts(Ordered(values), rank - 1, v);
    SortedCounts(Ordered(values), rank - 1, other);
    OrderedKeeps(values, v);
    OrderedKeeps(values, other);
  }
}
