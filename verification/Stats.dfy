/** Correlation and equity stability of the research laboratory; roots are avoided by squaring. */
module Stats {
  import opened Numeric

  function Mean(xs: seq<real>): real {
    if xs == [] then 0.0 else Sum(xs) / |xs| as real
  }

  function Shifted(xs: seq<real>, c: real): (r: seq<real>)
    ensures |r| == |xs|
  {
    seq(|xs|, i requires 0 <= i < |xs| => xs[i] - c)
  }

  function Centered(xs: seq<real>): (r: seq<real>)
    ensures |r| == |xs|
  {
    Shifted(xs, Mean(xs))
  }

  function Dot(a: seq<real>, b: seq<real>): real
    requires |a| == |b|
  {
    if a == [] then 0.0
    else
      var n := |a| - 1;
      Dot(a[..n], b[..n]) + Times(a[n], b[n])
  }

  function Line(slope: real, x: real, intercept: real): real { slope * x + intercept }

  lemma DotStep(a: seq<real>, b: seq<real>)
    requires |a| == |b| > 0
    ensures var n := |a| - 1; Dot(a, b) == Dot(a[..n], b[..n]) + Times(a[n], b[n])
  {
  }

  /** The residuals of b against t times a. */
  function Residuals(a: seq<real>, b: seq<real>, t: real): (r: seq<real>)
    requires |a| == |b|
    ensures |r| == |a|
  {
    seq(|a|, i requires 0 <= i < |a| => b[i] - Line(t, a[i], 0.0))
  }

  lemma {:induction false} SquaresNonNegative(a: seq<real>)
    ensures Dot(a, a) >= 0.0
    ensures Dot(a, a) == 0.0 ==> forall i :: 0 <= i < |a| ==> a[i] == 0.0
  {
    if a != [] {
      var n := |a| - 1;
      SquaresNonNegative(a[..n]);
      var p := a[n] * a[n];
      if a[n] != 0.0 { SquarePositive(a[n], p); }
      assert forall i :: 0 <= i < n ==> a[..n][i] == a[i];
    }
  }

  lemma {:induction false} DotZero(a: seq<real>, b: seq<real>)
    requires |a| == |b| && forall i :: 0 <= i < |a| ==> a[i] == 0.0
    ensures Dot(a, b) == 0.0
  {
    if a != [] { DotZero(a[..|a| - 1], b[..|a| - 1]); }
  }

  lemma {:induction false} DotSymmetric(a: seq<real>, b: seq<real>)
    requires |a| == |b|
    ensures Dot(a, b) == Dot(b, a)
  {
    if a != [] { DotSymmetric(a[..|a| - 1], b[..|a| - 1]); }
  }

  /** The quadratic bb - 2 t ab + t^2 aa. */
  function Quadratic(bb: real, ab: real, aa: real, t: real): real { bb - 2.0 * t * ab + t * t * aa }

  lemma QuadraticStep(bb: real, ab: real, aa: real, x: real, y: real, t: real, r: real)
    requires r == y - Line(t, x, 0.0)
    ensures Quadratic(bb, ab, aa, t) + Times(r, r)
            == Quadratic(bb + Times(y, y), ab + Times(x, y), aa + Times(x, x), t)
  {
    var u := t * x;
    assert r == y - u;
    assert r * r == y * y - 2.0 * (u * y) + u * u;
    assert u * y == t * (x * y) && u * u == t * t * (x * x);
  }

  lemma {:induction false} ResidualSquares(a: seq<real>, b: seq<real>, t: real)
    requires |a| == |b|
    ensures Dot(Residuals(a, b, t), Residuals(a, b, t)) == Quadratic(Dot(b, b), Dot(a, b), Dot(a, a), t)
  {
    if a != [] {
      hide Quadratic, Line, Dot, Times;
      var n := |a| - 1;
      var res := Residuals(a, b, t);
      ResidualSquares(a[..n], b[..n], t);
      assert res[..n] == Residuals(a[..n], b[..n], t);
      DotStep(res, res);
      DotStep(a, a);
      DotStep(a, b);
      DotStep(b, b);
      QuadraticStep(Dot(b[..n], b[..n]), Dot(a[..n], b[..n]), Dot(a[..n], a[..n]), a[n], b[n], t,
                    res[n]);
    } else {
      assert Residuals(a, b, t) == [];
    }
  }

  lemma QuadraticAtMinimum(bb: real, ab: real, aa: real, t: real)
    requires t * aa == ab
    ensures Quadratic(bb, ab, aa, t) == bb - ab * t
  {
    assert t * t * aa == t * (t * aa);
  }

  /** With the least-squares slope the residual sum of squares is Syy - Sxy^2/Sxx. */
  lemma {:induction false} LeastSquares(a: seq<real>, b: seq<real>, t: real)
    requires |a| == |b| && t * Dot(a, a) == Dot(a, b)
    ensures Dot(Residuals(a, b, t), Residuals(a, b, t)) == Dot(b, b) - Dot(a, b) * t
  {
    hide *;
    ResidualSquares(a, b, t);
    QuadraticAtMinimum(Dot(b, b), Dot(a, b), Dot(a, a), t);
  }

  lemma Discriminant(aa: real, ab: real, bb: real, t: real, rest: real)
    requires aa > 0.0 && t * aa == ab && rest == bb - ab * t && rest >= 0.0
    ensures ab * ab <= aa * bb
  {
    MulMonotone(0.0, rest, aa);
    assert rest * aa == bb * aa - ab * (t * aa);
  }

  lemma {:induction false} CauchySchwarz(a: seq<real>, b: seq<real>)
    requires |a| == |b|
    ensures Dot(a, b) * Dot(a, b) <= Dot(a, a) * Dot(b, b)
  {
    hide Dot, Residuals;
    SquaresNonNegative(a);
    var aa, ab, bb := Dot(a, a), Dot(a, b), Dot(b, b);
    if aa == 0.0 {
      DotZero(a, b);
    } else {
      var t := ab / aa;
      DivMul(ab, aa);
      LeastSquares(a, b, t);
      SquaresNonNegative(Residuals(a, b, t));
      Discriminant(aa, ab, bb, t, bb - ab * t);
    }
  }

  // ----- Pearson

  /** cov^2 / (vx * vy), or 0 where the code answers 0. */
  function Coefficient(cov: real, vx: real, vy: real): real {
    if vx <= 0.0 || vy <= 0.0 then 0.0
    else PositiveProduct(vx, vy, vx * vy); cov * cov / (vx * vy)
  }

  lemma CoefficientBounded(cov: real, vx: real, vy: real)
    requires cov * cov <= vx * vy
    ensures 0.0 <= Coefficient(cov, vx, vy) <= 1.0
    ensures Coefficient(cov, vx, vy) == Coefficient(cov, vy, vx)
  {
    assert vx * vy == vy * vx;
    if vx > 0.0 && vy > 0.0 {
      var p, d := cov * cov, vx * vy;
      PositiveProduct(vx, vy, d);
      DivMonotone(0.0, p, d);
      DivMonotone(p, d, d);
    }
  }

  lemma CoefficientScaled(a: real, cov: real, vx: real, vy: real, cov2: real, vx2: real)
    requires a != 0.0 && cov2 == a * cov && vx2 == a * a * vx
    ensures Coefficient(cov2, vx2, vy) == Coefficient(cov, vx, vy)
  {
    var s := a * a;
    SquarePositive(a, s);
    if vx <= 0.0 {
      MulMonotone(vx, 0.0, s);
    } else {
      PositiveProduct(s, vx, vx2);
      if vy > 0.0 {
        var d, p := vx * vy, cov * cov;
        PositiveProduct(vx, vy, d);
        PositiveProduct(vx2, vy, vx2 * vy);
        var q := p / d;
        DivMul(p, d);
        assert cov2 * cov2 == s * p && vx2 * vy == s * d && q * (s * d) == s * (q * d);
        UniqueQuotient(s * p, s * d, q);
      }
    }
  }

  /** The share of variance a least-squares line explains is the squared coefficient. */
  lemma ExplainedShare(sxx: real, sxy: real, syy: real, t: real, res: real)
    requires sxx > 0.0 && syy > 0.0 && t * sxx == sxy && res == syy - sxy * t
    ensures 1.0 - res / syy == Coefficient(sxy, sxx, syy)
  {
    var d := sxx * syy;
    PositiveProduct(sxx, syy, d);
    var q := 1.0 - res / syy;
    DivMul(res, syy);
    assert q * syy == sxy * t;
    assert q * d == (q * syy) * sxx;
    assert sxy * t * sxx == sxy * (t * sxx);
    UniqueQuotient(sxy * sxy, d, q);
    assert Coefficient(sxy, sxx, syy) == sxy * sxy / d;
  }

  function Shorter(xs: seq<real>, ys: seq<real>): (n: nat)
    ensures n <= |xs| && n <= |ys|
  {
    if |xs| <= |ys| then |xs| else |ys|
  }

  /** The square of `pearson(xs, ys)`. */
  function PearsonSquared(xs: seq<real>, ys: seq<real>): real {
    var n := Shorter(xs, ys);
    if n < 3 then 0.0
    else
      var cx, cy := Centered(xs[..n]), Centered(ys[..n]);
      Coefficient(Dot(cx, cy), Dot(cx, cx), Dot(cy, cy))
  }

  /** The coefficient always lies in [-1, 1] and does not depend on the argument order. */
  lemma PearsonBounded(xs: seq<real>, ys: seq<real>)
    ensures 0.0 <= PearsonSquared(xs, ys) <= 1.0
    ensures PearsonSquared(xs, ys) == PearsonSquared(ys, xs)
  {
    hide Dot, Times, Coefficient, Centered;
    var n := Shorter(xs, ys);
    var cx, cy := Centered(xs[..n]), Centered(ys[..n]);
    CauchySchwarz(cx, cy);
    DotSymmetric(cx, cy);
    CoefficientBounded(Dot(cx, cy), Dot(cx, cx), Dot(cy, cy));
  }

  // ----- The signed coefficient, given the square root the code takes

  predicate IsRoot(r: real, x: real) { r >= 0.0 && r * r == x }

  lemma RootPositive(r: real, vx: real, vy: real)
    requires vx > 0.0 && vy > 0.0 && IsRoot(r, Times(vx, vy))
    ensures r > 0.0
  {
    PositiveProduct(vx, vy, vx * vy);
  }

  lemma UniqueRoot(r: real, r2: real, x: real)
    requires IsRoot(r, x) && IsRoot(r2, x)
    ensures r == r2
  {
    if r < r2 { RootsDiffer(r, r2, x, x); } else if r2 < r { RootsDiffer(r2, r, x, x); }
  }

  lemma RootsDiffer(low: real, high: real, p: real, q: real)
    requires 0.0 <= low < high && p == low * low && q == high * high
    ensures p < q
  {
    var gap := q - p;
    assert gap == (high - low) * (high + low);
    PositiveProduct(high - low, high + low, gap);
  }

  /** cov / sqrt(vx * vy), or 0 where the code answers 0. */
  function Correlation(cov: real, vx: real, vy: real, r: real): real
    requires IsRoot(r, Times(vx, vy))
  {
    if vx <= 0.0 || vy <= 0.0 then 0.0
    else RootPositive(r, vx, vy); cov / r
  }

  lemma CorrelationFacts(cov: real, vx: real, vy: real, r: real)
    requires IsRoot(r, Times(vx, vy)) && cov * cov <= Times(vx, vy)
    ensures var q := Correlation(cov, vx, vy, r);
      && q * q == Coefficient(cov, vx, vy) && -1.0 <= q <= 1.0
      && (cov >= 0.0 ==> q >= 0.0) && (cov <= 0.0 ==> q <= 0.0)
  {
    CoefficientBounded(cov, vx, vy);
    if vx > 0.0 && vy > 0.0 {
      RootPositive(r, vx, vy);
      var q := cov / r;
      DivMul(cov, r);
      SquaredQuotient(q, r, cov, vx * vy);
      if cov >= 0.0 { DivMonotone(0.0, cov, r); }
      if cov <= 0.0 { DivMonotone(cov, 0.0, r); }
      if q > 1.0 { RootsDiffer(1.0, q, 1.0, q * q); }
      if q < -1.0 { RootsDiffer(1.0, -q, 1.0, q * q); }
    }
  }

  lemma SquaredQuotient(q: real, r: real, cov: real, d: real)
    requires q * r == cov && r * r == d && d > 0.0
    ensures q * q == cov * cov / d
  {
    assert (q * q) * (r * r) == (q * r) * (q * r);
    UniqueQuotient(cov * cov, d, q * q);
  }

  /** Scaling one series by `a` keeps the coefficient up to the sign of `a`. */
  lemma CorrelationScaled(a: real, cov: real, vx: real, vy: real, r: real, cov2: real, vx2: real, r2: real)
    requires a != 0.0 && cov2 == a * cov && vx2 == a * a * vx && IsRoot(r, Times(vx, vy)) && IsRoot(r2, Times(vx2, vy))
    ensures Correlation(cov2, vx2, vy, r2)
            == if a > 0.0 then Correlation(cov, vx, vy, r) else -Correlation(cov, vx, vy, r)
  {
    hide Times;
    ScaledSign(a, vx, vx2);
    if vx > 0.0 && vy > 0.0 {
      RootPositive(r, vx, vy);
      RootPositive(r2, vx2, vy);
      var q := cov / r;
      DivMul(cov, r);
      ScaledRoot(Abs(a), r, Times(vx, vy), Times(vx2, vy)) by { ScaledSpread(a, vx, vy, vx2); }
      UniqueRoot(r2, Times(Abs(a), r), Times(vx2, vy));
      ScaledQuotient(a, q, r, cov);
      UniqueQuotient(cov2, r2, if a > 0.0 then q else -q);
    }
  }

  lemma ScaledSign(a: real, vx: real, vx2: real)
    requires a != 0.0 && vx2 == a * a * vx
    ensures vx2 > 0.0 <==> vx > 0.0
  {
    var s := a * a;
    SquarePositive(a, s);
    if vx <= 0.0 { MulMonotone(vx, 0.0, s); } else { PositiveProduct(s, vx, vx2); }
  }

  lemma ScaledSpread(a: real, vx: real, vy: real, vx2: real)
    requires vx2 == a * a * vx
    ensures Times(vx2, vy) == Abs(a) * Abs(a) * Times(vx, vy)
  {
    assert Abs(a) * Abs(a) == a * a;
  }

  lemma ScaledRoot(m: real, r: real, x: real, y: real)
    requires m >= 0.0 && IsRoot(r, x) && y == m * m * x
    ensures IsRoot(Times(m, r), y)
  {
    MulMonotone(0.0, m, r);
    assert (m * r) * (m * r) == (m * m) * (r * r);
  }

  lemma ScaledQuotient(a: real, q: real, r: real, cov: real)
    requires q * r == cov
    ensures (if a > 0.0 then q else -q) * Times(Abs(a), r) == a * cov
  {
    assert a * cov == (a * q) * r;
  }

  /** The product of the two variance sums, whose root the code takes. */
  function Spread(xs: seq<real>, ys: seq<real>): real {
    var n := Shorter(xs, ys);
    if n < 3 then 0.0
    else var cx, cy := Centered(xs[..n]), Centered(ys[..n]); Times(Dot(cx, cx), Dot(cy, cy))
  }

  /** `pearson(xs, ys)`, where `r` is the root of the spread. */
  function Pearson(xs: seq<real>, ys: seq<real>, r: real): real
    requires IsRoot(r, Spread(xs, ys))
  {
    var n := Shorter(xs, ys);
    if n < 3 then 0.0
    else
      var cx, cy := Centered(xs[..n]), Centered(ys[..n]);
      Correlation(Dot(cx, cy), Dot(cx, cx), Dot(cy, cy), r)
  }

  lemma TimesMeaning(x: real, y: real)
    ensures Times(x, y) == x * y
  {
  }

  /** The coefficient lies in [-1, 1], has the square above and does not depend on the argument order. */
  lemma PearsonSigned(xs: seq<real>, ys: seq<real>, r: real)
    requires IsRoot(r, Spread(xs, ys))
    ensures var q := Pearson(xs, ys, r); -1.0 <= q <= 1.0 && q * q == PearsonSquared(xs, ys)
    ensures IsRoot(r, Spread(ys, xs)) && Pearson(ys, xs, r) == Pearson(xs, ys, r)
  {
    hide Dot, Times, Coefficient, Centered;
    var n := Shorter(xs, ys);
    var cx, cy := Centered(xs[..n]), Centered(ys[..n]);
    CauchySchwarz(cx, cy);
    DotSymmetric(cx, cy);
    TimesSwap(Dot(cx, cx), Dot(cy, cy));
    if n >= 3 {
      TimesMeaning(Dot(cx, cx), Dot(cy, cy));
      CorrelationFacts(Dot(cx, cy), Dot(cx, cx), Dot(cy, cy), r);
    }
  }

  /** A series that varies correlates fully with itself. */
  lemma PearsonSelf(xs: seq<real>, i: nat, j: nat, r: real)
    requires |xs| >= 3 && i < |xs| && j < |xs| && xs[i] != xs[j] && IsRoot(r, Spread(xs, xs))
    ensures Pearson(xs, xs, r) == 1.0
  {
    hide Dot, Centered;
    assert xs[..|xs|] == xs;
    SpreadPositive(xs, i, j);
    var v := Dot(Centered(xs), Centered(xs));
    UniqueRoot(r, v, Times(v, v));
    UniqueQuotient(v, v, 1.0);
  }

  /** What the longer series holds beyond the shorter one is ignored, and two points are not enough. */
  lemma PearsonTruncates(xs: seq<real>, ys: seq<real>, more: seq<real>, r: real)
    requires |xs| == |ys| && IsRoot(r, Spread(xs, ys))
    ensures IsRoot(r, Spread(xs + more, ys)) && Pearson(xs + more, ys, r) == Pearson(xs, ys, r)
    ensures |xs| < 3 ==> Pearson(xs, ys, r) == 0.0
  {
    hide Dot, Centered, Correlation;
    assert (xs + more)[..|xs|] == xs == xs[..|xs|];
  }

  function Affine(xs: seq<real>, a: real, b: real): (r: seq<real>)
    ensures |r| == |xs|
  {
    seq(|xs|, i requires 0 <= i < |xs| => Line(a, xs[i], b))
  }

  lemma {:induction false} SumAffine(xs: seq<real>, a: real, b: real)
    ensures Sum(Affine(xs, a, b)) == a * Sum(xs) + b * |xs| as real
  {
    if xs != [] {
      var n := |xs| - 1;
      SumAffine(xs[..n], a, b);
      assert Affine(xs, a, b)[..n] == Affine(xs[..n], a, b);
      var m := n as real;
      assert |xs| as real == m + 1.0;
      assert b * (m + 1.0) == b * m + b;
      assert a * (Sum(xs[..n]) + xs[n]) == a * Sum(xs[..n]) + a * xs[n];
    }
  }

  lemma MeanAffine(xs: seq<real>, a: real, b: real)
    requires xs != []
    ensures Mean(Affine(xs, a, b)) == Line(a, Mean(xs), b)
  {
    SumAffine(xs, a, b);
    var n, total := |xs| as real, Sum(xs);
    var m := total / n;
    DivMul(total, n);
    assert a * total == a * m * n;
    assert (a * m + b) * n == a * m * n + b * n;
    UniqueQuotient(a * total + b * n, n, a * m + b);
  }

  lemma LineShift(a: real, x: real, m: real, b: real)
    ensures Line(a, x, b) - Line(a, m, b) == Line(a, x - m, 0.0)
  {
  }

  lemma CenteredAffine(xs: seq<real>, a: real, b: real)
    ensures Centered(Affine(xs, a, b)) == Affine(Centered(xs), a, 0.0)
  {
    if xs != [] {
      MeanAffine(xs, a, b);
      forall i | 0 <= i < |xs|
        ensures Centered(Affine(xs, a, b))[i] == Affine(Centered(xs), a, 0.0)[i]
      {
        LineShift(a, xs[i], Mean(xs), b);
      }
    }
  }

  lemma {:induction false} DotScaled(xs: seq<real>, ys: seq<real>, a: real)
    requires |xs| == |ys|
    ensures Dot(Affine(xs, a, 0.0), ys) == a * Dot(xs, ys)
    ensures Dot(Affine(xs, a, 0.0), Affine(xs, a, 0.0)) == a * a * Dot(xs, xs)
  {
    if xs != [] {
      hide Times, Line;
      var n := |xs| - 1;
      DotScaled(xs[..n], ys[..n], a);
      assert Affine(xs, a, 0.0)[..n] == Affine(xs[..n], a, 0.0);
      TimesScaled(a, xs[n], ys[n]);
      TimesScaled(a, xs[n], xs[n]);
      Distribute(a, Dot(xs[..n], ys[..n]), Times(xs[n], ys[n]));
      Distribute(a * a, Dot(xs[..n], xs[..n]), Times(xs[n], xs[n]));
    }
  }

  lemma TimesScaled(a: real, x: real, y: real)
    ensures Times(Line(a, x, 0.0), y) == a * Times(x, y)
    ensures Times(Line(a, x, 0.0), Line(a, y, 0.0)) == a * a * Times(x, y)
  {
    assert a * x * (a * y) == a * a * (x * y);
  }

  lemma Distribute(a: real, x: real, y: real)
    ensures a * x + a * y == a * (x + y)
  {
  }

  /** Rescaling and shifting a series (other than collapsing it) leaves the squared coefficient alone. */
  lemma PearsonAffineInvariant(xs: seq<real>, ys: seq<real>, a: real, b: real)
    requires a != 0.0
    ensures PearsonSquared(Affine(xs, a, b), ys) == PearsonSquared(xs, ys)
  {
    hide Coefficient, Line, Dot, Mean;
    var n := Shorter(xs, ys);
    assert Affine(xs, a, b)[..n] == Affine(xs[..n], a, b);
    CenteredAffine(xs[..n], a, b);
    var cx, cy := Centered(xs[..n]), Centered(ys[..n]);
    var ax := Affine(cx, a, 0.0);
    DotScaled(cx, cy, a);
    CoefficientScaled(a, Dot(cx, cy), Dot(cx, cx), Dot(cy, cy), Dot(ax, cy), Dot(ax, ax));
  }

  /** The signed coefficient is kept by a positive scale and negated by a negative one. */
  lemma PearsonAffine(xs: seq<real>, ys: seq<real>, a: real, b: real, r: real, r2: real)
    requires a != 0.0 && IsRoot(r, Spread(xs, ys)) && IsRoot(r2, Spread(Affine(xs, a, b), ys))
    ensures Pearson(Affine(xs, a, b), ys, r2) == if a > 0.0 then Pearson(xs, ys, r) else -Pearson(xs, ys, r)
  {
    hide Correlation, Line, Dot, Mean, Times, Centered;
    var n := Shorter(xs, ys);
    assert Affine(xs, a, b)[..n] == Affine(xs[..n], a, b);
    CenteredAffine(xs[..n], a, b);
    var cx, cy := Centered(xs[..n]), Centered(ys[..n]);
    var ax := Affine(cx, a, 0.0);
    DotScaled(cx, cy, a);
    if n >= 3 {
      CorrelationScaled(a, Dot(cx, cy), Dot(cx, cx), Dot(cy, cy), r, Dot(ax, cy), Dot(ax, ax), r2);
    }
  }

  // ----- Equity stability

  function Indices(n: nat): (r: seq<real>)
    ensures |r| == n
  {
    seq(n, i => i as real)
  }

  /** R^2 of a fit, clamped as the code clamps it. */
  function FitScore(ssRes: real, ssTot: real): real {
    if ssTot <= 0.0 then (if ssRes <= 0.0 then 1.0 else 0.0)
    else Clamp(1.0 - ssRes / ssTot, 0.0, 1.0)
  }

  function Intercept(equity: seq<real>, slope: real): real { Mean(equity) - slope * Mean(Indices(|equity|)) }

  function EquityStability(equity: seq<real>): real {
    if |equity| < 3 then 0.0
    else
      var cx, cy := Centered(Indices(|equity|)), Centered(equity);
      var sxx := Dot(cx, cx);
      if sxx <= 0.0 then 0.0
      else
        var slope := Dot(cx, cy) / sxx;
        var res := Fit(equity, slope, Intercept(equity, slope));
        FitScore(Dot(res, res), Dot(cy, cy))
  }

  /** Distances of the curve from a straight line over the bar index. */
  function Fit(equity: seq<real>, slope: real, intercept: real): (r: seq<real>)
    ensures |r| == |equity|
  {
    seq(|equity|, i requires 0 <= i < |equity| => equity[i] - Line(slope, i as real, intercept))
  }

  lemma FitIsResidual(equity: seq<real>, slope: real)
    ensures Fit(equity, slope, Intercept(equity, slope))
            == Residuals(Centered(Indices(|equity|)), Centered(equity), slope)
  {
    var mx := Mean(Indices(|equity|));
    var intercept := Intercept(equity, slope);
    var fit, res := Fit(equity, slope, intercept), Residuals(Centered(Indices(|equity|)), Centered(equity), slope);
    forall i | 0 <= i < |equity| ensures fit[i] == res[i] {
      LineShift(slope, i as real, mx, intercept);
      assert Line(slope, mx, intercept) == Mean(equity);
    }
  }

  /** Two different values cannot both sit on the mean. */
  lemma SpreadPositive(xs: seq<real>, i: nat, j: nat)
    requires i < |xs| && j < |xs| && xs[i] != xs[j]
    ensures Dot(Centered(xs), Centered(xs)) > 0.0
  {
    SquaresNonNegative(Centered(xs));
    assert Centered(xs)[i] != Centered(xs)[j];
  }

  lemma IndicesSpread(n: nat)
    requires n >= 3
    ensures Dot(Centered(Indices(n)), Centered(Indices(n))) > 0.0
  {
    assert Indices(n)[0] != Indices(n)[1];
    SpreadPositive(Indices(n), 0, 1);
  }

  lemma FitError(equity: seq<real>, slope: real)
    requires var cx, cy := Centered(Indices(|equity|)), Centered(equity); slope * Dot(cx, cx) == Dot(cx, cy)
    ensures var cx, cy := Centered(Indices(|equity|)), Centered(equity);
      var fit := Fit(equity, slope, Intercept(equity, slope));
      Dot(fit, fit) == Dot(cy, cy) - Dot(cx, cy) * slope
  {
    hide Line, Dot, Times, Mean, Intercept, Fit, Residuals, Centered, Indices;
    FitIsResidual(equity, slope);
    LeastSquares(Centered(Indices(|equity|)), Centered(equity), slope);
  }

  /** The fit's sums of squares, in terms of the centered moments. */
  lemma StabilityMoments(equity: seq<real>) returns (sxx: real, sxy: real, syy: real, slope: real, res: real)
    requires |equity| >= 3
    ensures var cx, cy := Centered(Indices(|equity|)), Centered(equity);
      sxx == Dot(cx, cx) > 0.0 && sxy == Dot(cx, cy) && syy == Dot(cy, cy)
    ensures slope * sxx == sxy && res == syy - sxy * slope
    ensures var fit := Fit(equity, slope, Intercept(equity, slope)); res == Dot(fit, fit)
    ensures EquityStability(equity) == FitScore(res, syy)
  {
    hide Line, FitScore, Dot, Times, Mean, Intercept, Fit, Residuals, Centered, Indices;
    var cx, cy := Centered(Indices(|equity|)), Centered(equity);
    IndicesSpread(|equity|);
    sxx, sxy, syy := Dot(cx, cx), Dot(cx, cy), Dot(cy, cy);
    slope := sxy / sxx;
    DivMul(sxy, sxx);
    FitError(equity, slope);
    var fit := Fit(equity, slope, Intercept(equity, slope));
    res := Dot(fit, fit);
  }

  /** On a non-constant curve the score is the squared correlation with the bar index: no clamp ever bites. */
  lemma StabilityIsPearsonSquared(equity: seq<real>, i: nat, j: nat)
    requires |equity| >= 3 && i < |equity| && j < |equity| && equity[i] != equity[j]
    ensures EquityStability(equity) == PearsonSquared(Indices(|equity|), equity)
  {
    var xs := Indices(|equity|);
    var sxx, sxy, syy, slope, res := StabilityMoments(equity);
    SpreadPositive(equity, i, j);
    assert xs[..|equity|] == xs && equity[..|equity|] == equity;
    ExplainedShare(sxx, sxy, syy, slope, res);
    PearsonBounded(xs, equity);
  }

  ghost predicate OnLine(equity: seq<real>, slope: real, intercept: real) {
    forall k :: 0 <= k < |equity| ==> equity[k] == Line(slope, k as real, intercept)
  }

  /** A curve scores 1 exactly when every point lies on one straight line. */
  lemma StabilityOneIffLine(equity: seq<real>)
    requires |equity| >= 3
    ensures EquityStability(equity) == 1.0 <==> exists slope, intercept :: OnLine(equity, slope, intercept)
  {
    var sxx, sxy, syy, slope, res := StabilityMoments(equity);
    var intercept := Intercept(equity, slope);
    var fit := Fit(equity, slope, intercept);
    SquaresNonNegative(fit);
    SquaresNonNegative(Centered(equity));
    FitScoreOne(res, syy);
    if EquityStability(equity) == 1.0 {
      assert res == 0.0 by {
        if syy == 0.0 {
          assert res <= 0.0;
        }
      }
      forall k | 0 <= k < |equity| ensures equity[k] == Line(slope, k as real, intercept) {
        assert fit[k] == 0.0;
      }
      assert OnLine(equity, slope, intercept);
    }
    if a, b :| OnLine(equity, a, b) {
      LineFitsExactly(equity, a, b, sxx, sxy, syy, slope);
    }
  }

  lemma FitScoreOne(res: real, tot: real)
    requires res >= 0.0 && tot >= 0.0
    ensures FitScore(res, tot) == 1.0 <==> res == 0.0
  {
    if tot > 0.0 { DivMul(res, tot); }
  }

  lemma LineFitsExactly(equity: seq<real>, a: real, b: real, sxx: real, sxy: real, syy: real, slope: real)
    requires |equity| >= 3 && OnLine(equity, a, b)
    requires var cx, cy := Centered(Indices(|equity|)), Centered(equity);
      sxx == Dot(cx, cx) > 0.0 && sxy == Dot(cx, cy) && syy == Dot(cy, cy)
    requires slope * sxx == sxy
    ensures syy - sxy * slope == 0.0
  {
    hide Dot, Times, Mean;
    var xs := Indices(|equity|);
    var cx := Centered(xs);
    assert equity == Affine(xs, a, b);
    CenteredAffine(xs, a, b);
    DotScaled(cx, cx, a);
    DotSymmetric(cx, Centered(equity));
    NothingLeft(a, sxx, sxy, syy, slope);
  }

  lemma NothingLeft(a: real, sxx: real, sxy: real, syy: real, slope: real)
    requires slope * sxx == sxy && sxy == a * sxx && syy == a * a * sxx
    ensures syy - sxy * slope == 0.0
  {
    assert sxy * slope == a * (slope * sxx);
    assert a * sxy == a * a * sxx;
  }
}
