/** Arithmetic shared by the models: floats are exact reals. */
module Numeric {

  function Max(a: real, b: real): real { if a >= b then a else b }

  function Min(a: real, b: real): real { if a <= b then a else b }

  function Abs(a: real): real { if a >= 0.0 then a else -a }

  function Clamp(x: real, lo: real, hi: real): real { Max(lo, Min(hi, x)) }

  /** A named product, kept symbolic where proofs only need that equal factors give equal products. */
  function Times(x: real, y: real): real { x * y }

  /** Python's `int(x)`: truncation toward zero. */
  function Trunc(x: real): (k: int)
    ensures if x >= 0.0 then k as real <= x < (k + 1) as real else (k - 1) as real < x <= k as real
  {
    if x >= 0.0 then x.Floor else -((-x).Floor)
  }

  /** Left-to-right accumulation, as `sum` and the `+=` loops compute it. */
  function Sum(xs: seq<real>): real
  {
    if xs == [] then 0.0 else Sum(xs[..|xs| - 1]) + xs[|xs| - 1]
  }

  lemma SumStep(xs: seq<real>, i: nat)
    requires i < |xs|
    ensures Sum(xs[..i + 1]) == Sum(xs[..i]) + xs[i]
  {
    assert xs[..i + 1][..i] == xs[..i];
  }

  lemma SumLast(xs: seq<real>, x: real)
    ensures Sum(xs + [x]) == Sum(xs) + x
  {
    assert (xs + [x])[..|xs|] == xs;
  }

  lemma SumNone()
    ensures Sum([]) == 0.0
  {
  }

  lemma SumOne(x: real)
    ensures Sum([x]) == x
  {
    assert [x][..0] == [];
  }

  lemma {:induction false} SumConcat(a: seq<real>, b: seq<real>)
    ensures Sum(a + b) == Sum(a) + Sum(b)
  {
    if b == [] {
      assert a + b == a;
    } else {
      SumConcat(a, b[..|b| - 1]);
      assert (a + b)[..|a + b| - 1] == a + b[..|b| - 1];
    }
  }

  lemma SumWithout(b: seq<real>, k: nat)
    requires k < |b|
    ensures Sum(b) == Sum(b[..k] + b[k + 1..]) + b[k]
  {
    assert b == b[..k + 1] + b[k + 1..];
    SumConcat(b[..k + 1], b[k + 1..]);
    SumStep(b, k);
    SumConcat(b[..k], b[k + 1..]);
  }

  /** Where the last element of one list sits in a permutation of it. */
  lemma SameWithout<T>(a: seq<T>, b: seq<T>) returns (k: nat)
    requires a != [] && multiset(a) == multiset(b)
    ensures k < |b| && b[k] == a[|a| - 1] && multiset(a[..|a| - 1]) == multiset(b[..k] + b[k + 1..])
  {
    var x := a[|a| - 1];
    assert x in multiset(b);
    k :| 0 <= k < |b| && b[k] == x;
    MultisetAround(a, |a| - 1);
    MultisetAround(b, k);
    assert a[..|a| - 1] + a[|a|..] == a[..|a| - 1];
    CancelCommon(multiset(a[..|a| - 1]), multiset(b[..k] + b[k + 1..]), multiset{x});
  }

  lemma MultisetAround<T>(s: seq<T>, k: nat)
    requires k < |s|
    ensures multiset(s) == multiset(s[..k] + s[k + 1..]) + multiset{s[k]}
  {
    assert s == s[..k] + ([s[k]] + s[k + 1..]);
  }

  lemma CancelCommon<T>(a: multiset<T>, b: multiset<T>, common: multiset<T>)
    requires a + common == b + common
    ensures a == b
  {
    assert a == a + common - common;
    assert b == b + common - common;
  }

  lemma {:induction false} SumPermutation(a: seq<real>, b: seq<real>)
    requires multiset(a) == multiset(b)
    ensures Sum(a) == Sum(b)
  {
    if a == [] {
      assert |multiset(b)| == 0;
    } else {
      var k := SameWithout(a, b);
      SumPermutation(a[..|a| - 1], b[..k] + b[k + 1..]);
      SumWithout(b, k);
    }
  }

  lemma {:induction false} SumBounds(xs: seq<real>, lo: real, hi: real)
    requires forall i :: 0 <= i < |xs| ==> lo <= xs[i] <= hi
    ensures |xs| as real * lo <= Sum(xs) <= |xs| as real * hi
  {
    if xs != [] {
      SumBounds(xs[..|xs| - 1], lo, hi);
      var n := (|xs| - 1) as real;
      assert |xs| as real == n + 1.0;
      assert (n + 1.0) * lo == n * lo + lo && (n + 1.0) * hi == n * hi + hi;
    }
  }

  /** Python's `round(x)`: nearest integer, ties to even. */
  function RoundHalfEven(x: real): (r: int)
    ensures -0.5 <= r as real - x <= 0.5
    ensures r as real - x == 0.5 || x - r as real == 0.5 ==> r % 2 == 0
  {
    var f := x.Floor;
    var d := x - f as real;
    if d < 0.5 then f
    else if d > 0.5 then f + 1
    else if f % 2 == 0 then f else f + 1
  }

  lemma RoundMonotone(x: real, y: real)
    requires x <= y
    ensures RoundHalfEven(x) <= RoundHalfEven(y)
  {
    assert x.Floor <= y.Floor;
    if x.Floor == y.Floor {
      assert x - x.Floor as real <= y - y.Floor as real;
    }
  }

  lemma RoundOfInteger(k: int)
    ensures RoundHalfEven(k as real) == k
  {
  }

  lemma RoundOdd(x: real)
    ensures RoundHalfEven(-x) == -RoundHalfEven(x)
  {
    var f := x.Floor;
    if x == f as real {
      assert (-x).Floor == -f;
    } else {
      assert (-x).Floor == -f - 1;
    }
  }

  /** Python's `round(x, digits)` with `scale` = 10^digits. */
  function RoundTo(x: real, scale: real): real
    requires scale > 0.0
  {
    RoundHalfEven(x * scale) as real / scale
  }

  lemma RoundToMonotone(x: real, y: real, scale: real)
    requires scale > 0.0 && x <= y
    ensures RoundTo(x, scale) <= RoundTo(y, scale)
  {
    MulMonotone(x, y, scale);
    RoundMonotone(x * scale, y * scale);
    DivMonotone(RoundHalfEven(x * scale) as real, RoundHalfEven(y * scale) as real, scale);
  }

  lemma MulMonotone(x: real, y: real, s: real)
    requires x <= y && s >= 0.0
    ensures x * s <= y * s
  {
    assert (y - x) * s >= 0.0;
  }

  lemma StrictMulMonotone(x: real, y: real, s: real)
    requires x < y && s > 0.0
    ensures x * s < y * s
  {
    assert (y - x) * s > 0.0;
  }

  lemma DivMonotone(x: real, y: real, s: real)
    requires x <= y && s > 0.0
    ensures x / s <= y / s
  {
    assert y / s - x / s == (y - x) / s;
  }

  lemma PositiveProduct(x: real, y: real, p: real)
    requires x > 0.0 && y > 0.0 && p == x * y
    ensures p > 0.0
  {
  }

  lemma SquarePositive(a: real, s: real)
    requires a != 0.0 && s == a * a
    ensures s > 0.0
  {
    if a > 0.0 { PositiveProduct(a, a, s); } else { PositiveProduct(-a, -a, s); }
  }

  lemma UniqueQuotient(x: real, d: real, q: real)
    requires d != 0.0 && q * d == x
    ensures x / d == q
  {
  }

  lemma DivMul(x: real, s: real)
    requires s != 0.0
    ensures x / s * s == x
  {
  }

  lemma NegatedQuotient(x: real, s: real)
    requires s != 0.0
    ensures (-x) / s == -(x / s)
  {
    DivMul(x, s);
    NegatedProduct(x / s, s, x);
    UniqueQuotient(-x, s, -(x / s));
  }

  lemma NegatedProduct(x: real, s: real, p: real)
    requires x * s == p
    ensures (-x) * s == -p
  {
  }

  /** A larger divisor gives a smaller share, strictly so of a positive amount. */
  lemma QuotientAntitone(x: real, a: real, b: real)
    requires 0.0 < a <= b && x >= 0.0
    ensures x / b <= x / a
    ensures a < b && x > 0.0 ==> x / b < x / a
  {
    var p, q := x / a, x / b;
    DivMul(x, a);
    DivMul(x, b);
    DivMonotone(0.0, x, b);
    MulMonotone(a, b, q);
    if p < q { StrictMulMonotone(p, q, a); }
    if x > 0.0 && a < b && p == q { EqualProducts(p, a, b, x); }
  }

  lemma EqualProducts(q: real, a: real, b: real, x: real)
    requires q * a == x && q * b == x && x != 0.0
    ensures a == b
  {
    assert q * (a - b) == 0.0;
  }

  lemma TimesAdds(x: real, a: real, b: real)
    ensures Times(x, a) + Times(x, b) == Times(x, a + b) && Times(x, 0.0) == 0.0
  {
  }

  lemma TimesSwap(x: real, w: real)
    ensures Times(x, w) == Times(w, x) && Times(w, 1.0) == w
  {
  }

  /** A quotient by a positive number compares with 0 and 1 as the dividend does with 0 and the divisor. */
  lemma QuotientOrder(x: real, s: real)
    requires s > 0.0
    ensures (x / s < 1.0 <==> x < s) && (x / s > 0.0 <==> x > 0.0)
  {
    var q := x / s;
    DivMul(x, s);
    UniqueQuotient(s, s, 1.0);
    UniqueQuotient(0.0, s, 0.0);
    if x < s && q >= 1.0 { MulMonotone(1.0, q, s); }
    if x >= s { DivMonotone(s, x, s); }
    if x > 0.0 && q <= 0.0 { MulMonotone(q, 0.0, s); }
    if x <= 0.0 { DivMonotone(x, 0.0, s); }
  }

  /** Rounding moves a figure by at most half its last digit. */
  lemma RoundToNear(x: real, scale: real)
    requires scale > 0.0
    ensures -0.5 <= (RoundTo(x, scale) - x) * scale <= 0.5
  {
    var r := RoundHalfEven(x * scale) as real;
    DivMul(r, scale);
    assert (RoundTo(x, scale) - x) * scale == r / scale * scale - x * scale;
  }

  lemma ScaledOrder(x: real, y: real, s: real)
    requires s > 0.0
    ensures x <= y <==> x * s <= y * s
    ensures x >= y <==> x * s >= y * s
  {
    if x < y { StrictMulMonotone(x, y, s); }
    if y < x { StrictMulMonotone(y, x, s); }
  }

  lemma QuotientAtLeast(x: real, s: real, lo: real, bound: real)
    requires s > 0.0 && bound == lo * s
    ensures x / s >= lo <==> x >= bound
  {
    DivMul(x, s);
    ScaledOrder(lo, x / s, s);
  }
}
