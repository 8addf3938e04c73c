/** Monte Carlo study of a trade sequence; the random generator is an arbitrary choice of paths. */
module MonteCarlo {
  import opened Numeric
  import opened Lists

  // ----- Percentiles

  ghost predicate Ascending(s: seq<real>) { |s| <= 1 || (s[0] <= s[1] && Ascending(s[1..])) }

  lemma {:induction false} AscendingPair(s: seq<real>, i: nat, j: nat)
    requires Ascending(s) && i <= j < |s|
    ensures s[i] <= s[j]
  {
    if i > 0 {
      AscendingPair(s[1..], i - 1, j - 1);
    } else if j > 0 {
      AscendingPair(s[1..], 0, j - 1);
    }
  }

  function Insert(s: seq<real>, x: real): (r: seq<real>)
    ensures |r| == |s| + 1
  {
    if s == [] || x <= s[0] then [x] + s else [s[0]] + Insert(s[1..], x)
  }

  /** `sorted(values)`. */
  function Sort(values: seq<real>): (r: seq<real>)
    ensures |r| == |values|
  {
    if values == [] then [] else Insert(Sort(values[1..]), values[0])
  }

  lemma {:induction false} InsertSorted(s: seq<real>, x: real)
    requires Ascending(s)
    ensures Ascending(Insert(s, x))
  {
    if s == [] || x <= s[0] {
      assert ([x] + s)[1..] == s;
    } else {
      InsertSorted(s[1..], x);
      assert Insert(s, x)[1..] == Insert(s[1..], x);
    }
  }

  lemma {:induction false} InsertMembers(s: seq<real>, x: real)
    ensures multiset(Insert(s, x)) == multiset(s) + multiset{x}
  {
    if s != [] && x > s[0] {
      InsertMembers(s[1..], x);
      assert s == [s[0]] + s[1..];
    }
  }

  /** Sorting keeps the sample and orders it. */
  lemma {:induction false} SortSound(values: seq<real>)
    ensures Ascending(Sort(values)) && multiset(Sort(values)) == multiset(values)
  {
    if values != [] {
      SortSound(values[1..]);
      InsertSorted(Sort(values[1..]), values[0]);
      InsertMembers(Sort(values[1..]), values[0]);
      assert values == [values[0]] + values[1..];
    }
  }

  lemma SortMembers(values: seq<real>, v: real)
    ensures v in Sort(values) <==> v in values
  {
    SortSound(values);
    assert v in multiset(Sort(values)) <==> v in multiset(values);
  }

  /** The weighted mean of two neighbours. */
  function Blend(a: real, b: real, weight: real): real { a * (1.0 - weight) + b * weight }

  /** Linear interpolation at a fractional rank of an ordered sample. */
  function Interpolate(ordered: seq<real>, rank: real): real
    requires 0.0 <= rank <= (|ordered| - 1) as real
  {
    var low := rank.Floor;
    if rank == low as real then ordered[low]
    else Blend(ordered[low], ordered[low + 1], rank - low as real)
  }

  function Rank(last: real, pct: real): real { pct / 100.0 * last }

  lemma RankMonotone(last: real, p: real, q: real)
    requires last >= 0.0 && 0.0 <= p <= q <= 100.0
    ensures 0.0 <= Rank(last, p) <= Rank(last, q) <= last
  {
    MulMonotone(0.0, p / 100.0, last);
    MulMonotone(p / 100.0, q / 100.0, last);
    MulMonotone(q / 100.0, 1.0, last);
  }

  function Percentile(values: seq<real>, pct: real): real
    requires 0.0 <= pct <= 100.0
  {
    if values == [] then 0.0
    else
      var ordered := Sort(values);
      var last := (|ordered| - 1) as real;
      RankMonotone(last, pct, pct);
      if |ordered| == 1 then ordered[0] else Interpolate(ordered, Rank(last, pct))
  }

  lemma BlendMonotone(a: real, b: real, w1: real, w2: real)
    requires a <= b && w1 <= w2
    ensures Blend(a, b, w1) <= Blend(a, b, w2)
  {
    MulMonotone(w1, w2, b - a);
  }

  lemma InterpolationStaysBetween(ordered: seq<real>, rank: real)
    requires Ascending(ordered) && 0.0 <= rank <= (|ordered| - 1) as real
    ensures ordered[rank.Floor] <= Interpolate(ordered, rank)
    ensures rank.Floor + 1 < |ordered| ==> Interpolate(ordered, rank) <= ordered[rank.Floor + 1]
  {
    var low := rank.Floor;
    if low + 1 < |ordered| { AscendingPair(ordered, low, low + 1); }
    if rank != low as real {
      BlendMonotone(ordered[low], ordered[low + 1], 0.0, rank - low as real);
      BlendMonotone(ordered[low], ordered[low + 1], rank - low as real, 1.0);
    }
  }

  lemma InterpolationMonotone(ordered: seq<real>, r1: real, r2: real)
    requires Ascending(ordered) && 0.0 <= r1 <= r2 <= (|ordered| - 1) as real
    ensures Interpolate(ordered, r1) <= Interpolate(ordered, r2)
  {
    InterpolationStaysBetween(ordered, r1);
    InterpolationStaysBetween(ordered, r2);
    assert r1.Floor <= r2.Floor;
    if r1.Floor < r2.Floor {
      AscendingPair(ordered, r1.Floor + 1, r2.Floor);
    } else if r1 != r1.Floor as real {
      AscendingPair(ordered, r1.Floor, r1.Floor + 1);
      BlendMonotone(ordered[r1.Floor], ordered[r1.Floor + 1], r1 - r1.Floor as real, r2 - r1.Floor as real);
    }
  }

  /** A higher percentile is never smaller. */
  lemma {:induction false} PercentileMonotone(values: seq<real>, p: real, q: real)
    requires 0.0 <= p <= q <= 100.0
    ensures Percentile(values, p) <= Percentile(values, q)
  {
    if values != [] {
      SortSound(values);
      var last := (|values| - 1) as real;
      RankMonotone(last, p, q);
      InterpolationMonotone(Sort(values), Rank(last, p), Rank(last, q));
    }
  }

  /** Every percentile lies within the sample. */
  lemma PercentileWithin(values: seq<real>, pct: real, lo: real, hi: real)
    requires values != [] && 0.0 <= pct <= 100.0 && forall v :: v in values ==> lo <= v <= hi
    ensures lo <= Percentile(values, pct) <= hi
  {
    var ordered := Sort(values);
    var n := |ordered|;
    SortSound(values);
    SortMembers(values, ordered[0]);
    SortMembers(values, ordered[n - 1]);
    var last := (n - 1) as real;
    RankMonotone(last, pct, pct);
    InterpolationMonotone(ordered, 0.0, Rank(last, pct));
    InterpolationMonotone(ordered, Rank(last, pct), last);
  }

  /** A sample has only one ascending order. */
  lemma {:induction false} OrderUnique(a: seq<real>, b: seq<real>)
    requires Ascending(a) && Ascending(b) && multiset(a) == multiset(b)
    ensures a == b
  {
    if a == [] {
      assert |multiset(b)| == 0;
    } else {
      LeastFirst(a, b);
      LeastFirst(b, a);
      assert a == [a[0]] + a[1..] && b == [b[0]] + b[1..];
      assert multiset(a[1..]) + multiset{a[0]} == multiset(a) && multiset(b[1..]) + multiset{a[0]} == multiset(b);
      CancelCommon(multiset(a[1..]), multiset(b[1..]), multiset{a[0]});
      OrderUnique(a[1..], b[1..]);
    }
  }

  lemma LeastFirst(a: seq<real>, b: seq<real>)
    requires Ascending(a) && a != [] && multiset(a) == multiset(b)
    ensures b != [] && a[0] <= b[0]
  {
    assert |multiset(a)| == |multiset(b)|;
    assert b[0] in multiset(a);
    var k :| 0 <= k < |a| && a[k] == b[0];
    AscendingPair(a, 0, k);
  }

  /** Percentiles interpolate linearly between the ordered values, the k-th of them standing at 100 k/(n - 1). */
  lemma PercentileInterpolates(values: seq<real>, ordered: seq<real>, p: real, k: nat)
    requires Ascending(ordered) && multiset(ordered) == multiset(values) && k + 1 < |ordered|
    requires 0.0 <= p <= 100.0 && 100.0 * k as real <= Times(p, (|ordered| - 1) as real) <= 100.0 * (k + 1) as real
    ensures (Percentile(values, p) - ordered[k]) * 100.0
            == Times(Times(p, (|ordered| - 1) as real) - 100.0 * k as real, ordered[k + 1] - ordered[k])
  {
    hide Interpolate, Times, Rank, Ascending, Sort;
    SortSound(values);
    OrderUnique(Sort(values), ordered);
    assert |multiset(values)| == |multiset(ordered)|;
    var last := (|ordered| - 1) as real;
    RankMonotone(last, p, p);
    RankTimes(last, p);
    InterpolatedAt(ordered, Rank(last, p), k);
  }

  lemma RankTimes(last: real, p: real)
    ensures Rank(last, p) * 100.0 == Times(p, last)
  {
  }

  lemma InterpolatedAt(ordered: seq<real>, rank: real, k: nat)
    requires k + 1 < |ordered| && k as real <= rank <= (k + 1) as real
    ensures 0.0 <= rank <= (|ordered| - 1) as real
    ensures (Interpolate(ordered, rank) - ordered[k]) * 100.0
            == Times(rank * 100.0 - 100.0 * k as real, ordered[k + 1] - ordered[k])
  {
    hide Blend;
    if rank == (k + 1) as real {
      assert rank.Floor == k + 1;
    } else {
      assert rank.Floor == k;
      BlendGap(ordered[k], ordered[k + 1], rank - k as real);
    }
  }

  lemma BlendGap(a: real, b: real, w: real)
    ensures (Blend(a, b, w) - a) * 100.0 == Times(w * 100.0, b - a)
  {
  }

  lemma SinglePercentile(v: real, p: real)
    requires 0.0 <= p <= 100.0
    ensures Percentile([v], p) == v && Percentile([], p) == 0.0
  {
    SortSound([v]);
    assert Sort([v]) == [v] by {
      assert multiset(Sort([v])) == multiset{v};
      OrderUnique(Sort([v]), [v]);
    }
  }

  function Negated(values: seq<real>): (r: seq<real>)
    ensures |r| == |values| && forall k :: 0 <= k < |values| ==> r[k] == -values[k]
  {
    seq(|values|, k requires 0 <= k < |values| => -values[k])
  }

  function Reversed(values: seq<real>): (r: seq<real>)
    ensures |r| == |values| && forall k :: 0 <= k < |values| ==> r[k] == values[|values| - 1 - k]
  {
    seq(|values|, k requires 0 <= k < |values| => values[|values| - 1 - k])
  }

  lemma {:induction false} ReversedSame(values: seq<real>)
    ensures multiset(Reversed(values)) == multiset(values)
  {
    if values != [] {
      var n := |values| - 1;
      ReversedSame(values[..n]);
      assert Reversed(values) == [values[n]] + Reversed(values[..n]);
      assert values == values[..n] + [values[n]];
    }
  }

  lemma {:induction false} NegatedSame(a: seq<real>, b: seq<real>)
    requires multiset(a) == multiset(b)
    ensures multiset(Negated(a)) == multiset(Negated(b))
  {
    if a == [] {
      assert |multiset(b)| == 0;
    } else {
      var k := SameWithout(a, b);
      var n, rest := |a| - 1, b[..k] + b[k + 1..];
      NegatedSame(a[..n], rest);
      assert Negated(a) == Negated(a[..n]) + [-a[n]];
      MultisetAround(Negated(b), k);
      assert Negated(b)[..k] + Negated(b)[k + 1..] == Negated(rest);
    }
  }

  lemma {:induction false} AscendingFrom(s: seq<real>)
    requires forall k :: 0 <= k < |s| - 1 ==> s[k] <= s[k + 1]
    ensures Ascending(s)
  {
    if |s| > 1 { AscendingFrom(s[1..]); }
  }

  /** A percentile of the negated sample is the opposite percentile of the sample, negated. */
  lemma PercentileReflected(values: seq<real>, p: real)
    requires 0.0 <= p <= 100.0
    ensures Percentile(Negated(values), p) == -Percentile(values, 100.0 - p)
  {
    hide Percentile, Times, Ascending, Sort;
    if |values| < 2 {
      if values == [] {
        assert Negated(values) == [];
        SinglePercentile(0.0, p);
        SinglePercentile(0.0, 100.0 - p);
      } else {
        assert values == [values[0]] && Negated(values) == [-values[0]];
        SinglePercentile(-values[0], p);
        SinglePercentile(values[0], 100.0 - p);
      }
    } else {
      SortSound(values);
      var up, n := Sort(values), |values|;
      var down := Negated(Reversed(up));
      ReversedSame(up);
      NegatedSame(Reversed(up), values);
      forall k | 0 <= k < n - 1 ensures down[k] <= down[k + 1] { AscendingPair(up, n - 2 - k, n - 1 - k); }
      AscendingFrom(down);
      var k := Segment(p, n);
      OppositeSegment(p, n, k);
      PercentileInterpolates(Negated(values), down, p, k);
      PercentileInterpolates(values, up, 100.0 - p, n - 2 - k);
      OppositeValues(Times(p, (n - 1) as real) - 100.0 * k as real, up[n - 2 - k], up[n - 1 - k],
                     Percentile(Negated(values), p), Percentile(values, 100.0 - p));
    }
  }

  /** Between which two ordered values a percentile lies. */
  lemma Segment(p: real, n: nat) returns (k: nat)
    requires 0.0 <= p <= 100.0 && n >= 2
    ensures k <= n - 2 && 100.0 * k as real <= Times(p, (n - 1) as real) <= 100.0 * (k + 1) as real
  {
    var last := (n - 1) as real;
    RankMonotone(last, p, p);
    RankTimes(last, p);
    k := if Rank(last, p) == last then n - 2 else Rank(last, p).Floor;
  }

  lemma OppositeSegment(p: real, n: nat, k: nat)
    requires n >= 2 && k <= n - 2 && 100.0 * k as real <= Times(p, (n - 1) as real) <= 100.0 * (k + 1) as real
    ensures Times(100.0 - p, (n - 1) as real) - 100.0 * (n - 2 - k) as real
            == 100.0 - (Times(p, (n - 1) as real) - 100.0 * k as real)
    ensures 100.0 * (n - 2 - k) as real <= Times(100.0 - p, (n - 1) as real) <= 100.0 * (n - 1 - k) as real
  {
    var last := (n - 1) as real;
    assert (100.0 - p) * last == 100.0 * last - p * last;
  }

  lemma OppositeValues(x: real, low: real, high: real, p: real, q: real)
    requires (p + high) * 100.0 == Times(x, -low + high) && (q - low) * 100.0 == Times(100.0 - x, high - low)
    ensures p == -q
  {
    assert (100.0 - x) * (high - low) == 100.0 * (high - low) - x * (high - low);
  }

  // ----- One equity path

  function Equity(capital: real, pnls: seq<real>, k: nat): real
    requires k <= |pnls|
  {
    capital + Sum(pnls[..k])
  }

  /** Highest equity over points 0..k, the starting capital included. */
  function Peak(capital: real, pnls: seq<real>, k: nat): real
    requires k <= |pnls|
  {
    if k == 0 then capital else Max(Peak(capital, pnls, k - 1), Equity(capital, pnls, k))
  }

  lemma {:induction false} PeakDominates(capital: real, pnls: seq<real>, i: nat, k: nat)
    requires i <= k <= |pnls|
    ensures Equity(capital, pnls, i) <= Peak(capital, pnls, k)
  {
    if i < k { PeakDominates(capital, pnls, i, k - 1); }
  }

  lemma {:induction false} PeakAttained(capital: real, pnls: seq<real>, k: nat) returns (i: nat)
    requires k <= |pnls|
    ensures i <= k && Equity(capital, pnls, i) == Peak(capital, pnls, k)
  {
    if k == 0 || Peak(capital, pnls, k) == Equity(capital, pnls, k) {
      i := k;
    } else {
      i := PeakAttained(capital, pnls, k - 1);
    }
  }

  /** Relative fall from a positive level, in percent. */
  function FallPct(high: real, equity: real): real {
    if high > 0.0 then (high - equity) / high * 100.0 else 0.0
  }

  function DrawdownPct(capital: real, pnls: seq<real>, k: nat): (d: real)
    requires k <= |pnls|
    ensures d >= 0.0
  {
    if k == 0 then 0.0
    else Max(DrawdownPct(capital, pnls, k - 1), FallPct(Peak(capital, pnls, k), Equity(capital, pnls, k)))
  }

  predicate RuinedBy(capital: real, pnls: seq<real>, ruinLevel: real, k: nat)
    requires k <= |pnls|
  {
    k > 0 && (RuinedBy(capital, pnls, ruinLevel, k - 1) || Equity(capital, pnls, k) <= ruinLevel)
  }

  predicate Ruined(capital: real, pnls: seq<real>, ruinLevel: real) {
    RuinedBy(capital, pnls, ruinLevel, |pnls|)
  }

  /** Ruin means that the equity after some nonempty prefix reaches the level. */
  lemma {:induction false} RuinedIff(capital: real, pnls: seq<real>, ruinLevel: real, k: nat)
    requires k <= |pnls|
    ensures RuinedBy(capital, pnls, ruinLevel, k) <==>
            exists j :: 1 <= j <= k && Equity(capital, pnls, j) <= ruinLevel
  {
    if k > 0 { RuinedIff(capital, pnls, ruinLevel, k - 1); }
  }

  method SimulatePath(capital: real, pnls: seq<real>, ruinLevel: real)
    returns (equity: real, maxDdPct: real, ruined: bool)
    ensures equity == capital + Sum(pnls)
    ensures maxDdPct == DrawdownPct(capital, pnls, |pnls|)
    ensures ruined == Ruined(capital, pnls, ruinLevel)
  {
    equity, maxDdPct, ruined := capital, 0.0, false;
    var peak := capital;
    for k := 0 to |pnls|
      invariant equity == Equity(capital, pnls, k)
      invariant peak == Peak(capital, pnls, k)
      invariant maxDdPct == DrawdownPct(capital, pnls, k)
      invariant ruined == RuinedBy(capital, pnls, ruinLevel, k)
    {
      SumStep(pnls, k);
      equity := equity + pnls[k];
      if equity <= ruinLevel { ruined := true; }
      peak := Max(peak, equity);
      if peak > 0.0 { maxDdPct := Max(maxDdPct, (peak - equity) / peak * 100.0); }
    }
    assert pnls[..|pnls|] == pnls;
  }

  /** A fall is measured only from a positive peak. */
  lemma FallFormula(high: real, equity: real)
    ensures FallPct(high, equity) == if high > 0.0 then (1.0 - equity / high) * 100.0 else 0.0
  {
    if high > 0.0 {
      DivMul(equity, high);
      FallProduct(equity / high, high, equity);
      UniqueQuotient(high - equity, high, 1.0 - equity / high);
    }
  }

  lemma FallProduct(q: real, high: real, equity: real)
    requires q * high == equity
    ensures (1.0 - q) * high == high - equity
  {
  }

  /** From a lower level the fall is relatively smaller, unless it ends below zero. */
  lemma FallComparison(a: real, high: real, equity: real)
    requires 0.0 < a <= high
    ensures FallPct(a, equity) <= FallPct(high, equity) <==> equity >= 0.0 || a == high
  {
    FallFormula(a, equity);
    FallFormula(high, equity);
    if equity >= 0.0 {
      QuotientAntitone(equity, a, high);
    } else {
      QuotientAntitone(-equity, a, high);
      NegatedQuotient(equity, a);
      NegatedQuotient(equity, high);
    }
  }

  /** The one-pass figure is zero or attained, by a fall from a running peak. */
  lemma {:induction false} DrawdownAttained(capital: real, pnls: seq<real>, k: nat) returns (i: nat, j: nat)
    requires k <= |pnls|
    ensures i <= j <= k && Equity(capital, pnls, i) == Peak(capital, pnls, j)
    ensures DrawdownPct(capital, pnls, k) == 0.0 ||
            DrawdownPct(capital, pnls, k) == FallPct(Equity(capital, pnls, i), Equity(capital, pnls, j))
  {
    if k > 0 && DrawdownPct(capital, pnls, k) == DrawdownPct(capital, pnls, k - 1) {
      i, j := DrawdownAttained(capital, pnls, k - 1);
    } else {
      i := PeakAttained(capital, pnls, k);
      j := k;
    }
  }

  /** No fall between any two points exceeds it, as long as the later equity is not negative. */
  lemma {:induction false} DrawdownDominates(capital: real, pnls: seq<real>, i: nat, j: nat, k: nat)
    requires i <= j <= k <= |pnls|
    requires Equity(capital, pnls, i) > 0.0 && Equity(capital, pnls, j) >= 0.0
    ensures FallPct(Equity(capital, pnls, i), Equity(capital, pnls, j)) <= DrawdownPct(capital, pnls, k)
  {
    if j < k {
      DrawdownDominates(capital, pnls, i, j, k - 1);
    } else if i == j {
      assert FallPct(Equity(capital, pnls, i), Equity(capital, pnls, j)) == 0.0;
    } else {
      PeakDominates(capital, pnls, i, j);
      FallComparison(Equity(capital, pnls, i), Peak(capital, pnls, j), Equity(capital, pnls, j));
    }
  }

  /** A drawdown above 100 % is reported exactly when equity goes negative. */
  lemma {:induction false} DrawdownAboveHundred(capital: real, pnls: seq<real>, k: nat)
    requires k <= |pnls| && capital > 0.0
    ensures DrawdownPct(capital, pnls, k) <= 100.0 <==>
            forall j :: 0 <= j <= k ==> Equity(capital, pnls, j) >= 0.0
  {
    if k == 0 {
      assert Equity(capital, pnls, 0) == capital;
    } else {
      DrawdownAboveHundred(capital, pnls, k - 1);
      assert Equity(capital, pnls, 0) == capital;
      PeakDominates(capital, pnls, 0, k);
      FallAboveHundred(Peak(capital, pnls, k), Equity(capital, pnls, k));
    }
  }

  lemma FallAboveHundred(high: real, equity: real)
    requires high > 0.0
    ensures FallPct(high, equity) <= 100.0 <==> equity >= 0.0
  {
    FallFormula(high, equity);
    DivMul(equity, high);
    if equity >= 0.0 {
      DivMonotone(0.0, equity, high);
    } else {
      assert equity / high < 0.0 by {
        if equity / high >= 0.0 { MulMonotone(0.0, equity / high, high); }
      }
    }
  }

  /** Measured against the running peak of its end, exactly the falls below zero from a lower start escape. */
  lemma {:induction false} PairEscapesIff(capital: real, pnls: seq<real>, i: nat, j: nat)
    requires i <= j <= |pnls| && Equity(capital, pnls, i) > 0.0
    ensures FallPct(Equity(capital, pnls, i), Equity(capital, pnls, j))
            > FallPct(Peak(capital, pnls, j), Equity(capital, pnls, j))
            <==> Equity(capital, pnls, j) < 0.0 && Equity(capital, pnls, i) < Peak(capital, pnls, j)
  {
    PeakDominates(capital, pnls, i, j);
    FallComparison(Equity(capital, pnls, i), Peak(capital, pnls, j), Equity(capital, pnls, j));
  }

  /** The lowest positive equity over points 0..k. */
  function Trough(capital: real, pnls: seq<real>, k: nat): (low: real)
    requires k <= |pnls| && capital > 0.0
    ensures low > 0.0
  {
    if k == 0 then capital
    else
      var before, e := Trough(capital, pnls, k - 1), Equity(capital, pnls, k);
      if 0.0 < e < before then e else before
  }

  lemma {:induction false} TroughLowest(capital: real, pnls: seq<real>, k: nat) returns (at: nat)
    requires k <= |pnls| && capital > 0.0
    ensures at <= k && Equity(capital, pnls, at) == Trough(capital, pnls, k)
    ensures forall i :: 0 <= i <= k && Equity(capital, pnls, i) > 0.0 ==>
      Trough(capital, pnls, k) <= Equity(capital, pnls, i)
  {
    assert Equity(capital, pnls, 0) == capital;
    if k == 0 {
      at := 0;
    } else {
      at := TroughLowest(capital, pnls, k - 1);
      if Trough(capital, pnls, k) != Trough(capital, pnls, k - 1) { at := k; }
    }
  }

  /** The fall from any earlier positive point to any later one is within the reported drawdown. */
  ghost predicate Covers(capital: real, pnls: seq<real>, k: nat)
    requires k <= |pnls|
  {
    forall i, j :: 0 <= i <= j <= k && Equity(capital, pnls, i) > 0.0 ==>
      FallPct(Equity(capital, pnls, i), Equity(capital, pnls, j)) <= DrawdownPct(capital, pnls, k)
  }

  /** The report covers all pairs exactly when, at each point below zero, the single fall from the lowest
      positive equity so far is within it. */
  lemma CoversIff(capital: real, pnls: seq<real>, k: nat)
    requires k <= |pnls| && capital > 0.0
    ensures Covers(capital, pnls, k) <==>
            forall j :: 0 <= j <= k && Equity(capital, pnls, j) < 0.0 ==>
              FallPct(Trough(capital, pnls, j), Equity(capital, pnls, j)) <= DrawdownPct(capital, pnls, k)
  {
    hide FallPct, DrawdownPct, Equity, Trough;
    forall j | 0 <= j <= k && Equity(capital, pnls, j) < 0.0
      ensures forall i :: 0 <= i <= j && Equity(capital, pnls, i) > 0.0 ==>
        FallPct(Equity(capital, pnls, i), Equity(capital, pnls, j))
        <= FallPct(Trough(capital, pnls, j), Equity(capital, pnls, j))
      ensures exists i :: 0 <= i <= j && Equity(capital, pnls, i) == Trough(capital, pnls, j) > 0.0
    {
      var at := TroughLowest(capital, pnls, j);
      forall i | 0 <= i <= j && Equity(capital, pnls, i) > 0.0
        ensures FallPct(Equity(capital, pnls, i), Equity(capital, pnls, j))
                <= FallPct(Trough(capital, pnls, j), Equity(capital, pnls, j))
      {
        FallComparison(Trough(capital, pnls, j), Equity(capital, pnls, i), Equity(capital, pnls, j));
      }
    }
    forall i, j | 0 <= i <= j <= k && Equity(capital, pnls, i) > 0.0 && Equity(capital, pnls, j) >= 0.0
      ensures FallPct(Equity(capital, pnls, i), Equity(capital, pnls, j)) <= DrawdownPct(capital, pnls, k)
    {
      DrawdownDominates(capital, pnls, i, j, k);
    }
  }

  /** With negative equity a pair can fall relatively further than the reported figure: 100, 50, -10. */
  lemma NegativeEquityExample()
    ensures var pnls := [-50.0, -60.0];
      FallPct(Equity(100.0, pnls, 1), Equity(100.0, pnls, 2)) > DrawdownPct(100.0, pnls, 2)
  {
    var pnls := [-50.0, -60.0];
    SumStep(pnls, 0);
    SumStep(pnls, 1);
    assert Equity(100.0, pnls, 0) == 100.0 && Equity(100.0, pnls, 1) == 50.0 && Equity(100.0, pnls, 2) == -10.0;
    assert DrawdownPct(100.0, pnls, 1) == 50.0;
  }

  // ----- The study

  datatype Method = Shuffle | Resample

  datatype Settings = Settings(simulations: nat, sampling: Method, capital: real, ruinThresholdPct: real,
                               confidence: real)

  /** `variance` is the square of the reported standard deviation. */
  datatype Study = Study(simulations: nat, mean: real, median: real, variance: real, ciLow: real, ciHigh: real,
                         p5: real, p95: real, expectedDd: real, worstDd: real, requiredCapital: real,
                         riskOfRuin: real, profitable: real)

  /** What the random generator may draw from the trades. */
  predicate DrawnFrom(path: seq<real>, pnls: seq<real>, sampling: Method) {
    match sampling
    case Shuffle => multiset(path) == multiset(pnls)
    case Resample => |path| == |pnls| && forall x :: x in path ==> x in pnls
  }

  function ReturnPct(capital: real, path: seq<real>): real
    requires capital > 0.0
  {
    (capital + Sum(path) - capital) / capital * 100.0
  }

  function Returns(capital: real, paths: seq<seq<real>>): seq<real>
    requires capital > 0.0
  {
    seq(|paths|, i requires 0 <= i < |paths| => ReturnPct(capital, paths[i]))
  }

  function Drawdowns(capital: real, paths: seq<seq<real>>): seq<real> {
    seq(|paths|, i requires 0 <= i < |paths| => DrawdownPct(capital, paths[i], |paths[i]|))
  }

  function Greatest(xs: seq<real>): (m: real)
    requires xs != []
    ensures m in xs && forall x :: x in xs ==> x <= m
  {
    if |xs| == 1 then xs[0]
    else
      assert xs == xs[..|xs| - 1] + [xs[|xs| - 1]];
      Max(Greatest(xs[..|xs| - 1]), xs[|xs| - 1])
  }

  function Least(xs: seq<real>): (m: real)
    requires xs != []
    ensures m in xs && forall x :: x in xs ==> m <= x
  {
    if |xs| == 1 then xs[0]
    else
      assert xs == xs[..|xs| - 1] + [xs[|xs| - 1]];
      Min(Least(xs[..|xs| - 1]), xs[|xs| - 1])
  }

  function Mean(xs: seq<real>): real
    requires xs != []
  {
    Sum(xs) / |xs| as real
  }

  function Deviations(xs: seq<real>, mu: real): seq<real> {
    seq(|xs|, i requires 0 <= i < |xs| => (xs[i] - mu) * (xs[i] - mu))
  }

  function Tail(confidence: real): real { (1.0 - confidence) / 2.0 * 100.0 }

  /** The aggregation of one study from its returns, drawdowns and counters. */
  function Aggregate(rets: seq<real>, drawdowns: seq<real>, ruined: nat, winners: nat, confidence: real): Study
    requires rets != [] && |drawdowns| == |rets| && 0.0 <= confidence <= 1.0
  {
    var n, mu, tail := |rets| as real, Mean(rets), Tail(confidence);
    Study(|rets|, mu, Percentile(rets, 50.0), Mean(Deviations(rets, mu)),
          Percentile(rets, tail), Percentile(rets, 100.0 - tail),
          Percentile(rets, 5.0), Percentile(rets, 95.0),
          Percentile(drawdowns, 50.0), Greatest(drawdowns), Percentile(drawdowns, 95.0),
          ruined as real / n, winners as real / n)
  }

  const EMPTY := Study(0, 0.0, 0.0, 0.0, 0.0, 0.0, 0.0, 0.0, 0.0, 0.0, 0.0, 0.0, 0.0)

  function RuinLevel(s: Settings): real { s.capital * (1.0 - s.ruinThresholdPct / 100.0) }

  function CountRuined(paths: seq<seq<real>>, s: Settings): (n: nat)
    ensures n <= |paths|
    ensures n == |paths| <==> forall p :: p in paths ==> Ruined(s.capital, p, RuinLevel(s))
  {
    if paths == [] then 0
    else
      var k := |paths| - 1;
      assert paths == paths[..k] + [paths[k]];
      CountRuined(paths[..k], s) + if Ruined(s.capital, paths[k], RuinLevel(s)) then 1 else 0
  }

  function CountPositive(xs: seq<real>): (n: nat)
    ensures n <= |xs|
  {
    if xs == [] then 0 else CountPositive(xs[..|xs| - 1]) + if xs[|xs| - 1] > 0.0 then 1 else 0
  }

  /** `MonteCarloSimulator.run`, with one drawn path per simulation. */
  method Run(pnls: seq<real>, s: Settings, paths: seq<seq<real>>) returns (study: Study)
    requires |paths| == s.simulations > 0 && 0.0 <= s.confidence <= 1.0
    ensures pnls == [] || s.capital <= 0.0 ==> study == EMPTY
    ensures pnls != [] && s.capital > 0.0 ==>
      study == StudyOf(s, paths)
  {
    hide Percentile, DrawdownPct, Ruined, RuinLevel, Mean, Greatest, Deviations;
    if pnls == [] || s.capital <= 0.0 { return EMPTY; }
    var rets: seq<real>, drawdowns: seq<real>, ruined: nat := [], [], 0;
    for i := 0 to |paths|
      invariant rets == Returns(s.capital, paths[..i])
      invariant drawdowns == Drawdowns(s.capital, paths[..i])
      invariant ruined == CountRuined(paths[..i], s)
    {
      var final, dd, hit := SimulatePath(s.capital, paths[i], RuinLevel(s));
      rets := rets + [(final - s.capital) / s.capital * 100.0];
      drawdowns := drawdowns + [dd];
      ruined := ruined + if hit then 1 else 0;
      assert paths[..i + 1][..i] == paths[..i];
    }
    assert paths[..|paths|] == paths;
    study := Aggregate(rets, drawdowns, ruined, CountPositive(rets), s.confidence);
  }

  /** Some nonempty part of the path, from its start, leaves no more than the ruin threshold allows. */
  ghost predicate FallsToRuin(s: Settings, path: seq<real>) {
    exists j :: 1 <= j <= |path| && 100.0 * (s.capital + Sum(path[..j])) <= s.capital * (100.0 - s.ruinThresholdPct)
  }

  lemma RuinMeaning(s: Settings, path: seq<real>)
    ensures Ruined(s.capital, path, RuinLevel(s)) <==> FallsToRuin(s, path)
  {
    RuinedIff(s.capital, path, RuinLevel(s), |path|);
    assert RuinLevel(s) * 100.0 == s.capital * (100.0 - s.ruinThresholdPct);
    forall j | 1 <= j <= |path|
      ensures Equity(s.capital, path, j) <= RuinLevel(s)
              <==> 100.0 * (s.capital + Sum(path[..j])) <= s.capital * (100.0 - s.ruinThresholdPct)
    {
    }
  }

  lemma {:induction false} CountsMeaning(s: Settings, paths: seq<seq<real>>)
    requires s.capital > 0.0
    ensures CountRuined(paths, s) == |Which(paths, (p: seq<real>) => FallsToRuin(s, p))|
    ensures CountPositive(Returns(s.capital, paths)) == |Which(paths, (p: seq<real>) => Sum(p) > 0.0)|
  {
    hide FallsToRuin, Ruined, RuinLevel, Sum, ReturnPct;
    if paths != [] {
      var n := |paths| - 1;
      CountsMeaning(s, paths[..n]);
      assert paths == paths[..n] + [paths[n]];
      WhichAppend(paths[..n], paths[n], (p: seq<real>) => FallsToRuin(s, p));
      WhichAppend(paths[..n], paths[n], (p: seq<real>) => Sum(p) > 0.0);
      RuinMeaning(s, paths[n]);
      ReturnMeaning(s.capital, paths[n]);
      assert Returns(s.capital, paths)[..n] == Returns(s.capital, paths[..n]);
    }
  }

  lemma ReturnMeaning(capital: real, path: seq<real>)
    requires capital > 0.0
    ensures Times(ReturnPct(capital, path), capital) == 100.0 * Sum(path)
    ensures ReturnPct(capital, path) > 0.0 <==> Sum(path) > 0.0
  {
    var q := Sum(path) / capital;
    DivMul(Sum(path), capital);
    QuotientOrder(Sum(path), capital);
  }

  lemma MeanMeaning(xs: seq<real>)
    requires xs != []
    ensures Times(Mean(xs), |xs| as real) == Sum(xs)
  {
    DivMul(Sum(xs), |xs| as real);
  }

  /** The study of a list of paths. */
  function StudyOf(s: Settings, paths: seq<seq<real>>): Study
    requires paths != [] && s.capital > 0.0 && 0.0 <= s.confidence <= 1.0
  {
    var rets := Returns(s.capital, paths);
    Aggregate(rets, Drawdowns(s.capital, paths), CountRuined(paths, s), CountPositive(rets), s.confidence)
  }

  /** Each path gives its result in percent of the capital and its drawdown; mean and variance are theirs, and the
      two probabilities are shares of the paths. */
  lemma StudyAverages(s: Settings, paths: seq<seq<real>>)
    requires paths != [] && s.capital > 0.0 && 0.0 <= s.confidence <= 1.0
    ensures var rets, study, n := Returns(s.capital, paths), StudyOf(s, paths), |paths| as real;
      && |rets| == |paths| == study.simulations
      && (forall k :: 0 <= k < |paths| ==> Times(rets[k], s.capital) == 100.0 * Sum(paths[k]))
      && Times(study.mean, n) == Sum(rets)
      && Times(study.variance, n)
         == Sum(seq(|rets|, k requires 0 <= k < |rets| => (rets[k] - study.mean) * (rets[k] - study.mean)))
      && Times(study.riskOfRuin, n) == |Which(paths, (p: seq<real>) => FallsToRuin(s, p))| as real
      && Times(study.profitable, n) == |Which(paths, (p: seq<real>) => Sum(p) > 0.0)| as real
  {
    hide Percentile, Sum, Times, FallsToRuin, Drawdowns, ReturnPct, Mean, Greatest;
    var rets := Returns(s.capital, paths);
    CountsMeaning(s, paths);
    forall k | 0 <= k < |paths| ensures Times(rets[k], s.capital) == 100.0 * Sum(paths[k]) {
      ReturnMeaning(s.capital, paths[k]);
    }
    MeanMeaning(rets);
    MeanMeaning(Deviations(rets, Mean(rets)));
    ShareOf(CountRuined(paths, s), |paths|);
    ShareOf(CountPositive(rets), |paths|);
  }

  /** Which percentiles of the returns and of the drawdowns are reported. */
  lemma StudyPercentiles(s: Settings, paths: seq<seq<real>>)
    requires paths != [] && s.capital > 0.0 && 0.0 <= s.confidence <= 1.0
    ensures var rets, dds, study := Returns(s.capital, paths), Drawdowns(s.capital, paths), StudyOf(s, paths);
      && study.median == Percentile(rets, 50.0)
      && study.p5 == Percentile(rets, 5.0) && study.p95 == Percentile(rets, 95.0)
      && study.ciLow == Percentile(rets, 50.0 - 50.0 * s.confidence)
      && study.ciHigh == Percentile(rets, 50.0 + 50.0 * s.confidence)
      && study.expectedDd == Percentile(dds, 50.0) && study.requiredCapital == Percentile(dds, 95.0)
      && study.worstDd in dds && forall d :: d in dds ==> d <= study.worstDd
  {
    hide Percentile, Sum, DrawdownPct, ReturnPct, Mean, CountRuined, CountPositive;
  }

  lemma ShareOf(k: nat, n: nat)
    requires n > 0
    ensures Times(k as real / n as real, n as real) == k as real
  {
    DivMul(k as real, n as real);
  }

  /** The reported return figures are ordered, whatever was sampled. */
  lemma ReturnsOrdered(rets: seq<real>, drawdowns: seq<real>, ruined: nat, winners: nat, confidence: real)
    requires rets != [] && |drawdowns| == |rets| && 0.0 <= confidence <= 1.0
    ensures var study := Aggregate(rets, drawdowns, ruined, winners, confidence);
      study.ciLow <= study.median <= study.ciHigh && study.p5 <= study.median <= study.p95
  {
    hide Percentile;
    var tail := Tail(confidence);
    PercentileMonotone(rets, tail, 50.0);
    PercentileMonotone(rets, 50.0, 100.0 - tail);
    PercentileMonotone(rets, 5.0, 50.0);
    PercentileMonotone(rets, 50.0, 95.0);
  }

  /** Expected drawdown, required capital and worst drawdown are ordered too. */
  lemma DrawdownsOrdered(rets: seq<real>, drawdowns: seq<real>, ruined: nat, winners: nat, confidence: real)
    requires rets != [] && |drawdowns| == |rets| && 0.0 <= confidence <= 1.0
    ensures var study := Aggregate(rets, drawdowns, ruined, winners, confidence);
      study.expectedDd <= study.requiredCapital <= study.worstDd
  {
    PercentileMonotone(drawdowns, 50.0, 95.0);
    PercentileWithin(drawdowns, 95.0, Least(drawdowns), Greatest(drawdowns));
  }

  lemma ConstantMean(xs: seq<real>, v: real)
    requires xs != [] && forall i :: 0 <= i < |xs| ==> xs[i] == v
    ensures Mean(xs) == v
  {
    SumBounds(xs, v, v);
    assert |xs| as real * v / |xs| as real == v;
  }

  /** Shuffling only reorders: every path ends alike, so the returns carry no spread at all. */
  lemma ShuffleHasNoSpread(pnls: seq<real>, s: Settings, paths: seq<seq<real>>, ruined: nat, winners: nat)
    requires paths != [] && s.capital > 0.0 && 0.0 <= s.confidence <= 1.0
    requires s.sampling.Shuffle? && forall p :: p in paths ==> DrawnFrom(p, pnls, s.sampling)
    ensures var v := ReturnPct(s.capital, pnls);
      var study := Aggregate(Returns(s.capital, paths), Drawdowns(s.capital, paths), ruined, winners, s.confidence);
      && study.mean == study.median == study.ciLow == study.ciHigh == study.p5 == study.p95 == v
      && study.variance == 0.0
  {
    hide Percentile;
    var v, rets := ReturnPct(s.capital, pnls), Returns(s.capital, paths);
    forall i | 0 <= i < |paths| ensures rets[i] == v {
      assert paths[i] in paths;
      SumPermutation(paths[i], pnls);
    }
    ConstantMean(rets, v);
    ConstantMean(Deviations(rets, v), 0.0);
    var tail := Tail(s.confidence);
    PercentileWithin(rets, 50.0, v, v);
    PercentileWithin(rets, tail, v, v);
    PercentileWithin(rets, 100.0 - tail, v, v);
    PercentileWithin(rets, 5.0, v, v);
    PercentileWithin(rets, 95.0, v, v);
  }

  /** Under shuffling, a sequence that ends at or below the ruin level is ruined on every path. */
  lemma {:induction false} ShuffleRuinCertain(pnls: seq<real>, s: Settings, paths: seq<seq<real>>)
    requires paths != [] && pnls != [] && s.capital + Sum(pnls) <= RuinLevel(s)
    requires s.sampling.Shuffle? && forall p :: p in paths ==> DrawnFrom(p, pnls, s.sampling)
    ensures CountRuined(paths, s) == |paths|
  {
    forall p | p in paths ensures Ruined(s.capital, p, RuinLevel(s)) {
      SumPermutation(p, pnls);
      assert p != [] by { assert |multiset(p)| == |p| && |multiset(pnls)| == |pnls|; }
      assert p[..|p|] == p;
    }
  }
}
