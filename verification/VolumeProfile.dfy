/** Volume profile: overlap binning, value area and volume nodes. */
module VolumeProfile {
  import opened Numeric
  import opened Market
  import opened Options

  const EPS := 0.000000000001

  /** Equal-width price bins starting at `low`. */
  datatype Grid = Grid(low: real, step: real, bins: nat) {
    predicate Valid() { step > 0.0 && bins > 1 }

    function Edge(i: int): real { low + i as real * step }

    /** The candle lies inside the grid, as it does when the grid is built from the window. */
    predicate Covers(c: Candle) { low <= c.low && c.high <= Edge(bins) }
  }

  function ClampBin(g: Grid, k: int): (i: nat)
    requires g.Valid()
    ensures i < g.bins
  {
    if k < 0 then 0 else if k > g.bins - 1 then g.bins - 1 else k
  }

  function FirstBin(g: Grid, c: Candle): (i: nat)
    requires g.Valid()
    ensures i < g.bins
  {
    ClampBin(g, Trunc((c.low - g.low) / g.step))
  }

  function LastBin(g: Grid, c: Candle): (i: nat)
    requires g.Valid()
    ensures i < g.bins
  {
    ClampBin(g, Trunc((c.high - g.low) / g.step - EPS))
  }

  function Overlap(g: Grid, c: Candle, i: nat): real {
    Min(c.high, g.Edge(i) + g.step) - Max(c.low, g.Edge(i))
  }

  /** All of the candle's volume goes to one bin. */
  predicate SingleBin(g: Grid, c: Candle)
    requires g.Valid()
  {
    c.high - c.low <= 0.0 || FirstBin(g, c) == LastBin(g, c)
  }

  /** A candle's volume in proportion to the covered part of its range. */
  function Portion(volume: real, part: real, whole: real): real
    requires whole != 0.0
  {
    volume * (part / whole)
  }

  /** What bin `i` receives from one candle. */
  function Share(g: Grid, c: Candle, i: nat): real
    requires g.Valid()
  {
    if c.volume <= 0.0 then 0.0
    else if SingleBin(g, c) then
      if i == FirstBin(g, c) then c.volume else 0.0
    else if FirstBin(g, c) <= i <= LastBin(g, c) && Overlap(g, c, i) > 0.0 then
      Portion(c.volume, Overlap(g, c, i), c.high - c.low)
    else 0.0
  }

  /** What bin `i` receives from the whole window. */
  function Binned(g: Grid, candles: seq<Candle>, i: nat): real
    requires g.Valid()
  {
    if candles == [] then 0.0
    else Binned(g, candles[..|candles| - 1], i) + Share(g, candles[|candles| - 1], i)
  }

  lemma BinnedStep(g: Grid, candles: seq<Candle>, k: nat)
    requires g.Valid() && k < |candles|
    ensures forall i: nat ::
      Binned(g, candles[..k + 1], i) == Binned(g, candles[..k], i) + Share(g, candles[k], i)
  {
    assert candles[..k + 1][..k] == candles[..k];
  }

  /** One pass of the binning loop: the candle's volume is added in place. */
  method AddCandle(volumes: array<real>, g: Grid, c: Candle)
    requires g.Valid() && volumes.Length == g.bins
    modifies volumes
    ensures forall i :: 0 <= i < g.bins ==> volumes[i] == old(volumes[i]) + Share(g, c, i)
  {
    if c.volume <= 0.0 { return; }
    var span := c.high - c.low;
    var first, last := FirstBin(g, c), LastBin(g, c);
    if span <= 0.0 || first == last {
      var target := if span <= 0.0 then first else last;
      volumes[target] := volumes[target] + c.volume;
      return;
    }
    var i := first;
    while i < last + 1
      invariant first <= i && (i <= last + 1 || i == first)
      invariant forall j :: 0 <= j < i && j < g.bins ==> volumes[j] == old(volumes[j]) + Share(g, c, j)
      invariant forall j :: i <= j < g.bins ==> volumes[j] == old(volumes[j])
    {
      var overlap := Overlap(g, c, i);
      if overlap > 0.0 {
        volumes[i] := volumes[i] + Portion(c.volume, overlap, span);
      }
      i := i + 1;
    }
  }

  /** The binning loop: `volumes` updated in place, candle by candle. */
  method BinVolumes(candles: seq<Candle>, g: Grid) returns (volumes: array<real>)
    requires g.Valid()
    ensures fresh(volumes) && volumes.Length == g.bins
    ensures forall i :: 0 <= i < g.bins ==> volumes[i] == Binned(g, candles, i)
  {
    volumes := new real[g.bins](_ => 0.0);
    var k := 0;
    while k < |candles|
      invariant k <= |candles|
      invariant forall i :: 0 <= i < g.bins ==> volumes[i] == Binned(g, candles[..k], i)
    {
      AddCandle(volumes, g, candles[k]);
      BinnedStep(g, candles, k);
      k := k + 1;
    }
    assert candles[..|candles|] == candles;
  }

  // ----- Conservation of volume

  lemma EdgeMonotone(g: Grid, i: int, j: int)
    requires g.Valid() && i <= j
    ensures g.Edge(i) <= g.Edge(j)
  {
    MulMonotone(i as real, j as real, g.step);
  }

  lemma EdgeNext(g: Grid, i: int)
    ensures g.Edge(i + 1) == g.Edge(i) + g.step
  {
    assert (i + 1) as real == i as real + 1.0;
    assert (i as real + 1.0) * g.step == i as real * g.step + g.step;
  }

  lemma BelowEdge(g: Grid, x: real, k: int)
    requires g.Valid() && x < k as real
    ensures g.low + x * g.step < g.Edge(k)
  {
    StrictMulMonotone(x, k as real, g.step);
  }

  /** A point `x` bin widths above the grid's low falls in bin `x.Floor`. */
  lemma FloorEdges(g: Grid, x: real)
    requires g.Valid() && x >= 0.0
    ensures x.Floor >= 0 && g.Edge(x.Floor) <= g.low + x * g.step < g.Edge(x.Floor + 1)
  {
    MulMonotone(x.Floor as real, x, g.step);
    BelowEdge(g, x, x.Floor + 1);
  }

  lemma FirstBinEdges(g: Grid, c: Candle)
    requires g.Valid() && g.Covers(c) && c.low < c.high
    ensures g.Edge(FirstBin(g, c)) <= c.low < g.Edge(FirstBin(g, c) + 1)
  {
    var x := (c.low - g.low) / g.step;
    DivMul(c.low - g.low, g.step);
    DivMonotone(0.0, c.low - g.low, g.step);
    FloorEdges(g, x);
    assert g.low + x * g.step == c.low;
    if x.Floor >= g.bins { EdgeMonotone(g, g.bins, x.Floor); }
    assert FirstBin(g, c) == x.Floor;
  }

  /** A candle without range counts in the bin around its price, the upper one on an inner edge. */
  lemma FlatBinEdges(g: Grid, c: Candle)
    requires g.Valid() && g.Covers(c) && c.low == c.high
    ensures var i := FirstBin(g, c); g.Edge(i) <= c.low <= g.Edge(i + 1) && (c.low == g.Edge(i + 1) ==> i + 1 == g.bins)
  {
    var x := (c.low - g.low) / g.step;
    DivMul(c.low - g.low, g.step);
    DivMonotone(0.0, c.low - g.low, g.step);
    FloorEdges(g, x);
    assert g.low + x * g.step == c.low;
    if x.Floor >= g.bins { EdgeMonotone(g, g.bins, x.Floor); EdgeMonotone(g, g.bins - 1, g.bins); }
  }

  lemma ShiftedPosition(g: Grid, d: real)
    requires g.Valid() && d >= 0.0
    ensures (d / g.step - EPS) * g.step == d - EPS * g.step && d / g.step - EPS >= -EPS
  {
    DivMul(d, g.step);
    DivMonotone(0.0, d, g.step);
    assert (d / g.step - EPS) * g.step == d / g.step * g.step - EPS * g.step;
  }

  lemma LastBinEdges(g: Grid, c: Candle)
    requires g.Valid() && g.Covers(c) && c.low < c.high
    ensures g.Edge(LastBin(g, c)) <= c.high < g.Edge(LastBin(g, c) + 1) + EPS * g.step
    ensures LastBin(g, c) > 0 ==> g.Edge(LastBin(g, c)) + EPS * g.step <= c.high
  {
    var y := (c.high - g.low) / g.step - EPS;
    ShiftedPosition(g, c.high - g.low);
    if y >= 0.0 {
      FloorEdges(g, y);
      assert g.low + y * g.step == c.high - EPS * g.step;
      assert EPS * g.step > 0.0;
      if y.Floor >= g.bins { EdgeMonotone(g, g.bins, y.Floor); }
      assert LastBin(g, c) == y.Floor;
    } else {
      assert LastBin(g, c) == 0;
      MulMonotone(y, 0.0, g.step);
      EdgeNext(g, 0);
    }
  }

  /** The bin edge a vanishing candle sits on. */
  predicate SitsOnEdge(g: Grid, c: Candle, k: nat) {
    0 < k < g.bins && g.Edge(k) <= c.low && c.high < g.Edge(k) + EPS * g.step
  }

  /** A candle whose volume reaches no bin at all. */
  predicate Vanishes(g: Grid, c: Candle) {
    c.low < c.high && exists k: nat | k < g.bins :: SitsOnEdge(g, c, k)
  }

  lemma BinsCrossIffVanishes(g: Grid, c: Candle)
    requires g.Valid() && g.Covers(c) && c.low < c.high
    ensures FirstBin(g, c) > LastBin(g, c) <==> Vanishes(g, c)
  {
    FirstBinEdges(g, c);
    LastBinEdges(g, c);
    var first, last := FirstBin(g, c), LastBin(g, c);
    if first > last {
      EdgeMonotone(g, last + 1, first);
      assert SitsOnEdge(g, c, first);
    }
    if Vanishes(g, c) {
      var k: nat :| k < g.bins && SitsOnEdge(g, c, k);
      if first < k { EdgeMonotone(g, first + 1, k); }
      if last >= k { EdgeMonotone(g, k, last); }
    }
  }

  // ----- Every bin gets its part

  /** The length of the candle's range inside bin `i`. */
  function Covered(g: Grid, c: Candle, i: nat): real { Max(0.0, Min(c.high, g.Edge(i + 1)) - Max(c.low, g.Edge(i))) }

  /** The stretch of its range by which a candle's volume in a bin is measured. */
  function Credited(g: Grid, c: Candle, i: nat): real
    requires g.Valid()
  {
    if FirstBin(g, c) == LastBin(g, c) then (if i == FirstBin(g, c) then c.high - c.low else 0.0)
    else if FirstBin(g, c) <= i <= LastBin(g, c) then Max(0.0, Overlap(g, c, i))
    else 0.0
  }

  /** A bin receives the volume of the part of the candle's range that lies in it, up to the volume of 1e-12 of a bin;
      a candle without range counts in the bin around its price, the upper one on an inner edge. */
  lemma ShareInPrices(g: Grid, c: Candle, i: nat)
    requires g.Valid() && g.Covers(c) && c.low <= c.high && c.volume > 0.0 && i < g.bins
    ensures c.low < c.high ==>
      -Times(c.volume, EPS * g.step) <= Times(Share(g, c, i), c.high - c.low) - Times(c.volume, Covered(g, c, i))
      <= Times(c.volume, EPS * g.step)
    ensures c.low == c.high ==>
      Share(g, c, i) == if g.Edge(i) <= c.low < g.Edge(i + 1) || (c.low == g.Edge(i + 1) && i + 1 == g.bins)
                        then c.volume else 0.0
  {
    hide FirstBin, LastBin;
    EdgeNext(g, i);
    if c.low < c.high {
      CreditedNear(g, c, i);
      ShareCredited(g, c, i);
      NearProducts(c.volume, Credited(g, c, i), Covered(g, c, i), EPS * g.step);
    } else {
      FlatBinEdges(g, c);
      var first := FirstBin(g, c);
      if i < first { EdgeMonotone(g, i + 1, first); }
      if first < i { EdgeMonotone(g, first + 1, i); }
    }
  }

  lemma ShareCredited(g: Grid, c: Candle, i: nat)
    requires g.Valid() && c.low < c.high && c.volume > 0.0
    ensures Times(Share(g, c, i), c.high - c.low) == Times(c.volume, Credited(g, c, i))
  {
    hide FirstBin, LastBin;
    var part, span := Credited(g, c, i), c.high - c.low;
    DivMul(part, span);
    assert c.volume * (part / span) * span == c.volume * (part / span * span);
  }

  lemma CreditedNear(g: Grid, c: Candle, i: nat)
    requires g.Valid() && g.Covers(c) && c.low < c.high && i < g.bins
    ensures -EPS * g.step <= Credited(g, c, i) - Covered(g, c, i) <= EPS * g.step
  {
    hide FirstBin, LastBin;
    var first, last := FirstBin(g, c), LastBin(g, c);
    FirstBinEdges(g, c);
    LastBinEdges(g, c);
    EdgeNext(g, i);
    EdgeNext(g, first);
    assert EPS * g.step > 0.0;
    if i < first { EdgeMonotone(g, i + 1, first); }
    if last < i { EdgeMonotone(g, last + 1, i); }
    if last < first { EdgeMonotone(g, last + 1, first); }
  }

  lemma NearProducts(v: real, x: real, y: real, e: real)
    requires v >= 0.0 && -e <= x - y <= e
    ensures -Times(v, e) <= Times(v, x) - Times(v, y) <= Times(v, e)
  {
    MulMonotone(x, y + e, v);
    MulMonotone(y, x + e, v);
  }

  /** Volume handed to the first `n` bins by one candle. */
  function DepositUpTo(g: Grid, c: Candle, n: nat): real
    requires g.Valid()
  {
    if n == 0 then 0.0 else DepositUpTo(g, c, n - 1) + Share(g, c, n - 1)
  }

  lemma {:induction false} SingleBinDeposit(g: Grid, c: Candle, n: nat)
    requires g.Valid() && c.volume > 0.0 && SingleBin(g, c)
    ensures DepositUpTo(g, c, n) == if FirstBin(g, c) < n then c.volume else 0.0
  {
    if n > 0 { SingleBinDeposit(g, c, n - 1); }
  }

  lemma {:induction false} CrossedDeposit(g: Grid, c: Candle, n: nat)
    requires g.Valid() && c.low < c.high && FirstBin(g, c) > LastBin(g, c)
    ensures DepositUpTo(g, c, n) == 0.0
  {
    if n > 0 { CrossedDeposit(g, c, n - 1); }
  }

  /** How far bins up to n-1 reach into the candle's range. */
  function Reached(g: Grid, c: Candle, n: nat): real
    requires g.Valid()
  {
    Min(c.high, g.Edge(if n <= LastBin(g, c) then n else LastBin(g, c) + 1)) - c.low
  }

  /** The overlaps telescope: bins first..n-1 hold the stretch from the low up to their upper edge. */
  lemma {:induction false} TelescopingOverlap(g: Grid, c: Candle, n: nat)
    requires g.Valid() && g.Covers(c) && c.low < c.high && c.volume > 0.0
    requires FirstBin(g, c) < LastBin(g, c)
    ensures DepositUpTo(g, c, n) ==
            if n <= FirstBin(g, c) then 0.0 else Portion(c.volume, Reached(g, c, n), c.high - c.low)
  {
    if n > 0 {
      TelescopingOverlap(g, c, n - 1);
      OverlapStep(g, c, n - 1);
      if FirstBin(g, c) < n - 1 <= LastBin(g, c) {
        SplitShare(c.volume, Reached(g, c, n - 1), Overlap(g, c, n - 1), c.high - c.low);
      }
    }
  }

  lemma OverlapStep(g: Grid, c: Candle, i: nat)
    requires g.Valid() && g.Covers(c) && c.low < c.high
    requires FirstBin(g, c) < LastBin(g, c)
    ensures i == FirstBin(g, c) ==> Overlap(g, c, i) == Reached(g, c, i + 1) > 0.0
    ensures FirstBin(g, c) < i <= LastBin(g, c) ==>
      Overlap(g, c, i) == Reached(g, c, i + 1) - Reached(g, c, i) > 0.0
    ensures i > LastBin(g, c) ==> Reached(g, c, i + 1) == Reached(g, c, i)
  {
    FirstBinEdges(g, c);
    LastBinEdges(g, c);
    var first, last := FirstBin(g, c), LastBin(g, c);
    EdgeNext(g, i);
    assert EPS * g.step > 0.0;
    if i <= last { EdgeMonotone(g, i, last); }
    if i < last { EdgeMonotone(g, i + 1, last); }
    if first < i { EdgeMonotone(g, first + 1, i); }
  }

  lemma SplitShare(v: real, a: real, b: real, span: real)
    requires span > 0.0
    ensures Portion(v, a, span) + Portion(v, b, span) == Portion(v, a + b, span)
  {
    assert a / span + b / span == (a + b) / span;
    assert v * (a / span) + v * (b / span) == v * (a / span + b / span);
  }

  /** One candle's volume is deposited up to a 1e-12 fraction, unless it vanishes altogether. */
  lemma CandleDeposit(g: Grid, c: Candle)
    requires g.Valid() && g.Covers(c) && c.volume > 0.0
    ensures Vanishes(g, c) ==> DepositUpTo(g, c, g.bins) == 0.0
    ensures !Vanishes(g, c) ==>
      (1.0 - EPS) * c.volume < DepositUpTo(g, c, g.bins) <= c.volume
  {
    if SingleBin(g, c) {
      SingleBinDeposit(g, c, g.bins);
      if c.low < c.high { BinsCrossIffVanishes(g, c); }
    } else {
      BinsCrossIffVanishes(g, c);
      if FirstBin(g, c) > LastBin(g, c) {
        CrossedDeposit(g, c, g.bins);
      } else {
        SpreadDeposit(g, c);
      }
    }
  }

  lemma SpreadDeposit(g: Grid, c: Candle)
    requires g.Valid() && g.Covers(c) && c.low < c.high && c.volume > 0.0
    requires FirstBin(g, c) < LastBin(g, c)
    ensures (1.0 - EPS) * c.volume < DepositUpTo(g, c, g.bins) <= c.volume
  {
    TelescopingOverlap(g, c, g.bins);
    FirstBinEdges(g, c);
    LastBinEdges(g, c);
    var first, last, span := FirstBin(g, c), LastBin(g, c), c.high - c.low;
    var reached := Reached(g, c, g.bins);
    if last < g.bins - 1 { OverlapStep(g, c, g.bins - 1); }
    assert reached == Min(c.high, g.Edge(last + 1)) - c.low;
    EdgeMonotone(g, first + 1, last);
    EdgeNext(g, last);
    if reached < span {
      assert span > g.step;
      assert span - reached < EPS * g.step;
    }
    FractionBounds(c.volume, reached, span, 1.0 - EPS);
  }

  lemma FractionBounds(v: real, part: real, whole: real, f: real)
    requires v > 0.0 && whole > 0.0 && f * whole < part <= whole
    ensures f * v < Portion(v, part, whole) <= v
  {
    var q := part / whole;
    DivMul(part, whole);
    DivMonotone(part, whole, whole);
    assert q > f by {
      if q <= f { MulMonotone(q, f, whole); }
    }
    assert (q - f) * v > 0.0;
    MulMonotone(q, 1.0, v);
  }

  /** Positive volume of the candles that do reach the grid. */
  function KeptVolume(g: Grid, candles: seq<Candle>): real
  {
    if candles == [] then 0.0
    else
      var c := candles[|candles| - 1];
      KeptVolume(g, candles[..|candles| - 1])
      + if c.volume > 0.0 && !Vanishes(g, c) then c.volume else 0.0
  }

  function TotalUpTo(g: Grid, candles: seq<Candle>, n: nat): real
    requires g.Valid()
  {
    if n == 0 then 0.0 else TotalUpTo(g, candles, n - 1) + Binned(g, candles, n - 1)
  }

  /** Summing bins of candles equals summing candles over bins. */
  lemma {:induction false} ExchangeSums(g: Grid, candles: seq<Candle>, n: nat)
    requires g.Valid()
    ensures candles == [] ==> TotalUpTo(g, candles, n) == 0.0
    ensures candles != [] ==> var k := |candles| - 1;
      TotalUpTo(g, candles, n) == TotalUpTo(g, candles[..k], n) + DepositUpTo(g, candles[k], n)
  {
    if n > 0 { ExchangeSums(g, candles, n - 1); }
  }

  /** The binned total equals the volume of the candles that do not vanish, up to a 1e-12 fraction. */
  lemma {:induction false} VolumeConserved(g: Grid, candles: seq<Candle>)
    requires g.Valid() && forall c | c in candles :: g.Covers(c)
    ensures (1.0 - EPS) * KeptVolume(g, candles) <= TotalUpTo(g, candles, g.bins)
              <= KeptVolume(g, candles)
    ensures KeptVolume(g, candles) > 0.0 ==>
      (1.0 - EPS) * KeptVolume(g, candles) < TotalUpTo(g, candles, g.bins)
  {
    ExchangeSums(g, candles, g.bins);
    if candles != [] {
      var k := |candles| - 1;
      var c := candles[k];
      VolumeConserved(g, candles[..k]);
      if c.volume > 0.0 {
        CandleDeposit(g, c);
      } else {
        NoVolumeDeposit(g, c, g.bins);
      }
    }
  }

  lemma {:induction false} NoVolumeDeposit(g: Grid, c: Candle, n: nat)
    requires g.Valid() && c.volume <= 0.0
    ensures DepositUpTo(g, c, n) == 0.0
  {
    if n > 0 { NoVolumeDeposit(g, c, n - 1); }
  }

  /** Two bins of width 1 and a candle 1e-13 tall on their common edge: its volume is lost. */
  lemma LostCandleExample()
    ensures var g := Grid(0.0, 1.0, 2);
      var c := Candle(0.0, 60.0, 1.0, 1.0000000000001, 1.0, 1.0, 5.0, 0.0);
      g.Valid() && g.Covers(c) && Vanishes(g, c) && DepositUpTo(g, c, g.bins) == 0.0
  {
    var g := Grid(0.0, 1.0, 2);
    var c := Candle(0.0, 60.0, 1.0, 1.0000000000001, 1.0, 1.0, 5.0, 0.0);
    assert SitsOnEdge(g, c, 1);
    CandleDeposit(g, c);
  }

  // ----- Value area

  predicate NonNegative(volumes: seq<real>) {
    forall i :: 0 <= i < |volumes| ==> volumes[i] >= 0.0
  }

  /** `max(range(bins), key=volumes)`: the first of the heaviest bins. */
  function ArgMax(volumes: seq<real>): (p: nat)
    requires volumes != []
    ensures p < |volumes|
    ensures forall i :: 0 <= i < |volumes| ==> volumes[i] <= volumes[p]
    ensures forall i :: 0 <= i < p ==> volumes[i] < volumes[p]
  {
    if |volumes| == 1 then 0
    else
      var n := |volumes| - 1;
      var best := ArgMax(volumes[..n]);
      if volumes[n] > volumes[best] then n else best
  }

  function Neighbour(volumes: seq<real>, i: int): real {
    if 0 <= i < |volumes| then volumes[i] else -1.0
  }

  predicate Whole(volumes: seq<real>, lo: nat, hi: nat) { lo == 0 && hi + 1 == |volumes| }

  function Area(volumes: seq<real>, lo: nat, hi: nat): real
    requires lo <= hi < |volumes|
  {
    Sum(volumes[lo..hi + 1])
  }

  /** Where expansion from [lo, hi] toward the heavier neighbour (ties go up) first reaches the target. */
  function Grow(volumes: seq<real>, lo: nat, hi: nat, target: real): (nat, nat)
    requires NonNegative(volumes) && lo <= hi < |volumes|
    decreases |volumes| - (hi - lo)
  {
    if Area(volumes, lo, hi) >= target || Whole(volumes, lo, hi) then (lo, hi)
    else if Neighbour(volumes, hi + 1) >= Neighbour(volumes, lo - 1) then Grow(volumes, lo, hi + 1, target)
    else Grow(volumes, lo - 1, hi, target)
  }

  lemma AreaSteps(volumes: seq<real>, lo: nat, hi: nat)
    requires lo <= hi < |volumes|
    ensures hi + 1 < |volumes| ==> Area(volumes, lo, hi + 1) == Area(volumes, lo, hi) + volumes[hi + 1]
    ensures lo > 0 ==> Area(volumes, lo - 1, hi) == volumes[lo - 1] + Area(volumes, lo, hi)
  {
    if hi + 1 < |volumes| {
      assert volumes[lo..hi + 2] == volumes[lo..hi + 1] + [volumes[hi + 1]];
    }
    if lo > 0 {
      assert volumes[lo - 1..hi + 1] == [volumes[lo - 1]] + volumes[lo..hi + 1];
      SumConcat([volumes[lo - 1]], volumes[lo..hi + 1]);
      SumOne(volumes[lo - 1]);
    }
  }

  /** A larger target never loses a bin: value areas are nested. */
  lemma {:induction false} ValueAreasNested(volumes: seq<real>, lo: nat, hi: nat, t1: real, t2: real)
    requires NonNegative(volumes) && lo <= hi < |volumes| && t1 <= t2
    ensures var (a, b) := Grow(volumes, lo, hi, t1);
      var (c, d) := Grow(volumes, lo, hi, t2);
      c <= a <= lo && hi <= b <= d < |volumes|
    decreases |volumes| - (hi - lo)
  {
    if !Whole(volumes, lo, hi) {
      if Neighbour(volumes, hi + 1) >= Neighbour(volumes, lo - 1) {
        ValueAreasNested(volumes, lo, hi + 1, t1, t2);
      } else {
        ValueAreasNested(volumes, lo - 1, hi, t1, t2);
      }
    }
  }

  /** The area is tight and rightly taken: without its last bin it is below the target, and that bin was no lighter
      than the one on the other side, heavier if it lies below. */
  lemma {:induction false} ValueAreaTight(volumes: seq<real>, lo: nat, hi: nat, target: real)
    requires NonNegative(volumes) && lo <= hi < |volumes|
    ensures var (a, b) := Grow(volumes, lo, hi, target);
      a <= lo && hi <= b < |volumes| &&
      ((a, b) == (lo, hi) ||
       (a < lo && Area(volumes, a + 1, b) < target && (b + 1 == |volumes| || volumes[a] > volumes[b + 1])) ||
       (hi < b && Area(volumes, a, b - 1) < target && (a == 0 || volumes[b] >= volumes[a - 1])))
    decreases |volumes| - (hi - lo)
  {
    hide Area, Sum;
    if Area(volumes, lo, hi) < target && !Whole(volumes, lo, hi) {
      if Neighbour(volumes, hi + 1) >= Neighbour(volumes, lo - 1) {
        ValueAreaTight(volumes, lo, hi + 1, target);
      } else {
        ValueAreaTight(volumes, lo - 1, hi, target);
      }
    }
  }

  /** The bins lo..hi reach the target or are all there are, and the last one taken was needed and was no lighter than
      the one on the other side, heavier if it lies below. */
  ghost predicate RightlyTaken(volumes: seq<real>, lo: nat, poc: nat, hi: nat, target: real)
    requires lo <= poc <= hi < |volumes|
  {
    && (Sum(volumes[lo..hi + 1]) >= target || (lo == 0 && hi + 1 == |volumes|))
    && (lo == poc == hi
        || (lo < poc && Sum(volumes[lo + 1..hi + 1]) < target && (hi + 1 == |volumes| || volumes[lo] > volumes[hi + 1]))
        || (poc < hi && Sum(volumes[lo..hi]) < target && (lo == 0 || volumes[hi] >= volumes[lo - 1])))
  }

  lemma GrownRightly(volumes: seq<real>, poc: nat, target: real)
    requires NonNegative(volumes) && poc < |volumes|
    ensures var (lo, hi) := Grow(volumes, poc, poc, target);
      lo <= poc <= hi < |volumes| && RightlyTaken(volumes, lo, poc, hi, target)
  {
    hide Grow, Sum, NonNegative;
    ValueAreaTight(volumes, poc, poc, target);
    GrowReaches(volumes, poc, poc, target);
  }

  /** The expansion loop from the point of control. */
  method ValueArea(volumes: seq<real>, poc: nat, target: real) returns (lo: nat, hi: nat, area: real)
    requires NonNegative(volumes) && poc < |volumes|
    ensures lo <= poc <= hi < |volumes|
    ensures (lo, hi) == Grow(volumes, poc, poc, target)
    ensures area == Sum(volumes[lo..hi + 1]) && RightlyTaken(volumes, lo, poc, hi, target)
  {
    hide Sum, RightlyTaken;
    lo, hi, area := poc, poc, volumes[poc];
    assert volumes[poc..poc + 1] == [volumes[poc]];
    SumOne(volumes[poc]);
    while area < target && (lo > 0 || hi < |volumes| - 1)
      invariant lo <= poc <= hi < |volumes|
      invariant area == Area(volumes, lo, hi)
      invariant Grow(volumes, lo, hi, target) == Grow(volumes, poc, poc, target)
      decreases |volumes| - (hi - lo)
    {
      AreaSteps(volumes, lo, hi);
      var below := if lo > 0 then volumes[lo - 1] else -1.0;
      var above := if hi < |volumes| - 1 then volumes[hi + 1] else -1.0;
      if above >= below {
        hi := hi + 1;
        area := area + volumes[hi];
      } else {
        lo := lo - 1;
        area := area + volumes[lo];
      }
    }
    GrownRightly(volumes, poc, target);
  }

  // ----- High and low volume nodes

  predicate IsHvn(volumes: seq<real>, i: nat, threshold: real) {
    i < |volumes| && volumes[i] >= Neighbour(volumes, i - 1) && volumes[i] >= Neighbour(volumes, i + 1)
    && volumes[i] >= threshold
  }

  predicate IsLvn(volumes: seq<real>, i: nat, threshold: real) {
    i < |volumes| && volumes[i] <= Neighbour(volumes, i - 1) && volumes[i] <= Neighbour(volumes, i + 1)
    && volumes[i] <= threshold
  }

  predicate IsNode(volumes: seq<real>, i: nat, threshold: real, peak: bool) {
    if peak then IsHvn(volumes, i, threshold) else IsLvn(volumes, i, threshold)
  }

  /** The qualifying bins below `n`, in price order. */
  function NodesUpTo(volumes: seq<real>, n: nat, threshold: real, peak: bool): (s: seq<nat>)
    requires n <= |volumes|
    ensures forall k :: 0 <= k < |s| ==> s[k] < n
  {
    if n == 0 then []
    else NodesUpTo(volumes, n - 1, threshold, peak) +
         if IsNode(volumes, n - 1, threshold, peak) then [n - 1] else []
  }

  lemma {:induction false} NodesComplete(volumes: seq<real>, n: nat, threshold: real, peak: bool)
    requires n <= |volumes|
    ensures var s := NodesUpTo(volumes, n, threshold, peak);
      && (forall i: nat :: i in s <==> i < n && IsNode(volumes, i, threshold, peak))
      && (forall j, k :: 0 <= j < k < |s| ==> s[j] < s[k])
  {
    if n > 0 { NodesComplete(volumes, n - 1, threshold, peak); }
  }

  method Nodes(volumes: seq<real>, high: real, low: real) returns (hvn: seq<nat>, lvn: seq<nat>)
    ensures hvn == NodesUpTo(volumes, |volumes|, high, true)
    ensures lvn == NodesUpTo(volumes, |volumes|, low, false)
  {
    hvn, lvn := [], [];
    for i := 0 to |volumes|
      invariant hvn == NodesUpTo(volumes, i, high, true)
      invariant lvn == NodesUpTo(volumes, i, low, false)
    {
      var left := if i > 0 then volumes[i - 1] else -1.0;
      var right := if i < |volumes| - 1 then volumes[i + 1] else -1.0;
      var isPeak := volumes[i] >= left && volumes[i] >= right;
      var isValley := volumes[i] <= left && volumes[i] <= right;
      if isPeak && volumes[i] >= high { hvn := hvn + [i]; }
      if isValley && volumes[i] <= low { lvn := lvn + [i]; }
    }
  }

  /** Nodes exist exactly when the point of control is one; low nodes never touch the range ends. */
  lemma NodeStructure(volumes: seq<real>, high: real, low: real, i: nat)
    requires NonNegative(volumes) && volumes != []
    ensures IsHvn(volumes, i, high) ==> IsHvn(volumes, ArgMax(volumes), high)
    ensures IsLvn(volumes, i, low) ==> 0 < i < |volumes| - 1
    ensures low < high ==> !(IsHvn(volumes, i, high) && IsLvn(volumes, i, low))
  {
    var p := ArgMax(volumes);
    assert volumes[p] >= 0.0;
  }

  // ----- The whole profile

  datatype ProfileBin = ProfileBin(low: real, high: real, volume: real) {
    function Mid(): real { (low + high) / 2.0 }
  }

  datatype Profile = Profile(bins: seq<ProfileBin>, poc: real, vah: real, val: real, hvn: seq<real>,
                             lvn: seq<real>, totalVolume: real, valueAreaPct: real)

  function LowestLow(candles: seq<Candle>): (m: real)
    requires candles != []
    ensures forall c | c in candles :: m <= c.low
    ensures exists c | c in candles :: m == c.low
  {
    if |candles| == 1 then candles[0].low
    else
      assert candles == candles[..|candles| - 1] + [candles[|candles| - 1]];
      Min(LowestLow(candles[..|candles| - 1]), candles[|candles| - 1].low)
  }

  function HighestHigh(candles: seq<Candle>): (m: real)
    requires candles != []
    ensures forall c | c in candles :: c.high <= m
    ensures exists c | c in candles :: m == c.high
  {
    if |candles| == 1 then candles[0].high
    else
      assert candles == candles[..|candles| - 1] + [candles[|candles| - 1]];
      Max(HighestHigh(candles[..|candles| - 1]), candles[|candles| - 1].high)
  }

  function GridFor(candles: seq<Candle>, bins: nat): (g: Grid)
    requires candles != [] && bins > 1
    ensures forall c | c in candles :: g.Covers(c)
  {
    var low, high := LowestLow(candles), HighestHigh(candles);
    var g := Grid(low, (high - low) / bins as real, bins);
    DivMul(high - low, bins as real);
    assert g.Edge(bins) == high;
    g
  }

  lemma {:induction false} BinnedNonNegative(g: Grid, candles: seq<Candle>, i: nat)
    requires g.Valid()
    ensures Binned(g, candles, i) >= 0.0
  {
    if candles != [] {
      BinnedNonNegative(g, candles[..|candles| - 1], i);
      var c := candles[|candles| - 1];
      if c.volume > 0.0 && !SingleBin(g, c) && Overlap(g, c, i) > 0.0 {
        DivMonotone(0.0, Overlap(g, c, i), c.high - c.low);
        MulMonotone(0.0, Overlap(g, c, i) / (c.high - c.low), c.volume);
      }
    }
  }

  lemma {:induction false} SumIsTotal(g: Grid, candles: seq<Candle>, volumes: seq<real>)
    requires g.Valid() && forall i :: 0 <= i < |volumes| ==> volumes[i] == Binned(g, candles, i)
    ensures Sum(volumes) == TotalUpTo(g, candles, |volumes|)
  {
    if volumes != [] { SumIsTotal(g, candles, volumes[..|volumes| - 1]); }
  }

  function Mids(bins: seq<ProfileBin>, indices: seq<nat>): seq<real>
    requires forall k :: 0 <= k < |indices| ==> indices[k] < |bins|
  {
    seq(|indices|, k requires 0 <= k < |indices| => bins[indices[k]].Mid())
  }

  function BinsOf(g: Grid, volumes: seq<real>): seq<ProfileBin> {
    seq(|volumes|, i requires 0 <= i < |volumes| => ProfileBin(g.Edge(i), g.Edge(i + 1), volumes[i]))
  }

  /** The profile reported for binned volumes, a value area [lo, hi] and two node lists. */
  function Report(bins: seq<ProfileBin>, poc: nat, lo: nat, hi: nat, hvn: seq<nat>, lvn: seq<nat>,
                  total: real, share: real): Profile
    requires poc < |bins| && lo < |bins| && hi < |bins|
    requires forall k :: 0 <= k < |hvn| ==> hvn[k] < |bins|
    requires forall k :: 0 <= k < |lvn| ==> lvn[k] < |bins|
  {
    Profile(bins, bins[poc].Mid(), bins[hi].high, bins[lo].low, Mids(bins, hvn), Mids(bins, lvn), total, share)
  }

  /** What the settings ask of a profile with a given total. */
  datatype Thresholds = Thresholds(area: real, highNode: real, lowNode: real)

  function ThresholdsFor(total: real, bins: nat, pct: real, ratio: real): Thresholds
    requires bins > 0 && ratio != 0.0
  {
    var baseline := total / bins as real;
    Thresholds(Times(pct, total), ratio * baseline, baseline / ratio)
  }

  /** The specification: value area grown from the heaviest bin, nodes complete. */
  function ProfileOf(g: Grid, volumes: seq<real>, t: Thresholds): Profile
    requires g.Valid() && NonNegative(volumes) && |volumes| == g.bins && Sum(volumes) > 0.0
  {
    var poc := ArgMax(volumes);
    ValueAreasNested(volumes, poc, poc, t.area, t.area);
    var (lo, hi) := Grow(volumes, poc, poc, t.area);
    Report(BinsOf(g, volumes), poc, lo, hi, NodesUpTo(volumes, g.bins, t.highNode, true),
           NodesUpTo(volumes, g.bins, t.lowNode, false), Sum(volumes), Area(volumes, lo, hi) / Sum(volumes))
  }

  method FromVolumes(g: Grid, volumes: seq<real>, t: Thresholds) returns (p: Profile)
    requires g.Valid() && NonNegative(volumes) && |volumes| == g.bins && Sum(volumes) > 0.0
    ensures p == ProfileOf(g, volumes, t)
  {
    var poc := ArgMax(volumes);
    var lo, hi, area := ValueArea(volumes, poc, t.area);
    var hvn, lvn := Nodes(volumes, t.highNode, t.lowNode);
    p := Report(BinsOf(g, volumes), poc, lo, hi, hvn, lvn, Sum(volumes), area / Sum(volumes));
  }

  /** The point of control lies inside the value area. */
  lemma {:induction false} PocInsideValueArea(g: Grid, volumes: seq<real>, t: Thresholds)
    requires g.Valid() && NonNegative(volumes) && |volumes| == g.bins && Sum(volumes) > 0.0
    ensures var p := ProfileOf(g, volumes, t); p.val < p.poc < p.vah
  {
    var poc := ArgMax(volumes);
    ValueAreasNested(volumes, poc, poc, t.area, t.area);
    var (lo, hi) := Grow(volumes, poc, poc, t.area);
    MidBetween(g, lo, poc, hi);
    var bins := BinsOf(g, volumes);
    assert bins[poc].Mid() == (g.Edge(poc) + g.Edge(poc + 1)) / 2.0;
    assert bins[lo].low == g.Edge(lo) && bins[hi].high == g.Edge(hi + 1);
  }

  /** The value area holds the asked share of the volume. */
  lemma {:induction false} ValueAreaShare(g: Grid, volumes: seq<real>, t: Thresholds)
    requires g.Valid() && NonNegative(volumes) && |volumes| == g.bins && Sum(volumes) > 0.0
    ensures ProfileOf(g, volumes, t).valueAreaPct >= Min(t.area / Sum(volumes), 1.0)
  {
    var area := AreaReached(volumes, t.area);
    ShareAtLeast(area, t.area, Sum(volumes));
  }

  lemma ShareAtLeast(area: real, target: real, total: real)
    requires total > 0.0 && (area >= target || area == total)
    ensures area / total >= Min(target / total, 1.0)
  {
    if area != total { DivMonotone(target, area, total); }
  }

  lemma AreaReached(volumes: seq<real>, target: real) returns (area: real)
    requires NonNegative(volumes) && Sum(volumes) > 0.0
    ensures var poc := ArgMax(volumes);
      var (lo, hi) := Grow(volumes, poc, poc, target);
      lo <= hi < |volumes| && area == Area(volumes, lo, hi) && (area >= target || area == Sum(volumes))
  {
    var poc := ArgMax(volumes);
    GrowReaches(volumes, poc, poc, target);
    var (lo, hi) := Grow(volumes, poc, poc, target);
    if Whole(volumes, lo, hi) { assert volumes[lo..hi + 1] == volumes; }
    area := Area(volumes, lo, hi);
  }

  lemma {:induction false} GrowReaches(volumes: seq<real>, lo: nat, hi: nat, target: real)
    requires NonNegative(volumes) && lo <= hi < |volumes|
    ensures var (a, b) := Grow(volumes, lo, hi, target);
      a <= b < |volumes| && (Area(volumes, a, b) >= target || Whole(volumes, a, b))
    decreases |volumes| - (hi - lo)
  {
    if Area(volumes, lo, hi) < target && !Whole(volumes, lo, hi) {
      if Neighbour(volumes, hi + 1) >= Neighbour(volumes, lo - 1) {
        GrowReaches(volumes, lo, hi + 1, target);
      } else {
        GrowReaches(volumes, lo - 1, hi, target);
      }
    }
  }

  /** The reported prices belong to the bins of the area and of the point of control. */
  lemma ReportedPrices(g: Grid, volumes: seq<real>, t: Thresholds, poc: nat, lo: nat, hi: nat)
    requires g.Valid() && NonNegative(volumes) && |volumes| == g.bins && Sum(volumes) > 0.0
    requires poc == ArgMax(volumes) && (lo, hi) == Grow(volumes, poc, poc, t.area) && lo <= poc <= hi < g.bins
    ensures var p := ProfileOf(g, volumes, t);
      && p.totalVolume == Sum(volumes) && p.val == g.Edge(lo) && p.vah == g.Edge(hi + 1)
      && 2.0 * p.poc == g.Edge(poc) + g.Edge(poc + 1)
      && p.valueAreaPct == Area(volumes, lo, hi) / Sum(volumes)
      && |p.bins| == g.bins
      && forall i :: 0 <= i < g.bins ==> p.bins[i] == ProfileBin(g.Edge(i), g.Edge(i + 1), volumes[i])
  {
    hide Sum, Grow, Area, NodesUpTo, Mids, Grid.Edge;
  }

  /** The grid cuts the window's price range, from its lowest low to its highest high, into equal bins. */
  lemma EdgeMeaning(candles: seq<Candle>, bins: nat, i: nat)
    requires candles != [] && bins > 1 && i <= bins
    ensures var g := GridFor(candles, bins);
      && (exists a, b :: a in candles && b in candles && g.Edge(0) == a.low && g.Edge(bins) == b.high)
      && (forall c :: c in candles ==> g.Edge(0) <= c.low && c.high <= g.Edge(bins))
      && (g.Edge(i) - g.Edge(0)) * bins as real == i as real * (g.Edge(bins) - g.Edge(0))
  {
    var g := GridFor(candles, bins);
    var low, high := LowestLow(candles), HighestHigh(candles);
    DivMul(high - low, bins as real);
    assert g.Edge(0) == low && g.Edge(bins) == high;
    assert i as real * g.step * bins as real == i as real * (g.step * bins as real);
  }

  /** The profile in prices and volumes: `lo`, `poc` and `hi` are the bins of its three prices. */
  lemma ProfileMeaning(g: Grid, volumes: seq<real>, pct: real, ratio: real) returns (lo: nat, poc: nat, hi: nat)
    requires g.Valid() && NonNegative(volumes) && |volumes| == g.bins && Sum(volumes) > 0.0 && ratio > 0.0
    ensures lo <= poc <= hi < g.bins && RightlyTaken(volumes, lo, poc, hi, Times(pct, Sum(volumes)))
    ensures forall i :: 0 <= i < g.bins ==> volumes[i] <= volumes[poc] && (i < poc ==> volumes[i] < volumes[poc])
    ensures var p := ProfileOf(g, volumes, ThresholdsFor(Sum(volumes), g.bins, pct, ratio));
      && p.val == g.Edge(lo) && p.vah == g.Edge(hi + 1) && 2.0 * p.poc == g.Edge(poc) + g.Edge(poc + 1)
      && p.totalVolume == Sum(volumes) && p.valueAreaPct * p.totalVolume == Sum(volumes[lo..hi + 1])
    ensures var p := ProfileOf(g, volumes, ThresholdsFor(Sum(volumes), g.bins, pct, ratio));
      && |p.bins| == g.bins
      && forall i :: 0 <= i < g.bins ==> p.bins[i] == ProfileBin(g.Edge(i), g.Edge(i + 1), volumes[i])
  {
    hide Sum, Grow, Area, ProfileOf, RightlyTaken, Grid.Edge, ThresholdsFor, Times;
    AreaTarget(Sum(volumes), g.bins, pct, ratio);
    assert volumes != [];
    var t := ThresholdsFor(Sum(volumes), g.bins, pct, ratio);
    lo, poc, hi := AreaMeaning(volumes, t.area);
    ReportedPrices(g, volumes, t, poc, lo, hi);
    DivMul(Area(volumes, lo, hi), Sum(volumes));
  }

  lemma AreaTarget(total: real, bins: nat, pct: real, ratio: real)
    requires bins > 0 && ratio > 0.0
    ensures ThresholdsFor(total, bins, pct, ratio).area == Times(pct, total)
  {
  }

  lemma AreaMeaning(volumes: seq<real>, target: real) returns (lo: nat, poc: nat, hi: nat)
    requires NonNegative(volumes) && Sum(volumes) > 0.0
    ensures poc == ArgMax(volumes) && (lo, hi) == Grow(volumes, poc, poc, target) && lo <= poc <= hi < |volumes|
    ensures Area(volumes, lo, hi) == Sum(volumes[lo..hi + 1]) && RightlyTaken(volumes, lo, poc, hi, target)
  {
    hide Grow, RightlyTaken;
    assert volumes != [];
    poc := ArgMax(volumes);
    GrownRightly(volumes, poc, target);
    var (a, b) := Grow(volumes, poc, poc, target);
    lo, hi := a, b;
  }

  /** The reported node prices are the middles of `at`: the local peaks of at least `ratio` times, or the local
      valleys of at most one `ratio`-th of, the average bin. */
  lemma NodesMeaning(g: Grid, volumes: seq<real>, pct: real, ratio: real, peak: bool) returns (at: seq<nat>)
    requires g.Valid() && NonNegative(volumes) && |volumes| == g.bins && Sum(volumes) > 0.0 && ratio > 0.0
    ensures var p := ProfileOf(g, volumes, ThresholdsFor(Sum(volumes), g.bins, pct, ratio));
      var prices := if peak then p.hvn else p.lvn;
      && |prices| == |at| && (forall j, k :: 0 <= j < k < |at| ==> at[j] < at[k])
      && forall k :: 0 <= k < |at| ==>
           at[k] < g.bins && 2.0 * prices[k] == g.Edge(at[k]) + g.Edge(at[k] + 1)
    ensures forall i: nat :: i in at <==> NodeInVolumes(volumes, i, ratio, peak)
  {
    hide Grow, NodesUpTo, Area, ProfileOf, Sum, IsNode, NodeInVolumes, ThresholdsFor, Grid.Edge;
    var t := ThresholdsFor(Sum(volumes), g.bins, pct, ratio);
    var threshold := if peak then t.highNode else t.lowNode;
    at := NodesUpTo(volumes, g.bins, threshold, peak);
    NodesComplete(volumes, g.bins, threshold, peak);
    ReportedNodes(g, volumes, t, peak);
    forall i: nat | i < g.bins ensures IsNode(volumes, i, threshold, peak) <==> NodeInVolumes(volumes, i, ratio, peak) {
      NodeMeaning(volumes, i, pct, ratio, peak);
    }
    forall k | 0 <= k < |at|
      ensures NodeInVolumes(volumes, at[k], ratio, peak)
    {
      assert at[k] in at;
    }
    forall i: nat ensures NodeInVolumes(volumes, i, ratio, peak) ==> i < g.bins { NodeInside(volumes, i, ratio, peak); }
  }

  lemma NodeInside(volumes: seq<real>, i: nat, ratio: real, peak: bool)
    ensures NodeInVolumes(volumes, i, ratio, peak) ==> i < |volumes|
  {
  }

  lemma NodeMeaning(volumes: seq<real>, i: nat, pct: real, ratio: real, peak: bool)
    requires NonNegative(volumes) && i < |volumes| && ratio > 0.0
    ensures var t := ThresholdsFor(Sum(volumes), |volumes|, pct, ratio);
      IsNode(volumes, i, if peak then t.highNode else t.lowNode, peak) <==> NodeInVolumes(volumes, i, ratio, peak)
  {
    hide Sum, ThresholdsFor;
    ThresholdsMeaning(volumes[i], Sum(volumes), |volumes|, pct, ratio);
  }

  /** Node prices are the middles of their bins. */
  lemma ReportedNodes(g: Grid, volumes: seq<real>, t: Thresholds, peak: bool)
    requires g.Valid() && NonNegative(volumes) && |volumes| == g.bins && Sum(volumes) > 0.0
    ensures var p := ProfileOf(g, volumes, t);
      var prices := if peak then p.hvn else p.lvn;
      var at := NodesUpTo(volumes, g.bins, if peak then t.highNode else t.lowNode, peak);
      |prices| == |at| && forall k :: 0 <= k < |at| ==>
        at[k] < g.bins && 2.0 * prices[k] == g.Edge(at[k]) + g.Edge(at[k] + 1)
  {
    hide Sum, Grow, Area, NodesUpTo, Grid.Edge;
  }

  /** A local peak of at least `ratio` times the average bin, or a local valley of at most one `ratio`-th of it. */
  predicate NodeInVolumes(volumes: seq<real>, i: nat, ratio: real, peak: bool) {
    i < |volumes|
    && if peak then
         (i > 0 ==> volumes[i] >= volumes[i - 1]) && (i + 1 < |volumes| ==> volumes[i] >= volumes[i + 1])
         && volumes[i] * |volumes| as real >= ratio * Sum(volumes)
       else
         0 < i < |volumes| - 1 && volumes[i] <= volumes[i - 1] && volumes[i] <= volumes[i + 1]
         && volumes[i] * |volumes| as real * ratio <= Sum(volumes)
  }

  lemma ThresholdsMeaning(v: real, total: real, bins: nat, pct: real, ratio: real)
    requires bins > 0 && ratio > 0.0
    ensures var t := ThresholdsFor(total, bins, pct, ratio);
      && (v >= t.highNode <==> v * bins as real >= ratio * total)
      && (v <= t.lowNode <==> v * bins as real * ratio <= total)
  {
    var n := bins as real;
    var average := total / n;
    DivMul(total, n);
    ScaledOrder(v, ratio * average, n);
    assert ratio * average * n == ratio * total;
    DivMul(average, ratio);
    ScaledOrder(v, average / ratio, ratio);
    ScaledOrder(v * ratio, average, n);
    assert v * ratio * n == v * n * ratio;
  }

  lemma MidBetween(g: Grid, lo: nat, poc: nat, hi: nat)
    requires g.Valid() && lo <= poc <= hi
    ensures g.Edge(lo) < (g.Edge(poc) + g.Edge(poc + 1)) / 2.0 < g.Edge(hi + 1)
  {
    EdgeMonotone(g, lo, poc);
    EdgeMonotone(g, poc + 1, hi + 1);
    EdgeNext(g, poc);
  }

  /** `volume_profile`: `None` exactly without candles, range or binned volume. */
  method Build(candles: seq<Candle>, bins: int, valueAreaPct: real, nodeRatio: real)
    returns (r: Option<Profile>)
    requires nodeRatio != 0.0
    ensures r.Some? ==> candles != [] && bins > 1
    ensures candles != [] && bins > 1 ==> var g := GridFor(candles, bins);
      (r.Some? <==> g.step > 0.0 && TotalUpTo(g, candles, bins) > 0.0)
    ensures r.Some? ==> var g := GridFor(candles, bins);
      var volumes := seq(bins, i requires 0 <= i < bins => Binned(g, candles, i));
      && NonNegative(volumes) && Sum(volumes) > 0.0
      && r.value == ProfileOf(g, volumes, ThresholdsFor(Sum(volumes), bins, valueAreaPct, nodeRatio))
      && (1.0 - EPS) * KeptVolume(g, candles) < r.value.totalVolume <= KeptVolume(g, candles)
  {
    if candles == [] || bins <= 1 { return None; }
    var g := GridFor(candles, bins);
    if g.step <= 0.0 { return None; }
    var buffer := BinVolumes(candles, g);
    var volumes := buffer[..];
    assert volumes == seq(bins, i requires 0 <= i < bins => Binned(g, candles, i));
    SumIsTotal(g, candles, volumes);
    if Sum(volumes) <= 0.0 { return None; }
    VolumeConserved(g, candles);
    forall i: nat { BinnedNonNegative(g, candles, i); }
    var p := FromVolumes(g, volumes, ThresholdsFor(Sum(volumes), bins, valueAreaPct, nodeRatio));
    return Some(p);
  }
}
