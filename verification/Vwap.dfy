/** Anchored VWAP and its volume-weighted deviation bands. */
module Vwap {
  import opened Numeric
  import opened Market
  import opened Options

  function TypicalPrice(c: Candle): (p: real)
    ensures c.vwap > 0.0 ==> p == c.vwap
    ensures c.vwap <= 0.0 ==> 3.0 * p == c.high + c.low + c.close
  {
    if c.vwap > 0.0 then c.vwap else (c.high + c.low + c.close) / 3.0
  }

  /** The k-th power sum of typical prices weighted by volume, for k = 0, 1, 2. */
  function Weighted(c: Candle, k: nat): real {
    if k == 0 then c.volume
    else if k == 1 then TypicalPrice(c) * c.volume
    else c.volume * TypicalPrice(c) * TypicalPrice(c)
  }

  function Moment(window: seq<Candle>, k: nat): real {
    if window == [] then 0.0
    else Moment(window[..|window| - 1], k) + Weighted(window[|window| - 1], k)
  }

  function Volume(window: seq<Candle>): real { Moment(window, 0) }

  /** The VWAP is defined once some volume was seen. */
  function Value(window: seq<Candle>): real
    requires Volume(window) > 0.0
  {
    Moment(window, 1) / Volume(window)
  }

  lemma MomentStep(window: seq<Candle>, i: nat, k: nat)
    requires i < |window|
    ensures Moment(window[..i + 1], k) == Moment(window[..i], k) + Weighted(window[i], k)
  {
    assert window[..i + 1][..i] == window[..i];
  }

  method AnchoredVwap(candles: seq<Candle>, anchor: int) returns (r: Option<real>)
    ensures r.Some? <==> 0 <= anchor < |candles| && Volume(candles[anchor..]) > 0.0
    ensures r.Some? ==> r.value == Value(candles[anchor..])
  {
    if !(0 <= anchor < |candles|) { return None; }
    var window := candles[anchor..];
    var notional, volume := 0.0, 0.0;
    for i := 0 to |window|
      invariant notional == Moment(window[..i], 1) && volume == Moment(window[..i], 0)
    {
      MomentStep(window, i, 0);
      MomentStep(window, i, 1);
      notional := notional + TypicalPrice(window[i]) * window[i].volume;
      volume := volume + window[i].volume;
    }
    assert window[..|window|] == window;
    return if volume > 0.0 then Some(notional / volume) else None;
  }

  /** The running VWAP after every candle at which some volume had been seen. */
  function RunningVwaps(window: seq<Candle>): (s: seq<real>)
    ensures Volume(window) > 0.0 ==> s != [] && s[|s| - 1] == Value(window)
  {
    if window == [] then []
    else RunningVwaps(window[..|window| - 1]) + if Volume(window) > 0.0 then [Value(window)] else []
  }

  /** Percent per bar gained by the VWAP over the lookback. */
  function SlopePct(series: seq<real>, lookbackAsked: int): real
    requires series != []
  {
    var lookback := if lookbackAsked <= |series| - 1 then lookbackAsked else |series| - 1;
    if lookback > 0 && series[|series| - 1 - lookback] > 0.0 then
      (series[|series| - 1] / series[|series| - 1 - lookback] - 1.0) * 100.0 / lookback as real
    else 0.0
  }

  datatype Bands = Bands(value: real, std: real, upper1: real, lower1: real, upper2: real, lower2: real,
                         slopePctPerBar: real, distancePct: real, bars: nat)

  /** The price `m` deviations above the value; below it for a negative `m`. */
  function BandPrice(value: real, m: real, std: real): real { value + m * std }

  function DistancePct(price: real, value: real): real {
    if value > 0.0 then (price - value) / value * 100.0 else 0.0
  }

  /** The one-pass variance before the clamp at zero. */
  function OnePassVariance(window: seq<Candle>): real
    requires Volume(window) > 0.0
  {
    Moment(window, 2) / Volume(window) - Value(window) * Value(window)
  }

  /** The accumulation loop over the window. */
  method Accumulate(window: seq<Candle>) returns (series: seq<real>, volume: real, weightedSq: real)
    ensures series == RunningVwaps(window) && volume == Volume(window) && weightedSq == Moment(window, 2)
  {
    var notional := 0.0;
    series, volume, weightedSq := [], 0.0, 0.0;
    for i := 0 to |window|
      invariant notional == Moment(window[..i], 1) && volume == Moment(window[..i], 0)
      invariant weightedSq == Moment(window[..i], 2)
      invariant series == RunningVwaps(window[..i])
    {
      var typical := TypicalPrice(window[i]);
      MomentStep(window, i, 0);
      MomentStep(window, i, 1);
      MomentStep(window, i, 2);
      assert window[..i + 1][..i] == window[..i];
      notional := notional + typical * window[i].volume;
      volume := volume + window[i].volume;
      weightedSq := weightedSq + window[i].volume * typical * typical;
      if volume > 0.0 { series := series + [notional / volume]; }
    }
    assert window[..|window|] == window;
  }

  /** `root` stands for the square root. */
  function BandsOf(window: seq<Candle>, m1: real, m2: real, slopeLookback: int, price: real, root: real -> real): Bands
    requires Volume(window) > 0.0
  {
    var value, std := Value(window), root(Max(0.0, OnePassVariance(window)));
    Bands(value, std, BandPrice(value, m1, std), BandPrice(value, -m1, std), BandPrice(value, m2, std),
          BandPrice(value, -m2, std), SlopePct(RunningVwaps(window), slopeLookback), DistancePct(price, value),
          |window|)
  }

  method VwapBands(candles: seq<Candle>, anchor: int, m1: real, m2: real, slopeLookback: int, reference: Option<real>,
                   root: real -> real)
    returns (r: Option<Bands>)
    ensures r.Some? <==> 0 <= anchor < |candles| && Volume(candles[anchor..]) > 0.0
    ensures r.Some? ==> var window := candles[anchor..];
      var price := if reference.Some? then reference.value else window[|window| - 1].close;
      r.value == BandsOf(window, m1, m2, slopeLookback, price, root)
  {
    if !(0 <= anchor < |candles|) { return None; }
    hide SlopePct, DistancePct, Moment, RunningVwaps, BandPrice;
    var window := candles[anchor..];
    var series, volume, weightedSq := Accumulate(window);
    if volume <= 0.0 || series == [] { return None; }
    var value := series[|series| - 1];
    assert value == Value(window) && weightedSq / volume - value * value == OnePassVariance(window);
    var std := root(Max(0.0, weightedSq / volume - value * value));
    var price := if reference.Some? then reference.value else window[|window| - 1].close;
    return Some(Bands(value, std, BandPrice(value, m1, std), BandPrice(value, -m1, std), BandPrice(value, m2, std),
                      BandPrice(value, -m2, std), SlopePct(series, slopeLookback), DistancePct(price, value),
                      |window|));
  }

  lemma {:induction false} RunningAt(window: seq<Candle>, k: nat)
    requires k < |window| && forall i :: 0 <= i < |window| ==> window[i].volume > 0.0
    ensures |RunningVwaps(window)| == |window| && Volume(window[..k + 1]) > 0.0
    ensures RunningVwaps(window)[k] == Value(window[..k + 1])
  {
    hide Value;
    var n := |window| - 1;
    VolumePositive(window);
    if k < n {
      RunningAt(window[..n], k);
      assert window[..n][..k + 1] == window[..k + 1];
    } else {
      if n > 0 { RunningAt(window[..n], n - 1); }
      assert window[..k + 1] == window;
    }
  }

  lemma {:induction false} VolumePositive(window: seq<Candle>)
    requires window != [] && forall i :: 0 <= i < |window| ==> window[i].volume > 0.0
    ensures Volume(window) > 0.0
  {
    var n := |window| - 1;
    MomentStep(window, n, 0);
    assert window[..n + 1] == window;
    assert window[n].volume > 0.0;
    if n > 0 { VolumePositive(window[..n]); }
  }

  /** The deviation is the root of the variance, and each band lies its multiple of it above or below the value. The
      slope is the average gain per bar, in percent of the value `back` bars ago; the distance is that of the price in
      percent of the value. */
  lemma BandsMeaning(window: seq<Candle>, m1: real, m2: real, slopeLookback: int, price: real, root: real -> real,
                     back: nat)
    requires window != [] && forall i :: 0 <= i < |window| ==> window[i].volume > 0.0 && TypicalPrice(window[i]) > 0.0
    requires back == (if slopeLookback <= 0 then 0 else if slopeLookback < |window| then slopeLookback
                      else |window| - 1)
    ensures Volume(window) > 0.0 && Volume(window[..|window| - back]) > 0.0
    ensures var b := BandsOf(window, m1, m2, slopeLookback, price, root);
      var past := Value(window[..|window| - back]);
      && b.value == Value(window) && b.bars == |window| && b.std == root(OnePassVariance(window))
      && b.upper1 - b.value == Times(m1, b.std) == b.value - b.lower1
      && b.upper2 - b.value == Times(m2, b.std) == b.value - b.lower2
      && Times(b.distancePct, b.value) == 100.0 * (price - b.value)
      && if back == 0 then b.slopePctPerBar == 0.0
         else Times(b.slopePctPerBar * back as real, past) == 100.0 * (b.value - past)
  {
    hide Value, RunningVwaps, OnePassVariance, TypicalPrice;
    VolumePositive(window);
    VarianceNonNegative(window);
    RunningAt(window, |window| - 1);
    RunningAt(window, |window| - 1 - back);
    assert window[..|window|] == window;
    ValuePositive(window);
    ValuePositive(window[..|window| - back]);
    var series := RunningVwaps(window);
    DivMul(price - Value(window), Value(window));
    if back > 0 { SlopeGain(series[|series| - 1], series[|series| - 1 - back], back as real); }
  }

  lemma SlopeGain(now: real, past: real, back: real)
    requires past > 0.0 && back > 0.0
    ensures Times((now / past - 1.0) * 100.0 / back * back, past) == 100.0 * (now - past)
  {
    DivMul(now, past);
    DivMul((now / past - 1.0) * 100.0, back);
    assert (now / past - 1.0) * past == now / past * past - past;
  }

  lemma {:induction false} NotionalPositive(window: seq<Candle>)
    requires window != [] && forall i :: 0 <= i < |window| ==> window[i].volume > 0.0 && TypicalPrice(window[i]) > 0.0
    ensures Moment(window, 1) > 0.0
  {
    var n := |window| - 1;
    PositiveProduct(TypicalPrice(window[n]), window[n].volume, Weighted(window[n], 1));
    if n > 0 { NotionalPositive(window[..n]); }
  }

  lemma ValuePositive(window: seq<Candle>)
    requires window != [] && forall i :: 0 <= i < |window| ==> window[i].volume > 0.0 && TypicalPrice(window[i]) > 0.0
    ensures Volume(window) > 0.0 && Value(window) > 0.0
  {
    VolumePositive(window);
    NotionalPositive(window);
    QuotientOrder(Moment(window, 1), Volume(window));
  }

  // ----- The one-pass variance is the two-pass variance

  function SquaredGap(c: Candle, m: real): real { (TypicalPrice(c) - m) * (TypicalPrice(c) - m) }

  function WeightedGap(c: Candle, m: real): real { c.volume * SquaredGap(c, m) }

  /** Volume-weighted sum of squared distances from `m`: the second pass. */
  function Deviation(window: seq<Candle>, m: real): real {
    if window == [] then 0.0
    else Deviation(window[..|window| - 1], m) + WeightedGap(window[|window| - 1], m)
  }

  function Expanded(m2: real, m1: real, m0: real, m: real): real { m2 - 2.0 * m * m1 + m * m * m0 }

  lemma GapExpands(c: Candle, m: real)
    ensures WeightedGap(c, m) == Expanded(Weighted(c, 2), Weighted(c, 1), Weighted(c, 0), m)
  {
    var p, v := TypicalPrice(c), c.volume;
    assert SquaredGap(c, m) == p * p - 2.0 * m * p + m * m;
    assert v * (p * p - 2.0 * m * p + m * m) == v * p * p - 2.0 * m * (p * v) + m * m * v;
  }

  lemma ExpandedAdds(a2: real, a1: real, a0: real, b2: real, b1: real, b0: real, m: real)
    ensures Expanded(a2, a1, a0, m) + Expanded(b2, b1, b0, m) == Expanded(a2 + b2, a1 + b1, a0 + b0, m)
  {
  }

  lemma {:induction false} DeviationExpands(window: seq<Candle>, m: real)
    ensures Deviation(window, m) == Expanded(Moment(window, 2), Moment(window, 1), Moment(window, 0), m)
  {
    if window != [] {
      hide Expanded, WeightedGap, Weighted;
      var n := |window| - 1;
      DeviationExpands(window[..n], m);
      GapExpands(window[n], m);
      ExpandedAdds(Moment(window[..n], 2), Moment(window[..n], 1), Moment(window[..n], 0),
                   Weighted(window[n], 2), Weighted(window[n], 1), Weighted(window[n], 0), m);
    }
  }

  lemma VarianceFromMoments(m2: real, m1: real, m0: real, value: real)
    requires m0 > 0.0 && value * m0 == m1
    ensures m2 / m0 - value * value == Expanded(m2, m1, m0, value) / m0
  {
    var q := m2 / m0 - value * value;
    DivMul(m2, m0);
    assert value * value * m0 == value * (value * m0);
    UniqueQuotient(Expanded(m2, m1, m0, value), m0, q);
  }

  /** One pass over the candles gives exactly the two-pass weighted variance. */
  lemma {:induction false} OnePassIsTwoPass(window: seq<Candle>)
    requires Volume(window) > 0.0
    ensures OnePassVariance(window) == Deviation(window, Value(window)) / Volume(window)
  {
    hide Expanded, Moment, Deviation;
    DivMul(Moment(window, 1), Volume(window));
    DeviationExpands(window, Value(window));
    VarianceFromMoments(Moment(window, 2), Moment(window, 1), Moment(window, 0), Value(window));
  }

  predicate VolumesNonNegative(window: seq<Candle>) {
    forall i :: 0 <= i < |window| ==> window[i].volume >= 0.0
  }

  /** Volume of the candles whose squared distance from `m` is at least `d2`. */
  function OutsideVolume(window: seq<Candle>, m: real, d2: real): real {
    if window == [] then 0.0
    else
      var c := window[|window| - 1];
      OutsideVolume(window[..|window| - 1], m, d2) + if SquaredGap(c, m) >= d2 then c.volume else 0.0
  }

  lemma GapAtLeast(c: Candle, m: real, d2: real)
    requires c.volume >= 0.0
    ensures WeightedGap(c, m) >= 0.0
    ensures SquaredGap(c, m) >= d2 ==> WeightedGap(c, m) >= d2 * c.volume
  {
    var g := SquaredGap(c, m);
    MulMonotone(0.0, g, c.volume);
    if g >= d2 { MulMonotone(d2, g, c.volume); }
  }

  lemma {:induction false} OutsideBounded(window: seq<Candle>, m: real, d2: real)
    requires VolumesNonNegative(window)
    ensures d2 * OutsideVolume(window, m, d2) <= Deviation(window, m)
    ensures Deviation(window, m) >= 0.0
  {
    if window != [] {
      hide WeightedGap, SquaredGap;
      var n := |window| - 1;
      var c := window[n];
      OutsideBounded(window[..n], m, d2);
      GapAtLeast(c, m, d2);
      assert d2 * (OutsideVolume(window[..n], m, d2) + c.volume)
             == d2 * OutsideVolume(window[..n], m, d2) + d2 * c.volume;
    }
  }

  /** So the variance is never negative and the clamp never bites. */
  lemma VarianceNonNegative(window: seq<Candle>)
    requires VolumesNonNegative(window) && Volume(window) > 0.0
    ensures OnePassVariance(window) >= 0.0
  {
    hide OnePassVariance, Deviation, Moment, Value;
    OnePassIsTwoPass(window);
    OutsideBounded(window, Value(window), 0.0);
    DivMonotone(0.0, Deviation(window, Value(window)), Volume(window));
  }

  /** At most a 1/k^2 share of the volume traded k deviations or more away from the VWAP. */
  lemma TailVolume(window: seq<Candle>, k2: real)
    requires VolumesNonNegative(window) && Volume(window) > 0.0 && OnePassVariance(window) > 0.0
    ensures Times(k2, OutsideVolume(window, Value(window), Times(k2, OnePassVariance(window)))) <= Volume(window)
  {
    hide OnePassVariance, Deviation, Moment, Value, OutsideVolume;
    var variance, m, volume := OnePassVariance(window), Value(window), Volume(window);
    OnePassIsTwoPass(window);
    DivMul(Deviation(window, m), volume);
    var d2 := Times(k2, variance);
    OutsideBounded(window, m, d2);
    CancelVariance(k2, variance, OutsideVolume(window, m, d2), volume, Deviation(window, m));
  }

  /** Volume traded at or beyond two prices. */
  function VolumeBeyond(window: seq<Candle>, lower: real, upper: real): real {
    if window == [] then 0.0
    else
      var c := window[|window| - 1];
      VolumeBeyond(window[..|window| - 1], lower, upper)
      + if TypicalPrice(c) <= lower || TypicalPrice(c) >= upper then c.volume else 0.0
  }

  lemma SquareOrder(x: real, d: real)
    requires d >= 0.0
    ensures x * x >= d * d <==> x <= -d || x >= d
  {
    hide Abs;
    var a := Abs(x);
    SquareOfAbs(x, d);
    if a >= d {
      MulMonotone(d, a, d);
      MulMonotone(d, a, a);
    } else {
      StrictMulMonotone(a, d, d);
      MulMonotone(a, d, a);
    }
  }

  lemma SquareOfAbs(x: real, d: real)
    requires d >= 0.0
    ensures x * x == Abs(x) * Abs(x) && Abs(x) >= 0.0
    ensures Abs(x) >= d <==> x <= -d || x >= d
  {
  }

  lemma BandGap(c: Candle, value: real, m: real, std: real, variance: real)
    requires m >= 0.0 && std >= 0.0 && std * std == variance
    ensures SquaredGap(c, value) >= Times(m * m, variance)
            <==> TypicalPrice(c) <= BandPrice(value, -m, std) || TypicalPrice(c) >= BandPrice(value, m, std)
  {
    hide TypicalPrice;
    var d, x := m * std, TypicalPrice(c) - value;
    MulMonotone(0.0, m, std);
    SquareOrder(x, d);
    assert d * d == (m * m) * (std * std);
    NegatedProduct(m, std, d);
  }

  lemma {:induction false} BeyondIsOutside(window: seq<Candle>, value: real, m: real, std: real, variance: real)
    requires m >= 0.0 && std >= 0.0 && std * std == variance
    ensures VolumeBeyond(window, BandPrice(value, -m, std), BandPrice(value, m, std))
            == OutsideVolume(window, value, Times(m * m, variance))
  {
    hide BandPrice, SquaredGap, Times, TypicalPrice;
    if window != [] {
      BeyondIsOutside(window[..|window| - 1], value, m, std, variance);
      BandGap(window[|window| - 1], value, m, std, variance);
    }
  }

  /** At most a 1/m^2 share of the volume traded at or beyond the two band prices `m` deviations away. */
  lemma BandsHoldVolume(window: seq<Candle>, m: real, std: real)
    requires VolumesNonNegative(window) && Volume(window) > 0.0 && OnePassVariance(window) > 0.0
    requires m >= 0.0 && std >= 0.0 && std * std == OnePassVariance(window)
    ensures var value := Value(window);
      Times(m * m, VolumeBeyond(window, BandPrice(value, -m, std), BandPrice(value, m, std))) <= Volume(window)
  {
    hide OnePassVariance, Value, Moment, OutsideVolume, VolumeBeyond, BandPrice, Times;
    BeyondIsOutside(window, Value(window), m, std, OnePassVariance(window));
    TailVolume(window, m * m);
  }

  lemma CancelVariance(k2: real, variance: real, outside: real, volume: real, deviation: real)
    requires variance > 0.0 && Times(k2, variance) * outside <= deviation && deviation == variance * volume
    ensures Times(k2, outside) <= volume
  {
    var x := k2 * outside;
    assert k2 * variance * outside == x * variance;
    if x > volume { StrictMulMonotone(volume, x, variance); }
  }

  /** The VWAP lies between the least and the greatest typical price of the window. */
  lemma ValueWithinPrices(window: seq<Candle>, lo: real, hi: real)
    requires VolumesNonNegative(window) && Volume(window) > 0.0
    requires forall i :: 0 <= i < |window| ==> lo <= TypicalPrice(window[i]) <= hi
    ensures lo <= Value(window) <= hi
  {
    hide Moment;
    NotionalBounds(window, lo, hi);
    var n, v := Moment(window, 1), Volume(window);
    DivMonotone(Times(lo, v), n, v);
    DivMonotone(n, Times(hi, v), v);
    UniqueQuotient(Times(lo, v), v, lo);
    UniqueQuotient(Times(hi, v), v, hi);
  }

  lemma {:induction false} NotionalBounds(window: seq<Candle>, lo: real, hi: real)
    requires VolumesNonNegative(window)
    requires forall i :: 0 <= i < |window| ==> lo <= TypicalPrice(window[i]) <= hi
    ensures Times(lo, Volume(window)) <= Moment(window, 1) <= Times(hi, Volume(window))
  {
    hide Times, TypicalPrice, Weighted;
    if window == [] {
      TimesAdds(lo, 0.0, 0.0);
      TimesAdds(hi, 0.0, 0.0);
    } else {
      var n := |window| - 1;
      NotionalBounds(window[..n], lo, hi);
      NotionalStep(window[n], lo, hi);
      TimesAdds(lo, Volume(window[..n]), Weighted(window[n], 0));
      TimesAdds(hi, Volume(window[..n]), Weighted(window[n], 0));
    }
  }

  lemma NotionalStep(c: Candle, lo: real, hi: real)
    requires c.volume >= 0.0 && lo <= TypicalPrice(c) <= hi
    ensures Times(lo, Weighted(c, 0)) <= Weighted(c, 1) <= Times(hi, Weighted(c, 0))
  {
    MulMonotone(lo, TypicalPrice(c), c.volume);
    MulMonotone(TypicalPrice(c), hi, c.volume);
  }
}
