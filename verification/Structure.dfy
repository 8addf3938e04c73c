/** Fractal swing points. */
module Structure {
  import opened Market
  import opened Options

  datatype Label = Unlabelled | HigherHigh | LowerHigh | HigherLow | LowerLow

  datatype Swing = Swing(index: nat, price: real, isHigh: bool, mark: Label)

  /** The candle's high strictly dominates its neighbourhood. */
  predicate SwingHigh(candles: seq<Candle>, left: nat, right: nat, i: nat) {
    && left <= i && i + right < |candles|
    && forall j :: i - left <= j <= i + right && j != i ==> candles[j].high < candles[i].high
  }

  predicate SwingLow(candles: seq<Candle>, left: nat, right: nat, i: nat) {
    && left <= i && i + right < |candles|
    && forall j :: i - left <= j <= i + right && j != i ==> candles[i].low < candles[j].low
  }

  /** Unlabelled pivots of the first `n` candles, a high before a low of the same candle. */
  function RawSwings(candles: seq<Candle>, left: nat, right: nat, n: nat): seq<Swing>
    requires n <= |candles|
  {
    if n == 0 then []
    else
      var i := n - 1;
      RawSwings(candles, left, right, i)
      + (if SwingHigh(candles, left, right, i) then [Swing(i, candles[i].high, true, Unlabelled)] else [])
      + (if SwingLow(candles, left, right, i) then [Swing(i, candles[i].low, false, Unlabelled)] else [])
  }

  /** The latest pivot of one kind. */
  function Latest(swings: seq<Swing>, isHigh: bool): Option<Swing> {
    if swings == [] then None
    else
      var s := swings[|swings| - 1];
      if s.isHigh == isHigh then Some(s) else Latest(swings[..|swings| - 1], isHigh)
  }

  function LabelFor(point: Swing, previous: Option<Swing>): Label {
    if previous.None? then Unlabelled
    else if point.isHigh then (if point.price > previous.value.price then HigherHigh else LowerHigh)
    else if point.price > previous.value.price then HigherLow else LowerLow
  }

  /** Each pivot compared with the previous pivot of its kind. */
  function Labelled(raw: seq<Swing>): (r: seq<Swing>)
    ensures |r| == |raw|
    ensures forall k :: 0 <= k < |raw| ==> r[k] == raw[k].(mark := LabelFor(raw[k], Latest(raw[..k], raw[k].isHigh)))
  {
    seq(|raw|, k requires 0 <= k < |raw| => raw[k].(mark := LabelFor(raw[k], Latest(raw[..k], raw[k].isHigh))))
  }

  lemma LabelStep(raw: seq<Swing>, k: nat)
    requires k < |raw|
    ensures Labelled(raw[..k + 1])
            == Labelled(raw[..k]) + [raw[k].(mark := LabelFor(raw[k], Latest(raw[..k], raw[k].isHigh)))]
  {
    assert forall j :: 0 <= j <= k ==> raw[..k + 1][..j] == raw[..j];
    assert forall j :: 0 <= j < k ==> raw[..k][..j] == raw[..j];
  }

  function SwingsOf(candles: seq<Candle>, left: nat, right: nat): seq<Swing> {
    Labelled(RawSwings(candles, left, right, |candles|))
  }

  /** `swing_points`; a neighbourhood needs at least one candle besides the pivot. */
  method SwingPoints(candles: seq<Candle>, left: nat, right: nat) returns (labelled: seq<Swing>)
    requires left + right > 0
    ensures labelled == SwingsOf(candles, left, right)
  {
    var raw: seq<Swing> := [];
    for i := 0 to |candles|
      invariant raw == RawSwings(candles, left, right, i)
    {
      if left <= i && i + right < |candles| {
        var dominatesHigh, dominatesLow := true, true;
        for j := i - left to i + right + 1
          invariant dominatesHigh == forall k :: i - left <= k < j && k != i ==> candles[k].high < candles[i].high
          invariant dominatesLow == forall k :: i - left <= k < j && k != i ==> candles[i].low < candles[k].low
        {
          if j != i {
            if candles[j].high >= candles[i].high { dominatesHigh := false; }
            if candles[j].low <= candles[i].low { dominatesLow := false; }
          }
        }
        if dominatesHigh { raw := raw + [Swing(i, candles[i].high, true, Unlabelled)]; }
        if dominatesLow { raw := raw + [Swing(i, candles[i].low, false, Unlabelled)]; }
      }
    }
    labelled := LabelPivots(raw);
  }

  /** The labelling loop with its two running pivots. */
  method LabelPivots(raw: seq<Swing>) returns (labelled: seq<Swing>)
    ensures labelled == Labelled(raw)
  {
    hide LabelFor;
    labelled := [];
    var lastHigh: Option<Swing>, lastLow: Option<Swing> := None, None;
    for k := 0 to |raw|
      invariant labelled == Labelled(raw[..k])
      invariant lastHigh == Latest(raw[..k], true) && lastLow == Latest(raw[..k], false)
    {
      assert raw[..k + 1][..k] == raw[..k];
      var point := raw[k];
      var mark := LabelFor(point, if point.isHigh then lastHigh else lastLow);
      if point.isHigh { lastHigh := Some(point); } else { lastLow := Some(point); }
      labelled := labelled + [point.(mark := mark)];
      LabelStep(raw, k);
    }
    assert raw[..|raw|] == raw;
  }

  lemma {:induction false} LatestFound(swings: seq<Swing>, isHigh: bool, j: nat)
    requires j < |swings| && swings[j].isHigh == isHigh && forall m :: j < m < |swings| ==> swings[m].isHigh != isHigh
    ensures Latest(swings, isHigh) == Some(swings[j])
  {
    if j < |swings| - 1 { LatestFound(swings[..|swings| - 1], isHigh, j); }
  }

  lemma {:induction false} LatestMissing(swings: seq<Swing>, isHigh: bool)
    requires forall m :: 0 <= m < |swings| ==> swings[m].isHigh != isHigh
    ensures Latest(swings, isHigh).None?
  {
    if swings != [] { LatestMissing(swings[..|swings| - 1], isHigh); }
  }

  /** A pivot is labelled by its price against the previous pivot of its kind, `j`; the first of a kind is not. */
  lemma LabelMeaning(raw: seq<Swing>, k: nat, j: int)
    requires -1 <= j < k < |raw| && forall m :: j < m < k ==> raw[m].isHigh != raw[k].isHigh
    requires j >= 0 ==> raw[j].isHigh == raw[k].isHigh
    ensures var s := Labelled(raw)[k];
      if j == -1 then s.mark.Unlabelled?
      else if raw[k].isHigh then s.mark == if raw[j].price < raw[k].price then HigherHigh else LowerHigh
      else s.mark == if raw[j].price < raw[k].price then HigherLow else LowerLow
  {
    if j >= 0 { LatestFound(raw[..k], raw[k].isHigh, j); } else { LatestMissing(raw[..k], raw[k].isHigh); }
  }

  /** Exactly the dominating candles are pivots. */
  lemma {:induction false} RawComplete(candles: seq<Candle>, left: nat, right: nat, n: nat, s: Swing)
    requires n <= |candles|
    ensures s in RawSwings(candles, left, right, n) <==>
      s.index < n && s.mark.Unlabelled? &&
      (if s.isHigh then s.price == candles[s.index].high && SwingHigh(candles, left, right, s.index)
       else s.price == candles[s.index].low && SwingLow(candles, left, right, s.index))
  {
    if n > 0 { RawComplete(candles, left, right, n - 1, s); }
  }

  /** A pivot is reported for a candle exactly when `left` candles before it and `right` after it exist and all have
      a lower high, or for a low pivot a higher low; it has that candle's extreme as its price. */
  lemma SwingsComplete(candles: seq<Candle>, left: nat, right: nat, i: nat, price: real, isHigh: bool)
    requires i < |candles|
    ensures (exists s :: s in SwingsOf(candles, left, right) && s.index == i && s.price == price && s.isHigh == isHigh)
            <==> left <= i && i + right < |candles| && price == (if isHigh then candles[i].high else candles[i].low)
                 && (forall j :: i - left <= j < i ==> Beyond(candles[i], candles[j], isHigh))
                 && (forall j :: i < j <= i + right ==> Beyond(candles[i], candles[j], isHigh))
  {
    hide RawSwings;
    var raw, swings := RawSwings(candles, left, right, |candles|), SwingsOf(candles, left, right);
    var point := Swing(i, price, isHigh, Unlabelled);
    RawComplete(candles, left, right, |candles|, point);
    assert forall k :: 0 <= k < |raw| ==> raw[k] == swings[k].(mark := raw[k].mark);
    if s :| s in swings && s.index == i && s.price == price && s.isHigh == isHigh {
      var k :| 0 <= k < |swings| && swings[k] == s;
      RawComplete(candles, left, right, |candles|, raw[k]);
    }
    if point in raw {
      var k :| 0 <= k < |raw| && raw[k] == point;
      assert swings[k] in swings;
    }
  }

  /** The candle's extreme is strictly beyond the other one's. */
  predicate Beyond(c: Candle, other: Candle, isHigh: bool) {
    if isHigh then other.high < c.high else c.low < other.low
  }

  /** The pivots, high before low, that candle `i` makes. */
  function PivotsAt(candles: seq<Candle>, left: nat, right: nat, i: nat): seq<Swing>
    requires i < |candles|
  {
    (if SwingHigh(candles, left, right, i) then [Swing(i, candles[i].high, true, Unlabelled)] else [])
    + (if SwingLow(candles, left, right, i) then [Swing(i, candles[i].low, false, Unlabelled)] else [])
  }

  /** A pivot is decided by the candles up to `right` after it. */
  lemma PivotsSettled(candles: seq<Candle>, c: Candle, left: nat, right: nat, i: nat)
    requires i < |candles| && i + right != |candles|
    ensures PivotsAt(candles + [c], left, right, i) == PivotsAt(candles, left, right, i)
  {
    var all := candles + [c];
    if i + right < |candles| {
      assert SwingHigh(candles, left, right, i) ==> SwingHigh(all, left, right, i);
      assert SwingLow(candles, left, right, i) ==> SwingLow(all, left, right, i);
      assert forall j :: i - left <= j <= i + right && left <= i ==> all[j] == candles[j];
    }
  }

  lemma RawStep(candles: seq<Candle>, left: nat, right: nat, n: nat)
    requires n < |candles|
    ensures RawSwings(candles, left, right, n + 1)
            == RawSwings(candles, left, right, n) + PivotsAt(candles, left, right, n)
  {
  }

  /** A new candle can only confirm the pivot `right` candles before it. */
  lemma {:induction false} RawAppends(candles: seq<Candle>, c: Candle, left: nat, right: nat, n: nat)
    requires n <= |candles|
    ensures var before, after := RawSwings(candles, left, right, n), RawSwings(candles + [c], left, right, n);
      && before <= after && |after| <= |before| + 2
      && (n + right <= |candles| ==> after == before)
      && forall k :: |before| <= k < |after| ==> after[k].index + right == |candles|
  {
    hide RawSwings, PivotsAt;
    if n > 0 {
      RawAppends(candles, c, left, right, n - 1);
      RawStep(candles, left, right, n - 1);
      RawStep(candles + [c], left, right, n - 1);
      if n - 1 + right != |candles| {
        PivotsSettled(candles, c, left, right, n - 1);
        if n - 1 + right > |candles| { NoPivotsYet(candles, left, right, n - 1); }
      } else {
        NoPivotsYet(candles, left, right, n - 1);
        PivotsBelong(candles + [c], left, right, n - 1);
      }
    } else {
      NoRaw(candles, left, right);
      NoRaw(candles + [c], left, right);
    }
  }

  lemma NoRaw(candles: seq<Candle>, left: nat, right: nat)
    ensures RawSwings(candles, left, right, 0) == []
  {
  }

  lemma NoPivotsYet(candles: seq<Candle>, left: nat, right: nat, i: nat)
    requires i < |candles| && i + right >= |candles|
    ensures PivotsAt(candles, left, right, i) == []
  {
  }

  lemma PivotsBelong(candles: seq<Candle>, left: nat, right: nat, i: nat)
    requires i < |candles|
    ensures |PivotsAt(candles, left, right, i)| <= 2
    ensures forall k :: 0 <= k < |PivotsAt(candles, left, right, i)| ==> PivotsAt(candles, left, right, i)[k].index == i
  {
  }

  /** Pivots are reported by candle, a high before a low of the same one. */
  lemma {:induction false} SwingsOrdered(candles: seq<Candle>, left: nat, right: nat, n: nat)
    requires n <= |candles|
    ensures var raw := RawSwings(candles, left, right, n);
      && (forall k :: 0 <= k < |raw| ==> raw[k].index < n)
      && forall j, k :: 0 <= j < k < |raw| ==>
           raw[j].index < raw[k].index || (raw[j].index == raw[k].index && raw[j].isHigh && !raw[k].isHigh)
  {
    hide SwingHigh, SwingLow;
    if n > 0 {
      SwingsOrdered(candles, left, right, n - 1);
      RawStep(candles, left, right, n - 1);
    }
  }

  /** Reported pivots and their labels are final: a new candle only adds pivots `right` candles back. */
  lemma SwingsAppendOnly(candles: seq<Candle>, c: Candle, left: nat, right: nat)
    ensures var before, after := SwingsOf(candles, left, right), SwingsOf(candles + [c], left, right);
      && before <= after && |after| <= |before| + 2
      && forall k :: |before| <= k < |after| ==> after[k].index + right == |candles|
  {
    hide RawSwings, LabelFor, PivotsAt;
    var n := |candles|;
    RawAppends(candles, c, left, right, n);
    RawStep(candles + [c], left, right, n);
    if right > 0 { NoPivotsYet(candles + [c], left, right, n); } else { PivotsBelong(candles + [c], left, right, n); }
    var raw, more := RawSwings(candles, left, right, n), RawSwings(candles + [c], left, right, n);
    var all := RawSwings(candles + [c], left, right, n + 1);
    assert all == more + PivotsAt(candles + [c], left, right, n);
    assert forall k :: 0 <= k < |raw| ==> all[..k] == raw[..k];
  }

  /** Two pivots of one kind are more than the smaller side of the neighbourhood apart. */
  lemma SameKindSpacing(candles: seq<Candle>, left: nat, right: nat, i: nat, j: nat)
    requires i < j
    requires (SwingHigh(candles, left, right, i) && SwingHigh(candles, left, right, j))
             || (SwingLow(candles, left, right, i) && SwingLow(candles, left, right, j))
    ensures j - i > left || j - i > right
    ensures j - i > if left < right then left else right
  {
    if SwingHigh(candles, left, right, i) && SwingHigh(candles, left, right, j) {
      assert j - i <= left ==> candles[i].high < candles[j].high;
      assert j - i <= right ==> candles[j].high < candles[i].high;
    } else {
      assert j - i <= left ==> candles[j].low < candles[i].low;
      assert j - i <= right ==> candles[i].low < candles[j].low;
    }
  }
}

/** Structural breaks, fair value gaps and order blocks. */
module SmartMoney {
  import opened Numeric
  import opened Market
  import opened Options
  import opened Structure

  // ----- Breaks of structure

  datatype Trend = NoTrend | Up | Down

  /** `pivot` is the position of the broken swing in the list of swings. */
  datatype Break = Break(index: nat, choch: bool, direction: Trend, level: real, displacement: real, mss: bool,
                         pivot: nat)

  /** The current trend and the active swings, as positions in the list of swings. */
  datatype Track = Track(trend: Trend, lastHigh: Option<nat>, lastLow: Option<nat>)

  const FRESH := Track(NoTrend, None, None)

  function Displacement(c: Candle, atr: real): real
    requires atr > 0.0
  {
    Abs(c.close - c.open) / atr
  }

  predicate PivotIn(swings: seq<Swing>, p: Option<nat>) { p.Some? ==> p.value < |swings| }

  predicate Breaks(swings: seq<Swing>, t: Track, i: nat, c: Candle, up: bool) {
    var active := if up then t.lastHigh else t.lastLow;
    && active.Some? && active.value < |swings| && i > swings[active.value].index
    && if up then c.close > swings[active.value].price else c.close < swings[active.value].price
  }

  /** The break a candle makes, an upward one taking precedence. */
  function BreakAt(swings: seq<Swing>, t: Track, i: nat, c: Candle, atr: real, mssAtr: real): Option<Break>
    requires atr > 0.0
  {
    var d := Displacement(c, atr);
    if Breaks(swings, t, i, c, true) then
      var choch := t.trend.Down?;
      Some(Break(i, choch, Up, swings[t.lastHigh.value].price, d, choch && d >= mssAtr, t.lastHigh.value))
    else if Breaks(swings, t, i, c, false) then
      var choch := t.trend.Up?;
      Some(Break(i, choch, Down, swings[t.lastLow.value].price, d, choch && d >= mssAtr, t.lastLow.value))
    else None
  }

  /** The last swing of one kind listed for candle `i`. */
  function ActivatedAt(swings: seq<Swing>, i: nat, isHigh: bool): (r: Option<nat>)
    ensures r.Some? ==> r.value < |swings| && swings[r.value].index == i && swings[r.value].isHigh == isHigh
  {
    if swings == [] then None
    else
      var n := |swings| - 1;
      if swings[n].index == i && swings[n].isHigh == isHigh then Some(n)
      else ActivatedAt(swings[..n], i, isHigh)
  }

  function OrElse(a: Option<nat>, b: Option<nat>): Option<nat> { if a.Some? then a else b }

  function AfterCandle(swings: seq<Swing>, t: Track, i: nat, made: Option<Break>): Track {
    var t' := if made.None? then t
              else if made.value.direction.Up? then t.(trend := Up, lastHigh := None)
              else t.(trend := Down, lastLow := None);
    t'.(lastHigh := OrElse(ActivatedAt(swings, i, true), t'.lastHigh),
        lastLow := OrElse(ActivatedAt(swings, i, false), t'.lastLow))
  }

  /** The machine after the first `n` candles. */
  function Machine(candles: seq<Candle>, swings: seq<Swing>, atr: real, mssAtr: real, n: nat): (Track, seq<Break>)
    requires n <= |candles| && atr > 0.0
  {
    if n == 0 then (FRESH, [])
    else
      var (t, breaks) := Machine(candles, swings, atr, mssAtr, n - 1);
      var made := BreakAt(swings, t, n - 1, candles[n - 1], atr, mssAtr);
      (AfterCandle(swings, t, n - 1, made), Extended(breaks, made))
  }

  function Extended(breaks: seq<Break>, made: Option<Break>): seq<Break> {
    if made.Some? then breaks + [made.value] else breaks
  }

  method StructureBreaks(candles: seq<Candle>, swings: seq<Swing>, mssAtr: real, atr: Option<real>)
    returns (breaks: seq<Break>)
    ensures breaks == if atr.None? || atr.value <= 0.0 then []
                      else Machine(candles, swings, atr.value, mssAtr, |candles|).1
  {
    hide Displacement, ActivatedAt;
    breaks := [];
    if atr.None? || atr.value <= 0.0 { return; }
    var trend, lastHigh: Option<nat>, lastLow: Option<nat> := NoTrend, None, None;
    for i := 0 to |candles|
      invariant (Track(trend, lastHigh, lastLow), breaks) == Machine(candles, swings, atr.value, mssAtr, i)
    {
      var c := candles[i];
      var displacement := Displacement(c, atr.value);
      var t := Track(trend, lastHigh, lastLow);
      if Breaks(swings, t, i, c, true) {
        var choch := trend.Down?;
        breaks := breaks + [Break(i, choch, Up, swings[lastHigh.value].price, displacement,
                                  choch && displacement >= mssAtr, lastHigh.value)];
        trend, lastHigh := Up, None;
      } else if Breaks(swings, t, i, c, false) {
        var choch := trend.Up?;
        breaks := breaks + [Break(i, choch, Down, swings[lastLow.value].price, displacement,
                                  choch && displacement >= mssAtr, lastLow.value)];
        trend, lastLow := Down, None;
      }
      lastHigh := OrElse(ActivatedAt(swings, i, true), lastHigh);
      lastLow := OrElse(ActivatedAt(swings, i, false), lastLow);
    }
  }

  /** What each break is: a close beyond an earlier swing of the right kind. */
  ghost predicate Genuine(candles: seq<Candle>, swings: seq<Swing>, b: Break, mssAtr: real) {
    && b.pivot < |swings| && b.index < |candles| && b.direction != NoTrend
    && swings[b.pivot].index < b.index && b.level == swings[b.pivot].price
    && swings[b.pivot].isHigh == b.direction.Up?
    && (if b.direction.Up? then candles[b.index].close > b.level else candles[b.index].close < b.level)
    && (b.mss <==> b.choch && b.displacement >= mssAtr)
  }

  /** A break's kind follows from the previous break's direction; the first is never a change of character. */
  ghost predicate KindsChain(breaks: seq<Break>) {
    forall k :: 0 <= k < |breaks| ==> breaks[k].choch == TurnsAt(breaks, k)
  }

  predicate TurnsAt(breaks: seq<Break>, k: nat)
    requires k < |breaks|
  {
    k > 0 && breaks[k].direction != breaks[k - 1].direction
  }

  /** Indices strictly increase, swings are used once, and repeating a direction takes a newer swing. */
  ghost predicate FreshPivots(swings: seq<Swing>, breaks: seq<Break>) {
    forall a, b :: 0 <= a < b < |breaks| ==>
      && breaks[a].index < breaks[b].index && breaks[a].pivot != breaks[b].pivot
      && (breaks[a].direction == breaks[b].direction && breaks[b].pivot < |swings| ==>
            breaks[a].index <= swings[breaks[b].pivot].index)
  }

  /** An active swing is older than the next candle, of its kind, unused and newer than every break of its side. */
  ghost predicate ActiveFresh(swings: seq<Swing>, breaks: seq<Break>, p: Option<nat>, side: Trend, n: nat) {
    p.Some? ==>
      && p.value < |swings| && swings[p.value].index < n && swings[p.value].isHigh == side.Up?
      && forall k :: 0 <= k < |breaks| ==>
           breaks[k].pivot != p.value && (breaks[k].direction == side ==> breaks[k].index <= swings[p.value].index)
  }

  ghost predicate MachineInvariant(candles: seq<Candle>, swings: seq<Swing>, mssAtr: real, n: nat, t: Track,
                                   breaks: seq<Break>) {
    && (forall k :: 0 <= k < |breaks| ==> Genuine(candles, swings, breaks[k], mssAtr) && breaks[k].index < n)
    && KindsChain(breaks) && FreshPivots(swings, breaks)
    && t.trend == (if breaks == [] then NoTrend else breaks[|breaks| - 1].direction)
    && ActiveFresh(swings, breaks, t.lastHigh, Up, n) && ActiveFresh(swings, breaks, t.lastLow, Down, n)
  }

  lemma KindsExtend(breaks: seq<Break>, b: Break)
    requires KindsChain(breaks)
    requires b.choch == (breaks != [] && b.direction != breaks[|breaks| - 1].direction)
    ensures KindsChain(breaks + [b])
  {
    var n, all := |breaks|, breaks + [b];
    assert all[n] == b && forall k :: 0 <= k < n ==> all[k] == breaks[k];
    forall k | 0 <= k < |all| ensures all[k].choch == TurnsAt(all, k) {
      if k < n {
        assert breaks[k].choch == TurnsAt(breaks, k);
        assert TurnsAt(all, k) == TurnsAt(breaks, k);
      }
    }
  }

  lemma FreshExtend(swings: seq<Swing>, breaks: seq<Break>, b: Break)
    requires FreshPivots(swings, breaks) && b.pivot < |swings|
    requires forall k :: 0 <= k < |breaks| ==>
      breaks[k].index < b.index && breaks[k].pivot != b.pivot
      && (breaks[k].direction == b.direction ==> breaks[k].index <= swings[b.pivot].index)
    ensures FreshPivots(swings, breaks + [b])
  {
    var n, all := |breaks|, breaks + [b];
    assert all[n] == b && forall k :: 0 <= k < n ==> all[k] == breaks[k];
  }

  /** A swing stays fresh through a candle unless it is broken; a newly listed one replaces it. */
  lemma ActiveStep(swings: seq<Swing>, breaks: seq<Break>, p: Option<nat>, side: Trend, i: nat, made: Option<Break>)
    requires ActiveFresh(swings, breaks, p, side, i) && side != NoTrend
    requires forall k :: 0 <= k < |breaks| ==>
      breaks[k].pivot < |swings| && swings[breaks[k].pivot].index < i && breaks[k].index < i
    requires made.Some? ==> made.value.index == i && made.value.pivot < |swings| && swings[made.value.pivot].index < i
    requires made.Some? && made.value.direction != side && p.Some? ==> made.value.pivot != p.value
    ensures var all := if made.Some? then breaks + [made.value] else breaks;
      var kept := if made.Some? && made.value.direction == side then None else p;
      ActiveFresh(swings, all, OrElse(ActivatedAt(swings, i, side.Up?), kept), side, i + 1)
  {
    hide ActivatedAt;
    var all := if made.Some? then breaks + [made.value] else breaks;
    assert forall k :: 0 <= k < |breaks| ==> all[k] == breaks[k];
  }

  lemma MadeIsGenuine(candles: seq<Candle>, swings: seq<Swing>, atr: real, mssAtr: real, i: nat, t: Track,
                      breaks: seq<Break>)
    requires atr > 0.0 && i < |candles|
    requires ActiveFresh(swings, breaks, t.lastHigh, Up, i) && ActiveFresh(swings, breaks, t.lastLow, Down, i)
    ensures var made := BreakAt(swings, t, i, candles[i], atr, mssAtr); made.Some? ==>
      && Genuine(candles, swings, made.value, mssAtr) && made.value.index == i
      && (if made.value.direction.Up? then t.lastHigh == Some(made.value.pivot)
          else t.lastLow == Some(made.value.pivot))
      && made.value.choch == (t.trend != NoTrend && t.trend != made.value.direction)
  {
  }

  lemma StepKeepsInvariant(candles: seq<Candle>, swings: seq<Swing>, atr: real, mssAtr: real, i: nat, t: Track,
                           breaks: seq<Break>)
    requires atr > 0.0 && i < |candles| && MachineInvariant(candles, swings, mssAtr, i, t, breaks)
    ensures var made := BreakAt(swings, t, i, candles[i], atr, mssAtr);
      MachineInvariant(candles, swings, mssAtr, i + 1, AfterCandle(swings, t, i, made),
                       if made.Some? then breaks + [made.value] else breaks)
  {
    hide ActivatedAt, Displacement, BreakAt, FreshPivots, KindsChain, Genuine, ActiveFresh;
    var made := BreakAt(swings, t, i, candles[i], atr, mssAtr);
    MadeIsGenuine(candles, swings, atr, mssAtr, i, t, breaks);
    GenuinePivots(candles, swings, breaks, i, mssAtr);
    if t.lastHigh.Some? { ActiveUnused(swings, breaks, t.lastHigh.value, Up, i); }
    if t.lastLow.Some? { ActiveUnused(swings, breaks, t.lastLow.value, Down, i); }
    if made.Some? {
      var b := made.value;
      GenuinePivots(candles, swings, [b], i + 1, mssAtr);
      assert [b][0] == b;
      KindsExtend(breaks, b);
      FreshExtend(swings, breaks, b);
    }
    ActiveStep(swings, breaks, t.lastHigh, Up, i, made);
    ActiveStep(swings, breaks, t.lastLow, Down, i, made);
  }

  lemma GenuinePivots(candles: seq<Candle>, swings: seq<Swing>, breaks: seq<Break>, n: nat, mssAtr: real)
    requires forall k :: 0 <= k < |breaks| ==> Genuine(candles, swings, breaks[k], mssAtr) && breaks[k].index < n
    ensures forall k :: 0 <= k < |breaks| ==>
      && breaks[k].pivot < |swings| && swings[breaks[k].pivot].index < breaks[k].index
      && swings[breaks[k].pivot].isHigh == breaks[k].direction.Up? && breaks[k].direction != NoTrend
  {
  }

  lemma ActiveUnused(swings: seq<Swing>, breaks: seq<Break>, p: nat, side: Trend, n: nat)
    requires ActiveFresh(swings, breaks, Some(p), side, n)
    ensures p < |swings| && swings[p].index < n && swings[p].isHigh == side.Up?
    ensures forall k :: 0 <= k < |breaks| ==>
      breaks[k].pivot != p && (breaks[k].direction == side ==> breaks[k].index <= swings[p].index)
  {
  }

  /** The invariant holds along the whole window, for any list of swings. */
  lemma {:induction false} BreaksSound(candles: seq<Candle>, swings: seq<Swing>, atr: real, mssAtr: real, n: nat)
    requires n <= |candles| && atr > 0.0
    ensures var (t, breaks) := Machine(candles, swings, atr, mssAtr, n);
      MachineInvariant(candles, swings, mssAtr, n, t, breaks)
  {
    hide MachineInvariant, AfterCandle, BreakAt;
    if n == 0 {
      EmptyMachine(candles, swings, mssAtr);
    } else {
      BreaksSound(candles, swings, atr, mssAtr, n - 1);
      var (t, breaks) := Machine(candles, swings, atr, mssAtr, n - 1);
      StepKeepsInvariant(candles, swings, atr, mssAtr, n - 1, t, breaks);
    }
  }

  lemma EmptyMachine(candles: seq<Candle>, swings: seq<Swing>, mssAtr: real)
    ensures MachineInvariant(candles, swings, mssAtr, 0, FRESH, [])
  {
  }

  // ----- Every break that is due is made

  ghost predicate AllBefore(breaks: seq<Break>, n: nat) { forall k :: 0 <= k < |breaks| ==> breaks[k].index < n }

  /** The latest swing of its kind before candle `i`, not broken by then. */
  ghost predicate Standing(swings: seq<Swing>, breaks: seq<Break>, p: nat, isHigh: bool, i: nat) {
    && p < |swings| && swings[p].isHigh == isHigh && swings[p].index < i
    && (forall q :: 0 <= q < |swings| && swings[q].isHigh == isHigh && swings[q].index < i ==>
          swings[q].index < swings[p].index || (swings[q].index == swings[p].index && q <= p))
    && Unbroken(breaks, p, i)
  }

  ghost predicate Unbroken(breaks: seq<Break>, p: nat, i: nat) {
    forall k :: 0 <= k < |breaks| && breaks[k].index < i ==> breaks[k].pivot != p
  }

  /** The last swing of one kind listed for a candle is the one activated. */
  lemma {:induction false} ActivatedLast(swings: seq<Swing>, i: nat, isHigh: bool)
    ensures var a := ActivatedAt(swings, i, isHigh);
      forall q :: 0 <= q < |swings| && swings[q].index == i && swings[q].isHigh == isHigh ==> a.Some? && q <= a.value
  {
    if swings != [] { ActivatedLast(swings[..|swings| - 1], i, isHigh); }
  }

  /** The active swing of each side is the one standing. */
  ghost predicate Tracks(swings: seq<Swing>, breaks: seq<Break>, active: Option<nat>, isHigh: bool, i: nat) {
    forall p: nat :: active == Some(p) <==> Standing(swings, breaks, p, isHigh, i)
  }

  /** Every break is of an older swing of its kind. */
  ghost predicate OfOlder(swings: seq<Swing>, breaks: seq<Break>) {
    forall k :: 0 <= k < |breaks| ==> Older(swings, breaks[k])
  }

  predicate Older(swings: seq<Swing>, b: Break) {
    b.pivot < |swings| && swings[b.pivot].index < b.index && swings[b.pivot].isHigh == b.direction.Up?
  }

  lemma StandingStep(swings: seq<Swing>, breaks: seq<Break>, active: Option<nat>, isHigh: bool, i: nat,
                     made: Option<Break>, p: nat)
    requires Tracks(swings, breaks, active, isHigh, i) && OfOlder(swings, breaks) && AllBefore(breaks, i)
    requires made.Some? ==> Older(swings, made.value) && made.value.index == i
    requires made.Some? && made.value.direction.Up? == isHigh ==> active == Some(made.value.pivot)
    ensures var kept := if made.Some? && made.value.direction.Up? == isHigh then None else active;
      OrElse(ActivatedAt(swings, i, isHigh), kept) == Some(p)
      <==> Standing(swings, Extended(breaks, made), p, isHigh, i + 1)
  {
    ActivatedLast(swings, i, isHigh);
    var a, all, n := ActivatedAt(swings, i, isHigh), Extended(breaks, made), |breaks|;
    assert made.Some? ==> all[n] == made.value;
    assert forall k :: 0 <= k < n ==> all[k] == breaks[k];
    if a.Some? {
      assert Standing(swings, all, a.value, isHigh, i + 1);
      if Standing(swings, all, p, isHigh, i + 1) { assert p <= a.value && a.value <= p; }
    } else {
      assert active == Some(p) <==> Standing(swings, breaks, p, isHigh, i);
    }
  }

  lemma TracksStep(swings: seq<Swing>, breaks: seq<Break>, active: Option<nat>, isHigh: bool, i: nat,
                   made: Option<Break>)
    requires Tracks(swings, breaks, active, isHigh, i) && OfOlder(swings, breaks) && AllBefore(breaks, i)
    requires made.Some? ==> Older(swings, made.value) && made.value.index == i
    requires made.Some? && made.value.direction.Up? == isHigh ==> active == Some(made.value.pivot)
    ensures var kept := if made.Some? && made.value.direction.Up? == isHigh then None else active;
      Tracks(swings, Extended(breaks, made), OrElse(ActivatedAt(swings, i, isHigh), kept), isHigh, i + 1)
  {
    hide Standing, OfOlder, AllBefore, Older, Extended, ActivatedAt, OrElse;
    forall p: nat {
      StandingStep(swings, breaks, active, isHigh, i, made, p);
    }
  }

  lemma MadeFrom(swings: seq<Swing>, t: Track, i: nat, c: Candle, atr: real, mssAtr: real)
    requires atr > 0.0
    ensures var made := BreakAt(swings, t, i, c, atr, mssAtr);
      && (made.Some? ==>
            var b := made.value;
            b.index == i && b.pivot < |swings| && swings[b.pivot].index < i && b.direction != NoTrend
            && Some(b.pivot) == if b.direction.Up? then t.lastHigh else t.lastLow)
  {
  }

  lemma {:induction false} MachineTracks(candles: seq<Candle>, swings: seq<Swing>, atr: real, mssAtr: real, n: nat)
    requires n <= |candles| && atr > 0.0
    ensures var (t, breaks) := Machine(candles, swings, atr, mssAtr, n);
      && AllBefore(breaks, n) && OfOlder(swings, breaks)
      && Tracks(swings, breaks, t.lastHigh, true, n) && Tracks(swings, breaks, t.lastLow, false, n)
  {
    hide BreakAt, Tracks, OfOlder, AllBefore, ActivatedAt;
    if n == 0 {
      TracksNothing(swings);
    } else {
      var i := n - 1;
      MachineTracks(candles, swings, atr, mssAtr, i);
      var (t, breaks) := Machine(candles, swings, atr, mssAtr, i);
      var made := BreakAt(swings, t, i, candles[i], atr, mssAtr);
      MadeFrom(swings, t, i, candles[i], atr, mssAtr);
      if made.Some? { TrackedKind(swings, breaks, made.value.pivot, made.value.direction.Up?, t, i); }
      OlderStep(swings, breaks, made, i);
      TracksStep(swings, breaks, t.lastHigh, true, i, made);
      TracksStep(swings, breaks, t.lastLow, false, i, made);
    }
  }

  lemma TracksNothing(swings: seq<Swing>)
    ensures AllBefore([], 0) && OfOlder(swings, [])
    ensures Tracks(swings, [], None, true, 0) && Tracks(swings, [], None, false, 0)
  {
  }

  lemma TrackedKind(swings: seq<Swing>, breaks: seq<Break>, p: nat, isHigh: bool, t: Track, i: nat)
    requires Tracks(swings, breaks, if isHigh then t.lastHigh else t.lastLow, isHigh, i)
    requires Some(p) == if isHigh then t.lastHigh else t.lastLow
    ensures p < |swings| && swings[p].isHigh == isHigh && swings[p].index < i
  {
    assert Standing(swings, breaks, p, isHigh, i);
  }

  lemma OlderStep(swings: seq<Swing>, breaks: seq<Break>, made: Option<Break>, i: nat)
    requires AllBefore(breaks, i) && OfOlder(swings, breaks)
    requires made.Some? ==> Older(swings, made.value) && made.value.index == i
    ensures AllBefore(Extended(breaks, made), i + 1) && OfOlder(swings, Extended(breaks, made))
  {
  }

  /** A break of a window is the one its candle makes from what the machine tracked before it. */
  lemma {:induction false} ReportMembers(candles: seq<Candle>, swings: seq<Swing>, atr: real, mssAtr: real, n: nat,
                                         b: Break)
    requires n <= |candles| && atr > 0.0
    ensures b in Machine(candles, swings, atr, mssAtr, n).1
            <==> b.index < n && BreakAt(swings, Machine(candles, swings, atr, mssAtr, b.index).0, b.index,
                                        candles[b.index], atr, mssAtr) == Some(b)
  {
    hide BreakAt, AfterCandle;
    if n > 0 {
      ReportMembers(candles, swings, atr, mssAtr, n - 1, b);
      MadeFrom(swings, Machine(candles, swings, atr, mssAtr, n - 1).0, n - 1, candles[n - 1], atr, mssAtr);
    }
  }

  /** What stands before a candle can be read off any longer report. */
  lemma StandingInReport(candles: seq<Candle>, swings: seq<Swing>, atr: real, mssAtr: real, i: nat, p: nat,
                         isHigh: bool)
    requires i <= |candles| && atr > 0.0
    ensures Standing(swings, Machine(candles, swings, atr, mssAtr, |candles|).1, p, isHigh, i)
            <==> Standing(swings, Machine(candles, swings, atr, mssAtr, i).1, p, isHigh, i)
  {
    hide Machine;
    var all, some := Machine(candles, swings, atr, mssAtr, |candles|).1, Machine(candles, swings, atr, mssAtr, i).1;
    forall b: Break ensures b in some <==> b in all && b.index < i {
      ReportMembers(candles, swings, atr, mssAtr, |candles|, b);
      ReportMembers(candles, swings, atr, mssAtr, i, b);
    }
    UnbrokenAlike(all, some, p, i);
  }

  lemma UnbrokenAlike(all: seq<Break>, some: seq<Break>, p: nat, i: nat)
    requires forall b: Break :: b in some <==> b in all && b.index < i
    ensures Unbroken(all, p, i) <==> Unbroken(some, p, i)
  {
    assert Unbroken(all, p, i) <==> forall b :: b in all && b.index < i ==> b.pivot != p;
    assert Unbroken(some, p, i) <==> forall b :: b in some && b.index < i ==> b.pivot != p;
  }

  /** A candle breaks a swing exactly when that is the latest of its kind, not broken yet, and the candle closes beyond
      it; downward only if it does not also close above the standing high. */
  lemma BreakIff(candles: seq<Candle>, swings: seq<Swing>, atr: real, mssAtr: real, i: nat, p: nat, up: bool)
    requires i < |candles| && atr > 0.0
    ensures var breaks := Machine(candles, swings, atr, mssAtr, |candles|).1;
      (exists b :: b in breaks && b.index == i && b.pivot == p && b.direction == if up then Up else Down)
      <==> Standing(swings, breaks, p, up, i)
           && if up then candles[i].close > swings[p].price
              else candles[i].close < swings[p].price
                   && forall q: nat :: Standing(swings, breaks, q, true, i) ==> candles[i].close <= swings[q].price
  {
    hide Machine, AfterCandle, Standing, Displacement;
    var (t, before) := Machine(candles, swings, atr, mssAtr, i);
    var breaks := Machine(candles, swings, atr, mssAtr, |candles|).1;
    MachineTracks(candles, swings, atr, mssAtr, i);
    forall q: nat, isHigh: bool
      ensures Standing(swings, breaks, q, isHigh, i) <==> Some(q) == if isHigh then t.lastHigh else t.lastLow
    {
      StandingInReport(candles, swings, atr, mssAtr, i, q, isHigh);
    }
    var made := BreakAt(swings, t, i, candles[i], atr, mssAtr);
    forall b: Break ensures b in breaks && b.index == i <==> made == Some(b) {
      ReportMembers(candles, swings, atr, mssAtr, |candles|, b);
      MadeFrom(swings, t, i, candles[i], atr, mssAtr);
    }
    if t.lastHigh.Some? { TrackedKind(swings, before, t.lastHigh.value, true, t, i); }
    if t.lastLow.Some? { TrackedKind(swings, before, t.lastLow.value, false, t, i); }
    assert (exists b :: b in breaks && b.index == i && b.pivot == p && b.direction == if up then Up else Down)
      <==> made.Some? && made.value.pivot == p && made.value.direction == if up then Up else Down;
  }

  /** A break records its level, the body of its candle in units of the range, and a shift of structure exactly when
      a change of character is as large as asked. */
  lemma BreakMeaning(candles: seq<Candle>, swings: seq<Swing>, atr: real, mssAtr: real, b: Break)
    requires atr > 0.0 && b in Machine(candles, swings, atr, mssAtr, |candles|).1
    ensures b.index < |candles| && b.pivot < |swings| && b.level == swings[b.pivot].price
    ensures b.displacement * atr == Abs(candles[b.index].close - candles[b.index].open)
    ensures b.mss <==> b.choch && b.displacement >= mssAtr
  {
    hide Machine;
    ReportMembers(candles, swings, atr, mssAtr, |candles|, b);
    DivMul(Abs(candles[b.index].close - candles[b.index].open), atr);
  }

  // ----- Upward and downward breaks mirror each other

  function Turn(s: Swing): Swing { Swing(s.index, -s.price, !s.isHigh, s.mark) }

  function TurnAll(swings: seq<Swing>): (r: seq<Swing>)
    ensures |r| == |swings| && forall k :: 0 <= k < |swings| ==> r[k] == Turn(swings[k])
  {
    seq(|swings|, k requires 0 <= k < |swings| => Turn(swings[k]))
  }

  function Opposite(side: Trend): Trend {
    match side
    case Up => Down
    case Down => Up
    case NoTrend => NoTrend
  }

  function MirrorBreak(b: Break): Break { b.(direction := Opposite(b.direction), level := -b.level) }

  function MirrorBreaks(breaks: seq<Break>): seq<Break> {
    seq(|breaks|, k requires 0 <= k < |breaks| => MirrorBreak(breaks[k]))
  }

  function MirrorTrack(t: Track): Track { Track(Opposite(t.trend), t.lastLow, t.lastHigh) }

  lemma {:induction false} ActivatedTurned(swings: seq<Swing>, i: nat, isHigh: bool)
    ensures ActivatedAt(TurnAll(swings), i, isHigh) == ActivatedAt(swings, i, !isHigh)
  {
    if swings != [] {
      var n := |swings| - 1;
      ActivatedTurned(swings[..n], i, isHigh);
      assert TurnAll(swings)[..n] == TurnAll(swings[..n]);
    }
  }

  lemma StepMirrored(swings: seq<Swing>, t: Track, i: nat, c: Candle, atr: real, mssAtr: real)
    requires atr > 0.0 && !(Breaks(swings, t, i, c, true) && Breaks(swings, t, i, c, false))
    ensures var made := BreakAt(swings, t, i, c, atr, mssAtr);
      var made' := BreakAt(TurnAll(swings), MirrorTrack(t), i, Reflect(c), atr, mssAtr);
      && made' == (if made.Some? then Some(MirrorBreak(made.value)) else None)
      && AfterCandle(TurnAll(swings), MirrorTrack(t), i, made') == MirrorTrack(AfterCandle(swings, t, i, made))
  {
    hide ActivatedAt;
    ActivatedTurned(swings, i, true);
    ActivatedTurned(swings, i, false);
    assert Displacement(Reflect(c), atr) == Displacement(c, atr);
  }

  /** Turning prices upside down and exchanging high and low swings mirrors every break, as long as no candle closes
      both above the standing high and below the standing low. */
  lemma {:induction false} BreaksMirrored(candles: seq<Candle>, swings: seq<Swing>, atr: real, mssAtr: real, n: nat)
    requires n <= |candles| && atr > 0.0
    requires var breaks := Machine(candles, swings, atr, mssAtr, |candles|).1;
      forall i: nat, p: nat, q: nat :: i < |candles| && Standing(swings, breaks, p, true, i)
                                       && Standing(swings, breaks, q, false, i) ==>
        candles[i].close <= swings[p].price || candles[i].close >= swings[q].price
    ensures var (t, breaks) := Machine(candles, swings, atr, mssAtr, n);
      Machine(ReflectAll(candles), TurnAll(swings), atr, mssAtr, n) == (MirrorTrack(t), MirrorBreaks(breaks))
  {
    hide BreakAt, AfterCandle, Standing, Tracks;
    if n > 0 {
      var i := n - 1;
      BreaksMirrored(candles, swings, atr, mssAtr, i);
      var (t, breaks) := Machine(candles, swings, atr, mssAtr, i);
      MachineTracks(candles, swings, atr, mssAtr, i);
      OneSided(candles, swings, atr, mssAtr, i, t, breaks);
      StepMirrored(swings, t, i, candles[i], atr, mssAtr);
      var made := BreakAt(swings, t, i, candles[i], atr, mssAtr);
      if made.Some? { assert MirrorBreaks(breaks + [made.value]) == MirrorBreaks(breaks) + [MirrorBreak(made.value)]; }
    } else {
      assert MirrorBreaks([]) == [];
    }
  }

  lemma OneSided(candles: seq<Candle>, swings: seq<Swing>, atr: real, mssAtr: real, i: nat, t: Track,
                 breaks: seq<Break>)
    requires i < |candles| && atr > 0.0 && Machine(candles, swings, atr, mssAtr, i) == (t, breaks)
    requires Tracks(swings, breaks, t.lastHigh, true, i) && Tracks(swings, breaks, t.lastLow, false, i)
    requires var all := Machine(candles, swings, atr, mssAtr, |candles|).1;
      forall p: nat, q: nat :: Standing(swings, all, p, true, i) && Standing(swings, all, q, false, i) ==>
        candles[i].close <= swings[p].price || candles[i].close >= swings[q].price
    ensures !(Breaks(swings, t, i, candles[i], true) && Breaks(swings, t, i, candles[i], false))
  {
    hide Machine, Standing;
    if t.lastHigh.Some? && t.lastLow.Some? {
      StandingInReport(candles, swings, atr, mssAtr, i, t.lastHigh.value, true);
      StandingInReport(candles, swings, atr, mssAtr, i, t.lastLow.value, false);
    }
  }

  // ----- Which breaks are final

  /** Activation looks only at the swings listed for the candle. */
  lemma {:induction false} ActivatedIgnores(swings: seq<Swing>, after: seq<Swing>, i: nat, isHigh: bool)
    requires swings <= after && forall k :: |swings| <= k < |after| ==> after[k].index != i
    ensures ActivatedAt(after, i, isHigh) == ActivatedAt(swings, i, isHigh)
  {
    if after != swings { ActivatedIgnores(swings, after[..|after| - 1], i, isHigh); }
  }

  lemma StepAgrees(swings: seq<Swing>, after: seq<Swing>, t: Track, i: nat, c: Candle, atr: real, mssAtr: real)
    requires atr > 0.0 && PivotIn(swings, t.lastHigh) && PivotIn(swings, t.lastLow)
    requires swings <= after && forall k :: |swings| <= k < |after| ==> after[k].index > i
    ensures var made := BreakAt(swings, t, i, c, atr, mssAtr);
      && BreakAt(after, t, i, c, atr, mssAtr) == made
      && AfterCandle(after, t, i, made) == AfterCandle(swings, t, i, made)
      && var next := AfterCandle(swings, t, i, made); PivotIn(swings, next.lastHigh) && PivotIn(swings, next.lastLow)
  {
    hide Displacement;
    ActivatedIgnores(swings, after, i, true);
    ActivatedIgnores(swings, after, i, false);
  }

  lemma {:induction false} MachineAgrees(candles: seq<Candle>, c: Candle, swings: seq<Swing>, after: seq<Swing>,
                                         atr: real, mssAtr: real, n: nat, from: nat)
    requires n <= |candles| && n <= from && atr > 0.0
    requires swings <= after && forall k :: |swings| <= k < |after| ==> after[k].index >= from
    ensures var (t, breaks) := Machine(candles, swings, atr, mssAtr, n);
      && PivotIn(swings, t.lastHigh) && PivotIn(swings, t.lastLow)
      && Machine(candles + [c], after, atr, mssAtr, n) == (t, breaks)
  {
    hide BreakAt, AfterCandle;
    if n > 0 {
      MachineAgrees(candles, c, swings, after, atr, mssAtr, n - 1, from);
      StepAgrees(swings, after, Machine(candles, swings, atr, mssAtr, n - 1).0, n - 1, candles[n - 1], atr, mssAtr);
    }
  }

  /** The breaks of a window as the two detectors report them together. */
  function ReportedBreaks(candles: seq<Candle>, left: nat, right: nat, atr: real, mssAtr: real, n: nat): seq<Break>
    requires n <= |candles| && atr > 0.0
  {
    Machine(candles, SwingsOf(candles, left, right), atr, mssAtr, n).1
  }

  /** A new candle changes no break made up to `right` candles before it; with `right` one, none at all. */
  lemma BreaksFinal(candles: seq<Candle>, c: Candle, left: nat, right: nat, atr: real, mssAtr: real, n: nat)
    requires atr > 0.0 && n <= |candles| && n + right <= |candles| + 1
    ensures ReportedBreaks(candles + [c], left, right, atr, mssAtr, n)
            == ReportedBreaks(candles, left, right, atr, mssAtr, n)
  {
    hide SwingsOf, Displacement, AfterCandle;
    SwingsAppendOnly(candles, c, left, right);
    var swings, after := SwingsOf(candles, left, right), SwingsOf(candles + [c], left, right);
    if n > 0 {
      MachineAgrees(candles, c, swings, after, atr, mssAtr, n - 1, n - 1);
    }
  }

  /** Every break comes after its pivot was confirmed, although pivots are activated at their own candle. */
  lemma BreaksConfirmed(candles: seq<Candle>, left: nat, right: nat, atr: real, mssAtr: real, k: nat)
    requires atr > 0.0 && forall i :: 0 <= i < |candles| ==> candles[i].low <= candles[i].close <= candles[i].high
    requires k < |ReportedBreaks(candles, left, right, atr, mssAtr, |candles|)|
    ensures var swings := SwingsOf(candles, left, right);
      var b := ReportedBreaks(candles, left, right, atr, mssAtr, |candles|)[k];
      b.pivot < |swings| && b.index > swings[b.pivot].index + right
  {
    var swings := SwingsOf(candles, left, right);
    BreaksSound(candles, swings, atr, mssAtr, |candles|);
    var b := Machine(candles, swings, atr, mssAtr, |candles|).1[k];
    assert Genuine(candles, swings, b, mssAtr);
    var s := RawSwings(candles, left, right, |candles|)[b.pivot];
    RawComplete(candles, left, right, |candles|, s);
  }

  // ----- Exactly when the next candle leaves the report alone

  lemma {:induction false} ActivatedFinds(swings: seq<Swing>, i: nat, isHigh: bool)
    requires ActivatedAt(swings, i, isHigh).None?
    ensures forall k :: 0 <= k < |swings| ==> !(swings[k].index == i && swings[k].isHigh == isHigh)
  {
    if swings != [] { ActivatedFinds(swings[..|swings| - 1], i, isHigh); }
  }

  /** Candle `p` of a window makes a pivot of the kind an upward or downward break needs. */
  predicate Pivotal(candles: seq<Candle>, left: nat, right: nat, p: int, side: Trend) {
    p >= 0 && if side.Up? then SwingHigh(candles, left, right, p) else SwingLow(candles, left, right, p)
  }

  function Extreme(c: Candle, isHigh: bool): real { if isHigh then c.high else c.low }

  /** What a candle of the window activates is its pivot. */
  lemma ActivatedIffPivotal(candles: seq<Candle>, left: nat, right: nat, p: nat, isHigh: bool)
    requires p < |candles|
    ensures var swings := SwingsOf(candles, left, right);
      var a := ActivatedAt(swings, p, isHigh);
      && (a.Some? <==> Pivotal(candles, left, right, p, if isHigh then Up else Down))
      && (a.Some? ==> swings[a.value].price == Extreme(candles[p], isHigh))
  {
    hide RawSwings;
    var raw, a := RawSwings(candles, left, right, |candles|), ActivatedAt(SwingsOf(candles, left, right), p, isHigh);
    if a.Some? {
      RawComplete(candles, left, right, |candles|, raw[a.value]);
    } else {
      ActivatedFinds(SwingsOf(candles, left, right), p, isHigh);
      var s := Swing(p, Extreme(candles[p], isHigh), isHigh, Unlabelled);
      RawComplete(candles, left, right, |candles|, s);
      assert forall k :: 0 <= k < |raw| ==> SwingsOf(candles, left, right)[k].index == raw[k].index;
    }
  }

  lemma SwingsConfirmed(candles: seq<Candle>, left: nat, right: nat)
    ensures forall k :: 0 <= k < |SwingsOf(candles, left, right)| ==>
      SwingsOf(candles, left, right)[k].index + right < |candles|
  {
    var raw := RawSwings(candles, left, right, |candles|);
    forall k | 0 <= k < |raw| ensures raw[k].index + right < |candles| {
      RawComplete(candles, left, right, |candles|, raw[k]);
    }
  }

  /** Two machines of which the second also holds newer swings `h` and `l`. */
  predicate Parallel(t: Track, t': Track, h: Option<nat>, l: Option<nat>) {
    t'.trend == t.trend && t'.lastHigh == OrElse(h, t.lastHigh) && t'.lastLow == OrElse(l, t.lastLow)
  }

  /** The break's side has a newer swing. */
  predicate Superseded(b: Break, h: Option<nat>, l: Option<nat>) { if b.direction.Up? then h.Some? else l.Some? }

  /** The candle closes between the newer swings. */
  predicate Between(c: Candle, swings: seq<Swing>, h: Option<nat>, l: Option<nat>) {
    && PivotIn(swings, h) && PivotIn(swings, l)
    && (h.Some? ==> c.close <= swings[h.value].price) && (l.Some? ==> c.close >= swings[l.value].price)
  }

  /** Side by side the machines make the same break, unless its side has a newer swing. */
  lemma ParallelStep(swings: seq<Swing>, after: seq<Swing>, t: Track, t': Track, i: nat, c: Candle, atr: real,
                     mssAtr: real, h: Option<nat>, l: Option<nat>)
    requires atr > 0.0 && PivotIn(swings, t.lastHigh) && PivotIn(swings, t.lastLow) && swings <= after
    requires Parallel(t, t', h, l) && Between(c, after, h, l)
    requires ActivatedAt(swings, i, true) == ActivatedAt(after, i, true) == None
    requires ActivatedAt(swings, i, false) == ActivatedAt(after, i, false) == None
    ensures var made, made' := BreakAt(swings, t, i, c, atr, mssAtr), BreakAt(after, t', i, c, atr, mssAtr);
      var next := AfterCandle(swings, t, i, made);
      && PivotIn(swings, next.lastHigh) && PivotIn(swings, next.lastLow)
      && if made.Some? && Superseded(made.value, h, l) then made' != made
         else made' == made && Parallel(next, AfterCandle(after, t', i, made), h, l)
  {
    hide Displacement, ActivatedAt;
  }

  ghost predicate Withdraws(breaks: seq<Break>, p: nat, h: Option<nat>, l: Option<nat>) {
    exists k :: 0 <= k < |breaks| && breaks[k].index > p && Superseded(breaks[k], h, l)
  }

  ghost predicate LosesOne(breaks: seq<Break>, breaks': seq<Break>) {
    exists k :: 0 <= k < |breaks| && breaks[k] !in breaks'
  }

  lemma ExtendedTogether(breaks: seq<Break>, breaks': seq<Break>, p: nat, n: nat, h: Option<nat>, l: Option<nat>,
                         made: Option<Break>, made': Option<Break>)
    requires AllBefore(breaks, n) && AllBefore(breaks', n) && n > p
    requires (made.Some? ==> made.value.index == n) && (made'.Some? ==> made'.value.index == n)
    requires if Withdraws(breaks, p, h, l) then LosesOne(breaks, breaks') else breaks' == breaks
    requires !Withdraws(breaks, p, h, l) ==>
      if made.Some? && Superseded(made.value, h, l) then made' != made else made' == made
    ensures var all, all' := Extended(breaks, made), Extended(breaks', made');
      && AllBefore(all, n + 1) && AllBefore(all', n + 1)
      && (Withdraws(all, p, h, l) <==> Withdraws(breaks, p, h, l) || (made.Some? && Superseded(made.value, h, l)))
      && if Withdraws(all, p, h, l) then LosesOne(all, all') else all' == all
  {
    var all, all' := Extended(breaks, made), Extended(breaks', made');
    if Withdraws(breaks, p, h, l) {
      var k :| 0 <= k < |breaks| && breaks[k].index > p && Superseded(breaks[k], h, l);
      assert all[k] == breaks[k];
      var j :| 0 <= j < |breaks| && breaks[j] !in breaks';
      assert all[j] == breaks[j] && all[j] !in all';
    } else if made.Some? && Superseded(made.value, h, l) {
      assert all[|breaks|] == made.value && made.value !in all';
    } else {
      assert forall k :: 0 <= k < |breaks| ==> all[k] == breaks[k];
    }
  }

  lemma BreakIndex(swings: seq<Swing>, t: Track, i: nat, c: Candle, atr: real, mssAtr: real)
    requires atr > 0.0
    ensures var made := BreakAt(swings, t, i, c, atr, mssAtr); made.Some? ==> made.value.index == i
  {
  }

  lemma PivotsStay(swings: seq<Swing>, t: Track, i: nat, made: Option<Break>)
    requires PivotIn(swings, t.lastHigh) && PivotIn(swings, t.lastLow)
    ensures var next := AfterCandle(swings, t, i, made); PivotIn(swings, next.lastHigh) && PivotIn(swings, next.lastLow)
  {
  }

  /** The candle `p` itself: same break, but the new pivots are active afterwards. */
  lemma SplitStart(swings: seq<Swing>, after: seq<Swing>, t: Track, p: nat, c: Candle, atr: real, mssAtr: real)
    requires atr > 0.0 && PivotIn(swings, t.lastHigh) && PivotIn(swings, t.lastLow) && swings <= after
    requires forall k :: 0 <= k < |swings| ==> swings[k].index < p
    ensures var made := BreakAt(swings, t, p, c, atr, mssAtr);
      && BreakAt(after, t, p, c, atr, mssAtr) == made
      && Parallel(AfterCandle(swings, t, p, made), AfterCandle(after, t, p, made),
                  ActivatedAt(after, p, true), ActivatedAt(after, p, false))
  {
    hide Displacement;
  }

  /** The machines with and without the new pivots, from the candle `p` that makes them. */
  lemma {:induction false} MachinesSplit(candles: seq<Candle>, c: Candle, swings: seq<Swing>, after: seq<Swing>,
                                         atr: real,
                                         mssAtr: real, p: nat, n: nat, h: Option<nat>, l: Option<nat>)
    requires p < n <= |candles| && atr > 0.0 && swings <= after
    requires forall k :: 0 <= k < |swings| ==> swings[k].index < p
    requires forall k :: |swings| <= k < |after| ==> after[k].index == p
    requires h == ActivatedAt(after, p, true) && l == ActivatedAt(after, p, false)
    requires forall i :: p < i < |candles| ==> Between(candles[i], after, h, l)
    ensures var (t, breaks) := Machine(candles, swings, atr, mssAtr, n);
      var (t', breaks') := Machine(candles + [c], after, atr, mssAtr, n);
      && PivotIn(swings, t.lastHigh) && PivotIn(swings, t.lastLow) && AllBefore(breaks, n) && AllBefore(breaks', n)
      && (if Withdraws(breaks, p, h, l) then LosesOne(breaks, breaks') else breaks' == breaks && Parallel(t, t', h, l))
  {
    hide BreakAt, AfterCandle, Between, Withdraws, LosesOne, AllBefore, Superseded, Parallel, ActivatedAt, PivotIn;
    var i := n - 1;
    var (t, breaks) := Machine(candles, swings, atr, mssAtr, i);
    var (t', breaks') := Machine(candles + [c], after, atr, mssAtr, i);
    var made, made' := BreakAt(swings, t, i, candles[i], atr, mssAtr), BreakAt(after, t', i, candles[i], atr, mssAtr);
    BreakIndex(swings, t, i, candles[i], atr, mssAtr);
    BreakIndex(after, t', i, candles[i], atr, mssAtr);
    if i == p {
      MachineAgrees(candles, c, swings, after, atr, mssAtr, p, p);
      PivotsStay(swings, t, i, made);
      MachineBefore(candles, swings, atr, mssAtr, p);
      SplitStart(swings, after, t, p, candles[p], atr, mssAtr);
      StartsTogether(breaks, p, h, l, made);
    } else {
      MachinesSplit(candles, c, swings, after, atr, mssAtr, p, i, h, l);
      PivotsStay(swings, t, i, made);
      if !Withdraws(breaks, p, h, l) {
        assert ActivatedAt(swings, i, true).None? && ActivatedAt(swings, i, false).None?;
        assert ActivatedAt(after, i, true).None? && ActivatedAt(after, i, false).None?;
        ParallelStep(swings, after, t, t', i, candles[i], atr, mssAtr, h, l);
      }
      ExtendedTogether(breaks, breaks', p, i, h, l, made, made');
    }
  }

  lemma StartsTogether(breaks: seq<Break>, p: nat, h: Option<nat>, l: Option<nat>, made: Option<Break>)
    requires AllBefore(breaks, p) && (made.Some? ==> made.value.index == p)
    ensures AllBefore(Extended(breaks, made), p + 1) && !Withdraws(Extended(breaks, made), p, h, l)
  {
  }

  lemma MachineBefore(candles: seq<Candle>, swings: seq<Swing>, atr: real, mssAtr: real, n: nat)
    requires n <= |candles| && atr > 0.0
    ensures AllBefore(Machine(candles, swings, atr, mssAtr, n).1, n)
  {
    BreaksSound(candles, swings, atr, mssAtr, n);
  }

  /** Once the pivot at `p` is confirmed every candle since has closed between its prices. */
  lemma PivotsBind(candles: seq<Candle>, c: Candle, left: nat, right: nat, p: nat)
    requires p + right == |candles| && right > 0
    requires forall i :: 0 <= i < |candles| ==> candles[i].low <= candles[i].close <= candles[i].high
    ensures var all := candles + [c];
      var after := SwingsOf(all, left, right);
      forall i :: p < i < |candles| ==>
        Between(candles[i], after, ActivatedAt(after, p, true), ActivatedAt(after, p, false))
  {
    hide SwingsOf, ActivatedAt;
    var all := candles + [c];
    ActivatedIffPivotal(all, left, right, p, true);
    ActivatedIffPivotal(all, left, right, p, false);
    assert forall i :: 0 <= i < |candles| ==> all[i] == candles[i];
  }

  lemma WithdrawsMeaning(breaks: seq<Break>, all: seq<Candle>, left: nat, right: nat, p: nat, h: Option<nat>,
                         l: Option<nat>)
    requires h.Some? <==> Pivotal(all, left, right, p, Up)
    requires l.Some? <==> Pivotal(all, left, right, p, Down)
    ensures Withdraws(breaks, p, h, l)
            <==> !forall k :: 0 <= k < |breaks| && breaks[k].index > p ==>
                   !Pivotal(all, left, right, p, breaks[k].direction)
  {
    assert forall d: Trend ::
      Pivotal(all, left, right, p, d) == Pivotal(all, left, right, p, if d.Up? then Up else Down);
  }

  /** Without a candle `right` before the new one there is nothing to confirm. */
  lemma OldBreaks(breaks: seq<Break>, all: seq<Candle>, left: nat, right: nat, p: int, n: nat)
    requires AllBefore(breaks, n) && (p < 0 || p == n)
    ensures forall k :: 0 <= k < |breaks| && breaks[k].index > p ==> !Pivotal(all, left, right, p, breaks[k].direction)
  {
  }

  lemma PrefixIff(breaks: seq<Break>, breaks': seq<Break>, n: nat, made: Option<Break>)
    requires AllBefore(breaks, n) && (made.Some? ==> made.value.index == n)
    ensures breaks == breaks' ==> breaks <= Extended(breaks', made)
    ensures LosesOne(breaks, breaks') ==> !(breaks <= Extended(breaks', made))
  {
    assert made.Some? && LosesOne(breaks, breaks') ==> made.value !in breaks;
  }

  /** The next window's report continues the last one exactly when no reported break younger than the candle
      `right` before the new one is directed against a pivot which the new candle confirms there. */
  lemma ReportKeptIff(candles: seq<Candle>, c: Candle, left: nat, right: nat, atr: real, mssAtr: real)
    requires atr > 0.0 && forall i :: 0 <= i < |candles| ==> candles[i].low <= candles[i].close <= candles[i].high
    ensures var all, p := candles + [c], |candles| - right;
      var breaks := ReportedBreaks(candles, left, right, atr, mssAtr, |candles|);
      breaks <= ReportedBreaks(all, left, right, atr, mssAtr, |all|)
      <==> forall k :: 0 <= k < |breaks| && breaks[k].index > p ==> !Pivotal(all, left, right, p, breaks[k].direction)
  {
    hide SwingsOf, BreakAt, AfterCandle, Pivotal, SwingHigh, SwingLow, AllBefore, Withdraws, LosesOne;
    var all, p, n := candles + [c], |candles| - right, |candles|;
    var swings, after := SwingsOf(candles, left, right), SwingsOf(all, left, right);
    SwingsAppendOnly(candles, c, left, right);
    SwingsConfirmed(candles, left, right);
    MachineBefore(candles, swings, atr, mssAtr, n);
    var breaks, breaks' := Machine(candles, swings, atr, mssAtr, n).1, Machine(all, after, atr, mssAtr, n).1;
    BreakIndex(after, Machine(all, after, atr, mssAtr, n).0, n, c, atr, mssAtr);
    if 0 <= p < n {
      var h, l := ActivatedAt(after, p, true), ActivatedAt(after, p, false);
      ActivatedIffPivotal(all, left, right, p, true);
      ActivatedIffPivotal(all, left, right, p, false);
      PivotsBind(candles, c, left, right, p);
      MachinesSplit(candles, c, swings, after, atr, mssAtr, p, n, h, l);
      WithdrawsMeaning(breaks, all, left, right, p, h, l);
    } else {
      MachineAgrees(candles, c, swings, after, atr, mssAtr, n, n);
      OldBreaks(breaks, all, left, right, p, n);
    }
    PrefixIff(breaks, breaks', n, BreakAt(after, Machine(all, after, atr, mssAtr, n).0, n, c, atr, mssAtr));
  }

  function Bar(high: real, close: real): Candle { Candle(0.0, 60.0, 9.0, high, 8.0, close, 1.0, 0.0) }

  const FIVE := [Bar(10.0, 9.0), Bar(9.0, 9.0), Bar(9.0, 9.0), Bar(12.0, 9.0), Bar(11.5, 11.0)]
  const LATER := Bar(11.0, 11.0)

  const SIX := FIVE + [LATER]
  const FIRST := Swing(0, 10.0, true, Unlabelled)
  const SECOND := Swing(3, 12.0, true, Unlabelled)

  lemma ExamplePivots(i: nat)
    ensures i < 5 ==> PivotsAt(FIVE, 0, 2, i) == if i == 0 then [FIRST] else []
    ensures i < 6 ==> PivotsAt(SIX, 0, 2, i) == if i == 0 then [FIRST] else if i == 3 then [SECOND] else []
  {
    assert SIX[..5] == FIVE && SIX[5] == LATER;
    assert forall j :: 0 <= j < 6 ==> SIX[j].low == 8.0;
    assert forall j :: 0 <= j < 5 ==> FIVE[j] == SIX[j];
    if i + 1 < 5 { assert FIVE[i + 1].low == FIVE[i].low; }
    if i + 1 < 6 { assert SIX[i + 1].low == SIX[i].low; }
  }

  lemma {:induction false} ExampleRaw(n: nat)
    requires n <= 6
    ensures n <= 5 ==> RawSwings(FIVE, 0, 2, n) == if n == 0 then [] else [FIRST]
    ensures RawSwings(SIX, 0, 2, n) == if n == 0 then [] else if n < 4 then [FIRST] else [FIRST, SECOND]
  {
    hide RawSwings, PivotsAt;
    if n > 0 {
      ExampleRaw(n - 1);
      ExamplePivots(n - 1);
      if n <= 5 { RawStep(FIVE, 0, 2, n - 1); }
      RawStep(SIX, 0, 2, n - 1);
    } else {
      NoRaw(FIVE, 0, 2);
      NoRaw(SIX, 0, 2);
    }
  }

  lemma ExampleSwings()
    ensures SwingsOf(FIVE, 0, 2) == [FIRST]
    ensures SwingsOf(SIX, 0, 2) == [FIRST, SECOND.(mark := HigherHigh)]
  {
    ExampleRaw(5);
    ExampleRaw(6);
    assert [FIRST, SECOND][..1] == [FIRST] && [FIRST][..0] == [] && [FIRST, SECOND][..0] == [];
  }

  lemma {:induction false} ExampleMachine(n: nat)
    requires n <= 6
    ensures n <= 4 ==>
      Machine(FIVE, [FIRST], 1.0, 1.5, n) == (Track(NoTrend, if n == 0 then None else Some(0), None), [])
    ensures var high := if n == 0 then None else if n < 4 then Some(0) else Some(1);
      Machine(SIX, [FIRST, SECOND.(mark := HigherHigh)], 1.0, 1.5, n) == (Track(NoTrend, high, None), [])
  {
    if n > 0 {
      ExampleMachine(n - 1);
      assert [FIRST][..0] == [] && [FIRST, SECOND.(mark := HigherHigh)][..1] == [FIRST];
      assert SIX[..5] == FIVE && SIX[5] == LATER;
    }
  }

  /** The sixth candle confirms a higher pivot, and the break reported for the fifth is gone. */
  lemma WithdrawnBreakExample()
    ensures |ReportedBreaks(FIVE, 0, 2, 1.0, 1.5, 5)| == 1
    ensures ReportedBreaks(FIVE + [LATER], 0, 2, 1.0, 1.5, 6) == []
  {
    ExampleSwings();
    ExampleMachine(4);
    ExampleMachine(6);
  }

  // ----- Fair value gaps

  datatype Gap = Gap(index: nat, bullish: bool, top: real, bottom: real, filled: real)

  function Lowest(cs: seq<Candle>, default: real): real {
    if cs == [] then default
    else if |cs| == 1 then cs[0].low
    else Min(Lowest(cs[..|cs| - 1], default), cs[|cs| - 1].low)
  }

  function Highest(cs: seq<Candle>, default: real): real {
    if cs == [] then default
    else if |cs| == 1 then cs[0].high
    else Max(Highest(cs[..|cs| - 1], default), cs[|cs| - 1].high)
  }

  /** How much of [bottom, top] has been revisited from above down to `reached`. */
  function FilledFromAbove(top: real, bottom: real, reached: real): real
    requires bottom < top
  {
    if reached <= bottom then 1.0 else Clamp((top - Max(reached, bottom)) / (top - bottom), 0.0, 1.0)
  }

  function FilledFromBelow(top: real, bottom: real, reached: real): real
    requires bottom < top
  {
    if reached >= top then 1.0 else Clamp((Min(reached, top) - bottom) / (top - bottom), 0.0, 1.0)
  }

  predicate Bullish(candles: seq<Candle>, i: nat, minSize: real) {
    1 <= i && i + 1 < |candles| &&
    candles[i + 1].low > candles[i - 1].high && candles[i + 1].low - candles[i - 1].high >= minSize
  }

  predicate Bearish(candles: seq<Candle>, i: nat, minSize: real) {
    1 <= i && i + 1 < |candles| &&
    candles[i - 1].low > candles[i + 1].high && candles[i - 1].low - candles[i + 1].high >= minSize
  }

  /** The gap around candle `i`, filled or not. */
  function GapAt(candles: seq<Candle>, i: nat, minSize: real, bullish: bool): Option<Gap> {
    if bullish && Bullish(candles, i, minSize) then
      var top, bottom := candles[i + 1].low, candles[i - 1].high;
      Some(Gap(i, true, top, bottom, FilledFromAbove(top, bottom, Lowest(candles[i + 2..], top))))
    else if !bullish && Bearish(candles, i, minSize) then
      var top, bottom := candles[i - 1].low, candles[i + 1].high;
      Some(Gap(i, false, top, bottom, FilledFromBelow(top, bottom, Highest(candles[i + 2..], bottom))))
    else None
  }

  function Open(g: Option<Gap>): seq<Gap> { if g.Some? && g.value.filled < 1.0 then [g.value] else [] }

  /** Gaps still open, up to candle n - 1. */
  function GapsUpTo(candles: seq<Candle>, minSize: real, n: nat): seq<Gap> {
    if n == 0 then []
    else GapsUpTo(candles, minSize, n - 1) + Open(GapAt(candles, n - 1, minSize, true))
         + Open(GapAt(candles, n - 1, minSize, false))
  }

  method FairValueGaps(candles: seq<Candle>, minSizeAtr: real, atr: Option<real>) returns (gaps: seq<Gap>)
    ensures gaps == if atr.None? || atr.value <= 0.0 then []
                    else GapsUpTo(candles, minSizeAtr * atr.value, |candles|)
  {
    gaps := [];
    if atr.None? || atr.value <= 0.0 { return; }
    var minSize := minSizeAtr * atr.value;
    for i := 0 to |candles|
      invariant gaps == GapsUpTo(candles, minSize, i)
    {
      var bullish, bearish := GapAt(candles, i, minSize, true), GapAt(candles, i, minSize, false);
      if bullish.Some? && bullish.value.filled < 1.0 { gaps := gaps + [bullish.value]; }
      if bearish.Some? && bearish.value.filled < 1.0 { gaps := gaps + [bearish.value]; }
    }
  }

  lemma {:induction false} GapsMembers(candles: seq<Candle>, minSize: real, n: nat, g: Gap)
    ensures g in GapsUpTo(candles, minSize, n) <==>
      g.index < n && g.filled < 1.0 && GapAt(candles, g.index, minSize, g.bullish) == Some(g)
  {
    hide GapAt;
    if n > 0 {
      GapsMembers(candles, minSize, n - 1, g);
      GapKnowsPlace(candles, n - 1, minSize, true);
      GapKnowsPlace(candles, n - 1, minSize, false);
    }
  }

  lemma GapKnowsPlace(candles: seq<Candle>, i: nat, minSize: real, bullish: bool)
    ensures var g := GapAt(candles, i, minSize, bullish); g.Some? ==> g.value.index == i && g.value.bullish == bullish
  {
  }

  lemma FillMonotone(top: real, bottom: real, reached: real, deeper: real)
    requires bottom < top && deeper <= reached
    ensures 0.0 <= FilledFromAbove(top, bottom, reached) <= FilledFromAbove(top, bottom, deeper) <= 1.0
  {
    DivMonotone(top - Max(reached, bottom), top - Max(deeper, bottom), top - bottom);
  }

  lemma FillMonotoneBelow(top: real, bottom: real, reached: real, higher: real)
    requires bottom < top && reached <= higher
    ensures 0.0 <= FilledFromBelow(top, bottom, reached) <= FilledFromBelow(top, bottom, higher) <= 1.0
  {
    DivMonotone(Min(reached, top) - bottom, Min(higher, top) - bottom, top - bottom);
  }

  lemma UntouchedGap(top: real, bottom: real)
    requires bottom < top
    ensures FilledFromAbove(top, bottom, top) == 0.0 && FilledFromBelow(top, bottom, bottom) == 0.0
  {
    assert (top - top) / (top - bottom) == 0.0;
    assert (bottom - bottom) / (top - bottom) == 0.0;
  }

  /** A new candle never moves a gap's bounds and never lowers its fill. */
  lemma GapEvolves(candles: seq<Candle>, c: Candle, i: nat, minSize: real, bullish: bool)
    requires i + 1 < |candles|
    ensures var before, after := GapAt(candles, i, minSize, bullish), GapAt(candles + [c], i, minSize, bullish);
      && (before.Some? <==> after.Some?)
      && (before.Some? ==> after.value == before.value.(filled := after.value.filled)
                           && before.value.filled <= after.value.filled)
  {
    hide FilledFromAbove, FilledFromBelow;
    var cs := candles + [c];
    assert cs[i + 2..] == candles[i + 2..] + [c];
    assert cs[i + 2..][..|cs[i + 2..]| - 1] == candles[i + 2..];
    if bullish && Bullish(candles, i, minSize) {
      var top, bottom := candles[i + 1].low, candles[i - 1].high;
      UntouchedGap(top, bottom);
      FillMonotone(top, bottom, Lowest(candles[i + 2..], top), Min(Lowest(candles[i + 2..], top), c.low));
      FillMonotone(top, bottom, Max(top, c.low), c.low);
      FillMonotone(top, bottom, Max(top, c.low), top);
    } else if !bullish && Bearish(candles, i, minSize) {
      var top, bottom := candles[i - 1].low, candles[i + 1].high;
      UntouchedGap(top, bottom);
      FillMonotoneBelow(top, bottom, Highest(candles[i + 2..], bottom), Max(Highest(candles[i + 2..], bottom), c.high));
      FillMonotoneBelow(top, bottom, Min(bottom, c.high), c.high);
      FillMonotoneBelow(top, bottom, Min(bottom, c.high), bottom);
    }
  }

  /** Every open gap after a new candle was open before with the same bounds and no more fill,
      except one formed by the new candle itself: a filled gap is never revived. */
  lemma GapsNeverRevive(candles: seq<Candle>, c: Candle, minSize: real, g: Gap)
    requires g in GapsUpTo(candles + [c], minSize, |candles| + 1) && g.index + 1 < |candles|
    ensures exists h :: h in GapsUpTo(candles, minSize, |candles|)
                        && g == h.(filled := g.filled) && h.filled <= g.filled
  {
    GapsMembers(candles + [c], minSize, |candles| + 1, g);
    GapEvolves(candles, c, g.index, minSize, g.bullish);
    var h := GapAt(candles, g.index, minSize, g.bullish).value;
    GapsMembers(candles, minSize, |candles|, h);
  }

  lemma {:induction false} LowestReached(cs: seq<Candle>, default: real)
    ensures cs == [] ==> Lowest(cs, default) == default
    ensures forall k :: 0 <= k < |cs| ==> Lowest(cs, default) <= cs[k].low
    ensures cs != [] ==> exists k :: 0 <= k < |cs| && Lowest(cs, default) == cs[k].low
  {
    if |cs| == 1 {
      assert Lowest(cs, default) == cs[0].low;
    } else if cs != [] {
      LowestReached(cs[..|cs| - 1], default);
    }
  }

  /** An upward gap is reported exactly when the next candle opens one of the asked size over the previous candle and
      no later low has come back to its bottom; its fill is the part of it the lowest later low has come back over. */
  lemma UpwardGap(candles: seq<Candle>, minSize: real, i: nat)
    requires 1 <= i && i + 1 < |candles|
    ensures var top, bottom := candles[i + 1].low, candles[i - 1].high;
      (exists g :: g in GapsUpTo(candles, minSize, |candles|) && g.index == i && g.bullish)
      <==> top - bottom > 0.0 && top - bottom >= minSize
           && forall k :: i + 2 <= k < |candles| ==> candles[k].low > bottom
    ensures forall g :: g in GapsUpTo(candles, minSize, |candles|) && g.index == i && g.bullish ==>
      FillMeaning(candles, i, g)
  {
    hide GapsUpTo, GapAt, FillMeaning;
    forall h: Gap
      ensures h in GapsUpTo(candles, minSize, |candles|) && h.index == i && h.bullish
              <==> GapAt(candles, i, minSize, true) == Some(h) && h.filled < 1.0
    {
      GapsMembers(candles, minSize, |candles|, h);
      GapKnowsPlace(candles, i, minSize, true);
    }
    UpwardGapAt(candles, minSize, i);
  }

  lemma UpwardGapAt(candles: seq<Candle>, minSize: real, i: nat)
    requires 1 <= i && i + 1 < |candles|
    ensures var top, bottom, g := candles[i + 1].low, candles[i - 1].high, GapAt(candles, i, minSize, true);
      && (g.Some? && g.value.filled < 1.0
          <==> top - bottom > 0.0 && top - bottom >= minSize
               && forall k :: i + 2 <= k < |candles| ==> candles[k].low > bottom)
      && (g.Some? && g.value.filled < 1.0 ==> FillMeaning(candles, i, g.value))
  {
    hide FilledFromAbove, Lowest;
    var top, bottom, later := candles[i + 1].low, candles[i - 1].high, candles[i + 2..];
    LowestReached(later, top);
    assert forall k :: 0 <= k < |later| ==> later[k] == candles[i + 2 + k];
    assert forall k :: i + 2 <= k < |candles| ==> candles[k] == later[k - i - 2];
    if bottom < top { FillIsDepth(top, bottom, Lowest(later, top)); }
  }

  ghost predicate FillMeaning(candles: seq<Candle>, i: nat, g: Gap)
    requires 1 <= i && i + 1 < |candles|
  {
    && g.top == candles[i + 1].low && g.bottom == candles[i - 1].high
    && var depth := g.filled * (g.top - g.bottom);
       && 0.0 <= depth && (forall k :: i + 2 <= k < |candles| ==> g.top - candles[k].low <= depth)
       && (depth == 0.0 || exists k :: i + 2 <= k < |candles| && g.top - candles[k].low == depth)
  }

  lemma FillIsDepth(top: real, bottom: real, reached: real)
    requires bottom < top
    ensures var filled := FilledFromAbove(top, bottom, reached);
      && (filled < 1.0 <==> reached > bottom)
      && (filled < 1.0 ==> filled * (top - bottom) == if reached < top then top - reached else 0.0)
  {
    var size := top - bottom;
    QuotientOrder(top - Max(reached, bottom), size);
    DivMul(top - Max(reached, bottom), size);
  }

  function MirrorGap(g: Gap): Gap { Gap(g.index, !g.bullish, -g.bottom, -g.top, g.filled) }

  lemma {:induction false} ExtremesMirrored(cs: seq<Candle>, default: real)
    ensures Lowest(ReflectAll(cs), -default) == -Highest(cs, default)
    ensures Highest(ReflectAll(cs), -default) == -Lowest(cs, default)
  {
    if |cs| > 1 {
      ExtremesMirrored(cs[..|cs| - 1], default);
      assert ReflectAll(cs)[..|cs| - 1] == ReflectAll(cs[..|cs| - 1]);
    }
  }

  lemma FillMirrored(top: real, bottom: real, reached: real)
    requires bottom < top
    ensures FilledFromAbove(-bottom, -top, -reached) == FilledFromBelow(top, bottom, reached)
    ensures FilledFromBelow(-bottom, -top, -reached) == FilledFromAbove(top, bottom, reached)
  {
    assert -bottom - -top == top - bottom;
  }

  /** Downward gaps are the upward ones of the market turned upside down. */
  lemma GapMirrored(candles: seq<Candle>, i: nat, minSize: real, bullish: bool)
    ensures var g := GapAt(candles, i, minSize, bullish);
      GapAt(ReflectAll(candles), i, minSize, !bullish) == if g.Some? then Some(MirrorGap(g.value)) else None
  {
    hide FilledFromAbove, FilledFromBelow, Lowest, Highest;
    if 1 <= i && i + 1 < |candles| {
      var later := candles[i + 2..];
      assert ReflectAll(candles)[i + 2..] == ReflectAll(later);
      if bullish && Bullish(candles, i, minSize) {
        var top, bottom := candles[i + 1].low, candles[i - 1].high;
        ExtremesMirrored(later, top);
        FillMirrored(top, bottom, Lowest(later, top));
      }
      if !bullish && Bearish(candles, i, minSize) {
        var top, bottom := candles[i - 1].low, candles[i + 1].high;
        ExtremesMirrored(later, bottom);
        FillMirrored(top, bottom, Highest(later, bottom));
      }
    }
  }

  // ----- Order blocks

  datatype Block = Block(index: nat, bullish: bool, top: real, bottom: real, mitigated: bool, breaker: bool)

  function BlockAt(candles: seq<Candle>, i: nat, move: real, fullRange: bool): Option<Block> {
    if i + 1 >= |candles| then None
    else
      var c, next := candles[i], candles[i + 1];
      var bullish := c.close < c.open && next.close - next.open >= move;
      var bearish := !bullish && c.close > c.open && next.open - next.close >= move;
      if !bullish && !bearish then None
      else
        var top := if fullRange then c.high else Max(c.open, c.close);
        var bottom := if fullRange then c.low else Min(c.open, c.close);
        var after := candles[i + 2..];
        Some(Block(i, bullish, top, bottom, Touched(after, top, bottom),
                   if bullish then ClosedBelow(after, bottom) else ClosedAbove(after, top)))
  }

  predicate Touched(after: seq<Candle>, top: real, bottom: real) {
    exists k :: 0 <= k < |after| && after[k].low <= top && after[k].high >= bottom
  }

  predicate ClosedBelow(after: seq<Candle>, bottom: real) { exists k :: 0 <= k < |after| && after[k].close < bottom }

  predicate ClosedAbove(after: seq<Candle>, top: real) { exists k :: 0 <= k < |after| && after[k].close > top }

  function BlocksUpTo(candles: seq<Candle>, move: real, fullRange: bool, n: nat): seq<Block> {
    if n == 0 then []
    else
      var b := BlockAt(candles, n - 1, move, fullRange);
      BlocksUpTo(candles, move, fullRange, n - 1) + if b.Some? then [b.value] else []
  }

  /** Python's `s[-m:]`: zero keeps everything, a negative m drops from the front. */
  function LastOf<T>(s: seq<T>, m: int): seq<T> {
    if m > 0 then (if |s| > m then s[|s| - m..] else s)
    else if -m < |s| then s[-m..] else []
  }

  method OrderBlocks(candles: seq<Candle>, displacementAtr: real, fullRange: bool, atr: Option<real>, maxBlocks: int)
    returns (blocks: seq<Block>)
    ensures blocks == if atr.None? || atr.value <= 0.0 || |candles| < 3 then []
                      else LastOf(BlocksUpTo(candles, displacementAtr * atr.value, fullRange, |candles|), maxBlocks)
  {
    if atr.None? || atr.value <= 0.0 || |candles| < 3 { return []; }
    var move := displacementAtr * atr.value;
    blocks := [];
    for i := 0 to |candles|
      invariant blocks == BlocksUpTo(candles, move, fullRange, i)
    {
      var b := BlockAt(candles, i, move, fullRange);
      if b.Some? { blocks := blocks + [b.value]; }
    }
    blocks := LastOf(blocks, maxBlocks);
  }

  lemma {:induction false} BlocksMembers(candles: seq<Candle>, move: real, fullRange: bool, n: nat, b: Block)
    ensures b in BlocksUpTo(candles, move, fullRange, n)
            <==> b.index < n && BlockAt(candles, b.index, move, fullRange) == Some(b)
  {
    hide BlockAt;
    if n > 0 {
      BlocksMembers(candles, move, fullRange, n - 1, b);
      BlockKnowsIndex(candles, n - 1, move, fullRange);
    }
  }

  /** A demand block is a falling candle before a rise of the asked size: its body, or its range if asked. A later
      candle that overlaps it mitigates it, and one that closes under it breaks it. */
  lemma DemandBlock(candles: seq<Candle>, i: nat, move: real, fullRange: bool)
    requires i + 1 < |candles|
    ensures var c, next, b := candles[i], candles[i + 1], BlockAt(candles, i, move, fullRange);
      && (b.Some? && b.value.bullish <==> c.close < c.open && next.close - next.open >= move)
      && (b.Some? && b.value.bullish ==>
            && b.value.index == i
            && b.value.top == (if fullRange then c.high else c.open)
            && b.value.bottom == (if fullRange then c.low else c.close)
            && (b.value.mitigated <==> exists k :: i + 2 <= k < |candles|
                                         && candles[k].low <= b.value.top && b.value.bottom <= candles[k].high)
            && (b.value.breaker <==> exists k :: i + 2 <= k < |candles| && candles[k].close < b.value.bottom))
  {
    var later := candles[i + 2..];
    assert forall k :: 0 <= k < |later| ==> later[k] == candles[i + 2 + k];
    assert forall k :: i + 2 <= k < |candles| ==> candles[k] == later[k - i - 2];
  }

  function MirrorBlock(b: Block): Block { Block(b.index, !b.bullish, -b.bottom, -b.top, b.mitigated, b.breaker) }

  lemma LaterMirrored(later: seq<Candle>, top: real, bottom: real)
    ensures Touched(ReflectAll(later), -bottom, -top) == Touched(later, top, bottom)
    ensures ClosedBelow(ReflectAll(later), -top) == ClosedAbove(later, top)
    ensures ClosedAbove(ReflectAll(later), -bottom) == ClosedBelow(later, bottom)
  {
    var turned := ReflectAll(later);
    assert forall k :: 0 <= k < |later| ==> turned[k] == Reflect(later[k]);
  }

  /** Supply blocks are the demand blocks of the market turned upside down. */
  lemma BlockMirrored(candles: seq<Candle>, i: nat, move: real, fullRange: bool)
    ensures var b := BlockAt(candles, i, move, fullRange);
      BlockAt(ReflectAll(candles), i, move, fullRange) == if b.Some? then Some(MirrorBlock(b.value)) else None
  {
    hide Touched, ClosedBelow, ClosedAbove;
    var b := BlockAt(candles, i, move, fullRange);
    if b.Some? {
      assert ReflectAll(candles)[i + 2..] == ReflectAll(candles[i + 2..]);
      LaterMirrored(candles[i + 2..], b.value.top, b.value.bottom);
    }
  }

  /** A positive limit reports the latest blocks, in order; zero reports all. */
  lemma LastOfMeaning<T>(s: seq<T>, m: nat)
    ensures var r := LastOf(s, m);
      && |r| <= |s| && r == s[|s| - |r|..] && (m == 0 ==> r == s)
      && (m > 0 ==> |r| <= m && (|r| == m || r == s))
  {
  }

  /** Same zone; mitigation and polarity can only be gained. */
  ghost predicate Advances(before: Block, after: Block) {
    && after == before.(mitigated := after.mitigated, breaker := after.breaker)
    && (before.mitigated ==> after.mitigated) && (before.breaker ==> after.breaker)
  }

  lemma BlockEvolves(candles: seq<Candle>, c: Candle, i: nat, move: real, fullRange: bool)
    requires i + 1 < |candles|
    ensures var before, after := BlockAt(candles, i, move, fullRange), BlockAt(candles + [c], i, move, fullRange);
      (before.Some? <==> after.Some?) && (before.Some? ==> Advances(before.value, after.value))
  {
    var old', new' := candles[i + 2..], (candles + [c])[i + 2..];
    assert new' == old' + [c];
    assert forall k :: 0 <= k < |old'| ==> new'[k] == old'[k];
  }

  lemma {:induction false} BlocksEvolve(candles: seq<Candle>, c: Candle, move: real, fullRange: bool, n: nat)
    requires n < |candles|
    ensures var before, after := BlocksUpTo(candles, move, fullRange, n), BlocksUpTo(candles + [c], move, fullRange, n);
      |before| == |after| && forall k :: 0 <= k < |before| ==> Advances(before[k], after[k])
  {
    if n > 0 {
      BlocksEvolve(candles, c, move, fullRange, n - 1);
      BlockEvolves(candles, c, n - 1, move, fullRange);
    }
  }

  /** Every reported block after a new candle advances from a block reported before,
      unless the new candle itself completed it. */
  lemma ReportedBlocksEvolve(candles: seq<Candle>, c: Candle, move: real, fullRange: bool, m: int, b: Block)
    requires |candles| >= 3
    requires b in LastOf(BlocksUpTo(candles + [c], move, fullRange, |candles| + 1), m) && b.index + 1 < |candles|
    ensures exists a :: a in LastOf(BlocksUpTo(candles, move, fullRange, |candles|), m) && Advances(a, b)
  {
    hide BlockAt, LastOf;
    var n := |candles|;
    var before, after := BlocksUpTo(candles, move, fullRange, n), BlocksUpTo(candles + [c], move, fullRange, n + 1);
    BlocksEvolve(candles, c, move, fullRange, n - 1);
    NoBlockAtEnd(candles, move, fullRange);
    NoBlockAtEnd(candles + [c], move, fullRange);
    var old', new' := BlocksUpTo(candles, move, fullRange, n - 1), BlocksUpTo(candles + [c], move, fullRange, n - 1);
    assert before == old';
    var newest := BlockAt(candles + [c], n - 1, move, fullRange);
    assert after == new' + if newest.Some? then [newest.value] else [];
    var at := PlaceInTail(after, m, b);
    BlockKnowsIndex(candles + [c], n - 1, move, fullRange);
    assert at < |before|;
    LastOfKeeps(before, |after|, m, at);
    assert Advances(before[at], b);
  }

  lemma NoBlockAtEnd(candles: seq<Candle>, move: real, fullRange: bool)
    requires candles != []
    ensures BlockAt(candles, |candles| - 1, move, fullRange).None?
  {
  }

  lemma BlockKnowsIndex(candles: seq<Candle>, i: nat, move: real, fullRange: bool)
    ensures var b := BlockAt(candles, i, move, fullRange); b.Some? ==> b.value.index == i
  {
  }

  lemma PlaceInTail<T>(s: seq<T>, m: int, x: T) returns (at: nat)
    requires x in LastOf(s, m)
    ensures at < |s| && s[at] == x && at >= if m > 0 then |s| - m else -m
  {
    var k :| 0 <= k < |LastOf(s, m)| && LastOf(s, m)[k] == x;
    at := k + |s| - |LastOf(s, m)|;
  }

  /** What stays in view after one append was in view before. */
  lemma LastOfKeeps<T>(before: seq<T>, length: nat, m: int, at: nat)
    requires |before| <= length <= |before| + 1 && at < |before|
    requires at >= if m > 0 then length - m else -m
    ensures before[at] in LastOf(before, m)
  {
    var dropped := |before| - |LastOf(before, m)|;
    assert LastOf(before, m)[at - dropped] == before[at];
  }
}
