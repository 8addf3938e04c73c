/** The interchangeable consensus algorithms over the active signals of a symbol. */
module Consensus {
  import opened Numeric
  import opened Market
  import opened Options

  datatype Signal = Signal(strategy: string, direction: Direction, score: real)

  datatype Result = Result(direction: Direction, score: real, agreement: real, participants: seq<string>,
                           contributions: map<string, real>)

  const EMPTY := Result(Neutral, 0.0, 0.0, [], map[])

  function ClampScore(x: real): real { Max(0.0, Min(100.0, x)) }

  function Actionable(signals: seq<Signal>): (voters: seq<Signal>)
    ensures forall s :: s in voters ==> s in signals && !s.direction.Neutral?
  {
    if signals == [] then []
    else
      var n := |signals| - 1;
      Actionable(signals[..n]) + if signals[n].direction.Neutral? then [] else [signals[n]]
  }

  function Names(signals: seq<Signal>): seq<string> {
    seq(|signals|, i requires 0 <= i < |signals| => signals[i].strategy)
  }

  function WeightOf(weights: map<string, real>, default: real, name: string): real {
    if name in weights then weights[name] else default
  }

  function Two(x: real): real { RoundTo(x, 100.0) }

  function Four(x: real): real { RoundTo(x, 10000.0) }

  // ----- Sums over the voters

  /** Weight on one side. */
  function Mass(voters: seq<Signal>, w: map<string, real>, default: real, side: Direction): real {
    if voters == [] then 0.0
    else
      var s := voters[|voters| - 1];
      Mass(voters[..|voters| - 1], w, default, side)
      + if s.direction == side then WeightOf(w, default, s.strategy) else 0.0
  }

  /** Weighted scores on one side. */
  function Points(voters: seq<Signal>, w: map<string, real>, default: real, side: Direction): real {
    if voters == [] then 0.0
    else
      var s := voters[|voters| - 1];
      Points(voters[..|voters| - 1], w, default, side)
      + if s.direction == side then Times(ClampScore(s.score), WeightOf(w, default, s.strategy)) else 0.0
  }

  lemma PrefixStep(voters: seq<Signal>, i: nat)
    requires i < |voters|
    ensures voters[..i + 1][..i] == voters[..i] && voters[..i + 1][i] == voters[i]
  {
  }

  ghost predicate NonNegative(voters: seq<Signal>, w: map<string, real>, default: real) {
    forall i :: 0 <= i < |voters| ==> WeightOf(w, default, voters[i].strategy) >= 0.0
  }

  /** Scores are clamped to 100, so a side's points are at most 100 times its mass. */
  lemma {:induction false} PointsBounded(voters: seq<Signal>, w: map<string, real>, default: real, side: Direction)
    requires NonNegative(voters, w, default)
    ensures 0.0 <= Points(voters, w, default, side) <= 100.0 * Mass(voters, w, default, side)
  {
    if voters != [] {
      hide Times;
      var n := |voters| - 1;
      PointsBounded(voters[..n], w, default, side);
      TimesBounded(ClampScore(voters[n].score), WeightOf(w, default, voters[n].strategy));
    }
  }

  lemma TimesBounded(c: real, weight: real)
    requires 0.0 <= c <= 100.0 && weight >= 0.0
    ensures 0.0 <= Times(c, weight) <= 100.0 * weight
  {
    MulMonotone(c, 100.0, weight);
  }

  // ----- Weighted average and its two modulated forms

  /** How base weights are modulated: not at all, by recent performance, or by the market regime. */
  datatype Weighting =
    | Plain
    | Dynamic(performance: string -> real)
    | Regime(multipliers: map<string, map<string, real>>, regime: Option<string>)

  function Modulated(weighting: Weighting, name: string, base: real): real {
    match weighting
    case Plain => base
    case Dynamic(performance) => Times(base, 0.5 + performance(name))
    case Regime(multipliers, regime) =>
      if regime.None? then base
      else
        var table := if regime.value in multipliers then multipliers[regime.value] else map[];
        Times(base, if name in table then table[name] else 1.0)
  }

  function EffectiveWeights(weighting: Weighting, voters: seq<Signal>, weights: map<string, real>, default: real)
    : map<string, real>
  {
    map name | name in Names(voters) :: Modulated(weighting, name, WeightOf(weights, default, name))
  }

  function DirectionOf(value: real): Direction {
    if Abs(value) < 0.000000001 then Neutral else if value > 0.0 then Long else Short
  }

  function Contribution(s: Signal, w: map<string, real>, default: real): real {
    Times(if s.direction.Long? then ClampScore(s.score) else -ClampScore(s.score), WeightOf(w, default, s.strategy))
  }

  lemma ContributionSigned(s: Signal, w: map<string, real>, default: real)
    ensures var points := Times(ClampScore(s.score), WeightOf(w, default, s.strategy));
      Contribution(s, w, default) == if s.direction.Long? then points else -points
  {
  }

  function Share(x: real, total: real): real
    requires total != 0.0
  {
    x / total
  }

  /** The last vote of a strategy is the contribution reported for it. */
  function Contributions(voters: seq<Signal>, w: map<string, real>, default: real, total: real): map<string, real>
    requires total != 0.0
  {
    if voters == [] then map[]
    else
      var s := voters[|voters| - 1];
      Contributions(voters[..|voters| - 1], w, default, total)[s.strategy :=
        Two(Share(Contribution(s, w, default), total))]
  }

  /** Both sides' masses and points decide. */
  function AverageOf(voters: seq<Signal>, w: map<string, real>, default: real): Result {
    var long, short := Mass(voters, w, default, Long), Mass(voters, w, default, Short);
    var total := long + short;
    if voters == [] || total <= 0.0 then EMPTY
    else
      var value := Share(Points(voters, w, default, Long) - Points(voters, w, default, Short), total);
      var direction := DirectionOf(value);
      var agreement := if direction.Neutral? then 0.5 else Share(if direction.Long? then long else short, total);
      Result(direction, Two(Abs(value)), Four(agreement), Names(voters), Contributions(voters, w, default, total))
  }

  function WeightedAverageOf(weighting: Weighting, signals: seq<Signal>, weights: map<string, real>, default: real)
    : Result
  {
    var voters := Actionable(signals);
    AverageOf(voters, EffectiveWeights(weighting, voters, weights, default), default)
  }

  method TotalWeight(voters: seq<Signal>, w: map<string, real>, default: real) returns (total: real)
    requires forall s :: s in voters ==> !s.direction.Neutral?
    ensures total == Mass(voters, w, default, Long) + Mass(voters, w, default, Short)
  {
    total := 0.0;
    for i := 0 to |voters|
      invariant total == Mass(voters[..i], w, default, Long) + Mass(voters[..i], w, default, Short)
    {
      PrefixStep(voters, i);
      assert voters[i] in voters;
      total := total + WeightOf(w, default, voters[i].strategy);
    }
    assert voters[..|voters|] == voters;
  }

  method WeightedAverage(weighting: Weighting, signals: seq<Signal>, weights: map<string, real>, default: real)
    returns (r: Result)
    ensures r == WeightedAverageOf(weighting, signals, weights, default)
  {
    hide DirectionOf, Two, Four, Mass, Points, Share, Contributions, EffectiveWeights, Names;
    var voters := Actionable(signals);
    if voters == [] { return EMPTY; }
    var effective := EffectiveWeights(weighting, voters, weights, default);
    var total := TotalWeight(voters, effective, default);
    if total <= 0.0 { return EMPTY; }
    var signed, longMass, shortMass, contributions := Accumulate(voters, effective, default, total);
    var value := Share(signed, total);
    var direction := DirectionOf(value);
    var agreement := if direction.Neutral? then 0.5 else Share(if direction.Long? then longMass else shortMass, total);
    return Result(direction, Two(Abs(value)), Four(agreement), Names(voters), contributions);
  }

  /** The voting loop. */
  method Accumulate(voters: seq<Signal>, w: map<string, real>, default: real, total: real)
    returns (signed: real, longMass: real, shortMass: real, contributions: map<string, real>)
    requires total != 0.0 && forall s :: s in voters ==> !s.direction.Neutral?
    ensures signed == Points(voters, w, default, Long) - Points(voters, w, default, Short)
    ensures longMass == Mass(voters, w, default, Long) && shortMass == Mass(voters, w, default, Short)
    ensures contributions == Contributions(voters, w, default, total)
  {
    signed, longMass, shortMass, contributions := 0.0, 0.0, 0.0, map[];
    for i := 0 to |voters|
      invariant signed == Points(voters[..i], w, default, Long) - Points(voters[..i], w, default, Short)
      invariant longMass == Mass(voters[..i], w, default, Long)
      invariant shortMass == Mass(voters[..i], w, default, Short)
      invariant contributions == Contributions(voters[..i], w, default, total)
    {
      hide Two, Times, ClampScore;
      PrefixStep(voters, i);
      assert voters[i] in voters;
      ContributionSigned(voters[i], w, default);
      var weight := WeightOf(w, default, voters[i].strategy);
      var contribution := Contribution(voters[i], w, default);
      signed := signed + contribution;
      contributions := contributions[voters[i].strategy := Two(Share(contribution, total))];
      if voters[i].direction.Long? { longMass := longMass + weight; } else { shortMass := shortMass + weight; }
    }
    assert voters[..|voters|] == voters;
  }

  lemma RoundedShare(x: real)
    ensures Four(x / 100.0) == Two(x) / 100.0
  {
    assert x / 100.0 * 10000.0 == x * 100.0;
  }

  /** With nonnegative weights the reported agreement is at least the reported score over 100. */
  lemma AgreementCoversScore(voters: seq<Signal>, w: map<string, real>, default: real)
    requires NonNegative(voters, w, default)
    ensures var r := AverageOf(voters, w, default); r.agreement >= r.score / 100.0
  {
    hide Mass, Points, Two, Four, Share, Contributions, Names;
    var long, short := Mass(voters, w, default, Long), Mass(voters, w, default, Short);
    var total := long + short;
    if voters != [] && total > 0.0 {
      var p, q := Points(voters, w, default, Long), Points(voters, w, default, Short);
      PointsBounded(voters, w, default, Long);
      PointsBounded(voters, w, default, Short);
      var value := Share(p - q, total);
      var direction := DirectionOf(value);
      var agreement := if direction.Neutral? then 0.5 else Share(if direction.Long? then long else short, total);
      ShareCovers(p, q, long, short, total);
      FourMonotone(Abs(value) / 100.0, agreement);
      RoundedShare(Abs(value));
    }
  }

  lemma ShareCovers(p: real, q: real, long: real, short: real, total: real)
    requires total > 0.0 && 0.0 <= p <= 100.0 * long && 0.0 <= q <= 100.0 * short
    ensures Share(p - q, total) / 100.0 <= Share(long, total)
    ensures -Share(p - q, total) / 100.0 <= Share(short, total)
  {
    var a, b := (p - q) / 100.0, (q - p) / 100.0;
    DivMonotone(a, long, total);
    DivMonotone(b, short, total);
    var value := (p - q) / total;
    DivMul(p - q, total);
    UniqueQuotient(a, total, value / 100.0);
    UniqueQuotient(b, total, -value / 100.0);
  }

  lemma FourMonotone(x: real, y: real)
    requires x <= y
    ensures Four(x) <= Four(y)
  {
    RoundToMonotone(x, y, 10000.0);
  }

  // ----- Mirroring

  function Flip(signals: seq<Signal>): (r: seq<Signal>)
    ensures |r| == |signals|
  {
    seq(|signals|, i requires 0 <= i < |signals| => signals[i].(direction := Mirror(signals[i].direction)))
  }

  function MirrorResult(r: Result): Result {
    Result(Mirror(r.direction), r.score, r.agreement, r.participants,
           map k | k in r.contributions :: -r.contributions[k])
  }

  lemma {:induction false} FlipActionable(signals: seq<Signal>)
    ensures Actionable(Flip(signals)) == Flip(Actionable(signals))
  {
    if signals != [] {
      var n := |signals| - 1;
      FlipActionable(signals[..n]);
      assert Flip(signals)[..n] == Flip(signals[..n]);
    }
  }

  lemma {:induction false} FlipSums(voters: seq<Signal>, w: map<string, real>, default: real, side: Direction)
    ensures Mass(Flip(voters), w, default, side) == Mass(voters, w, default, Mirror(side))
    ensures Points(Flip(voters), w, default, side) == Points(voters, w, default, Mirror(side))
  {
    if voters != [] {
      var n := |voters| - 1;
      FlipSums(voters[..n], w, default, side);
      assert Flip(voters)[..n] == Flip(voters[..n]);
    }
  }

  lemma FlipStep(voters: seq<Signal>)
    requires voters != []
    ensures var n := |voters| - 1;
      Flip(voters)[..n] == Flip(voters[..n]) && Flip(voters)[n] == voters[n].(direction := Mirror(voters[n].direction))
  {
  }

  lemma {:induction false} FlipContributions(voters: seq<Signal>, w: map<string, real>, default: real, total: real)
    requires total != 0.0 && forall s :: s in voters ==> !s.direction.Neutral?
    ensures var c, f := Contributions(voters, w, default, total), Contributions(Flip(voters), w, default, total);
      c.Keys == f.Keys && forall k :: k in c ==> f[k] == -c[k]
  {
    hide Two, Share, Contribution, Times, Flip, WeightOf, ClampScore;
    if voters != [] {
      var n := |voters| - 1;
      assert voters[n] in voters;
      FlipContributions(voters[..n], w, default, total);
      FlipStep(voters);
      ContributionSigned(voters[n], w, default);
      ContributionSigned(Flip(voters)[n], w, default);
      var x := Contribution(voters[n], w, default);
      ShareOdd(x, total);
      TwoOdd(Share(x, total));
    }
  }

  lemma ShareOdd(x: real, total: real)
    requires total != 0.0
    ensures Share(-x, total) == -Share(x, total)
  {
    DivMul(x, total);
    UniqueQuotient(-x, total, -(x / total));
  }

  lemma TwoOdd(x: real)
    ensures Two(-x) == -Two(x)
  {
    RoundOdd(x * 100.0);
    assert -x * 100.0 == -(x * 100.0);
  }

  lemma DirectionOdd(value: real)
    ensures DirectionOf(-value) == Mirror(DirectionOf(value)) && Abs(-value) == Abs(value)
  {
  }

  lemma FieldsMirrored(voters: seq<Signal>, w: map<string, real>, default: real)
    ensures var l, r := AverageOf(Flip(voters), w, default), AverageOf(voters, w, default);
      l.direction == Mirror(r.direction) && l.score == r.score && l.agreement == r.agreement
      && l.participants == r.participants
  {
    hide Mass, Points, Two, Four, Share, Contributions, DirectionOf, Abs;
    assert Names(Flip(voters)) == Names(voters);
    FlipSums(voters, w, default, Long);
    FlipSums(voters, w, default, Short);
    var total := Mass(voters, w, default, Long) + Mass(voters, w, default, Short);
    if voters != [] && total > 0.0 {
      var net := Points(voters, w, default, Long) - Points(voters, w, default, Short);
      ShareOdd(net, total);
      DirectionOdd(Share(net, total));
    }
  }

  lemma ContributionsMirrored(voters: seq<Signal>, w: map<string, real>, default: real)
    requires forall s :: s in voters ==> !s.direction.Neutral?
    ensures AverageOf(Flip(voters), w, default).contributions
            == MirrorResult(AverageOf(voters, w, default)).contributions
  {
    hide Mass, Points, Two, Four, Share, Contributions, DirectionOf, Flip, Names, Abs;
    FlipSums(voters, w, default, Long);
    FlipSums(voters, w, default, Short);
    var total := Mass(voters, w, default, Long) + Mass(voters, w, default, Short);
    if voters != [] && total > 0.0 { FlipContributions(voters, w, default, total); }
  }

  lemma AverageMirrored(voters: seq<Signal>, w: map<string, real>, default: real)
    requires forall s :: s in voters ==> !s.direction.Neutral?
    ensures AverageOf(Flip(voters), w, default) == MirrorResult(AverageOf(voters, w, default))
  {
    hide AverageOf;
    FieldsMirrored(voters, w, default);
    ContributionsMirrored(voters, w, default);
  }

  /** Reversing every signal reverses the consensus and changes nothing else. */
  lemma MirrorSymmetry(weighting: Weighting, signals: seq<Signal>, weights: map<string, real>, default: real)
    ensures WeightedAverageOf(weighting, Flip(signals), weights, default)
            == MirrorResult(WeightedAverageOf(weighting, signals, weights, default))
  {
    var voters := Actionable(signals);
    FlipActionable(signals);
    assert Names(Flip(voters)) == Names(voters);
    hide AverageOf;
    AverageMirrored(voters, EffectiveWeights(weighting, voters, weights, default), default);
  }

  // ----- Neutral modulation

  /** A weighting that multiplies every base weight by one. */
  ghost predicate NeutralFor(weighting: Weighting, voters: seq<Signal>) {
    match weighting
    case Plain => true
    case Dynamic(performance) => forall name :: name in Names(voters) ==> performance(name) == 0.5
    case Regime(multipliers, regime) =>
      regime.Some? && regime.value in multipliers ==>
        forall name :: name in Names(voters) && name in multipliers[regime.value] ==>
          multipliers[regime.value][name] == 1.0
  }

  /** Without history, or outside a configured regime, the modulated forms are the plain average. */
  lemma NeutralModulation(weighting: Weighting, signals: seq<Signal>, weights: map<string, real>, default: real)
    requires NeutralFor(weighting, Actionable(signals))
    ensures WeightedAverageOf(weighting, signals, weights, default)
            == WeightedAverageOf(Plain, signals, weights, default)
  {
    var voters := Actionable(signals);
    var a := EffectiveWeights(weighting, voters, weights, default);
    var b := EffectiveWeights(Plain, voters, weights, default);
    forall name | name in Names(voters) ensures a[name] == b[name] {
      assert Times(WeightOf(weights, default, name), 1.0) == WeightOf(weights, default, name);
    }
    assert a == b;
  }

  // ----- What the modulations do

  lemma ActionableStep(signals: seq<Signal>, s: Signal)
    ensures Actionable(signals + [s]) == Actionable(signals) + if s.direction == Neutral then [] else [s]
  {
    assert (signals + [s])[..|signals|] == signals;
  }

  lemma {:induction false} ActionableConcat(a: seq<Signal>, b: seq<Signal>)
    ensures Actionable(a + b) == Actionable(a) + Actionable(b)
  {
    hide Actionable;
    if b == [] {
      assert a + b == a;
      ActionableNone();
    } else {
      var n := |b| - 1;
      ActionableConcat(a, b[..n]);
      ActionableStep(b[..n], b[n]);
      ActionableStep(a + b[..n], b[n]);
      assert b[..n] + [b[n]] == b && a + b[..n] + [b[n]] == a + b;
    }
  }

  lemma ActionableNone()
    ensures Actionable([]) == []
  {
  }

  lemma ActionableOne(s: Signal)
    ensures Actionable([s]) == if s.direction == Neutral then [] else [s]
  {
    assert [s][..0] == [];
  }

  /** A strategy's weight moves with its performance in proportion to its base weight, which it has at one half. */
  lemma DynamicWeights(voters: seq<Signal>, weights: map<string, real>, default: real, p: string -> real,
                       q: string -> real, name: string)
    requires name in Names(voters)
    ensures var base := if name in weights then weights[name] else default;
      var before := EffectiveWeights(Dynamic(p), voters, weights, default);
      var after := EffectiveWeights(Dynamic(q), voters, weights, default);
      && name in before && name in after
      && after[name] - before[name] == Times(base, q(name) - p(name))
      && (p(name) == 0.5 ==> before[name] == base)
  {
    var base := WeightOf(weights, default, name);
    assert base * (0.5 + q(name)) - base * (0.5 + p(name)) == base * (q(name) - p(name));
  }

  /** A regime multiplies the base weights its table lists; nothing else changes a weight. */
  lemma RegimeWeights(voters: seq<Signal>, weights: map<string, real>, default: real,
                      multipliers: map<string, map<string, real>>, regime: Option<string>, name: string)
    requires name in Names(voters)
    ensures var base := if name in weights then weights[name] else default;
      var plain := EffectiveWeights(Plain, voters, weights, default);
      var w := EffectiveWeights(Regime(multipliers, regime), voters, weights, default);
      && name in w && name in plain && plain[name] == base
      && w[name] == if regime.Some? && regime.value in multipliers && name in multipliers[regime.value]
                    then Times(multipliers[regime.value][name], base) else base
  {
    var base := WeightOf(weights, default, name);
    TimesSwap(base, 1.0);
    if regime.Some? && regime.value in multipliers && name in multipliers[regime.value] {
      TimesSwap(base, multipliers[regime.value][name]);
    }
  }

  /** Weights that differ only by more for one strategy whose votes are all on one side. */
  ghost predicate Raised(voters: seq<Signal>, v: map<string, real>, w: map<string, real>, default: real, name: string) {
    forall i :: 0 <= i < |voters| ==>
      var a, b := WeightOf(v, default, voters[i].strategy), WeightOf(w, default, voters[i].strategy);
      if voters[i].strategy == name then a <= b else a == b
  }

  lemma {:induction false} RaisedMass(voters: seq<Signal>, v: map<string, real>, w: map<string, real>, default: real,
                                      name: string, side: Direction, other: Direction)
    requires Raised(voters, v, w, default, name) && side != other
    requires forall i :: 0 <= i < |voters| && voters[i].strategy == name ==> voters[i].direction == side
    ensures Mass(voters, v, default, side) <= Mass(voters, w, default, side)
    ensures Mass(voters, v, default, other) == Mass(voters, w, default, other)
  {
    if voters != [] { RaisedMass(voters[..|voters| - 1], v, w, default, name, side, other); }
  }

  lemma {:induction false} MassNonNegative(voters: seq<Signal>, w: map<string, real>, default: real, side: Direction)
    requires NonNegative(voters, w, default)
    ensures Mass(voters, w, default, side) >= 0.0
  {
    if voters != [] { MassNonNegative(voters[..|voters| - 1], w, default, side); }
  }

  /** The share of `mass'` in its total is at least that of `mass` in its own. */
  predicate NoSmallerShare(mass': real, rest': real, mass: real, rest: real) {
    mass * (mass' + rest') <= mass' * (mass + rest)
  }

  /** Raising the performance of a strategy that only votes for one side never lowers that side's share of the mass. */
  lemma PerformanceFavoursSide(voters: seq<Signal>, weights: map<string, real>, default: real, p: string -> real,
                               q: string -> real, name: string, side: Direction)
    requires side != Mirror(side) && forall n :: if n == name then p(n) <= q(n) else q(n) == p(n)
    requires forall i :: 0 <= i < |voters| ==>
      WeightOf(weights, default, voters[i].strategy) >= 0.0 && p(voters[i].strategy) >= -0.5
    requires forall i :: 0 <= i < |voters| && voters[i].strategy == name ==> voters[i].direction == side
    ensures var before := EffectiveWeights(Dynamic(p), voters, weights, default);
      var after := EffectiveWeights(Dynamic(q), voters, weights, default);
      var mass, mass' := Mass(voters, before, default, side), Mass(voters, after, default, side);
      var rest, rest' := Mass(voters, before, default, Mirror(side)), Mass(voters, after, default, Mirror(side));
      mass <= mass' && rest' == rest && NoSmallerShare(mass', rest', mass, rest)
  {
    hide Mass, EffectiveWeights, Raised, NonNegative, NoSmallerShare;
    var before := EffectiveWeights(Dynamic(p), voters, weights, default);
    var after := EffectiveWeights(Dynamic(q), voters, weights, default);
    PerformanceRaises(voters, weights, default, p, q, name);
    RaisedMass(voters, before, after, default, name, side, Mirror(side));
    MassNonNegative(voters, before, default, Mirror(side));
    ShareRises(Mass(voters, before, default, side), Mass(voters, after, default, side),
               Mass(voters, before, default, Mirror(side)));
  }

  lemma PerformanceRaises(voters: seq<Signal>, weights: map<string, real>, default: real, p: string -> real,
                          q: string -> real, name: string)
    requires forall n :: if n == name then p(n) <= q(n) else q(n) == p(n)
    requires forall i :: 0 <= i < |voters| ==>
      WeightOf(weights, default, voters[i].strategy) >= 0.0 && p(voters[i].strategy) >= -0.5
    ensures var before := EffectiveWeights(Dynamic(p), voters, weights, default);
      var after := EffectiveWeights(Dynamic(q), voters, weights, default);
      Raised(voters, before, after, default, name) && NonNegative(voters, before, default)
  {
    hide EffectiveWeights, Times;
    var before := EffectiveWeights(Dynamic(p), voters, weights, default);
    var after := EffectiveWeights(Dynamic(q), voters, weights, default);
    forall i | 0 <= i < |voters|
      ensures var a, b := WeightOf(before, default, voters[i].strategy), WeightOf(after, default, voters[i].strategy);
        a >= 0.0 && if voters[i].strategy == name then a <= b else a == b
    {
      var n := voters[i].strategy;
      DynamicAt(voters, weights, default, p, i);
      DynamicAt(voters, weights, default, q, i);
      TimesOrdered(WeightOf(weights, default, n), 0.5 + p(n), 0.5 + q(n));
    }
  }

  lemma DynamicAt(voters: seq<Signal>, weights: map<string, real>, default: real, p: string -> real, i: nat)
    requires i < |voters|
    ensures var n := voters[i].strategy;
      WeightOf(EffectiveWeights(Dynamic(p), voters, weights, default), default, n)
      == Times(WeightOf(weights, default, n), 0.5 + p(n))
  {
    assert Names(voters)[i] in Names(voters);
  }

  lemma TimesOrdered(base: real, x: real, y: real)
    requires base >= 0.0 && 0.0 <= x <= y
    ensures 0.0 <= Times(base, x) <= Times(base, y)
  {
    MulMonotone(0.0, x, base);
    MulMonotone(x, y, base);
  }

  lemma ShareRises(mass: real, more: real, rest: real)
    requires mass <= more && rest >= 0.0
    ensures NoSmallerShare(more, rest, mass, rest)
  {
    MulMonotone(mass, more, rest);
    assert mass * (more + rest) == mass * more + mass * rest;
    assert more * (mass + rest) == mass * more + more * rest;
  }

  /** The weight one vote carries, listed or default. */
  function Weights(voters: seq<Signal>, w: map<string, real>, default: real, side: Direction): seq<real> {
    seq(|voters|, k requires 0 <= k < |voters| =>
      if voters[k].direction != side then 0.0
      else if voters[k].strategy in w then w[voters[k].strategy] else default)
  }

  /** A score counts for at least 0 and at most 100. */
  function Scored(voters: seq<Signal>): seq<real> {
    seq(|voters|, k requires 0 <= k < |voters| =>
      if voters[k].score < 0.0 then 0.0 else if voters[k].score > 100.0 then 100.0 else voters[k].score)
  }

  function Weighed(weights: seq<real>, scores: seq<real>): seq<real>
    requires |weights| == |scores|
  {
    seq(|weights|, k requires 0 <= k < |weights| => Times(scores[k], weights[k]))
  }

  lemma VoteMeaning(s: Signal, w: map<string, real>, default: real)
    ensures WeightOf(w, default, s.strategy) == if s.strategy in w then w[s.strategy] else default
    ensures ClampScore(s.score) == if s.score < 0.0 then 0.0 else if s.score > 100.0 then 100.0 else s.score
  {
  }

  /** A side's mass is the sum of its votes' weights, and its points the sum of their weighted scores. */
  lemma {:induction false} SidesMeaning(voters: seq<Signal>, w: map<string, real>, default: real, side: Direction)
    ensures Mass(voters, w, default, side) == Sum(Weights(voters, w, default, side))
    ensures Points(voters, w, default, side) == Sum(Weighed(Weights(voters, w, default, side), Scored(voters)))
  {
    hide Times, WeightOf, ClampScore, Sum;
    if voters == [] {
      SumNone();
    } else {
      var n := |voters| - 1;
      SidesMeaning(voters[..n], w, default, side);
      VoteMeaning(voters[n], w, default);
      var ws, scores := Weights(voters, w, default, side), Scored(voters);
      assert ws == Weights(voters[..n], w, default, side) + [ws[n]];
      assert scores == Scored(voters[..n]) + [scores[n]];
      assert Weighed(ws, scores)
          == Weighed(Weights(voters[..n], w, default, side), Scored(voters[..n])) + [Times(scores[n], ws[n])];
      SumLast(Weights(voters[..n], w, default, side), ws[n]);
      SumLast(Weighed(Weights(voters[..n], w, default, side), Scored(voters[..n])), Times(scores[n], ws[n]));
      TimesAdds(ClampScore(voters[n].score), 0.0, 0.0);
    }
  }

  // ----- What the verdicts say, in masses and points

  /** How far a reported share may be from `x / total`: half a unit of its last digit. */
  predicate Reports(share: real, x: real, total: real, scale: real) {
    -0.5 * total <= Times(Times(share, total) - x, scale) <= 0.5 * total
  }

  lemma RoundedReports(x: real, total: real, scale: real)
    requires total > 0.0 && scale > 0.0
    ensures Reports(RoundTo(Share(x, total), scale), x, total, scale)
  {
    hide RoundTo;
    var q := Share(x, total);
    RoundToNear(q, scale);
    DivMul(x, total);
    ErrorScaled(RoundTo(q, scale), q, total, x, scale);
  }

  lemma ErrorScaled(r: real, q: real, total: real, x: real, scale: real)
    requires q * total == x && total > 0.0 && -0.5 <= (r - q) * scale <= 0.5
    ensures -0.5 * total <= Times(Times(r, total) - x, scale) <= 0.5 * total
  {
    var e, d := (r - q) * scale, r * total - x;
    MulMonotone(-0.5, e, total);
    MulMonotone(e, 0.5, total);
    assert d == (r - q) * total;
    Rearranged(r - q, total, scale, d, e);
  }

  lemma Rearranged(gap: real, total: real, scale: real, d: real, e: real)
    requires d == gap * total && e == gap * scale
    ensures Times(d, scale) == e * total
  {
  }

  /** The weighted average in masses and points: its direction is the sign of the net points unless they are less than
      1e-9 of the mass, its score the size of the net points per mass, its agreement the side's share of the mass. */
  lemma AverageMeaning(voters: seq<Signal>, w: map<string, real>, default: real)
    ensures var long, short := Mass(voters, w, default, Long), Mass(voters, w, default, Short);
      var net := Points(voters, w, default, Long) - Points(voters, w, default, Short);
      var r, total := AverageOf(voters, w, default), long + short;
      if voters == [] || total <= 0.0 then r == EMPTY
      else
        (r.direction.Long? <==> net >= 0.000000001 * total) && (r.direction.Short? <==> -net >= 0.000000001 * total)
        && Reports(r.score, Abs(net), total, 100.0) && r.participants == Names(voters)
        && r.contributions == Contributions(voters, w, default, total)
        && if r.direction.Neutral? then r.agreement == 0.5
           else Reports(r.agreement, if r.direction.Long? then long else short, total, 10000.0)
  {
    hide Mass, Points, Contributions, Names, Reports, RoundTo;
    var long, short := Mass(voters, w, default, Long), Mass(voters, w, default, Short);
    var net := Points(voters, w, default, Long) - Points(voters, w, default, Short);
    var total := long + short;
    if voters != [] && total > 0.0 {
      var value := Share(net, total);
      FourHalf();
      RoundedReports(long, total, 10000.0);
      RoundedReports(short, total, 10000.0);
      RoundedReports(Abs(net), total, 100.0);
      ShareSize(net, total);
    }
  }

  lemma ShareSize(net: real, total: real)
    requires total > 0.0
    ensures Abs(Share(net, total)) == Share(Abs(net), total)
    ensures Share(net, total) >= 0.000000001 <==> net >= 0.000000001 * total
    ensures Share(net, total) <= -0.000000001 <==> -net >= 0.000000001 * total
    ensures Share(net, total) > 0.0 <==> net > 0.0
  {
    NegatedQuotient(net, total);
    QuotientOrder(net, total);
    QuotientOrder(-net, total);
    QuotientAtLeast(net, total, 0.000000001, 0.000000001 * total);
    QuotientAtLeast(-net, total, 0.000000001, 0.000000001 * total);
  }

  // ----- Voting

  function Count(voters: seq<Signal>, side: Direction): nat {
    if voters == [] then 0
    else Count(voters[..|voters| - 1], side) + if voters[|voters| - 1].direction == side then 1 else 0
  }

  function ScoreSum(voters: seq<Signal>, side: Direction): real {
    if voters == [] then 0.0
    else
      ScoreSum(voters[..|voters| - 1], side)
      + if voters[|voters| - 1].direction == side then ClampScore(voters[|voters| - 1].score) else 0.0
  }

  function Winners(voters: seq<Signal>, side: Direction): seq<Signal> {
    if voters == [] then []
    else
      var n := |voters| - 1;
      Winners(voters[..n], side) + if voters[n].direction == side then [voters[n]] else []
  }

  /** A tie is a neutral result that still reports its participants and an agreement of one half. */
  function MajorityVoting(signals: seq<Signal>): Result {
    var voters := Actionable(signals);
    var long, short := Count(voters, Long), Count(voters, Short);
    if voters == [] then EMPTY
    else if long == short then Result(Neutral, 0.0, 0.5, Names(voters), map[])
    else
      var side := if long > short then Long else Short;
      var n := Count(voters, side);
      Result(side, Two(Share(ScoreSum(voters, side), n as real)), Four(Share(n as real, |voters| as real)),
             Names(voters), Scores(Winners(voters, side)))
  }

  function Scores(winners: seq<Signal>): map<string, real> {
    if winners == [] then map[]
    else
      var s := winners[|winners| - 1];
      Scores(winners[..|winners| - 1])[s.strategy := ClampScore(s.score)]
  }

  function WeightedScores(winners: seq<Signal>, w: map<string, real>, default: real): map<string, real> {
    if winners == [] then map[]
    else
      var s := winners[|winners| - 1];
      WeightedScores(winners[..|winners| - 1], w, default)[s.strategy :=
        Two(Times(ClampScore(s.score), WeightOf(w, default, s.strategy)))]
  }

  function WeightedVotingOf(signals: seq<Signal>, weights: map<string, real>, default: real): Result {
    var voters := Actionable(signals);
    var long, short := Mass(voters, weights, default, Long), Mass(voters, weights, default, Short);
    if voters == [] || long + short <= 0.0 || long == short then EMPTY
    else
      var side := if long > short then Long else Short;
      var mass := Mass(voters, weights, default, side);
      Result(side, Two(if mass > 0.0 then Share(Points(voters, weights, default, side), mass) else 0.0),
             Four(Share(mass, long + short)), Names(voters), WeightedScores(Winners(voters, side), weights, default))
  }

  method WeightedVoting(signals: seq<Signal>, weights: map<string, real>, default: real) returns (r: Result)
    ensures r == WeightedVotingOf(signals, weights, default)
  {
    hide Two, Four, Mass, Points, Share, Winners, WeightedScores, Names, Actionable;
    var voters := Actionable(signals);
    if voters == [] { return EMPTY; }
    var long, short := SideMasses(voters, weights, default);
    if long + short <= 0.0 || long == short { return EMPTY; }
    var side := if long > short then Long else Short;
    var mass := if side.Long? then long else short;
    var score := if mass > 0.0 then Share(Points(voters, weights, default, side), mass) else 0.0;
    return Result(side, Two(score), Four(Share(mass, long + short)), Names(voters),
                  WeightedScores(Winners(voters, side), weights, default));
  }

  method SideMasses(voters: seq<Signal>, weights: map<string, real>, default: real) returns (long: real, short: real)
    requires forall s :: s in voters ==> !s.direction.Neutral?
    ensures long == Mass(voters, weights, default, Long) && short == Mass(voters, weights, default, Short)
  {
    long, short := 0.0, 0.0;
    for i := 0 to |voters|
      invariant long == Mass(voters[..i], weights, default, Long)
      invariant short == Mass(voters[..i], weights, default, Short)
    {
      PrefixStep(voters, i);
      assert voters[i] in voters;
      var weight := WeightOf(weights, default, voters[i].strategy);
      if voters[i].direction.Long? { long := long + weight; } else { short := short + weight; }
    }
    assert voters[..|voters|] == voters;
  }

  lemma {:induction false} CommonWeights(voters: seq<Signal>, weights: map<string, real>, default: real,
                                         side: Direction, w: real)
    requires forall i :: 0 <= i < |voters| ==> WeightOf(weights, default, voters[i].strategy) == w
    ensures Mass(voters, weights, default, side) == Times(w, Count(voters, side) as real)
    ensures Points(voters, weights, default, side) == Times(w, ScoreSum(voters, side))
  {
    hide Times, ClampScore;
    if voters == [] {
      TimesAdds(w, 0.0, 0.0);
    } else {
      var n := |voters| - 1;
      CommonWeights(voters[..n], weights, default, side, w);
      TimesAdds(w, Count(voters[..n], side) as real, 1.0);
      TimesAdds(w, ScoreSum(voters[..n], side), ClampScore(voters[n].score));
      TimesSwap(ClampScore(voters[n].score), w);
    }
  }

  /** What weighted voting reports of the winners' scores. */
  function Reported(scores: map<string, real>, w: real): map<string, real> {
    map name | name in scores :: Two(Times(scores[name], w))
  }

  lemma {:induction false} CommonScores(winners: seq<Signal>, weights: map<string, real>, default: real, w: real)
    requires forall i :: 0 <= i < |winners| ==> WeightOf(weights, default, winners[i].strategy) == w
    ensures WeightedScores(winners, weights, default) == Reported(Scores(winners), w)
  {
    hide Two, Times, ClampScore;
    if winners != [] { CommonScores(winners[..|winners| - 1], weights, default, w); }
  }

  lemma WinnersStep(voters: seq<Signal>, s: Signal, side: Direction)
    ensures Winners(voters + [s], side) == Winners(voters, side) + if s.direction == side then [s] else []
  {
    assert (voters + [s])[..|voters|] == voters;
  }

  /** The winners are the votes for the side, one by one and in order. */
  lemma {:induction false} WinnersConcat(a: seq<Signal>, b: seq<Signal>, side: Direction)
    ensures Winners(a + b, side) == Winners(a, side) + Winners(b, side)
    ensures |b| == 1 ==> Winners(b, side) == if b[0].direction == side then b else []
  {
    hide Winners;
    if b == [] {
      assert a + b == a;
      WinnersNone(side);
    } else {
      var n := |b| - 1;
      WinnersConcat(a, b[..n], side);
      WinnersStep(b[..n], b[n], side);
      WinnersStep(a + b[..n], b[n], side);
      assert b[..n] + [b[n]] == b && a + b[..n] + [b[n]] == a + b;
      if n == 0 { WinnersNone(side); }
    }
  }

  lemma WinnersNone(side: Direction)
    ensures Winners([], side) == []
  {
  }

  lemma {:induction false} WinnersIncluded(voters: seq<Signal>, side: Direction)
    ensures forall s :: s in Winners(voters, side) ==> s in voters
  {
    if voters != [] { WinnersIncluded(voters[..|voters| - 1], side); }
  }

  lemma ShareScaled(x: real, n: real, w: real)
    requires n > 0.0 && w > 0.0
    ensures Times(w, n) > 0.0 && Share(Times(w, x), Times(w, n)) == Share(x, n)
  {
    PositiveProduct(w, n, Times(w, n));
    var q := x / n;
    DivMul(x, n);
    assert q * Times(w, n) == w * (q * n);
    UniqueQuotient(Times(w, x), Times(w, n), q);
  }

  lemma TimesOrder(w: real, x: real, y: real)
    requires w > 0.0
    ensures x < y <==> Times(w, x) < Times(w, y)
  {
    var gap := y - x;
    assert Times(w, y) - Times(w, x) == Times(w, gap);
    if gap > 0.0 {
      PositiveProduct(w, gap, Times(w, gap));
    } else {
      MulMonotone(gap, 0.0, w);
    }
  }

  /** With one common weight weighted voting decides, agrees and scores as majority voting and reports its winners'
      scores weighted and rounded; otherwise only a tie is reported differently. */
  lemma {:induction false} WeightedVotingRefinesMajority(signals: seq<Signal>, weights: map<string, real>,
                                                         default: real, w: real)
    requires w > 0.0 && forall s :: s in signals ==> WeightOf(weights, default, s.strategy) == w
    ensures var v, m := WeightedVotingOf(signals, weights, default), MajorityVoting(signals);
      && v.direction == m.direction && v.score == m.score && v.contributions == Reported(m.contributions, w)
      && (v.agreement == m.agreement && v.participants == m.participants
          <==> Actionable(signals) == [] || !m.direction.Neutral?)
  {
    hide Mass, Points, Count, ScoreSum, Actionable, WeightOf, Two, Four, Share, Names, Winners, Scores,
         WeightedScores, Times;
    var voters := Actionable(signals);
    forall i | 0 <= i < |voters| ensures WeightOf(weights, default, voters[i].strategy) == w {
      assert voters[i] in voters;
    }
    CommonWeights(voters, weights, default, Long, w);
    CommonWeights(voters, weights, default, Short, w);
    CountsAll(voters);
    var long, short, all := Count(voters, Long), Count(voters, Short), |voters|;
    TimesAdds(w, long as real, short as real);
    TimesOrder(w, long as real, short as real);
    TimesOrder(w, short as real, long as real);
    if voters != [] {
      ShareScaled(0.0, all as real, w);
      if long != short {
        var side := if long > short then Long else Short;
        ShareScaled(ScoreSum(voters, side), Count(voters, side) as real, w);
        ShareScaled(Count(voters, side) as real, all as real, w);
        WinnersIncluded(voters, side);
        WinnersWeighted(Winners(voters, side), voters, weights, default, w);
        CommonScores(Winners(voters, side), weights, default, w);
      }
    }
  }

  lemma WinnersWeighted(winners: seq<Signal>, voters: seq<Signal>, weights: map<string, real>, default: real, w: real)
    requires forall s :: s in winners ==> s in voters
    requires forall i :: 0 <= i < |voters| ==> WeightOf(weights, default, voters[i].strategy) == w
    ensures forall i :: 0 <= i < |winners| ==> WeightOf(weights, default, winners[i].strategy) == w
  {
    forall i | 0 <= i < |winners| ensures WeightOf(weights, default, winners[i].strategy) == w {
      assert winners[i] in winners;
    }
  }

  lemma {:induction false} CountsAll(voters: seq<Signal>)
    requires forall s :: s in voters ==> !s.direction.Neutral?
    ensures Count(voters, Long) + Count(voters, Short) == |voters|
  {
    if voters != [] {
      assert voters[|voters| - 1] in voters;
      CountsAll(voters[..|voters| - 1]);
    }
  }

  /** A directional vote always reports an agreement of at least one half, whatever the weights. */
  lemma VerdictMajority(signals: seq<Signal>, weights: map<string, real>, default: real)
    ensures var v := WeightedVotingOf(signals, weights, default); !v.direction.Neutral? ==> v.agreement >= 0.5
  {
    hide Mass, Points, Two, Four, Share, Actionable, Names, Winners, WeightedScores;
    var voters := Actionable(signals);
    var long, short := Mass(voters, weights, default, Long), Mass(voters, weights, default, Short);
    if long + short > 0.0 && long != short {
      var m := if long > short then long else short;
      HalfShare(m, long + short);
      FourHalf();
      FourMonotone(0.5, Share(m, long + short));
    }
  }

  lemma FourHalf()
    ensures Four(0.5) == 0.5
  {
    RoundOfInteger(5000);
  }

  lemma HalfShare(part: real, total: real)
    requires total > 0.0 && part * 2.0 >= total
    ensures Share(part, total) >= 0.5
  {
    DivMonotone(0.5 * total, part, total);
    UniqueQuotient(0.5 * total, total, 0.5);
  }

  /** Weighted voting in masses and points: the heavier side, its average score and its share of the mass. */
  lemma VotingMeaning(signals: seq<Signal>, weights: map<string, real>, default: real)
    ensures var voters, r := Actionable(signals), WeightedVotingOf(signals, weights, default);
      var long, short := Mass(voters, weights, default, Long), Mass(voters, weights, default, Short);
      if voters == [] || long + short <= 0.0 || long == short then r == EMPTY
      else
        var side, mass := if long > short then Long else Short, if long > short then long else short;
        r.direction == side && r.participants == Names(voters)
        && r.contributions == WeightedScores(Winners(voters, side), weights, default)
        && Reports(r.score, Points(voters, weights, default, side), mass, 100.0)
        && Reports(r.agreement, mass, long + short, 10000.0)
  {
    hide Mass, Points, Actionable, Names, Winners, WeightedScores, Reports, RoundTo, Share;
    var voters := Actionable(signals);
    var long, short := Mass(voters, weights, default, Long), Mass(voters, weights, default, Short);
    if long + short > 0.0 && long != short {
      var side := if long > short then Long else Short;
      var mass := Mass(voters, weights, default, side);
      RoundedReports(Points(voters, weights, default, side), mass, 100.0);
      RoundedReports(mass, long + short, 10000.0);
    }
  }

  /** What is reported for a strategy is its last vote: signed and per mass for the average, the winners' weighted
      scores for the vote. */
  lemma ContributionMeaning(voters: seq<Signal>, w: map<string, real>, default: real, total: real, k: nat)
    requires k < |voters| && total > 0.0 && !voters[k].direction.Neutral?
    requires forall j :: k < j < |voters| ==> voters[j].strategy != voters[k].strategy
    ensures var v, score := voters[k], Times(ClampScore(voters[k].score), WeightOf(w, default, voters[k].strategy));
      && v.strategy in Contributions(voters, w, default, total)
      && Reports(Contributions(voters, w, default, total)[v.strategy], if v.direction.Long? then score else -score,
                 total, 100.0)
      && v.strategy in WeightedScores(voters, w, default)
      && WeightedScores(voters, w, default)[v.strategy] == Two(score)
  {
    hide Reports, RoundTo, Times, Share, ClampScore;
    var n := |voters| - 1;
    ContributionSigned(voters[k], w, default);
    RoundedReports(Contribution(voters[k], w, default), total, 100.0);
    ContributionLast(voters, w, default, total, k);
  }

  /** Contributions are reported for exactly the strategies that voted. */
  lemma {:induction false} ContributionNames(voters: seq<Signal>, w: map<string, real>, default: real, total: real,
                                             name: string)
    requires total > 0.0
    ensures name in Contributions(voters, w, default, total)
            <==> exists k :: 0 <= k < |voters| && voters[k].strategy == name
    ensures name in WeightedScores(voters, w, default) <==> exists k :: 0 <= k < |voters| && voters[k].strategy == name
  {
    hide Two, Share, Times, ClampScore, Contribution;
    if voters != [] {
      var n := |voters| - 1;
      ContributionNames(voters[..n], w, default, total, name);
      assert forall k :: 0 <= k < n ==> voters[..n][k] == voters[k];
      assert voters[n].strategy == name ==> exists k :: 0 <= k < |voters| && voters[k].strategy == name;
    }
  }

  lemma {:induction false} ContributionLast(voters: seq<Signal>, w: map<string, real>, default: real, total: real,
                                            k: nat)
    requires k < |voters| && total > 0.0
    requires forall j :: k < j < |voters| ==> voters[j].strategy != voters[k].strategy
    ensures var v := voters[k];
      && v.strategy in Contributions(voters, w, default, total)
      && Contributions(voters, w, default, total)[v.strategy] == Two(Share(Contribution(v, w, default), total))
      && v.strategy in WeightedScores(voters, w, default)
      && WeightedScores(voters, w, default)[v.strategy]
         == Two(Times(ClampScore(v.score), WeightOf(w, default, v.strategy)))
  {
    hide Two, Share, Times, ClampScore, Contribution;
    if k < |voters| - 1 { ContributionLast(voters[..|voters| - 1], w, default, total, k); }
  }

  // ----- Unanimity

  ghost predicate AllOn(voters: seq<Signal>, side: Direction) {
    forall i :: 0 <= i < |voters| ==> voters[i].direction == side
  }

  ghost predicate Weighted(voters: seq<Signal>, w: map<string, real>, default: real, lo: real) {
    forall i :: 0 <= i < |voters| ==>
      WeightOf(w, default, voters[i].strategy) > 0.0 && ClampScore(voters[i].score) >= lo
  }

  lemma {:induction false} SameWeights(voters: seq<Signal>, v: map<string, real>, w: map<string, real>,
                                       default: real, side: Direction)
    requires forall i :: 0 <= i < |voters| ==>
      WeightOf(v, default, voters[i].strategy) == WeightOf(w, default, voters[i].strategy)
    ensures Mass(voters, v, default, side) == Mass(voters, w, default, side)
    ensures Points(voters, v, default, side) == Points(voters, w, default, side)
  {
    if voters != [] { SameWeights(voters[..|voters| - 1], v, w, default, side); }
  }

  /** The other side is empty, and the side's points average at least the least score. */
  lemma {:induction false} OneSided(voters: seq<Signal>, w: map<string, real>, default: real, side: Direction, lo: real)
    requires AllOn(voters, side) && Weighted(voters, w, default, lo) && side != Mirror(side)
    ensures Mass(voters, w, default, Mirror(side)) == 0.0 && Points(voters, w, default, Mirror(side)) == 0.0
    ensures voters != [] ==> Mass(voters, w, default, side) > 0.0
    ensures Mass(voters, w, default, side) >= 0.0
    ensures Points(voters, w, default, side) >= Times(Mass(voters, w, default, side), lo)
  {
    hide Times, ClampScore;
    TimesZero(lo);
    if voters != [] {
      var n := |voters| - 1;
      OneSided(voters[..n], w, default, side, lo);
      var weight := WeightOf(w, default, voters[n].strategy);
      TimesDistributes(Mass(voters[..n], w, default, side), weight, ClampScore(voters[n].score), lo);
    }
  }

  lemma TimesZero(lo: real)
    ensures Times(0.0, lo) == 0.0
  {
  }

  lemma TimesDistributes(mass: real, weight: real, score: real, lo: real)
    requires weight > 0.0 && score >= lo
    ensures Times(mass, lo) + Times(score, weight) >= Times(mass + weight, lo)
  {
    MulMonotone(lo, score, weight);
    assert (mass + weight) * lo == mass * lo + lo * weight;
  }

  /** Voters who all point one way carry it with full agreement, and voting and averaging score it alike. */
  lemma {:induction false} UnanimousVerdict(signals: seq<Signal>, weights: map<string, real>, default: real,
                                            side: Direction, lo: real)
    requires side != Mirror(side) && Actionable(signals) != [] && AllOn(Actionable(signals), side)
    requires lo >= 0.000000001 && Weighted(Actionable(signals), weights, default, lo)
    ensures var a := WeightedAverageOf(Plain, signals, weights, default);
      var v := WeightedVotingOf(signals, weights, default);
      && a.direction == v.direction == side && a.score == v.score >= Two(lo)
      && a.agreement == v.agreement == 1.0 && a.participants == v.participants
  {
    hide Mass, Points, Two, Four, Contributions, WeightedScores, Winners, Actionable;
    var voters := Actionable(signals);
    var w := EffectiveWeights(Plain, voters, weights, default);
    forall i | 0 <= i < |voters|
      ensures WeightOf(w, default, voters[i].strategy) == WeightOf(weights, default, voters[i].strategy)
    {
      assert Names(voters)[i] in Names(voters);
    }
    SameWeights(voters, w, weights, default, Long);
    SameWeights(voters, w, weights, default, Short);
    OneSided(voters, weights, default, side, lo);
    var mass, points := Mass(voters, weights, default, side), Points(voters, weights, default, side);
    MeanAtLeast(points, mass, lo);
    FullShare(mass);
    TwoMonotone(lo, Share(points, mass));
  }

  lemma MeanAtLeast(points: real, mass: real, lo: real)
    requires mass > 0.0 && points >= Times(mass, lo)
    ensures Share(points, mass) >= lo && Share(-points, mass) == -Share(points, mass)
  {
    DivMonotone(mass * lo, points, mass);
    UniqueQuotient(mass * lo, mass, lo);
    ShareOdd(points, mass);
  }

  lemma FullShare(mass: real)
    requires mass > 0.0
    ensures Share(mass, mass) == 1.0 && Four(1.0) == 1.0
  {
    RoundOfInteger(10000);
  }

  lemma TwoMonotone(x: real, y: real)
    requires x <= y
    ensures Two(x) <= Two(y)
  {
    RoundToMonotone(x, y, 100.0);
  }
}
