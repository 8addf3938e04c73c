/** Parameter spaces: sampling and the cartesian grid. */
module ParameterSpaces {
  import opened Numeric

  datatype Value = Num(x: real) | Text(s: string) | Flag(b: bool)

  datatype Spec =
    | Choices(name: string, values: seq<Value>)
    | Range(name: string, low: real, high: real, isInt: bool)
  {
    predicate Valid() {
      match this
      case Choices(_, values) => values != []
      case Range(_, low, high, _) => low <= high
    }

    predicate Admits(v: Value) {
      match this
      case Choices(_, values) => v in values
      case Range(_, low, high, isInt) =>
        v.Num? && if isInt then v.x == v.x.Floor as real && Trunc(low) <= v.x.Floor <= Trunc(high)
                  else low <= v.x <= high
    }
  }

  type Params = map<string, Value>

  type Space = seq<Spec>

  function SpecNames(space: Space): seq<string> { seq(|space|, i requires 0 <= i < |space| => space[i].name) }

  function Names(space: Space): set<string> { set s | s in SpecNames(space) }

  ghost predicate ValidSpace(space: Space) {
    && (forall i :: 0 <= i < |space| ==> space[i].Valid())
    && (forall i, j :: 0 <= i < j < |space| ==> space[i].name != space[j].name)
  }

  /** One value per parameter, each from its own domain. */
  ghost predicate InSpace(space: Space, p: Params) {
    && p.Keys == Names(space)
    && forall i :: 0 <= i < |space| ==> space[i].name in p && space[i].Admits(p[space[i].name])
  }

  // ----- A random generator is any stream of draws from [0, 1)

  class Rng {
    const draws: nat -> real
    var position: nat

    ghost predicate Valid() { ValidDraws(draws) }

    constructor (draws: nat -> real)
      requires ValidDraws(draws)
      ensures Valid() && this.draws == draws && position == 0
    {
      this.draws, position := draws, 0;
    }

    method Random() returns (u: real)
      requires Valid()
      modifies this
      ensures u == draws(old(position)) && position == old(position) + 1
    {
      u := draws(position);
      position := position + 1;
    }

    method Below(n: nat) returns (k: nat)
      requires Valid() && n > 0
      modifies this
      ensures k == Pick(draws(old(position)), n) && position == old(position) + 1
    {
      var u := Random();
      k := Pick(u, n);
    }
  }

  /** A uniform draw from [0, 1) chooses one of `n` places. */
  function Pick(u: real, n: nat): (k: nat)
    requires 0.0 <= u < 1.0 && n > 0
    ensures k < n
  {
    BelowBound(u, n as real);
    Times(u, n as real).Floor
  }

  lemma EveryPick(k: nat, n: nat) returns (u: real)
    requires k < n
    ensures 0.0 <= u < 1.0 && Pick(u, n) == k
  {
    u := k as real / n as real;
    DivMul(k as real, n as real);
    DivMonotone(0.0, k as real, n as real);
    QuotientOrder(k as real, n as real);
  }

  lemma BelowBound(u: real, n: real)
    requires 0.0 <= u < 1.0 && n > 0.0
    ensures 0.0 <= Times(u, n) < n
  {
    MulMonotone(0.0, u, n);
    StrictMulMonotone(u, 1.0, n);
  }

  lemma OffsetBound(u: real, width: real, offset: real)
    requires 0.0 <= u < 1.0 && width >= 0.0 && offset == u * width
    ensures 0.0 <= offset <= width
  {
    MulMonotone(u, 1.0, width);
  }

  lemma TruncMonotone(a: real, b: real)
    requires a <= b
    ensures Trunc(a) <= Trunc(b)
  {
  }

  /** The value a draw gives a parameter. */
  function ValueFor(spec: Spec, u: real): (v: Value)
    requires spec.Valid() && 0.0 <= u < 1.0
    ensures spec.Admits(v)
  {
    match spec
    case Choices(_, values) => values[Pick(u, |values|)]
    case Range(_, low, high, isInt) =>
      if isInt then
        TruncMonotone(low, high);
        Num((Trunc(low) + Pick(u, Trunc(high) - Trunc(low) + 1)) as real)
      else
        OffsetBound(u, high - low, Times(u, high - low));
        Num(low + Times(u, high - low))
  }

  /** A continuous range is open at its upper end, as draws are; everything else can be drawn. */
  predicate Drawable(spec: Spec, v: Value) {
    spec.Admits(v) && (spec.Range? && !spec.isInt && spec.low < spec.high ==> v.x < spec.high)
  }

  lemma EveryValue(spec: Spec, v: Value) returns (u: real)
    requires spec.Valid() && Drawable(spec, v)
    ensures 0.0 <= u < 1.0 && ValueFor(spec, u) == v
  {
    match spec
    case Choices(_, values) =>
      var k :| 0 <= k < |values| && values[k] == v;
      u := EveryPick(k, |values|);
    case Range(_, low, high, isInt) =>
      if isInt {
        TruncMonotone(low, high);
        u := EveryPick(v.x.Floor - Trunc(low), Trunc(high) - Trunc(low) + 1);
      } else if low == high {
        u := 0.0;
      } else {
        u := (v.x - low) / (high - low);
        DivMul(v.x - low, high - low);
        DivMonotone(0.0, v.x - low, high - low);
        QuotientOrder(v.x - low, high - low);
      }
  }

  method SampleSpec(spec: Spec, rng: Rng) returns (v: Value)
    requires spec.Valid() && rng.Valid()
    modifies rng
    ensures v == ValueFor(spec, rng.draws(old(rng.position))) && rng.position == old(rng.position) + 1
  {
    match spec
    case Choices(_, values) =>
      var k := rng.Below(|values|);
      v := values[k];
    case Range(_, low, high, isInt) =>
      if isInt {
        TruncMonotone(low, high);
        var k := rng.Below(Trunc(high) - Trunc(low) + 1);
        v := Num((Trunc(low) + k) as real);
      } else {
        var u := rng.Random();
        v := Num(low + Times(u, high - low));
      }
  }

  ghost predicate ValidDraws(draws: nat -> real) { forall i: nat :: 0.0 <= draws(i) < 1.0 }

  /** One draw per parameter, in order. */
  function SampleAt(space: Space, draws: nat -> real, at: nat): Params
    requires (forall i :: 0 <= i < |space| ==> space[i].Valid()) && ValidDraws(draws)
  {
    if space == [] then map[]
    else
      var n := |space| - 1;
      SampleAt(space[..n], draws, at)[space[n].name := ValueFor(space[n], draws(at + n))]
  }

  lemma ValidPrefix(space: Space, n: nat)
    requires ValidSpace(space) && n <= |space|
    ensures ValidSpace(space[..n])
  {
  }

  lemma {:induction false} SampleInSpace(space: Space, draws: nat -> real, at: nat)
    requires ValidSpace(space) && ValidDraws(draws)
    ensures InSpace(space, SampleAt(space, draws, at))
  {
    hide ValueFor, Spec.Admits;
    if space == [] {
      assert SpecNames(space) == [];
    } else {
      var n := |space| - 1;
      ValidPrefix(space, n);
      SampleInSpace(space[..n], draws, at);
      SpaceStep(space, SampleAt(space[..n], draws, at), ValueFor(space[n], draws(at + n)));
    }
  }

  /** A sample has each parameter's value from its own draw. */
  lemma {:induction false} SampleMeaning(space: Space, draws: nat -> real, at: nat, k: nat)
    requires ValidSpace(space) && ValidDraws(draws) && k < |space|
    ensures space[k].name in SampleAt(space, draws, at)
    ensures SampleAt(space, draws, at)[space[k].name] == ValueFor(space[k], draws(at + k))
  {
    hide ValueFor;
    var n := |space| - 1;
    ValidPrefix(space, n);
    if k < n { SampleMeaning(space[..n], draws, at, k); }
  }

  lemma SampleStep(space: Space, draws: nat -> real, at: nat, i: nat)
    requires ValidSpace(space) && ValidDraws(draws) && i < |space|
    ensures ValidSpace(space[..i]) && ValidSpace(space[..i + 1])
    ensures SampleAt(space[..i + 1], draws, at)
            == SampleAt(space[..i], draws, at)[space[i].name := ValueFor(space[i], draws(at + i))]
  {
    hide ValueFor;
    assert space[..i + 1][..i] == space[..i];
  }

  lemma SampleStart(space: Space, draws: nat -> real, at: nat)
    requires ValidSpace(space) && ValidDraws(draws)
    ensures space[..|space|] == space && ValidSpace(space[..0]) && SampleAt(space[..0], draws, at) == map[]
  {
  }

  lemma ValidEach(space: Space)
    requires ValidSpace(space)
    ensures forall i :: 0 <= i < |space| ==> space[i].Valid()
  {
  }

  method Sample(space: Space, rng: Rng) returns (p: Params)
    requires ValidSpace(space) && rng.Valid()
    modifies rng
    ensures forall i :: 0 <= i < |space| ==> space[i].Valid()
    ensures p == SampleAt(space, rng.draws, old(rng.position)) && rng.position == old(rng.position) + |space|
  {
    hide SampleAt, ValidSpace, ValueFor, Spec.Valid;
    p := map[];
    ValidEach(space);
    SampleStart(space, rng.draws, rng.position);
    for i := 0 to |space|
      invariant ValidSpace(space[..i]) && rng.position == old(rng.position) + i
      invariant (forall k :: 0 <= k < i ==> space[..i][k].Valid())
                && p == SampleAt(space[..i], rng.draws, old(rng.position))
    {
      SampleStep(space, rng.draws, old(rng.position), i);
      var v := SampleSpec(space[i], rng);
      p := p[space[i].name := v];
    }
  }

  lemma SpaceStep(space: Space, p: Params, v: Value)
    requires space != [] && InSpace(space[..|space| - 1], p) && space[|space| - 1].Admits(v)
    requires forall i, j :: 0 <= i < j < |space| ==> space[i].name != space[j].name
    ensures InSpace(space, p[space[|space| - 1].name := v])
  {
    var n := |space| - 1;
    assert forall i :: 0 <= i < n ==> space[..n][i] == space[i];
    NamesStep(space);
  }

  lemma NamesStep(space: Space)
    requires space != []
    ensures var n := |space| - 1; Names(space) == Names(space[..n]) + {space[n].name}
  {
    var n := |space| - 1;
    assert SpecNames(space) == SpecNames(space[..n]) + [space[n].name];
  }

  // ----- The grid

  ghost predicate Discrete(space: Space) { forall i :: 0 <= i < |space| ==> space[i].Choices? }

  function Extend(base: seq<Params>, name: string, values: seq<Value>): seq<Params> {
    if base == [] then []
    else
      var n := |base| - 1;
      Extend(base[..n], name, values) + seq(|values|, i requires 0 <= i < |values| => base[n][name := values[i]])
  }

  /** The cartesian product, the last parameter varying fastest. */
  function Product(space: Space): seq<Params>
    requires Discrete(space)
  {
    if space == [] then [map[]]
    else
      var n := |space| - 1;
      Extend(Product(space[..n]), space[n].name, space[n].values)
  }

  /** Without parameters the grid yields nothing. */
  function Grid(space: Space): seq<Params>
    requires Discrete(space)
  {
    if space == [] then [] else Product(space)
  }

  method GridSize(space: Space) returns (size: nat)
    ensures size == if space != [] && Discrete(space) then |Grid(space)| else 0
  {
    size := 1;
    for i := 0 to |space|
      invariant Discrete(space[..i]) && size == |Product(space[..i])|
    {
      if !space[i].Choices? { return 0; }
      assert space[..i + 1][..i] == space[..i];
      ExtendSize(Product(space[..i]), space[i].name, space[i].values);
      size := size * |space[i].values|;
    }
    assert space[..|space|] == space;
    if space == [] { size := 0; }
  }

  lemma {:induction false} ExtendSize(base: seq<Params>, name: string, values: seq<Value>)
    ensures |Extend(base, name, values)| == |base| * |values|
  {
    if base != [] {
      var n := |base| - 1;
      ExtendSize(base[..n], name, values);
      assert (n + 1) * |values| == n * |values| + |values|;
    }
  }

  lemma {:induction false} ExtendEntry(base: seq<Params>, name: string, values: seq<Value>, j: nat, v: nat)
    requires j < |base| && v < |values|
    ensures j * |values| + v < |Extend(base, name, values)|
    ensures Extend(base, name, values)[j * |values| + v] == base[j][name := values[v]]
  {
    var n, m := |base| - 1, |values|;
    ExtendSize(base[..n], name, values);
    if j < n {
      ExtendEntry(base[..n], name, values, j, v);
    } else {
      assert |Extend(base[..n], name, values)| == j * m;
    }
  }

  /** The grid runs through the last parameter's values before the others move on. */
  lemma GridOrder(space: Space, j: nat, v: nat)
    requires Discrete(space) && space != []
    requires j < |Product(space[..|space| - 1])| && v < |space[|space| - 1].values|
    ensures var last := space[|space| - 1];
      var at := j * |last.values| + v;
      at < |Grid(space)| && Grid(space)[at] == Product(space[..|space| - 1])[j][last.name := last.values[v]]
  {
    ExtendEntry(Product(space[..|space| - 1]), space[|space| - 1].name, space[|space| - 1].values, j, v);
  }

  ghost predicate Extends(base: seq<Params>, name: string, values: seq<Value>, p: Params) {
    exists q, v :: q in base && v in values && p == q[name := v]
  }

  lemma {:induction false} ExtendMembers(base: seq<Params>, name: string, values: seq<Value>, p: Params)
    ensures p in Extend(base, name, values) <==> Extends(base, name, values, p)
  {
    if base != [] {
      var n := |base| - 1;
      ExtendMembers(base[..n], name, values, p);
      var last := seq(|values|, i requires 0 <= i < |values| => base[n][name := values[i]]);
      assert base == base[..n] + [base[n]];
      if p in last {
        var i :| 0 <= i < |last| && last[i] == p;
        assert base[n] in base && values[i] in values && p == base[n][name := values[i]];
      } else if p in Extend(base, name, values) {
        var q, v :| q in base[..n] && v in values && p == q[name := v];
        assert q in base;
      }
      if Extends(base, name, values, p) {
        var q, v :| q in base && v in values && p == q[name := v];
        if q in base[..n] {
          assert Extends(base[..n], name, values, p);
        } else {
          var i :| 0 <= i < |values| && values[i] == v;
          assert last[i] == p;
        }
      }
    }
  }

  lemma {:induction false} GridSound(space: Space, p: Params)
    requires ValidSpace(space) && Discrete(space) && p in Product(space)
    ensures InSpace(space, p)
  {
    if space == [] {
      assert SpecNames(space) == [];
    } else {
      var n := |space| - 1;
      var name, values := space[n].name, space[n].values;
      ExtendMembers(Product(space[..n]), name, values, p);
      var q, v :| q in Product(space[..n]) && v in values && p == q[name := v];
      GridSound(space[..n], q);
      SpaceStep(space, q, v);
    }
  }

  /** The grid is complete and sound: it enumerates exactly the parameter sets of the space. */
  lemma {:induction false} GridComplete(space: Space, p: Params)
    requires ValidSpace(space) && Discrete(space)
    ensures p in Product(space) <==> InSpace(space, p)
  {
    if p in Product(space) {
      GridSound(space, p);
    } else if InSpace(space, p) {
      GridReaches(space, p);
    }
  }

  lemma {:induction false} GridReaches(space: Space, p: Params)
    requires ValidSpace(space) && Discrete(space) && InSpace(space, p)
    ensures p in Product(space)
  {
    hide InSpace;
    if space == [] {
      InEmptySpace(p);
    } else {
      var n := |space| - 1;
      var name, values := space[n].name, space[n].values;
      var q := p - {name};
      InSpaceWithout(space, p);
      InSpaceLast(space, p);
      GridReaches(space[..n], q);
      ExtendMembers(Product(space[..n]), name, values, p);
      assert p == q[name := p[name]];
    }
  }

  lemma InEmptySpace(p: Params)
    requires InSpace([], p)
    ensures p == map[]
  {
    assert SpecNames([]) == [];
  }

  lemma InSpaceLast(space: Space, p: Params)
    requires space != [] && InSpace(space, p)
    ensures var last := space[|space| - 1]; last.name in p && last.Admits(p[last.name])
  {
  }

  lemma InSpaceWithout(space: Space, p: Params)
    requires ValidSpace(space) && space != [] && InSpace(space, p)
    ensures var n := |space| - 1; InSpace(space[..n], p - {space[n].name})
  {
    var n := |space| - 1;
    var q := p - {space[n].name};
    NamesStep(space);
    assert space[n].name !in SpecNames(space[..n]);
    forall i | 0 <= i < n ensures space[..n][i].name in q && space[..n][i].Admits(q[space[..n][i].name]) {
      assert space[i].name != space[n].name;
    }
  }
}

/** Grid and genetic search over a parameter space. */
module Optimizers {
  import opened ParameterSpaces

  /** What an objective may return, and the score the optimiser keeps. */
  datatype Raw = NaN | Infinite | Finite(value: real)

  datatype Score = Worst | Real(value: real)

  type Objective = Params -> Raw

  /** NaN and both infinities count as the worst score. */
  function SafeEval(evaluate: Objective, p: Params): (s: Score)
    ensures s.Worst? <==> evaluate(p) == NaN || evaluate(p) == Infinite
    ensures s.Real? ==> evaluate(p) == Finite(s.value)
  {
    var raw := evaluate(p);
    if raw.Finite? then Real(raw.value) else Worst
  }

  predicate AtMost(a: Score, b: Score) { a.Worst? || (b.Real? && a.value <= b.value) }

  datatype Trial = Trial(params: Params, score: Score)

  datatype Optimum = Optimum(params: Params, score: Score, evaluations: nat, trials: seq<Trial>)

  /** `max(trials, key=score)`: the first of the best trials. */
  function BestTrial(trials: seq<Trial>): (b: Trial)
    requires trials != []
    ensures b in trials && forall t :: t in trials ==> AtMost(t.score, b.score)
  {
    var n := |trials| - 1;
    if n == 0 then trials[0]
    else
      var best := BestTrial(trials[..n]);
      assert trials == trials[..n] + [trials[n]];
      if AtMost(trials[n].score, best.score) then best else trials[n]
  }

  /** Of equally good trials the first is the best one. */
  /** Of equally good trials the first is the best one. */
  lemma {:induction false} BestTrialFirst(trials: seq<Trial>) returns (k: nat)
    requires trials != []
    ensures k < |trials| && trials[k] == BestTrial(trials)
    ensures forall j :: 0 <= j < k ==> !AtMost(trials[k].score, trials[j].score)
  {
    hide AtMost;
    var n := |trials| - 1;
    if n == 0 {
      k := 0;
    } else {
      k := BestTrialFirst(trials[..n]);
      if !AtMost(trials[n].score, trials[k].score) {
        var best := trials[k];
        forall j | 0 <= j < n ensures !AtMost(trials[n].score, trials[j].score) {
          assert trials[..n][j] in trials[..n];
          AtMostChain(trials[n].score, trials[j].score, best.score);
        }
        k := n;
      }
    }
  }

  lemma AtMostChain(a: Score, b: Score, c: Score)
    requires AtMost(b, c) && !AtMost(a, c)
    ensures !AtMost(a, b)
  {
  }

  function Finalize(trials: seq<Trial>): Optimum {
    if trials == [] then Optimum(map[], Worst, 0, [])
    else var b := BestTrial(trials); Optimum(b.params, b.score, |trials|, trials)
  }

  function TrialsOf(evaluate: Objective, ps: seq<Params>): seq<Trial> {
    seq(|ps|, i requires 0 <= i < |ps| => Trial(ps[i], SafeEval(evaluate, ps[i])))
  }

  function GridSearch(space: Space, evaluate: Objective): Optimum
    requires Discrete(space)
  {
    Finalize(TrialsOf(evaluate, Grid(space)))
  }

  // ----- The genetic search

  type Memo = map<Params, Score>

  predicate Recorded(trials: seq<Trial>, p: Params) { exists i :: 0 <= i < |trials| && trials[i].params == p }

  /** The memo answers for exactly the recorded trials; no parameter set was evaluated twice. */
  ghost predicate Consistent(memo: Memo, trials: seq<Trial>, evaluate: Objective, space: Space) {
    && (forall p :: p in memo <==> Recorded(trials, p))
    && (forall i :: 0 <= i < |trials| ==> trials[i].score == SafeEval(evaluate, trials[i].params))
    && (forall p :: p in memo ==> memo[p] == SafeEval(evaluate, p) && InSpace(space, p))
    && (forall i, j :: 0 <= i < j < |trials| ==> trials[i].params != trials[j].params)
  }

  ghost predicate AllInSpace(space: Space, ps: seq<Params>) { forall i :: 0 <= i < |ps| ==> InSpace(space, ps[i]) }

  ghost predicate AllKnown(memo: Memo, ps: seq<Params>) { forall i :: 0 <= i < |ps| ==> ps[i] in memo }

  /** Extending the memo kept every score and added only individuals of the population. */
  ghost predicate Extended(memo: Memo, memo': Memo, population: seq<Params>) {
    && memo.Keys <= memo'.Keys && (forall q :: q in memo ==> memo'[q] == memo[q])
    && forall q :: q in memo' && q !in memo ==> q in population
  }

  /** The different individuals of a list, in order of appearance. */
  function Distinct(ps: seq<Params>): seq<Params> {
    if ps == [] then []
    else
      var n := |ps| - 1;
      Distinct(ps[..n]) + if ps[n] in ps[..n] then [] else [ps[n]]
  }

  lemma {:induction false} DistinctMeaning(ps: seq<Params>)
    ensures forall p :: p in Distinct(ps) <==> p in ps
    ensures forall i, j :: 0 <= i < j < |Distinct(ps)| ==> Distinct(ps)[i] != Distinct(ps)[j]
  {
    if ps != [] {
      var n := |ps| - 1;
      DistinctMeaning(ps[..n]);
      assert ps == ps[..n] + [ps[n]];
    }
  }

  lemma DistinctAppend(ps: seq<Params>, p: Params)
    ensures Distinct(ps + [p]) == Distinct(ps) + if p in ps then [] else [p]
  {
    assert (ps + [p])[..|ps|] == ps;
  }

  /** Scores a population in order, evaluating only individuals that did not appear before; the first `known` did. */
  method ScoreAll(population: seq<Params>, memo: Memo, trials: seq<Trial>, evaluate: Objective, ghost space: Space,
                  ghost known: nat, ghost before: seq<Params>)
    returns (memo': Memo, trials': seq<Trial>)
    requires Consistent(memo, trials, evaluate, space) && AllInSpace(space, population)
    requires known <= |population| && AllKnown(memo, population[..known])
    requires trials == TrialsOf(evaluate, Distinct(before))
    ensures Consistent(memo', trials', evaluate, space) && AllKnown(memo', population)
    ensures Extended(memo, memo', population)
    ensures trials <= trials' && |trials'| <= |trials| + |population| - known
    ensures population != [] ==> trials' != []
    ensures trials' == TrialsOf(evaluate, Distinct(before + population))
  {
    hide Consistent, Extended, AllKnown, AllInSpace, SafeEval, TrialsOf, Distinct;
    memo', trials' := memo, trials;
    NothingScored(memo, population);
    assert before + population[..0] == before;
    for i := 0 to |population|
      invariant Consistent(memo', trials', evaluate, space) && AllKnown(memo', population[..i])
      invariant Extended(memo, memo', population)
      invariant trials <= trials' && (i > 0 ==> trials' != [])
      invariant |trials'| <= |trials| + if i <= known then 0 else i - known
      invariant trials' == TrialsOf(evaluate, Distinct(before + population[..i]))
    {
      ScoreStep(population, i, known, memo, memo', trials', evaluate, space);
      TrialStep(memo', trials', evaluate, space, before + population[..i], population[i]);
      assert before + population[..i] + [population[i]] == before + population[..i + 1];
      var p := population[i];
      if p !in memo' {
        var score := SafeEval(evaluate, p);
        memo' := memo'[p := score];
        trials' := trials' + [Trial(p, score)];
      }
    }
    assert population[..|population|] == population;
  }

  lemma TrialStep(memo: Memo, trials: seq<Trial>, evaluate: Objective, space: Space, before: seq<Params>, p: Params)
    requires Consistent(memo, trials, evaluate, space) && trials == TrialsOf(evaluate, Distinct(before))
    ensures TrialsOf(evaluate, Distinct(before + [p]))
            == if p in memo then trials else trials + [Trial(p, SafeEval(evaluate, p))]
  {
    hide SafeEval, Distinct, InSpace;
    DistinctAppend(before, p);
    DistinctMeaning(before);
    var ps := Distinct(before);
    if p in before {
      var i :| 0 <= i < |ps| && ps[i] == p;
      assert trials[i].params == p;
    }
    if p in memo {
      var i :| 0 <= i < |trials| && trials[i].params == p;
      assert ps[i] == p;
    }
  }

  lemma NothingScored(memo: Memo, population: seq<Params>)
    ensures AllKnown(memo, population[..0]) && Extended(memo, memo, population)
  {
  }

  lemma ScoreStep(population: seq<Params>, i: nat, known: nat, memo: Memo, now: Memo, trials: seq<Trial>,
                  evaluate: Objective, space: Space)
    requires i < |population| && known <= |population| && AllKnown(memo, population[..known])
    requires AllInSpace(space, population) && Consistent(now, trials, evaluate, space)
    requires AllKnown(now, population[..i]) && Extended(memo, now, population)
    ensures population[i] in now ==> AllKnown(now, population[..i + 1]) && trials != []
    ensures population[i] !in now ==> var score := SafeEval(evaluate, population[i]);
      var next := now[population[i] := score];
      && i >= known && Extended(memo, next, population) && AllKnown(next, population[..i + 1])
      && Consistent(next, trials + [Trial(population[i], score)], evaluate, space)
  {
    hide SafeEval, InSpace, Consistent, Recorded;
    var p := population[i];
    assert population[..i + 1] == population[..i] + [p];
    if i < known { assert population[..known][i] == p; }
    if p in now {
      KnownRecorded(now, trials, evaluate, space, p);
    } else {
      AddTrial(now, trials, evaluate, space, p);
    }
  }

  lemma KnownRecorded(memo: Memo, trials: seq<Trial>, evaluate: Objective, space: Space, p: Params)
    requires Consistent(memo, trials, evaluate, space) && p in memo
    ensures Recorded(trials, p) && trials != []
  {
  }

  lemma AddTrial(memo: Memo, trials: seq<Trial>, evaluate: Objective, space: Space, p: Params)
    requires Consistent(memo, trials, evaluate, space) && p !in memo && InSpace(space, p)
    ensures Consistent(memo[p := SafeEval(evaluate, p)], trials + [Trial(p, SafeEval(evaluate, p))], evaluate, space)
  {
    hide SafeEval, InSpace;
    var trials' := trials + [Trial(p, SafeEval(evaluate, p))];
    assert trials'[|trials|].params == p;
    forall q: Params ensures Recorded(trials', q) <==> q == p || Recorded(trials, q) {
      if Recorded(trials, q) {
        var i :| 0 <= i < |trials| && trials[i].params == q;
        assert trials'[i].params == q;
      }
    }
    forall i | 0 <= i < |trials| ensures trials'[i].params != p {
      assert Recorded(trials, trials[i].params);
    }
  }

  // ----- Ranking

  ghost predicate Descending(ps: seq<Params>, evaluate: Objective) {
    |ps| <= 1 || (AtMost(SafeEval(evaluate, ps[1]), SafeEval(evaluate, ps[0])) && Descending(ps[1..], evaluate))
  }

  /** After every equal or better individual, as a stable descending sort places it. */
  function Place(ps: seq<Params>, p: Params, evaluate: Objective): (r: seq<Params>)
    ensures multiset(r) == multiset(ps) + multiset{p} && |r| == |ps| + 1
  {
    if ps == [] || !AtMost(SafeEval(evaluate, p), SafeEval(evaluate, ps[0])) then [p] + ps
    else
      assert ps == [ps[0]] + ps[1..];
      [ps[0]] + Place(ps[1..], p, evaluate)
  }

  /** `sorted(population, key=score, reverse=True)`. */
  function Ranked(ps: seq<Params>, evaluate: Objective): (r: seq<Params>)
    ensures multiset(r) == multiset(ps) && |r| == |ps|
  {
    if ps == [] then []
    else
      var n := |ps| - 1;
      assert ps == ps[..n] + [ps[n]];
      Place(Ranked(ps[..n], evaluate), ps[n], evaluate)
  }

  lemma {:induction false} PlaceDescending(ps: seq<Params>, p: Params, evaluate: Objective)
    requires Descending(ps, evaluate)
    ensures Descending(Place(ps, p, evaluate), evaluate)
  {
    hide SafeEval;
    if ps == [] || !AtMost(SafeEval(evaluate, p), SafeEval(evaluate, ps[0])) {
      assert ([p] + ps)[1..] == ps;
    } else {
      PlaceDescending(ps[1..], p, evaluate);
      assert Place(ps, p, evaluate)[1..] == Place(ps[1..], p, evaluate);
    }
  }

  lemma {:induction false} RankedDescending(ps: seq<Params>, evaluate: Objective)
    ensures Descending(Ranked(ps, evaluate), evaluate)
  {
    if ps != [] {
      RankedDescending(ps[..|ps| - 1], evaluate);
      PlaceDescending(Ranked(ps[..|ps| - 1], evaluate), ps[|ps| - 1], evaluate);
    }
  }

  lemma {:induction false} EarlierIsBetter(ps: seq<Params>, evaluate: Objective, i: nat, j: nat)
    requires Descending(ps, evaluate) && i <= j < |ps|
    ensures AtMost(SafeEval(evaluate, ps[j]), SafeEval(evaluate, ps[i]))
  {
    hide SafeEval;
    if i > 0 {
      EarlierIsBetter(ps[1..], evaluate, i - 1, j - 1);
    } else if j > 0 {
      EarlierIsBetter(ps[1..], evaluate, 0, j - 1);
    }
  }

  /** Ranking permutes the population, puts no individual before a better one and keeps the order of equals. */
  lemma RankedMeaning(ps: seq<Params>, evaluate: Objective)
    ensures var r := Ranked(ps, evaluate);
      && multiset(r) == multiset(ps)
      && (forall i, j :: 0 <= i <= j < |r| ==> AtMost(SafeEval(evaluate, r[j]), SafeEval(evaluate, r[i])))
      && forall s: Score :: AtScore(r, evaluate, s) == AtScore(ps, evaluate, s)
  {
    var r := Ranked(ps, evaluate);
    RankedDescending(ps, evaluate);
    forall i, j | 0 <= i <= j < |r| ensures AtMost(SafeEval(evaluate, r[j]), SafeEval(evaluate, r[i])) {
      EarlierIsBetter(r, evaluate, i, j);
    }
    forall s: Score { RankedStable(ps, evaluate, s); }
  }

  /** The individuals of one score, in order. */
  function AtScore(ps: seq<Params>, evaluate: Objective, s: Score): seq<Params> {
    if ps == [] then []
    else (if SafeEval(evaluate, ps[0]) == s then [ps[0]] else []) + AtScore(ps[1..], evaluate, s)
  }

  lemma AtScoreStep(p: Params, ps: seq<Params>, evaluate: Objective, s: Score)
    ensures AtScore([p] + ps, evaluate, s)
            == (if SafeEval(evaluate, p) == s then [p] else []) + AtScore(ps, evaluate, s)
    ensures AtScore([], evaluate, s) == []
  {
    assert ([p] + ps)[1..] == ps;
  }

  lemma {:induction false} AtScoreConcat(a: seq<Params>, b: seq<Params>, evaluate: Objective, s: Score)
    ensures AtScore(a + b, evaluate, s) == AtScore(a, evaluate, s) + AtScore(b, evaluate, s)
  {
    hide SafeEval, AtScore;
    if a == [] {
      assert a + b == b;
      AtScoreStep(map[], [], evaluate, s);
    } else {
      AtScoreConcat(a[1..], b, evaluate, s);
      AtScoreStep(a[0], a[1..] + b, evaluate, s);
      AtScoreStep(a[0], a[1..], evaluate, s);
      assert a == [a[0]] + a[1..] && a + b == [a[0]] + (a[1..] + b);
    }
  }

  lemma PlaceStep(ps: seq<Params>, p: Params, evaluate: Objective)
    ensures Place(ps, p, evaluate)
            == if ps == [] || !AtMost(SafeEval(evaluate, p), SafeEval(evaluate, ps[0])) then [p] + ps
               else [ps[0]] + Place(ps[1..], p, evaluate)
  {
  }

  lemma {:induction false} PlaceStable(ps: seq<Params>, p: Params, evaluate: Objective, s: Score)
    requires Descending(ps, evaluate)
    ensures AtScore(Place(ps, p, evaluate), evaluate, s)
            == AtScore(ps, evaluate, s) + if SafeEval(evaluate, p) == s then [p] else []
  {
    hide SafeEval, AtScore, Place, AtMost;
    PlaceStep(ps, p, evaluate);
    if ps == [] || !AtMost(SafeEval(evaluate, p), SafeEval(evaluate, ps[0])) {
      AtScoreStep(p, ps, evaluate, s);
      if ps != [] && SafeEval(evaluate, p) == s { NoneAtScore(ps, evaluate, s); }
    } else {
      PlaceStable(ps[1..], p, evaluate, s);
      AtScoreStep(ps[0], Place(ps[1..], p, evaluate), evaluate, s);
      AtScoreStep(ps[0], ps[1..], evaluate, s);
      assert ps == [ps[0]] + ps[1..];
    }
  }

  lemma {:induction false} NoneAtScore(ps: seq<Params>, evaluate: Objective, s: Score)
    requires Descending(ps, evaluate) && ps != [] && !AtMost(s, SafeEval(evaluate, ps[0]))
    ensures AtScore(ps, evaluate, s) == []
  {
    hide SafeEval;
    if |ps| > 1 {
      NoneAtScore(ps[1..], evaluate, s);
    } else {
      assert ps[1..] == [];
    }
  }

  lemma {:induction false} RankedStable(ps: seq<Params>, evaluate: Objective, s: Score)
    ensures AtScore(Ranked(ps, evaluate), evaluate, s) == AtScore(ps, evaluate, s)
  {
    hide SafeEval, Place, Ranked, AtScore;
    if ps == [] {
      NothingRanked(evaluate);
    } else {
      var n := |ps| - 1;
      RankedStable(ps[..n], evaluate, s);
      RankedDescending(ps[..n], evaluate);
      RankedStep(ps, n, evaluate);
      PlaceStable(Ranked(ps[..n], evaluate), ps[n], evaluate, s);
      AtScoreConcat(ps[..n], [ps[n]], evaluate, s);
      AtScoreOne(ps[n], evaluate, s);
      assert ps == ps[..n] + [ps[n]] == ps[..n + 1];
    }
  }

  lemma NothingRanked(evaluate: Objective)
    ensures Ranked([], evaluate) == []
  {
  }

  lemma RankedStep(ps: seq<Params>, n: nat, evaluate: Objective)
    requires n < |ps|
    ensures Ranked(ps[..n + 1], evaluate) == Place(Ranked(ps[..n], evaluate), ps[n], evaluate)
  {
    assert ps[..n + 1][..n] == ps[..n];
  }

  lemma AtScoreOne(p: Params, evaluate: Objective, s: Score)
    ensures AtScore([p], evaluate, s) == if SafeEval(evaluate, p) == s then [p] else []
  {
    assert [p][1..] == [];
  }

  /** Every individual's remembered score is its score. */
  ghost predicate Remembers(memo: Memo, ps: seq<Params>, evaluate: Objective) {
    forall i :: 0 <= i < |ps| ==> ps[i] in memo && memo[ps[i]] == SafeEval(evaluate, ps[i])
  }

  method Insert(ranked: seq<Params>, p: Params, memo: Memo, ghost evaluate: Objective) returns (r: seq<Params>)
    requires Remembers(memo, ranked + [p], evaluate)
    ensures r == Place(ranked, p, evaluate)
  {
    hide SafeEval, Place, AtMost, InSpace, ValidSpace;
    assert (ranked + [p])[|ranked|] == p;
    assert forall i :: 0 <= i < |ranked| ==> (ranked + [p])[i] == ranked[i];
    var j := 0;
    assert ranked[0..] == ranked;
    while j < |ranked| && AtMost(memo[p], memo[ranked[j]])
      invariant j <= |ranked| && Place(ranked, p, evaluate) == ranked[..j] + Place(ranked[j..], p, evaluate)
    {
      PlaceStep(ranked[j..], p, evaluate);
      assert ranked[j..][1..] == ranked[j + 1..] && ranked[..j] + [ranked[j]] == ranked[..j + 1];
      j := j + 1;
    }
    PlaceStep(ranked[j..], p, evaluate);
    r := ranked[..j] + [p] + ranked[j..];
  }

  /** The sort of a population by the scores in the memo. */
  method Rank(population: seq<Params>, memo: Memo, ghost evaluate: Objective) returns (ranked: seq<Params>)
    requires Remembers(memo, population, evaluate)
    ensures ranked == Ranked(population, evaluate)
  {
    hide SafeEval, Place, Ranked;
    ranked := [];
    NothingRanked(evaluate);
    assert population[..0] == [];
    for i := 0 to |population|
      invariant ranked == Ranked(population[..i], evaluate)
    {
      RankedStep(population, i, evaluate);
      StillRemembered(memo, population, i, ranked, evaluate);
      ranked := Insert(ranked, population[i], memo, evaluate);
    }
    assert population[..|population|] == population;
  }

  lemma StillRemembered(memo: Memo, population: seq<Params>, i: nat, ranked: seq<Params>, evaluate: Objective)
    requires Remembers(memo, population, evaluate) && i < |population| && ranked == Ranked(population[..i], evaluate)
    ensures Remembers(memo, ranked + [population[i]], evaluate)
  {
    hide SafeEval;
    var all := ranked + [population[i]];
    forall k | 0 <= k < |all| ensures all[k] in memo && memo[all[k]] == SafeEval(evaluate, all[k]) {
      if k < |ranked| {
        assert ranked[k] in multiset(population[..i]);
        var j :| 0 <= j < i && population[..i][j] == ranked[k];
        assert population[j] == all[k];
      }
    }
  }

  // ----- Offspring

  /** A child takes its k-th gene from the first parent on a draw below one half, else from the second. */
  function CrossAt(a: Params, b: Params, names: seq<string>, draws: nat -> real, at: nat): Params
    requires forall i :: 0 <= i < |names| ==> names[i] in a && names[i] in b
  {
    if names == [] then map[]
    else
      var n := |names| - 1;
      CrossAt(a, b, names[..n], draws, at)[names[n] := if draws(at + n) < 0.5 then a[names[n]] else b[names[n]]]
  }

  lemma {:induction false} CrossKeys(a: Params, b: Params, names: seq<string>, draws: nat -> real, at: nat)
    requires forall i :: 0 <= i < |names| ==> names[i] in a && names[i] in b
    ensures CrossAt(a, b, names, draws, at).Keys == (set s | s in names)
  {
    if names != [] {
      var n := |names| - 1;
      CrossKeys(a, b, names[..n], draws, at);
      assert names == names[..n] + [names[n]];
    }
  }

  /** Each of the child's genes is from the parent its draw chose. */
  lemma {:induction false} CrossMeaning(a: Params, b: Params, names: seq<string>, draws: nat -> real, at: nat, k: nat)
    requires forall i :: 0 <= i < |names| ==> names[i] in a && names[i] in b
    requires k < |names| && forall i, j :: 0 <= i < j < |names| ==> names[i] != names[j]
    ensures names[k] in CrossAt(a, b, names, draws, at)
    ensures CrossAt(a, b, names, draws, at)[names[k]] == if draws(at + k) < 0.5 then a[names[k]] else b[names[k]]
  {
    var n := |names| - 1;
    if k < n { CrossMeaning(a, b, names[..n], draws, at, k); }
  }

  method Crossover(a: Params, b: Params, names: seq<string>, rng: Rng) returns (child: Params)
    requires rng.Valid() && forall i :: 0 <= i < |names| ==> names[i] in a && names[i] in b
    modifies rng
    ensures child == CrossAt(a, b, names, rng.draws, old(rng.position)) && rng.position == old(rng.position) + |names|
  {
    hide CrossAt;
    child := map[];
    CrossStart(a, b, names, rng.draws, rng.position);
    for i := 0 to |names|
      invariant child == CrossAt(a, b, names[..i], rng.draws, old(rng.position))
      invariant rng.position == old(rng.position) + i
    {
      var u := rng.Random();
      CrossStep(a, b, names, rng.draws, old(rng.position), i);
      child := child[names[i] := if u < 0.5 then a[names[i]] else b[names[i]]];
    }
  }

  lemma CrossStart(a: Params, b: Params, names: seq<string>, draws: nat -> real, at: nat)
    ensures CrossAt(a, b, names[..0], draws, at) == map[] && names[..|names|] == names
  {
  }

  lemma CrossStep(a: Params, b: Params, names: seq<string>, draws: nat -> real, at: nat, i: nat)
    requires i < |names| && forall i :: 0 <= i < |names| ==> names[i] in a && names[i] in b
    ensures CrossAt(a, b, names[..i + 1], draws, at)
            == CrossAt(a, b, names[..i], draws, at)[names[i] :=
                 if draws(at + i) < 0.5 then a[names[i]] else b[names[i]]]
  {
    assert names[..i + 1][..i] == names[..i];
  }

  /** The mutation of the first `n` genes and where the draws then stand: each gene takes a draw, and a second one for
      its new value if the first is below the rate. */
  function MutateAt(child: Params, space: Space, n: nat, rate: real, draws: nat -> real, at: nat): (Params, nat)
    requires ValidSpace(space) && ValidDraws(draws) && n <= |space|
  {
    if n == 0 then (child, at)
    else
      var (before, now) := MutateAt(child, space, n - 1, rate, draws, at);
      var spec := space[n - 1];
      if draws(now) < rate then (before[spec.name := ValueFor(spec, draws(now + 1))], now + 2) else (before, now + 1)
  }

  lemma {:induction false} MutateInSpace(child: Params, space: Space, n: nat, rate: real, draws: nat -> real, at: nat)
    requires ValidSpace(space) && ValidDraws(draws) && n <= |space| && InSpace(space, child)
    ensures InSpace(space, MutateAt(child, space, n, rate, draws, at).0)
  {
    hide InSpace, ValueFor, Spec.Admits;
    if n > 0 {
      MutateInSpace(child, space, n - 1, rate, draws, at);
      var (before, now) := MutateAt(child, space, n - 1, rate, draws, at);
      RegeneInSpace(space, before, n - 1, ValueFor(space[n - 1], draws(now + 1)));
    }
  }

  lemma RegeneInSpace(space: Space, p: Params, i: nat, v: Value)
    requires ValidSpace(space) && InSpace(space, p) && i < |space| && space[i].Admits(v)
    ensures InSpace(space, p[space[i].name := v])
  {
    assert SpecNames(space)[i] == space[i].name;
  }

  method Mutate(child: Params, space: Space, rate: real, rng: Rng) returns (mutated: Params)
    requires ValidSpace(space) && rng.Valid()
    modifies rng
    ensures (mutated, rng.position) == MutateAt(child, space, |space|, rate, rng.draws, old(rng.position))
  {
    hide ValueFor, Spec.Valid;
    ValidEach(space);
    mutated := child;
    for i := 0 to |space|
      invariant (mutated, rng.position) == MutateAt(child, space, i, rate, rng.draws, old(rng.position))
    {
      var u := rng.Random();
      if u < rate {
        var v := SampleSpec(space[i], rng);
        mutated := mutated[space[i].name := v];
      }
    }
  }

  ghost predicate Breedable(elite: seq<Params>, space: Space, draws: nat -> real) {
    ValidSpace(space) && ValidDraws(draws) && elite != [] && AllInSpace(space, elite)
  }

  /** One child: two parents drawn from the elite, crossed and mutated. */
  function OffspringAt(elite: seq<Params>, space: Space, rate: real, draws: nat -> real, at: nat): (Params, nat)
    requires Breedable(elite, space, draws)
  {
    var a, b := elite[Pick(draws(at), |elite|)], elite[Pick(draws(at + 1), |elite|)];
    GenesPresent(space, a);
    GenesPresent(space, b);
    MutateAt(CrossAt(a, b, SpecNames(space), draws, at + 2), space, |space|, rate, draws, at + 2 + |space|)
  }

  lemma GenesPresent(space: Space, p: Params)
    requires InSpace(space, p)
    ensures forall i :: 0 <= i < |SpecNames(space)| ==> SpecNames(space)[i] in p && space[i].name in p
  {
  }

  lemma CrossInSpace(space: Space, a: Params, b: Params, draws: nat -> real, at: nat)
    requires ValidSpace(space) && InSpace(space, a) && InSpace(space, b)
    requires forall i :: 0 <= i < |space| ==> SpecNames(space)[i] in a && SpecNames(space)[i] in b
    ensures InSpace(space, CrossAt(a, b, SpecNames(space), draws, at))
  {
    hide CrossAt;
    var names := SpecNames(space);
    var child := CrossAt(a, b, names, draws, at);
    CrossKeys(a, b, names, draws, at);
    forall k | 0 <= k < |space| ensures space[k].name in child && space[k].Admits(child[space[k].name]) {
      CrossMeaning(a, b, names, draws, at, k);
    }
  }

  lemma OffspringInSpace(elite: seq<Params>, space: Space, rate: real, draws: nat -> real, at: nat)
    requires Breedable(elite, space, draws)
    ensures InSpace(space, OffspringAt(elite, space, rate, draws, at).0)
  {
    hide InSpace, CrossAt, MutateAt, Pick;
    var a, b := elite[Pick(draws(at), |elite|)], elite[Pick(draws(at + 1), |elite|)];
    GenesPresent(space, a);
    GenesPresent(space, b);
    CrossInSpace(space, a, b, draws, at + 2);
    MutateInSpace(CrossAt(a, b, SpecNames(space), draws, at + 2), space, |space|, rate, draws, at + 2 + |space|);
  }

  /** The elite and `n` children after it. */
  function BroodAt(elite: seq<Params>, n: nat, space: Space, rate: real, draws: nat -> real, at: nat)
    : (seq<Params>, nat)
    requires Breedable(elite, space, draws)
  {
    if n == 0 then (elite, at)
    else
      var (before, now) := BroodAt(elite, n - 1, space, rate, draws, at);
      var (child, next) := OffspringAt(elite, space, rate, draws, now);
      (before + [child], next)
  }

  lemma {:induction false} BroodShape(elite: seq<Params>, n: nat, space: Space, rate: real, draws: nat -> real, at: nat)
    requires Breedable(elite, space, draws)
    ensures var brood := BroodAt(elite, n, space, rate, draws, at).0;
      |brood| == |elite| + n && elite <= brood && AllInSpace(space, brood)
  {
    hide InSpace, OffspringAt, ValidSpace;
    if n > 0 {
      BroodShape(elite, n - 1, space, rate, draws, at);
      OffspringInSpace(elite, space, rate, draws, BroodAt(elite, n - 1, space, rate, draws, at).1);
    }
  }

  /** Fills the next generation with offspring of the elite. */
  method Breed(elite: seq<Params>, size: nat, space: Space, rate: real, rng: Rng) returns (population: seq<Params>)
    requires rng.Valid() && |elite| <= size && Breedable(elite, space, rng.draws)
    modifies rng
    ensures (population, rng.position) == BroodAt(elite, size - |elite|, space, rate, rng.draws, old(rng.position))
  {
    hide InSpace, ValidSpace, CrossAt, MutateAt, Pick;
    population := elite;
    ghost var n := 0;
    while |population| < size
      invariant |elite| <= |population| == |elite| + n <= size
      invariant (population, rng.position) == BroodAt(elite, n, space, rate, rng.draws, old(rng.position))
    {
      var child := Offspring(elite, space, rate, rng);
      population := population + [child];
      n := n + 1;
    }
  }

  method Offspring(elite: seq<Params>, space: Space, rate: real, rng: Rng) returns (child: Params)
    requires rng.Valid() && Breedable(elite, space, rng.draws)
    modifies rng
    ensures (child, rng.position) == OffspringAt(elite, space, rate, rng.draws, old(rng.position))
  {
    hide InSpace, CrossAt, MutateAt, Pick;
    var i := rng.Below(|elite|);
    var j := rng.Below(|elite|);
    GenesPresent(space, elite[i]);
    GenesPresent(space, elite[j]);
    child := Crossover(elite[i], elite[j], SpecNames(space), rng);
    child := Mutate(child, space, rate, rng);
  }

  // ----- Nothing is out of the search's reach

  /** Draws that mutate every gene, the k-th with its own value draw. */
  function Remaking(skip: nat, us: seq<real>): nat -> real {
    k => if k < skip || (k - skip) % 2 == 0 || (k - skip) / 2 >= |us| then 0.0 else us[(k - skip) / 2]
  }

  lemma RemadeDraws(skip: nat, us: seq<real>, m: nat)
    requires m < |us|
    ensures Remaking(skip, us)(skip + 2 * m) == 0.0 && Remaking(skip, us)(skip + 2 * m + 1) == us[m]
  {
  }

  lemma RemadeValid(skip: nat, us: seq<real>)
    requires forall i :: 0 <= i < |us| ==> 0.0 <= us[i] < 1.0
    ensures ValidDraws(Remaking(skip, us))
  {
  }

  lemma {:induction false} RemadeGene(child: Params, space: Space, n: nat, rate: real, us: seq<real>, skip: nat, k: nat)
    requires ValidSpace(space) && n <= |space| == |us| && rate > 0.0 && ValidDraws(Remaking(skip, us))
    requires forall i :: 0 <= i < |us| ==> 0.0 <= us[i] < 1.0
    ensures var (p, at) := MutateAt(child, space, n, rate, Remaking(skip, us), skip);
      at == skip + 2 * n && (k < n ==> space[k].name in p && p[space[k].name] == ValueFor(space[k], us[k]))
  {
    hide ValueFor, Remaking, MutateAt, ValidSpace;
    MutateStep(child, space, n, rate, Remaking(skip, us), skip);
    if n > 0 {
      RemadeGene(child, space, n - 1, rate, us, skip, k);
      RemadeDraws(skip, us, n - 1);
      if k < n - 1 { EachName(space, k, n - 1); }
    }
  }

  lemma MutateStep(child: Params, space: Space, n: nat, rate: real, draws: nat -> real, at: nat)
    requires ValidSpace(space) && ValidDraws(draws) && n <= |space|
    ensures n == 0 ==> MutateAt(child, space, n, rate, draws, at) == (child, at)
    ensures n > 0 ==> var (before, now) := MutateAt(child, space, n - 1, rate, draws, at);
      space[n - 1].Valid() && MutateAt(child, space, n, rate, draws, at)
      == if draws(now) < rate then (before[space[n - 1].name := ValueFor(space[n - 1], draws(now + 1))], now + 2)
         else (before, now + 1)
  {
  }

  /** Every gene takes its own draw and is replaced, by a value from the draw after it, exactly when that is below the
      rate; the others keep what the child had. */
  lemma {:induction false} MutateMeaning(child: Params, space: Space, n: nat, rate: real, draws: nat -> real, at: nat,
                                         k: nat)
    requires ValidSpace(space) && ValidDraws(draws) && k < n <= |space| && space[k].name in child
    ensures var now := MutateAt(child, space, k, rate, draws, at).1;
      var next := MutateAt(child, space, k + 1, rate, draws, at).1;
      var p, name := MutateAt(child, space, n, rate, draws, at).0, space[k].name;
      && name in p && next == now + (if draws(now) < rate then 2 else 1)
      && p[name] == if draws(now) < rate then ValueFor(space[k], draws(now + 1)) else child[name]
  {
    hide ValueFor, MutateAt, ValidSpace;
    MutateStep(child, space, n, rate, draws, at);
    if k < n - 1 {
      MutateMeaning(child, space, n - 1, rate, draws, at, k);
      EachName(space, k, n - 1);
    } else {
      GeneUntouched(child, space, k, rate, draws, at, k);
    }
  }

  lemma {:induction false} GeneUntouched(child: Params, space: Space, n: nat, rate: real, draws: nat -> real, at: nat,
                                         k: nat)
    requires ValidSpace(space) && ValidDraws(draws) && n <= k < |space| && space[k].name in child
    ensures var p := MutateAt(child, space, n, rate, draws, at).0;
      space[k].name in p && p[space[k].name] == child[space[k].name]
  {
    hide ValueFor, MutateAt, ValidSpace;
    MutateStep(child, space, n, rate, draws, at);
    if n > 0 {
      GeneUntouched(child, space, n - 1, rate, draws, at, k);
      EachName(space, n - 1, k);
    }
  }

  lemma EachName(space: Space, i: nat, j: nat)
    requires ValidSpace(space) && i < j < |space|
    ensures space[i].name != space[j].name
  {
  }

  /** With any chance of mutation the next child can be any point of the space that can be drawn at all. */
  lemma EveryPointReachable(elite: seq<Params>, space: Space, rate: real, p: Params) returns (draws: nat -> real)
    requires ValidSpace(space) && elite != [] && AllInSpace(space, elite) && rate > 0.0 && InSpace(space, p)
    requires forall k :: 0 <= k < |space| ==> Drawable(space[k], p[space[k].name])
    ensures ValidDraws(draws) && OffspringAt(elite, space, rate, draws, 0).0 == p
  {
    hide ValueFor, CrossAt, Pick, Drawable, MutateAt, ValidSpace, Remaking;
    var us := ValueDraws(space, p, |space|);
    var skip := 2 + |space|;
    draws := Remaking(skip, us);
    RemadeValid(skip, us);
    OffspringInSpace(elite, space, rate, draws, 0);
    var child := OffspringAt(elite, space, rate, draws, 0).0;
    assert child.Keys == p.Keys;
    forall name | name in p ensures child[name] == p[name] {
      assert name in SpecNames(space);
      var k :| 0 <= k < |space| && space[k].name == name;
      var a, b := elite[Pick(draws(0), |elite|)], elite[Pick(draws(1), |elite|)];
      GenesPresent(space, a);
      GenesPresent(space, b);
      RemadeGene(CrossAt(a, b, SpecNames(space), draws, 2), space, |space|, rate, us, skip, k);
    }
  }

  lemma {:induction false} ValueDraws(space: Space, p: Params, n: nat) returns (us: seq<real>)
    requires ValidSpace(space) && InSpace(space, p) && n <= |space|
    requires forall k :: 0 <= k < |space| ==> Drawable(space[k], p[space[k].name])
    ensures |us| == n && forall k :: 0 <= k < n ==> 0.0 <= us[k] < 1.0 && ValueFor(space[k], us[k]) == p[space[k].name]
  {
    hide ValueFor, Drawable;
    us := [];
    if n > 0 {
      var before := ValueDraws(space, p, n - 1);
      var u := EveryValue(space[n - 1], p[space[n - 1].name]);
      us := before + [u];
    }
  }

  /** Draws that pick parents with `u` and `v`, take genes by `choice` and mutate nothing. */
  function Crossing(u: real, v: real, choice: nat -> bool, n: nat, rate: real): nat -> real {
    k => if k < 1 then u else if k < 2 then v
         else if k < n + 2 then (if choice(k - 2) then 0.0 else 0.5)
         else if rate > 0.0 then rate else 0.0
  }

  lemma {:induction false} Unmutated(child: Params, space: Space, n: nat, rate: real, draws: nat -> real, at: nat)
    requires ValidSpace(space) && ValidDraws(draws) && n <= |space| && forall k: nat :: k >= at ==> draws(k) >= rate
    ensures MutateAt(child, space, n, rate, draws, at) == (child, at + n)
  {
    if n > 0 { Unmutated(child, space, n - 1, rate, draws, at); }
  }

  /** Short of certain mutation, the next child can be any combination of the genes of any two of the elite. */
  lemma EveryCrossReachable(elite: seq<Params>, i: nat, j: nat, space: Space, rate: real, choice: nat -> bool)
    returns (draws: nat -> real)
    requires ValidSpace(space) && AllInSpace(space, elite) && i < |elite| && j < |elite| && rate < 1.0
    ensures ValidDraws(draws)
    ensures var child := OffspringAt(elite, space, rate, draws, 0).0;
      InSpace(space, child) && InSpace(space, elite[i]) && InSpace(space, elite[j]) && forall k :: 0 <= k < |space| ==>
        child[space[k].name] == if choice(k) then elite[i][space[k].name] else elite[j][space[k].name]
  {
    hide ValueFor, Pick, InSpace, CrossAt, MutateAt;
    var u := EveryPick(i, |elite|);
    var v := EveryPick(j, |elite|);
    draws := Crossing(u, v, choice, |space|, rate);
    OffspringInSpace(elite, space, rate, draws, 0);
    var names := SpecNames(space);
    GenesPresent(space, elite[i]);
    GenesPresent(space, elite[j]);
    Unmutated(CrossAt(elite[i], elite[j], names, draws, 2), space, |space|, rate, draws, 2 + |space|);
    forall k | 0 <= k < |space|
      ensures space[k].name in CrossAt(elite[i], elite[j], names, draws, 2)
      ensures CrossAt(elite[i], elite[j], names, draws, 2)[space[k].name]
              == if choice(k) then elite[i][space[k].name] else elite[j][space[k].name]
    {
      CrossMeaning(elite[i], elite[j], names, draws, 2, k);
    }
  }

  // ----- The search without a memory

  function SamplesAt(space: Space, n: nat, draws: nat -> real, at: nat): (seq<Params>, nat)
    requires ValidSpace(space) && ValidDraws(draws)
  {
    if n == 0 then ([], at)
    else
      var (before, now) := SamplesAt(space, n - 1, draws, at);
      (before + [SampleAt(space, draws, now)], now + |space|)
  }

  lemma {:induction false} SamplesShape(space: Space, n: nat, draws: nat -> real, at: nat)
    requires ValidSpace(space) && ValidDraws(draws)
    ensures |SamplesAt(space, n, draws, at).0| == n && AllInSpace(space, SamplesAt(space, n, draws, at).0)
    ensures SamplesAt(space, n, draws, at).1 == at + n * |space|
  {
    hide InSpace, SampleAt;
    if n > 0 {
      SamplesShape(space, n - 1, draws, at);
      SampleInSpace(space, draws, SamplesAt(space, n - 1, draws, at).1);
    }
  }

  /** The best half of a population. */
  function Elite(population: seq<Params>, evaluate: Objective): seq<Params> {
    Ranked(population, evaluate)[..|population| / 2]
  }

  lemma EliteShape(population: seq<Params>, evaluate: Objective, space: Space)
    requires AllInSpace(space, population)
    ensures |Elite(population, evaluate)| == |population| / 2 && AllInSpace(space, Elite(population, evaluate))
  {
    hide Ranked, InSpace;
    forall i | 0 <= i < |population| ensures InSpace(space, Ranked(population, evaluate)[i]) {
      assert Ranked(population, evaluate)[i] in multiset(population);
    }
  }

  /** The elite and its children. */
  function Successors(population: seq<Params>, space: Space, evaluate: Objective, rate: real, draws: nat -> real,
                      at: nat)
    : (seq<Params>, nat)
    requires ValidSpace(space) && ValidDraws(draws) && |population| >= 4 && AllInSpace(space, population)
  {
    EliteShape(population, evaluate, space);
    BroodAt(Elite(population, evaluate), |population| - |population| / 2, space, rate, draws, at)
  }

  lemma SuccessorsShape(population: seq<Params>, space: Space, evaluate: Objective, rate: real, draws: nat -> real,
                        at: nat)
    requires ValidSpace(space) && ValidDraws(draws) && |population| >= 4 && AllInSpace(space, population)
    ensures var next := Successors(population, space, evaluate, rate, draws, at).0;
      |next| == |population| && AllInSpace(space, next)
  {
    hide BroodAt, Elite, InSpace, ValidSpace;
    EliteShape(population, evaluate, space);
    BroodShape(Elite(population, evaluate), |population| - |population| / 2, space, rate, draws, at);
  }

  /** The population of generation `g` and where the draws then stand. */
  function PopulationAt(space: Space, evaluate: Objective, size: nat, rate: real, draws: nat -> real, at: nat, g: nat)
    : (r: (seq<Params>, nat))
    requires ValidSpace(space) && ValidDraws(draws) && size >= 4
    ensures |r.0| == size && AllInSpace(space, r.0)
  {
    if g == 0 then
      SamplesShape(space, size, draws, at);
      SamplesAt(space, size, draws, at)
    else
      var (before, now) := PopulationAt(space, evaluate, size, rate, draws, at, g - 1);
      SuccessorsShape(before, space, evaluate, rate, draws, now);
      Successors(before, space, evaluate, rate, draws, now)
  }

  /** Everyone who lived in the first `g` generations, in order. */
  function Lived(space: Space, evaluate: Objective, size: nat, rate: real, draws: nat -> real, at: nat, g: nat)
    : seq<Params>
    requires ValidSpace(space) && ValidDraws(draws) && size >= 4
  {
    if g == 0 then []
    else Lived(space, evaluate, size, rate, draws, at, g - 1)
         + PopulationAt(space, evaluate, size, rate, draws, at, g - 1).0
  }

  ghost predicate NeverDecreases(bests: seq<Score>) {
    forall i, j :: 0 <= i <= j < |bests| ==> AtMost(bests[i], bests[j])
  }

  /** Evaluations before generation `g` is ranked: a full population once, then only the offspring. */
  function EvaluationBound(g: nat, size: nat): nat {
    if g == 0 then 0 else if g == 1 then size else EvaluationBound(g - 1, size) + (size - size / 2)
  }

  lemma {:induction false} BoundClosedForm(g: nat, size: nat)
    requires g > 0
    ensures EvaluationBound(g, size) == size + (g - 1) * (size - size / 2)
  {
    if g > 1 {
      BoundClosedForm(g - 1, size);
      assert (g - 1) * (size - size / 2) == (g - 2) * (size - size / 2) + (size - size / 2);
    }
  }

  /** What holds before generation `g` is ranked. */
  ghost predicate Generation(g: nat, size: nat, population: seq<Params>, memo: Memo, trials: seq<Trial>,
                             bests: seq<Score>, evaluate: Objective, space: Space)
  {
    && |population| == size > 0 && AllInSpace(space, population) && Consistent(memo, trials, evaluate, space)
    && AllKnown(memo, population[..if g == 0 then 0 else size / 2])
    && |trials| <= EvaluationBound(g, size)
    && |bests| == g && NeverDecreases(bests) && (g == 0 ==> memo == map[])
    && (g > 0 ==> population[0] in memo && memo[population[0]] == bests[g - 1] && trials != []
                  && forall q :: q in memo ==> AtMost(memo[q], bests[g - 1]))
  }

  /** One generation: score, rank, keep the elite, breed. */
  method Evolve(ghost g: nat, size: nat, population: seq<Params>, memo: Memo, trials: seq<Trial>,
                ghost bests: seq<Score>, evaluate: Objective, space: Space, rate: real, rng: Rng,
                ghost lived: seq<Params>)
    returns (population': seq<Params>, memo': Memo, trials': seq<Trial>, best: Score)
    requires ValidSpace(space) && rng.Valid() && size >= 4
    requires Generation(g, size, population, memo, trials, bests, evaluate, space)
    requires trials == TrialsOf(evaluate, Distinct(lived))
    modifies rng
    ensures Generation(g + 1, size, population', memo', trials', bests + [best], evaluate, space)
    ensures trials' == TrialsOf(evaluate, Distinct(lived + population))
    ensures AllInSpace(space, population)
    ensures (population', rng.position) == Successors(population, space, evaluate, rate, rng.draws, old(rng.position))
  {
    hide Ranked, Place, AtMost, InSpace, ValidSpace, Consistent, SafeEval, BroodAt, Distinct, TrialsOf;
    memo', trials' := ScoreAll(population, memo, trials, evaluate, space, if g == 0 then 0 else size / 2, lived);
    ScoresRemembered(memo', trials', population, evaluate, space);
    var ranked := Rank(population, memo', evaluate);
    RankedFacts(population, memo', evaluate);
    BestCarriesOver(memo, memo', population, ranked[0], bests, evaluate, space);
    best := memo'[ranked[0]];
    var elite := ranked[..size / 2];
    EliteShape(population, evaluate, space);
    BroodShape(elite, size - size / 2, space, rate, rng.draws, rng.position);
    EliteKnown(memo', population, evaluate, size / 2);
    population' := Breed(elite, size, space, rate, rng);
    assert population'[..size / 2] == elite && elite[0] == ranked[0] == population'[0];
  }

  lemma ScoresRemembered(memo: Memo, trials: seq<Trial>, population: seq<Params>, evaluate: Objective, space: Space)
    requires Consistent(memo, trials, evaluate, space) && AllKnown(memo, population)
    ensures Remembers(memo, population, evaluate)
  {
    hide SafeEval, InSpace;
  }

  lemma EliteKnown(memo: Memo, population: seq<Params>, evaluate: Objective, n: nat)
    requires Remembers(memo, population, evaluate) && n <= |population|
    ensures AllKnown(memo, Ranked(population, evaluate)[..n])
  {
    hide Ranked, SafeEval;
    var ranked := Ranked(population, evaluate);
    forall i | 0 <= i < n ensures ranked[..n][i] in memo {
      assert ranked[i] in multiset(population);
    }
  }

  lemma RankedFacts(population: seq<Params>, memo: Memo, evaluate: Objective)
    requires Remembers(memo, population, evaluate) && population != []
    ensures var ranked := Ranked(population, evaluate);
      ranked[0] in memo && forall p :: p in population ==> AtMost(memo[p], memo[ranked[0]])
  {
    hide Ranked, AtMost, SafeEval;
    var ranked := Ranked(population, evaluate);
    RankedDescending(population, evaluate);
    assert ranked[0] in multiset(population);
    forall p | p in population ensures AtMost(memo[p], memo[ranked[0]]) {
      assert p in multiset(ranked);
      var i :| 0 <= i < |ranked| && ranked[i] == p;
      EarlierIsBetter(ranked, evaluate, 0, i);
    }
  }

  /** Everything scored so far is at most the new generation's best, which is at least the last one's. */
  lemma BestCarriesOver(before: Memo, memo: Memo, population: seq<Params>, head: Params, bests: seq<Score>,
                        evaluate: Objective, space: Space)
    requires before.Keys <= memo.Keys && forall q :: q in before ==> before[q] == memo[q]
    requires population != [] && AllKnown(memo, population) && head in memo
    requires forall p :: p in population ==> AtMost(memo[p], memo[head])
    requires forall q :: q in memo && q !in before ==> q in population
    requires bests != [] ==> population[0] in before && before[population[0]] == bests[|bests| - 1]
    requires bests != [] ==> forall q :: q in before ==> AtMost(before[q], bests[|bests| - 1])
    requires bests == [] ==> before == map[]
    requires NeverDecreases(bests)
    ensures forall q :: q in memo ==> AtMost(memo[q], memo[head])
    ensures NeverDecreases(bests + [memo[head]])
  {
    if bests != [] {
      assert AtMost(memo[population[0]], memo[head]);
      forall q | q in memo ensures AtMost(memo[q], memo[head]) {
        if q in before { assert AtMost(before[q], bests[|bests| - 1]); }
      }
    }
  }

  lemma FinalIsLast(memo: Memo, trials: seq<Trial>, evaluate: Objective, space: Space, head: Params, best: Score)
    requires Consistent(memo, trials, evaluate, space) && trials != []
    requires head in memo && memo[head] == best && forall q :: q in memo ==> AtMost(memo[q], best)
    ensures Finalize(trials).score == best
  {
    var b := BestTrial(trials);
    var i :| 0 <= i < |trials| && trials[i] == b;
    assert trials[i].params in memo;
    var j :| 0 <= j < |trials| && trials[j].params == head;
    assert trials[j] in trials;
  }

  lemma TrialsSound(memo: Memo, trials: seq<Trial>, evaluate: Objective, space: Space)
    requires Consistent(memo, trials, evaluate, space)
    ensures forall t :: t in trials ==> InSpace(space, t.params) && t.score == SafeEval(evaluate, t.params)
    ensures forall i, j :: 0 <= i < j < |trials| ==> trials[i].params != trials[j].params
  {
    forall t | t in trials ensures InSpace(space, t.params) && t.score == SafeEval(evaluate, t.params) {
      var i :| 0 <= i < |trials| && trials[i] == t;
      assert trials[i].params in memo;
    }
  }

  /** The search: its trials are the different individuals of all generations, in order, with their scores; `bests`
      logs the best score of every ranked generation. */
  method Optimize(space: Space, evaluate: Objective, populationSize: int, generations: int, rate: real, rng: Rng)
    returns (o: Optimum, bests: seq<Score>)
    requires ValidSpace(space) && rng.Valid()
    modifies rng
    ensures var size: int := if populationSize > 4 then populationSize else 4;
      var rounds: int := if generations > 1 then generations else 1;
      && |bests| == rounds
      && 1 <= o.evaluations <= size + (rounds - 1) * (size - size / 2)
      && o.trials == TrialsOf(evaluate,
                              Distinct(Lived(space, evaluate, size, rate, rng.draws, old(rng.position), rounds)))
    ensures o == Finalize(o.trials)
    ensures forall i, j :: 0 <= i < j < |o.trials| ==> o.trials[i].params != o.trials[j].params
    ensures forall t :: t in o.trials ==> InSpace(space, t.params) && t.score == SafeEval(evaluate, t.params)
    ensures NeverDecreases(bests)
    ensures o.score == bests[|bests| - 1]
  {
    hide AtMost, InSpace, ValidSpace, AllKnown, AllInSpace, SafeEval, Distinct, TrialsOf, Successors, Consistent,
         Finalize, Generation;
    var size: int := if populationSize > 4 then populationSize else 4;
    var rounds: int := if generations > 1 then generations else 1;
    var memo: Memo, trials: seq<Trial> := map[], [];
    var population := SamplePopulation(size, space, rng);
    bests := [];
    ghost var start := old(rng.position);
    SamplesShape(space, size, rng.draws, start);
    FirstGeneration(size, population, evaluate, space);
    for g := 0 to rounds
      invariant Generation(g, size, population, memo, trials, bests, evaluate, space)
      invariant (population, rng.position) == PopulationAt(space, evaluate, size, rate, rng.draws, start, g)
      invariant trials == TrialsOf(evaluate, Distinct(Lived(space, evaluate, size, rate, rng.draws, start, g)))
    {
      var best;
      ghost var lived := Lived(space, evaluate, size, rate, rng.draws, start, g);
      population, memo, trials, best :=
        Evolve(g, size, population, memo, trials, bests, evaluate, space, rate, rng, lived);
      bests := bests + [best];
    }
    o := Finalize(trials);
    BoundClosedForm(rounds, size);
    GenerationEnds(rounds, size, population, memo, trials, bests, evaluate, space);
    EvaluationsCounted(trials);
  }

  lemma EvaluationsCounted(trials: seq<Trial>)
    ensures Finalize(trials).trials == trials && Finalize(trials).evaluations == |trials|
  {
  }

  lemma GenerationEnds(g: nat, size: nat, population: seq<Params>, memo: Memo, trials: seq<Trial>, bests: seq<Score>,
                       evaluate: Objective, space: Space)
    requires g > 0 && Generation(g, size, population, memo, trials, bests, evaluate, space)
    ensures |bests| == g && NeverDecreases(bests) && Finalize(trials).score == bests[g - 1]
    ensures 1 <= |trials| <= EvaluationBound(g, size)
    ensures forall i, j :: 0 <= i < j < |trials| ==> trials[i].params != trials[j].params
    ensures forall t :: t in trials ==> InSpace(space, t.params) && t.score == SafeEval(evaluate, t.params)
  {
    hide InSpace, SafeEval, Finalize, AtMost;
    FinalIsLast(memo, trials, evaluate, space, population[0], bests[g - 1]);
    TrialsSound(memo, trials, evaluate, space);
  }

  lemma FirstGeneration(size: nat, population: seq<Params>, evaluate: Objective, space: Space)
    requires |population| == size > 0 && AllInSpace(space, population)
    ensures Generation(0, size, population, map[], [], [], evaluate, space)
    ensures TrialsOf(evaluate, Distinct([])) == []
  {
  }

  method SamplePopulation(size: nat, space: Space, rng: Rng) returns (population: seq<Params>)
    requires ValidSpace(space) && rng.Valid()
    modifies rng
    ensures (population, rng.position) == SamplesAt(space, size, rng.draws, old(rng.position))
  {
    hide SampleAt, ValidSpace;
    population := [];
    while |population| < size
      invariant |population| <= size
      invariant (population, rng.position) == SamplesAt(space, |population|, rng.draws, old(rng.position))
    {
      var p := Sample(space, rng);
      population := population + [p];
    }
  }

  /** On a discrete space no search beats the exhaustive one. */
  lemma GridDominates(space: Space, evaluate: Objective, trials: seq<Trial>)
    requires ValidSpace(space) && Discrete(space) && space != [] && trials != []
    requires forall t :: t in trials ==> InSpace(space, t.params) && t.score == SafeEval(evaluate, t.params)
    ensures AtMost(Finalize(trials).score, GridSearch(space, evaluate).score)
  {
    var b := BestTrial(trials);
    GridComplete(space, b.params);
    var i :| 0 <= i < |Grid(space)| && Grid(space)[i] == b.params;
    var all := TrialsOf(evaluate, Grid(space));
    assert all[i] in all;
  }
}
