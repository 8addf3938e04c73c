/** Confidence and the acceptance gate of the decision engine. */
module Decisions {
  import opened Numeric
  import opened Market
  import C = Consensus

  // ----- Confidence

  /** Weighted sum of factors; factors and weights are listed in the same order. */
  function Blend(factors: seq<real>, weights: seq<real>): real
    requires |factors| == |weights|
  {
    if factors == [] then 0.0
    else
      var n := |factors| - 1;
      Blend(factors[..n], weights[..n]) + Times(factors[n], weights[n])
  }

  function Confidence(factors: seq<real>, weights: seq<real>): real
    requires |factors| == |weights|
  {
    var total := Sum(weights);
    if total <= 0.0 then 0.0 else C.Four(Clamp(C.Share(Blend(factors, weights), total), 0.0, 1.0))
  }

  function Products(factors: seq<real>, weights: seq<real>): seq<real>
    requires |factors| == |weights|
  {
    seq(|factors|, k requires 0 <= k < |factors| => Times(factors[k], weights[k]))
  }

  lemma {:induction false} BlendIsSum(factors: seq<real>, weights: seq<real>)
    requires |factors| == |weights|
    ensures Blend(factors, weights) == Sum(Products(factors, weights))
  {
    hide Times;
    if factors != [] {
      var n := |factors| - 1;
      BlendIsSum(factors[..n], weights[..n]);
      assert Products(factors, weights)[..n] == Products(factors[..n], weights[..n]);
    }
  }

  /** Confidence is the weighted mean of the factors to four decimals, and zero without weight. */
  lemma ConfidenceMeaning(factors: seq<real>, weights: seq<real>)
    requires |factors| == |weights|
    requires forall i :: 0 <= i < |factors| ==> weights[i] >= 0.0 && 0.0 <= factors[i] <= 1.0
    ensures if Sum(weights) <= 0.0 then Confidence(factors, weights) == 0.0
            else C.Reports(Confidence(factors, weights), Sum(Products(factors, weights)), Sum(weights), 10000.0)
  {
    hide Blend, Sum, C.Share, Times, RoundTo, C.Reports;
    if Sum(weights) > 0.0 {
      ConfidenceBetweenFactors(factors, weights, 0.0, 1.0);
      BlendIsSum(factors, weights);
      C.RoundedReports(Blend(factors, weights), Sum(weights), 10000.0);
    }
  }

  lemma {:induction false} BlendBounded(factors: seq<real>, weights: seq<real>, lo: real, hi: real)
    requires |factors| == |weights|
    requires forall i :: 0 <= i < |factors| ==> weights[i] >= 0.0 && lo <= factors[i] <= hi
    ensures Times(lo, Sum(weights)) <= Blend(factors, weights) <= Times(hi, Sum(weights))
  {
    hide Times;
    if factors == [] {
      TimesAdds(lo, 0.0, 0.0);
      TimesAdds(hi, 0.0, 0.0);
    } else {
      var n := |factors| - 1;
      BlendBounded(factors[..n], weights[..n], lo, hi);
      TimesAdds(lo, Sum(weights[..n]), weights[n]);
      TimesAdds(hi, Sum(weights[..n]), weights[n]);
      TimesMonotone(lo, factors[n], weights[n]);
      TimesMonotone(factors[n], hi, weights[n]);
    }
  }

  lemma TimesMonotone(x: real, y: real, w: real)
    requires x <= y && w >= 0.0
    ensures Times(x, w) <= Times(y, w)
  {
    MulMonotone(x, y, w);
  }

  /** With nonnegative weights confidence lies between the weakest and the strongest factor: no clamp bites. */
  lemma {:induction false} ConfidenceBetweenFactors(factors: seq<real>, weights: seq<real>, lo: real, hi: real)
    requires |factors| == |weights| && 0.0 <= lo <= hi <= 1.0 && Sum(weights) > 0.0
    requires forall i :: 0 <= i < |factors| ==> weights[i] >= 0.0 && lo <= factors[i] <= hi
    ensures Confidence(factors, weights) == C.Four(C.Share(Blend(factors, weights), Sum(weights)))
    ensures C.Four(lo) <= Confidence(factors, weights) <= C.Four(hi)
  {
    hide C.Four, Blend, Sum, C.Share, Times;
    BlendBounded(factors, weights, lo, hi);
    ShareBetween(Blend(factors, weights), Sum(weights), lo, hi);
    C.FourMonotone(lo, C.Share(Blend(factors, weights), Sum(weights)));
    C.FourMonotone(C.Share(Blend(factors, weights), Sum(weights)), hi);
  }

  lemma ShareBetween(x: real, total: real, lo: real, hi: real)
    requires total > 0.0 && Times(lo, total) <= x <= Times(hi, total)
    ensures lo <= C.Share(x, total) <= hi
  {
    DivMonotone(lo * total, x, total);
    DivMonotone(x, hi * total, total);
    UniqueQuotient(lo * total, total, lo);
    UniqueQuotient(hi * total, total, hi);
  }

  // ----- The gate

  datatype Thresholds = Thresholds(minSignals: int, minScore: real, minConfidence: real, minAgreement: real)

  datatype FilterResult = FilterResult(name: string, passed: bool)

  datatype Rejection =
    | NoDirection
    | TooFewSignals
    | LowScore
    | LowConfidence
    | LowAgreement
    | Blocked(filter: string)

  datatype Action = OpenLong | OpenShort | StandAside

  datatype Decision = Decision(action: Action, accepted: bool, score: real, confidence: real, agreement: real,
                               rejections: seq<Rejection>, filtersBlocking: seq<string>)

  datatype SignalStatus = Accepted | Rejected

  const NO_SIGNALS := Decision(StandAside, false, 0.0, 0.0, 0.0, [], [])

  function Blocking(filters: seq<FilterResult>): (names: seq<string>)
    ensures names == [] <==> forall f :: f in filters ==> f.passed
  {
    if filters == [] then []
    else
      var n := |filters| - 1;
      assert filters == filters[..n] + [filters[n]];
      Blocking(filters[..n]) + if filters[n].passed then [] else [filters[n].name]
  }

  /** A threshold the consensus, the signals or the confidence miss. */
  predicate Misses(r: Rejection, t: Thresholds, active: nat, c: C.Result, confidence: real) {
    match r
    case NoDirection => c.direction.Neutral?
    case TooFewSignals => active < t.minSignals
    case LowScore => c.score < t.minScore
    case LowConfidence => confidence < t.minConfidence
    case LowAgreement => c.agreement < t.minAgreement
    case Blocked(_) => false
  }

  /** The checks in the order they are reported. */
  const CHECKS := [NoDirection, TooFewSignals, LowScore, LowConfidence, LowAgreement]

  /** Those of the first `n` checks that are missed. */
  function Missed(n: nat, t: Thresholds, active: nat, c: C.Result, confidence: real): seq<Rejection>
    requires n <= |CHECKS|
  {
    if n == 0 then []
    else
      Missed(n - 1, t, active, c, confidence)
      + if Misses(CHECKS[n - 1], t, active, c, confidence) then [CHECKS[n - 1]] else []
  }

  function BlockedBy(names: seq<string>): seq<Rejection> {
    seq(|names|, i requires 0 <= i < |names| => Blocked(names[i]))
  }

  /** Everything a decision must be: it names exactly the missed thresholds and then the blocking filters,
      and it trades in the consensus direction exactly when it names none. */
  ghost predicate Justified(d: Decision, t: Thresholds, active: nat, c: C.Result, confidence: real,
                            filters: seq<FilterResult>) {
    && d.score == c.score && d.confidence == confidence && d.agreement == c.agreement
    && d.filtersBlocking == Blocking(filters)
    && d.rejections == Missed(|CHECKS|, t, active, c, confidence) + BlockedBy(Blocking(filters))
    && d.accepted == (d.rejections == [])
    && d.action == (if !d.accepted then StandAside else if c.direction.Long? then OpenLong else OpenShort)
  }

  class DecisionEngine {
    const thresholds: Thresholds
    /** Decisions recorded, oldest first. */
    var history: seq<Decision>
    /** How the active signals of each decided batch were consumed. */
    var consumed: seq<SignalStatus>

    constructor (t: Thresholds)
      ensures thresholds == t && history == [] && consumed == []
    {
      thresholds, history, consumed := t, [], [];
    }

    method CheckThresholds(active: nat, c: C.Result, confidence: real) returns (rejections: seq<Rejection>)
      ensures rejections == Missed(|CHECKS|, thresholds, active, c, confidence)
    {
      var t := thresholds;
      rejections := [];
      if c.direction.Neutral? { rejections := rejections + [NoDirection]; }
      assert rejections == Missed(1, t, active, c, confidence);
      if active < t.minSignals { rejections := rejections + [TooFewSignals]; }
      assert rejections == Missed(2, t, active, c, confidence);
      if c.score < t.minScore { rejections := rejections + [LowScore]; }
      assert rejections == Missed(3, t, active, c, confidence);
      if confidence < t.minConfidence { rejections := rejections + [LowConfidence]; }
      assert rejections == Missed(4, t, active, c, confidence);
      if c.agreement < t.minAgreement { rejections := rejections + [LowAgreement]; }
    }

    /** One evaluation with `active` signals; the seams to consensus, confidence and filters are arguments. */
    method Evaluate(active: nat, c: C.Result, confidence: real, filters: seq<FilterResult>) returns (d: Decision)
      modifies this
      ensures history == old(history) + [d]
      ensures active == 0 ==> d == NO_SIGNALS && consumed == old(consumed)
      ensures active > 0 ==> Justified(d, thresholds, active, c, confidence, filters)
      ensures active > 0 ==> consumed == old(consumed) + [if d.accepted then Accepted else Rejected]
    {
      if active == 0 {
        history := history + [NO_SIGNALS];
        return NO_SIGNALS;
      }
      var rejections := CheckThresholds(active, c, confidence);
      var blocking := Blocking(filters);
      for i := 0 to |blocking|
        invariant rejections == Missed(|CHECKS|, thresholds, active, c, confidence) + BlockedBy(blocking[..i])
      {
        rejections := rejections + [Blocked(blocking[i])];
        assert BlockedBy(blocking[..i + 1]) == BlockedBy(blocking[..i]) + [Blocked(blocking[i])];
      }
      assert blocking[..|blocking|] == blocking;
      var accepted := rejections == [];
      var action := if !accepted then StandAside else if c.direction.Long? then OpenLong else OpenShort;
      d := Decision(action, accepted, c.score, confidence, c.agreement, rejections, blocking);
      consumed := consumed + [if accepted then Accepted else Rejected];
      history := history + [d];
    }
  }

  /** The filters named are those that blocked, one by one and in order. */
  lemma {:induction false} BlockingConcat(a: seq<FilterResult>, b: seq<FilterResult>)
    ensures Blocking(a + b) == Blocking(a) + Blocking(b)
    ensures |b| == 1 ==> Blocking(b) == if b[0].passed then [] else [b[0].name]
  {
    hide Blocking;
    if b == [] {
      assert a + b == a;
      BlockingNone();
    } else {
      var n := |b| - 1;
      BlockingConcat(a, b[..n]);
      BlockingStep(b[..n], b[n]);
      BlockingStep(a + b[..n], b[n]);
      assert b[..n] + [b[n]] == b && a + b[..n] + [b[n]] == a + b;
      if n == 0 { BlockingNone(); }
    }
  }

  lemma BlockingStep(filters: seq<FilterResult>, f: FilterResult)
    ensures Blocking(filters + [f]) == Blocking(filters) + if f.passed then [] else [f.name]
  {
    assert (filters + [f])[..|filters|] == filters;
  }

  lemma BlockingNone()
    ensures Blocking([]) == []
  {
  }

  /** Where a check stands among the reasons. */
  function Place(r: Rejection): nat {
    match r
    case NoDirection => 0
    case TooFewSignals => 1
    case LowScore => 2
    case LowConfidence => 3
    case LowAgreement => 4
    case Blocked(_) => 5
  }

  /** Each reason stands after those before it, and all of them before place `n`. */
  ghost predicate InOrder(reasons: seq<Rejection>, n: nat) {
    && (forall j :: 0 <= j < |reasons| ==> Place(reasons[j]) < n)
    && forall i, j :: 0 <= i < j < |reasons| ==> Place(reasons[i]) < Place(reasons[j])
  }

  lemma {:induction false} MissedOrdered(n: nat, t: Thresholds, active: nat, c: C.Result, confidence: real)
    requires n <= |CHECKS|
    ensures InOrder(Missed(n, t, active, c, confidence), n)
  {
    hide Misses, Place, InOrder;
    if n > 0 {
      MissedOrdered(n - 1, t, active, c, confidence);
      CheckPlace(n - 1);
      var before := Missed(n - 1, t, active, c, confidence);
      OneMore(before, CHECKS[n - 1], n - 1);
      assert before + [] == before;
    } else {
      NothingMissed();
    }
  }

  lemma OneMore(reasons: seq<Rejection>, r: Rejection, n: nat)
    requires InOrder(reasons, n) && Place(r) == n
    ensures InOrder(reasons, n + 1) && InOrder(reasons + [r], n + 1)
  {
  }

  lemma NothingMissed()
    ensures InOrder([], 0)
  {
  }

  lemma CheckPlace(k: nat)
    requires k < |CHECKS|
    ensures |CHECKS| == 5 && Place(CHECKS[k]) == k
  {
    assert CHECKS[0] == NoDirection && CHECKS[1] == TooFewSignals && CHECKS[2] == LowScore;
    assert CHECKS[3] == LowConfidence && CHECKS[4] == LowAgreement;
  }

  /** The reasons come in one order: direction, signals, score, confidence, agreement, and last the filters as they
      blocked. */
  lemma RejectionOrder(d: Decision, t: Thresholds, active: nat, c: C.Result, confidence: real,
                       filters: seq<FilterResult>)
    requires Justified(d, t, active, c, confidence, filters)
    ensures var first := |d.rejections| - |d.filtersBlocking|;
      && 0 <= first
      && (forall j :: first <= j < |d.rejections| ==> d.rejections[j] == Blocked(d.filtersBlocking[j - first]))
      && forall i, j :: 0 <= i < j < first ==> Place(d.rejections[i]) < Place(d.rejections[j]) < 5
  {
    hide Missed, Place;
    CheckPlace(0);
    MissedOrdered(|CHECKS|, t, active, c, confidence);
    var missed := Missed(|CHECKS|, t, active, c, confidence);
    assert forall j :: 0 <= j < |missed| ==> d.rejections[j] == missed[j];
  }

  lemma {:induction false} MissedMembers(n: nat, t: Thresholds, active: nat, c: C.Result, confidence: real,
                                         r: Rejection)
    requires n <= |CHECKS|
    ensures r in Missed(n, t, active, c, confidence) <==> r in CHECKS[..n] && Misses(r, t, active, c, confidence)
  {
    if n > 0 {
      MissedMembers(n - 1, t, active, c, confidence, r);
      assert CHECKS[..n] == CHECKS[..n - 1] + [CHECKS[n - 1]];
    }
  }

  lemma EveryCheck(r: Rejection)
    ensures r in CHECKS[..|CHECKS|] <==> !r.Blocked?
  {
    assert CHECKS[..|CHECKS|] == CHECKS;
    assert CHECKS[0] == NoDirection && CHECKS[1] == TooFewSignals && CHECKS[2] == LowScore;
    assert CHECKS[3] == LowConfidence && CHECKS[4] == LowAgreement;
  }

  /** Which rejections a decision names. */
  lemma RejectionMeaning(d: Decision, t: Thresholds, active: nat, c: C.Result, confidence: real,
                         filters: seq<FilterResult>, r: Rejection)
    requires Justified(d, t, active, c, confidence, filters)
    ensures r in d.rejections
            <==> Misses(r, t, active, c, confidence) || (r.Blocked? && r.filter in Blocking(filters))
  {
    hide Missed;
    MissedMembers(|CHECKS|, t, active, c, confidence, r);
    EveryCheck(r);
    if r.Blocked? && r.filter in Blocking(filters) {
      var i :| 0 <= i < |Blocking(filters)| && Blocking(filters)[i] == r.filter;
      assert BlockedBy(Blocking(filters))[i] == r;
    }
  }

  /** A decision opens a position exactly when the consensus has a side and every threshold and filter passes. */
  lemma AcceptedIff(d: Decision, t: Thresholds, active: nat, c: C.Result, confidence: real, filters: seq<FilterResult>)
    requires Justified(d, t, active, c, confidence, filters)
    ensures d.accepted <==>
      !c.direction.Neutral? && active >= t.minSignals && c.score >= t.minScore && confidence >= t.minConfidence
      && c.agreement >= t.minAgreement && forall f :: f in filters ==> f.passed
    ensures d.action.OpenLong? <==> d.accepted && c.direction.Long?
    ensures d.action.OpenShort? <==> d.accepted && c.direction.Short?
  {
    hide Missed, BlockedBy;
    forall r ensures r in d.rejections
      <==> Misses(r, t, active, c, confidence) || (r.Blocked? && r.filter in Blocking(filters))
    {
      RejectionMeaning(d, t, active, c, confidence, filters, r);
    }
    if !d.accepted { assert d.rejections[0] in d.rejections; }
    assert NoDirection in d.rejections <==> c.direction.Neutral?;
    assert TooFewSignals in d.rejections <==> active < t.minSignals;
    assert LowScore in d.rejections <==> c.score < t.minScore;
    assert LowConfidence in d.rejections <==> confidence < t.minConfidence;
    assert LowAgreement in d.rejections <==> c.agreement < t.minAgreement;
    if Blocking(filters) != [] { assert Blocked(Blocking(filters)[0]) in d.rejections; }
  }

  /** With the weighted-average family the agreement threshold is redundant below min_score/100:
      it is only ever missed together with the score threshold. */
  lemma AgreementGateRedundant(d: Decision, t: Thresholds, active: nat, voters: seq<C.Signal>, w: map<string, real>,
                               default: real, confidence: real, filters: seq<FilterResult>)
    requires C.NonNegative(voters, w, default) && t.minAgreement <= t.minScore / 100.0
    requires Justified(d, t, active, C.AverageOf(voters, w, default), confidence, filters)
    ensures LowAgreement in d.rejections ==> LowScore in d.rejections
  {
    C.AgreementCoversScore(voters, w, default);
    RejectionMeaning(d, t, active, C.AverageOf(voters, w, default), confidence, filters, LowAgreement);
    RejectionMeaning(d, t, active, C.AverageOf(voters, w, default), confidence, filters, LowScore);
  }

  /** One long at score 100 against one short at score 0, sharing a unit of weight. */
  function Duel(share: real): (seq<C.Signal>, map<string, real>) {
    ([C.Signal("a", Long, 100.0), C.Signal("b", Short, 0.0)], map["a" := share, "b" := 1.0 - share])
  }

  lemma DuelResult(k: int)
    requires 1 <= k <= 10000
    ensures var x := k as real / 10000.0;
      var (voters, w) := Duel(x);
      C.NonNegative(voters, w, 1.0)
      && C.AverageOf(voters, w, 1.0).score == k as real / 100.0 && C.AverageOf(voters, w, 1.0).agreement == x
  {
    var x := k as real / 10000.0;
    var (voters, w) := Duel(x);
    DuelSums(x);
    DuelRounding(k);
    hide C.Mass, C.Points, C.Two, C.Four;
    assert C.Share(100.0 * x, 1.0) == 100.0 * x && C.Share(x, 1.0) == x;
  }

  lemma DuelSums(x: real)
    ensures var (voters, w) := Duel(x);
      && C.Mass(voters, w, 1.0, Long) == x && C.Mass(voters, w, 1.0, Short) == 1.0 - x
      && C.Points(voters, w, 1.0, Long) == 100.0 * x && C.Points(voters, w, 1.0, Short) == 0.0
  {
    var (voters, w) := Duel(x);
    var first := voters[..1];
    assert first == [voters[0]] && first[..0] == [];
    assert C.WeightOf(w, 1.0, "a") == x && C.WeightOf(w, 1.0, "b") == 1.0 - x by { assert "a"[0] != "b"[0]; }
    assert Times(100.0, x) == 100.0 * x && Times(0.0, 1.0 - x) == 0.0;
    assert C.Mass(first, w, 1.0, Long) == x && C.Mass(first, w, 1.0, Short) == 0.0;
    assert C.Points(first, w, 1.0, Long) == 100.0 * x && C.Points(first, w, 1.0, Short) == 0.0;
  }

  lemma DuelRounding(k: int)
    ensures C.Four(k as real / 10000.0) == k as real / 10000.0
    ensures C.Two(100.0 * (k as real / 10000.0)) == k as real / 100.0
  {
    RoundOfInteger(k);
    assert k as real / 10000.0 * 10000.0 == k as real;
    assert 100.0 * (k as real / 10000.0) * 100.0 == k as real;
  }

  /** The agreement test never decides alone.  */
  ghost predicate AgreementRedundant(t: Thresholds) {
    forall voters: seq<C.Signal>, w: map<string, real>, default: real ::
      C.NonNegative(voters, w, default) && C.AverageOf(voters, w, default).agreement < t.minAgreement
      ==> C.AverageOf(voters, w, default).score < t.minScore
  }

  predicate Reaches(m: nat, minScore: real) { m as real >= 100.0 * minScore }

  /** Scores are reported in hundredths: the least one, in hundredths, that reaches a threshold. */
  function LeastReaching(minScore: real): (k: nat)
    ensures Reaches(k, minScore)
    ensures forall m: nat :: Reaches(m, minScore) ==> m >= k
  {
    var up := -((-(100.0 * minScore)).Floor);
    if up < 0 then 0 else up
  }

  lemma ScoreInHundredths(voters: seq<C.Signal>, w: map<string, real>, default: real) returns (m: nat)
    requires C.NonNegative(voters, w, default)
    ensures m <= 10000 && C.AverageOf(voters, w, default).score == m as real / 100.0
  {
    hide C.Mass, C.Points, C.Share, C.Contributions;
    var long, short := C.Mass(voters, w, default, Long), C.Mass(voters, w, default, Short);
    m := 0;
    if voters != [] && long + short > 0.0 {
      C.PointsBounded(voters, w, default, Long);
      C.PointsBounded(voters, w, default, Short);
      var gap := C.Points(voters, w, default, Long) - C.Points(voters, w, default, Short);
      ShareBetween(gap, long + short, -100.0, 100.0);
      m := Hundredths(Abs(C.Share(gap, long + short)));
    }
  }

  lemma Hundredths(x: real) returns (m: nat)
    requires 0.0 <= x <= 100.0
    ensures m <= 10000 && C.Two(x) == m as real / 100.0
  {
    RoundMonotone(0.0, x * 100.0);
    RoundMonotone(x * 100.0, 10000.0);
    RoundOfInteger(0);
    RoundOfInteger(10000);
    m := RoundHalfEven(x * 100.0);
  }

  /** That is exactly when no score can reach its threshold, or the least that does covers the agreement threshold. */
  lemma AgreementRedundantIff(t: Thresholds)
    ensures AgreementRedundant(t)
            <==> t.minScore > 100.0 || t.minAgreement <= LeastReaching(t.minScore) as real / 10000.0
  {
    var k := LeastReaching(t.minScore);
    if t.minScore > 100.0 || t.minAgreement <= k as real / 10000.0 {
      forall voters: seq<C.Signal>, w: map<string, real>, default: real
        | C.NonNegative(voters, w, default) && C.AverageOf(voters, w, default).agreement < t.minAgreement
        ensures C.AverageOf(voters, w, default).score < t.minScore
      {
        C.AgreementCoversScore(voters, w, default);
        var m := ScoreInHundredths(voters, w, default);
        assert Reaches(m, t.minScore) ==> m >= k;
      }
    } else if k == 0 {
      assert C.AverageOf([], map[], 1.0) == C.EMPTY;
      assert C.NonNegative([], map[], 1.0) && C.AverageOf([], map[], 1.0).agreement < t.minAgreement;
    } else {
      assert k <= 10000;
      DuelResult(k);
      var (voters, w) := Duel(k as real / 10000.0);
      assert C.NonNegative(voters, w, 1.0) && C.AverageOf(voters, w, 1.0).agreement < t.minAgreement;
    }
  }

  /** With voting a directional result never misses an agreement threshold of one half or less. */
  lemma VotingPassesAgreement(d: Decision, t: Thresholds, active: nat, signals: seq<C.Signal>, w: map<string, real>,
                              default: real, confidence: real, filters: seq<FilterResult>)
    requires t.minAgreement <= 0.5
    requires Justified(d, t, active, C.WeightedVotingOf(signals, w, default), confidence, filters)
    ensures LowAgreement in d.rejections ==> NoDirection in d.rejections
  {
    C.VerdictMajority(signals, w, default);
    RejectionMeaning(d, t, active, C.WeightedVotingOf(signals, w, default), confidence, filters, LowAgreement);
    RejectionMeaning(d, t, active, C.WeightedVotingOf(signals, w, default), confidence, filters, NoDirection);
  }
}
