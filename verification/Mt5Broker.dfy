/** Order sending to a MetaTrader 5 terminal that may answer anything. */
module Mt5Broker {
  import opened Numeric
  import opened Options

  const DONE := 10009
  const INVALID_FILL := 10030
  const INVALID_COMMENT := -2

  // ----- Filling modes

  datatype FillConstants = FillConstants(fok: int, ioc: int, ret: int)

  /** Candidate filling modes: those the symbol's bitmask allows first, then the rest. */
  method FillingModes(k: FillConstants, allowed: bv32, symFok: bv32, symIoc: bv32) returns (preferred: seq<int>)
    ensures preferred == ModesFor(k, allowed & symIoc != 0, allowed & symFok != 0)
  {
    preferred := [];
    var allowsIoc, allowsFok := allowed & symIoc != 0, allowed & symFok != 0;
    if allowsIoc { preferred := preferred + [k.ioc]; }
    if allowsFok { preferred := preferred + [k.fok]; }
    assert preferred == (if allowsIoc then [k.ioc] else []) + (if allowsFok then [k.fok] else []);
    var candidates := [k.ioc, k.fok, k.ret];
    assert candidates[0..] == candidates;
    for i := 0 to 3
      invariant AppendMissing(preferred, candidates[i..]) == ModesFor(k, allowsIoc, allowsFok)
    {
      if candidates[i] !in preferred { preferred := preferred + [candidates[i]]; }
      assert candidates[i..][1..] == candidates[i + 1..];
    }
  }

  function AppendMissing(s: seq<int>, more: seq<int>): seq<int>
    decreases more
  {
    if more == [] then s
    else AppendMissing(Append(s, more[0]), more[1..])
  }

  function ModesFor(k: FillConstants, allowsIoc: bool, allowsFok: bool): seq<int> {
    AppendMissing((if allowsIoc then [k.ioc] else []) + (if allowsFok then [k.fok] else []), [k.ioc, k.fok, k.ret])
  }

  ghost predicate Distinct(s: seq<int>) { forall i, j :: 0 <= i < j < |s| ==> s[i] != s[j] }

  /** All three modes are candidates; none repeats unless IOC and FOK share a constant and both are allowed. */
  lemma ModesComplete(k: FillConstants, allowsIoc: bool, allowsFok: bool)
    ensures var modes := ModesFor(k, allowsIoc, allowsFok);
      && (forall m :: m in modes <==> m == k.ioc || m == k.fok || m == k.ret)
      && (Distinct(modes) <==> !(allowsIoc && allowsFok && k.ioc == k.fok))
      && 1 <= |modes| <= 4
  {
    var s0 := (if allowsIoc then [k.ioc] else []) + (if allowsFok then [k.fok] else []);
    var s1 := Append(s0, k.ioc);
    var s2 := Append(s1, k.fok);
    assert [k.ioc, k.fok, k.ret][1..] == [k.fok, k.ret] && [k.fok, k.ret][1..] == [k.ret] && [k.ret][1..] == [];
    assert ModesFor(k, allowsIoc, allowsFok) == Append(s2, k.ret) by {
      assert AppendMissing(s2, [k.ret]) == Append(s2, k.ret);
      assert AppendMissing(s1, [k.fok, k.ret]) == AppendMissing(s2, [k.ret]);
    }
    assert allowsIoc && allowsFok && k.ioc == k.fok ==> Append(s2, k.ret)[0] == Append(s2, k.ret)[1];
  }

  /** Immediate-or-cancel comes first unless only fill-or-kill is allowed; returning the rest comes last. */
  lemma ModesOrder(k: FillConstants, allowsIoc: bool, allowsFok: bool)
    requires Distinct([k.ioc, k.fok, k.ret])
    ensures ModesFor(k, allowsIoc, allowsFok)
            == if allowsFok && !allowsIoc then [k.fok, k.ioc, k.ret] else [k.ioc, k.fok, k.ret]
  {
    var all := [k.ioc, k.fok, k.ret];
    assert all[0] != all[1] && all[0] != all[2] && all[1] != all[2];
    var start := (if allowsIoc then [k.ioc] else []) + (if allowsFok then [k.fok] else []);
    var s1 := Append(start, k.ioc);
    var s2 := Append(s1, k.fok);
    var more, last := [k.fok, k.ret], [k.ret];
    assert all[1..] == more && more[1..] == last && last[1..] == [];
    assert AppendMissing(start, all) == AppendMissing(s1, more) == AppendMissing(s2, last) == Append(s2, k.ret);
  }

  function Append(s: seq<int>, m: int): seq<int> { if m in s then s else s + [m] }

  // ----- Sending with fallbacks

  /** `NoAnswer` is a missing result together with the terminal's last error. */
  datatype Answer = NoAnswer(error: int) | Answered(retcode: int, price: real, volume: real)

  datatype Send = Send(mode: int, withComment: bool)

  /** The sends of one call and the answer it returns (`None` if nothing was sent). */
  datatype Outcome = Outcome(sends: seq<Send>, result: Option<Answer>)

  predicate FillRefused(a: Answer) { a.Answered? && a.retcode == INVALID_FILL }

  predicate CommentRefused(a: Answer, withComment: bool) { a.NoAnswer? && a.error == INVALID_COMMENT && withComment }

  /** What the loop does from the `at`-th send on, with the modes still untried. */
  function Attempt(modes: seq<int>, withComment: bool, answers: nat -> Answer, at: nat): Outcome
    decreases |modes|
  {
    if modes == [] then Outcome([], None)
    else
      var first := answers(at);
      var retried := CommentRefused(first, withComment);
      var sent := [Send(modes[0], withComment)] + if retried then [Send(modes[0], false)] else [];
      var answer := if retried then answers(at + 1) else first;
      if !FillRefused(answer) || |modes| == 1 then Outcome(sent, Some(answer))
      else
        var rest := Attempt(modes[1..], withComment && !retried, answers, at + |sent|);
        Outcome(sent + rest.sends, rest.result)
  }

  /** Another send follows an answer only after an invalid filling mode, or once after a refused comment. */
  ghost predicate Justified(o: Outcome, answers: nat -> Answer, at: nat) {
    forall k: nat :: at <= k < at + |o.sends| - 1 ==>
      FillRefused(answers(k)) || (CommentRefused(answers(k), o.sends[k - at].withComment)
                                  && o.sends[k - at + 1] == Send(o.sends[k - at].mode, false))
  }

  /** Once dropped, the comment never comes back. */
  ghost predicate CommentOnlyDropped(sends: seq<Send>) {
    forall i, j :: 0 <= i < j < |sends| ==> sends[j].withComment ==> sends[i].withComment
  }

  /** The first round of a call: what is sent, whether the comment was dropped and the answer that counts. */
  function Round(mode: int, withComment: bool, answers: nat -> Answer, at: nat): (seq<Send>, bool, Answer) {
    if CommentRefused(answers(at), withComment) then
      ([Send(mode, true), Send(mode, false)], false, answers(at + 1))
    else ([Send(mode, withComment)], withComment, answers(at))
  }

  lemma AttemptUnfolds(modes: seq<int>, withComment: bool, answers: nat -> Answer, at: nat)
    requires modes != []
    ensures var (sent, kept, answer) := Round(modes[0], withComment, answers, at);
      Attempt(modes, withComment, answers, at) ==
      if !FillRefused(answer) || |modes| == 1 then Outcome(sent, Some(answer))
      else var rest := Attempt(modes[1..], kept, answers, at + |sent|); Outcome(sent + rest.sends, rest.result)
  {
  }

  function Then(sends: seq<Send>, rest: Outcome): Outcome { Outcome(sends + rest.sends, rest.result) }

  lemma ThenTwice(a: seq<Send>, b: seq<Send>, rest: Outcome)
    ensures Then(a, Then(b, rest)) == Then(a + b, rest)
    ensures Then([], rest) == rest
  {
    assert a + (b + rest.sends) == a + b + rest.sends;
  }

  /** What is left of a call after one more round. */
  lemma RoundDone(modes: seq<int>, i: nat, sends: seq<Send>, comment: bool, answers: nat -> Answer)
    requires i < |modes|
    ensures var whole := Then(sends, Attempt(modes[i..], comment, answers, |sends|));
      var (sent, kept, answer) := Round(modes[i], comment, answers, |sends|);
      whole == if !FillRefused(answer) || i + 1 == |modes| then Outcome(sends + sent, Some(answer))
               else Then(sends + sent, Attempt(modes[i + 1..], kept, answers, |sends + sent|))
  {
    hide Attempt, Round;
    AttemptUnfolds(modes[i..], comment, answers, |sends|);
    assert modes[i..][1..] == modes[i + 1..];
    var (sent, kept, answer) := Round(modes[i], comment, answers, |sends|);
    ThenTwice(sends, sent, Attempt(modes[i + 1..], kept, answers, |sends| + |sent|));
  }

  /** One mode: send, and once more without the comment if the terminal refused it. */
  method SendMode(mode: int, comment: bool, answers: nat -> Answer, at: nat)
    returns (sent: seq<Send>, kept: bool, answer: Answer)
    ensures (sent, kept, answer) == Round(mode, comment, answers, at)
  {
    sent, kept, answer := [Send(mode, comment)], comment, answers(at);
    if answer.NoAnswer? && answer.error == INVALID_COMMENT && comment {
      kept := false;
      answer := answers(at + 1);
      sent := sent + [Send(mode, false)];
      assert sent == [Send(mode, true), Send(mode, false)];
    }
  }

  method SendWithFallbacks(modes: seq<int>, hasComment: bool, answers: nat -> Answer) returns (o: Outcome)
    ensures o == Attempt(modes, hasComment, answers, 0)
  {
    hide Attempt, Round, Then;
    var sends: seq<Send>, result: Option<Answer>, comment := [], None, hasComment;
    assert modes[0..] == modes;
    ThenTwice([], [], Attempt(modes, hasComment, answers, 0));
    if modes == [] { NothingToTry(hasComment, answers); }
    var i := 0;
    while i < |modes|
      invariant i <= |modes|
      invariant i < |modes| ==>
        Attempt(modes, hasComment, answers, 0) == Then(sends, Attempt(modes[i..], comment, answers, |sends|))
      invariant i == |modes| ==> Attempt(modes, hasComment, answers, 0) == Outcome(sends, result)
    {
      RoundDone(modes, i, sends, comment, answers);
      var sent, kept, answer := SendMode(modes[i], comment, answers, |sends|);
      sends, comment, result := sends + sent, kept, Some(answer);
      if answer.NoAnswer? || answer.retcode != INVALID_FILL { return Outcome(sends, result); }
      i := i + 1;
    }
    return Outcome(sends, result);
  }

  lemma NothingToTry(comment: bool, answers: nat -> Answer)
    ensures Attempt([], comment, answers, 0) == Outcome([], None)
  {
  }

  /** At most one send per mode plus the comment retry; the returned answer is the last one received. */
  lemma {:induction false} AttemptBounded(modes: seq<int>, withComment: bool, answers: nat -> Answer, at: nat)
    requires modes != []
    ensures var o := Attempt(modes, withComment, answers, at);
      && 1 <= |o.sends| <= |modes| + (if withComment then 1 else 0)
      && o.result == Some(answers(at + |o.sends| - 1))
      && o.sends[0] == Send(modes[0], withComment)
    decreases |modes|
  {
    hide Attempt;
    AttemptUnfolds(modes, withComment, answers, at);
    var (sent, kept, answer) := Round(modes[0], withComment, answers, at);
    if FillRefused(answer) && |modes| > 1 { AttemptBounded(modes[1..], kept, answers, at + |sent|); }
  }

  lemma {:induction false} AttemptJustified(modes: seq<int>, withComment: bool, answers: nat -> Answer, at: nat)
    requires modes != []
    ensures Justified(Attempt(modes, withComment, answers, at), answers, at)
    decreases |modes|
  {
    hide Attempt;
    AttemptUnfolds(modes, withComment, answers, at);
    var (sent, kept, answer) := Round(modes[0], withComment, answers, at);
    if FillRefused(answer) && |modes| > 1 {
      AttemptJustified(modes[1..], kept, answers, at + |sent|);
      var o, rest := Attempt(modes, withComment, answers, at), Attempt(modes[1..], kept, answers, at + |sent|);
      forall k: nat | at <= k < at + |o.sends| - 1
        ensures FillRefused(answers(k)) || (CommentRefused(answers(k), o.sends[k - at].withComment)
                                            && o.sends[k - at + 1] == Send(o.sends[k - at].mode, false))
      {
        var i := k - at;
        if i >= |sent| {
          assert o.sends[i] == rest.sends[i - |sent|] && o.sends[i + 1] == rest.sends[i - |sent| + 1];
        }
      }
    }
  }

  lemma {:induction false} AttemptDropsComment(modes: seq<int>, withComment: bool, answers: nat -> Answer, at: nat)
    requires modes != []
    ensures CommentOnlyDropped(Attempt(modes, withComment, answers, at).sends)
    ensures !withComment ==> forall i :: 0 <= i < |Attempt(modes, withComment, answers, at).sends| ==>
      !Attempt(modes, withComment, answers, at).sends[i].withComment
    decreases |modes|
  {
    hide Attempt;
    AttemptUnfolds(modes, withComment, answers, at);
    var (sent, kept, answer) := Round(modes[0], withComment, answers, at);
    if FillRefused(answer) && |modes| > 1 { AttemptDropsComment(modes[1..], kept, answers, at + |sent|); }
  }

  /** Invalid filling modes among the first `k` answers. */
  function Refusals(answers: nat -> Answer, at: nat, k: nat): nat {
    if k == 0 then 0
    else Refusals(answers, at, k - 1)
         + if answers(at + k - 1).Answered? && answers(at + k - 1).retcode == INVALID_FILL then 1 else 0
  }

  /** No earlier answer was a missing result with the comment error. */
  ghost predicate CommentStands(answers: nat -> Answer, at: nat, k: nat) {
    forall j: nat :: at <= j < at + k ==> !(answers(j).NoAnswer? && answers(j).error == INVALID_COMMENT)
  }

  lemma {:induction false} RefusalsSplit(answers: nat -> Answer, at: nat, a: nat, b: nat)
    ensures Refusals(answers, at, a + b) == Refusals(answers, at, a) + Refusals(answers, at + a, b)
  {
    if b > 0 {
      RefusalsSplit(answers, at, a, b - 1);
      assert at + a + b - 1 == at + (a + b) - 1;
    }
  }

  /** The k-th send uses the mode after as many as were refused before it, and the comment until it is refused. */
  lemma {:induction false} AttemptSends(modes: seq<int>, withComment: bool, answers: nat -> Answer, at: nat, k: nat)
    requires k < |Attempt(modes, withComment, answers, at).sends|
    ensures Refusals(answers, at, k) < |modes|
    ensures Attempt(modes, withComment, answers, at).sends[k].mode == modes[Refusals(answers, at, k)]
    ensures Attempt(modes, withComment, answers, at).sends[k].withComment
            <==> withComment && CommentStands(answers, at, k)
    decreases |modes|
  {
    hide Attempt;
    if modes == [] {
      NothingTried(withComment, answers, at);
    } else {
      AttemptUnfolds(modes, withComment, answers, at);
      var (sent, kept, answer) := Round(modes[0], withComment, answers, at);
      if k < |sent| {
        FirstSends(answers, at, k);
      } else {
        var rest := Attempt(modes[1..], kept, answers, at + |sent|);
        assert Attempt(modes, withComment, answers, at).sends == sent + rest.sends;
        AttemptSends(modes[1..], kept, answers, at + |sent|, k - |sent|);
        RefusalsSplit(answers, at, |sent|, k - |sent|);
        RoundRefused(modes[0], withComment, answers, at);
        StandsSplit(answers, at, |sent|, k - |sent|);
      }
    }
  }

  lemma NothingTried(comment: bool, answers: nat -> Answer, at: nat)
    ensures Attempt([], comment, answers, at) == Outcome([], None)
  {
  }

  lemma FirstSends(answers: nat -> Answer, at: nat, k: nat)
    requires k <= 1 && (k == 1 ==> CommentRefused(answers(at), true))
    ensures Refusals(answers, at, k) == 0 && (CommentStands(answers, at, k) <==> k == 0)
  {
  }

  lemma RoundRefused(mode: int, withComment: bool, answers: nat -> Answer, at: nat)
    requires FillRefused(Round(mode, withComment, answers, at).2)
    ensures var (sent, kept, _) := Round(mode, withComment, answers, at);
      Refusals(answers, at, |sent|) == 1 && (kept <==> withComment && CommentStands(answers, at, |sent|))
  {
    assert Refusals(answers, at, 1) == if FillRefused(answers(at)) then 1 else 0;
  }

  lemma StandsSplit(answers: nat -> Answer, at: nat, a: nat, b: nat)
    ensures CommentStands(answers, at, a + b) <==> CommentStands(answers, at, a) && CommentStands(answers, at + a, b)
  {
  }

  /** An accepted order is an answer with the success code. */
  predicate Accepted(a: Answer) { a.Answered? && a.retcode == DONE }

  function AcceptedCount(answers: nat -> Answer, at: nat, n: nat): nat {
    if n == 0 then 0 else AcceptedCount(answers, at, n - 1) + if Accepted(answers(at + n - 1)) then 1 else 0
  }

  lemma {:induction false} NoneAccepted(answers: nat -> Answer, at: nat, n: nat)
    requires forall k: nat :: at <= k < at + n ==> !Accepted(answers(k))
    ensures AcceptedCount(answers, at, n) == 0
  {
    if n > 0 { NoneAccepted(answers, at, n - 1); }
  }

  /** The last send is of another mode only if all were refused, and never one whose comment was refused. */
  lemma {:induction false} AttemptComplete(modes: seq<int>, withComment: bool, answers: nat -> Answer, at: nat)
    requires modes != []
    ensures var o := Attempt(modes, withComment, answers, at);
      && o.result.Some? && |o.sends| > 0 && !CommentRefused(o.result.value, o.sends[|o.sends| - 1].withComment)
      && (FillRefused(o.result.value) ==> Refusals(answers, at, |o.sends|) == |modes|)
    decreases |modes|
  {
    hide Attempt;
    AttemptUnfolds(modes, withComment, answers, at);
    var (sent, kept, answer) := Round(modes[0], withComment, answers, at);
    if FillRefused(answer) {
      RoundRefused(modes[0], withComment, answers, at);
      if |modes| > 1 {
        AttemptComplete(modes[1..], kept, answers, at + |sent|);
        RefusalsSplit(answers, at, |sent|, |Attempt(modes[1..], kept, answers, at + |sent|).sends|);
      }
    }
  }

  /** At most one order per call is accepted, and then it is the one returned. */
  lemma AtMostOneOrder(modes: seq<int>, withComment: bool, answers: nat -> Answer)
    ensures var o := Attempt(modes, withComment, answers, 0);
      AcceptedCount(answers, 0, |o.sends|) == if o.result.Some? && Accepted(o.result.value) then 1 else 0
  {
    if modes != [] {
      hide Attempt;
      AttemptBounded(modes, withComment, answers, 0);
      AttemptJustified(modes, withComment, answers, 0);
      NoneAccepted(answers, 0, |Attempt(modes, withComment, answers, 0).sends| - 1);
    }
  }

  /** The call gives up only when the terminal refused for another reason or every mode was tried. */
  lemma {:induction false} GivesUpOnlyWhenExhausted(modes: seq<int>, withComment: bool, answers: nat -> Answer, at: nat)
    requires modes != []
    ensures var o := Attempt(modes, withComment, answers, at);
      o.result.Some? && FillRefused(o.result.value) ==>
        forall m :: m in modes ==> exists s :: s in o.sends && s.mode == m
    decreases |modes|
  {
    hide Attempt;
    AttemptUnfolds(modes, withComment, answers, at);
    AttemptBounded(modes, withComment, answers, at);
    var (sent, kept, answer) := Round(modes[0], withComment, answers, at);
    var o := Attempt(modes, withComment, answers, at);
    assert o.sends[0] in o.sends;
    if FillRefused(answer) && |modes| > 1 {
      GivesUpOnlyWhenExhausted(modes[1..], kept, answers, at + |sent|);
      var rest := Attempt(modes[1..], kept, answers, at + |sent|);
      assert modes == [modes[0]] + modes[1..];
      assert forall s :: s in rest.sends ==> s in o.sends;
    }
  }

  // ----- Volumes

  /** The symbol's contract; zero stands for a missing limit. */
  datatype SymbolInfo = SymbolInfo(rawMin: real, rawMax: real, rawStep: real) {
    function VolumeMin(): real { if rawMin == 0.0 then 0.01 else rawMin }
    function Step(): real { if rawStep == 0.0 then 0.01 else rawStep }
  }

  const EIGHT_DIGITS := 100000000.0

  function GridPoint(lots: int, step: real): real { lots as real * step }

  function Quantize(volume: real, step: real): real
    requires step != 0.0
  {
    RoundTo(GridPoint(RoundHalfEven(volume / step), step), EIGHT_DIGITS)
  }

  function NormalizeVolume(info: Option<SymbolInfo>, quantity: real): Option<real> {
    if info.None? then None
    else
      var i := info.value;
      if quantity < i.VolumeMin() - 0.000000000001 then None
      else
        var capped := if i.rawMax > 0.0 then Min(i.rawMax, quantity) else quantity;
        Some(Max(i.VolumeMin(), Quantize(capped, i.Step())))
  }

  /** Missing limits count as 0.01 lots, and only those are replaced. */
  lemma MissingLimits(i: SymbolInfo, q: real)
    ensures i.rawMin == 0.0 ==> NormalizeVolume(Some(i), q) == NormalizeVolume(Some(i.(rawMin := 0.01)), q)
    ensures i.rawStep == 0.0 ==> NormalizeVolume(Some(i), q) == NormalizeVolume(Some(i.(rawStep := 0.01)), q)
    ensures (i.rawMin != 0.0 ==> i.VolumeMin() == i.rawMin) && (i.rawStep != 0.0 ==> i.Step() == i.rawStep)
  {
  }

  /** A volume is refused exactly without a contract or below its minimum; otherwise the quantity, cut at a positive
      maximum, is sent to the nearest step, eight digits and the minimum. */
  lemma VolumeMeaning(info: Option<SymbolInfo>, quantity: real)
    requires info.Some? ==> info.value.Step() > 0.0
    ensures var v := NormalizeVolume(info, quantity);
      && (v.None? <==> info.None? || quantity < info.value.VolumeMin() - 0.000000000001)
      && (v.Some? ==>
            var i := info.value;
            var wanted := if i.rawMax > 0.0 && i.rawMax < quantity then i.rawMax else quantity;
            && v.value >= i.VolumeMin()
            && (v.value > i.VolumeMin() ==>
                  exists lots: int ::
                    NearestLots(lots, wanted, i.Step()) && NearlyEqual(v.value, GridPoint(lots, i.Step()))))
  {
    if info.Some? && quantity >= info.value.VolumeMin() - 0.000000000001 {
      var i := info.value;
      var wanted := if i.rawMax > 0.0 then Min(i.rawMax, quantity) else quantity;
      var lots := RoundHalfEven(wanted / i.Step());
      LotsNear(wanted, i.Step());
      RoundToNear(GridPoint(lots, i.Step()), EIGHT_DIGITS);
      assert NearlyEqual(Quantize(wanted, i.Step()), GridPoint(lots, i.Step()));
    }
  }

  /** No multiple of the step is nearer to the volume. */
  predicate NearestLots(lots: int, volume: real, step: real) {
    -step <= 2.0 * (GridPoint(lots, step) - volume) <= step
  }

  predicate NearlyEqual(x: real, y: real) { -0.000000005 <= x - y <= 0.000000005 }

  lemma LotsNear(volume: real, step: real)
    requires step > 0.0
    ensures NearestLots(RoundHalfEven(volume / step), volume, step)
  {
    DivMul(volume, step);
    HalfStep(RoundHalfEven(volume / step), volume / step, step, volume);
  }

  lemma HalfStep(lots: int, exact: real, step: real, volume: real)
    requires step > 0.0 && exact * step == volume && -0.5 <= lots as real - exact <= 0.5
    ensures NearestLots(lots, volume, step)
  {
    var off := lots as real - exact;
    MulMonotone(-0.5, off, step);
    MulMonotone(off, 0.5, step);
    assert off * step == lots as real * step - exact * step;
  }

  lemma QuantizeMonotone(a: real, b: real, step: real)
    requires step > 0.0 && a <= b
    ensures Quantize(a, step) <= Quantize(b, step)
  {
    hide RoundHalfEven, RoundTo;
    DivMonotone(a, b, step);
    RoundMonotone(a / step, b / step);
    var ka, kb := RoundHalfEven(a / step), RoundHalfEven(b / step);
    MulMonotone(ka as real, kb as real, step);
    RoundToMonotone(GridPoint(ka, step), GridPoint(kb, step), EIGHT_DIGITS);
  }

  /** The volume sent respects the symbol's maximum for every quantity exactly when the maximum
      itself does not round up and is not below the minimum. */
  lemma MaximumRespectedIff(i: SymbolInfo)
    requires i.rawMax > 0.0 && i.Step() > 0.0
    ensures (forall q: real :: NormalizeVolume(Some(i), q).Some? ==> NormalizeVolume(Some(i), q).value <= i.rawMax)
            <==> Quantize(i.rawMax, i.Step()) <= i.rawMax && i.VolumeMin() <= i.rawMax
  {
    hide Quantize;
    if Quantize(i.rawMax, i.Step()) <= i.rawMax && i.VolumeMin() <= i.rawMax {
      forall q: real | NormalizeVolume(Some(i), q).Some? ensures NormalizeVolume(Some(i), q).value <= i.rawMax {
        QuantizeMonotone(Min(i.rawMax, q), i.rawMax, i.Step());
      }
    } else {
      var q := Max(i.rawMax, i.VolumeMin());
      assert NormalizeVolume(Some(i), q).Some? && NormalizeVolume(Some(i), q).value > i.rawMax;
    }
  }

  /** Maximum 1.07 in steps of 0.1: an order for 2 lots is sent as 1.1. */
  lemma MaximumExceededExample()
    ensures NormalizeVolume(Some(SymbolInfo(0.1, 1.07, 0.1)), 2.0) == Some(1.1)
  {
    assert 1.07 / 0.1 == 10.7;
    assert RoundHalfEven(10.7) == 11;
    assert RoundHalfEven(1.1 * EIGHT_DIGITS) == 110000000;
  }

  /** A quantity already on the symbol's grid, within limits and eight digits, is sent unchanged. */
  lemma GridVolumeUnchanged(i: SymbolInfo, lots: int, digits: int, quantity: real)
    requires i.Step() > 0.0 && quantity == lots as real * i.Step() && quantity * EIGHT_DIGITS == digits as real
    requires i.VolumeMin() <= quantity && (i.rawMax > 0.0 ==> quantity <= i.rawMax)
    ensures NormalizeVolume(Some(i), quantity) == Some(quantity)
  {
    var step := i.Step();
    UniqueQuotient(quantity, step, lots as real);
    RoundOfInteger(lots);
    RoundOfInteger(digits);
    assert GridPoint(RoundHalfEven(quantity / step), step) == quantity;
    UniqueQuotient(digits as real, EIGHT_DIGITS, quantity);
    assert RoundTo(quantity, EIGHT_DIGITS) == quantity;
    assert Quantize(quantity, step) == quantity;
  }

  // ----- One execution

  datatype Side = Buy | Sell

  datatype Request = Request(side: Side, quantity: real, isMarket: bool, reduceOnly: bool)

  datatype Ticker = Ticker(bid: real, ask: real)

  datatype Position = Position(ticket: int, side: Side, time: int)

  datatype Terminal = Terminal(connected: bool, info: Option<SymbolInfo>, positions: seq<Position>,
                               modes: seq<int>, answers: nat -> Answer)

  datatype Reason = InvalidQuantity | NoMarketData | BrokerUnavailable | BrokerRejected

  datatype Execution = Filled(volume: real, price: real) | Rejected(reason: Reason)

  /** The oldest open position on the side a closing order must settle. */
  function OldestOpposite(positions: seq<Position>, closing: Side): Option<Position> {
    if positions == [] then None
    else
      var n := |positions| - 1;
      var best := OldestOpposite(positions[..n], closing);
      if positions[n].side == closing then best
      else if best.Some? && best.value.time <= positions[n].time then best
      else Some(positions[n])
  }

  /** Every position of its side listed before this one is newer. */
  ghost predicate ComesFirst(positions: seq<Position>, closing: Side, k: nat)
    requires k < |positions|
  {
    forall j :: 0 <= j < k && positions[j].side != closing ==> positions[k].time < positions[j].time
  }

  lemma {:induction false} OldestOppositeSound(positions: seq<Position>, closing: Side)
    ensures var r := OldestOpposite(positions, closing);
      && (r.None? <==> forall p :: p in positions ==> p.side == closing)
      && (r.Some? ==> r.value.side != closing
                      && (forall p :: p in positions && p.side != closing ==> r.value.time <= p.time)
                      && exists k ::
                           0 <= k < |positions| && positions[k] == r.value && ComesFirst(positions, closing, k))
  {
    if positions != [] {
      var n := |positions| - 1;
      OldestOppositeSound(positions[..n], closing);
      assert positions == positions[..n] + [positions[n]];
      var r, before := OldestOpposite(positions, closing), OldestOpposite(positions[..n], closing);
      if r.Some? && r == before {
        var k :| 0 <= k < n && positions[..n][k] == r.value && ComesFirst(positions[..n], closing, k);
        assert ComesFirst(positions, closing, k);
      } else if r.Some? {
        assert ComesFirst(positions, closing, n);
      }
    }
  }

  /** Why an order is refused before anything is sent, in the order the code checks. */
  function Refusal(r: Request, t: Ticker, m: Terminal): Option<Reason> {
    if r.quantity <= 0.0 then Some(InvalidQuantity)
    else if t.bid <= 0.0 || t.ask <= 0.0 || t.ask < t.bid then Some(NoMarketData)
    else if !m.connected then Some(BrokerUnavailable)
    else if !r.isMarket then Some(BrokerRejected)
    else if NormalizeVolume(m.info, r.quantity).None? then Some(InvalidQuantity)
    else if r.reduceOnly && OldestOpposite(m.positions, r.side).None? then Some(BrokerRejected)
    else None
  }

  /** An order is sent exactly when its quantity is positive, the quotes are sane, the terminal is connected, the order
      is at market, the volume is tradable and, if it only reduces, there is a position to reduce. */
  lemma SentIff(r: Request, t: Ticker, m: Terminal)
    ensures Refusal(r, t, m).None?
            <==> r.quantity > 0.0 && 0.0 < t.bid <= t.ask && m.connected && r.isMarket
                 && m.info.Some? && r.quantity >= m.info.value.VolumeMin() - 0.000000000001
                 && (r.reduceOnly ==> exists p :: p in m.positions && p.side != r.side)
  {
    OldestOppositeSound(m.positions, r.side);
  }

  /** The first failed check gives the reason. */
  lemma RefusalReason(r: Request, t: Ticker, m: Terminal)
    ensures var why := Refusal(r, t, m);
      && (why == Some(InvalidQuantity) ==> r.quantity <= 0.0 || (m.connected && r.isMarket))
      && (why == Some(NoMarketData) <==> r.quantity > 0.0 && !(0.0 < t.bid <= t.ask))
      && (why == Some(BrokerUnavailable) <==> r.quantity > 0.0 && 0.0 < t.bid <= t.ask && !m.connected)
      && (why == Some(BrokerRejected) ==>
            m.connected && (!r.isMarket || (r.reduceOnly && forall p :: p in m.positions ==> p.side == r.side)))
  {
    OldestOppositeSound(m.positions, r.side);
  }

  class Broker {
    var executed: nat
    var rejected: nat

    constructor ()
      ensures executed == 0 && rejected == 0
    {
      executed, rejected := 0, 0;
    }

    method Reject(reason: Reason) returns (e: Execution)
      modifies this
      ensures e == Rejected(reason) && executed == old(executed) && rejected == old(rejected) + 1
    {
      rejected := rejected + 1;
      return Rejected(reason);
    }

    /** Every call is counted once, and it counts as executed exactly when the terminal accepted one order. */
    method Execute(r: Request, t: Ticker, m: Terminal) returns (e: Execution, sends: seq<Send>)
      modifies this
      ensures executed + rejected == old(executed + rejected) + 1
      ensures executed == old(executed) + AcceptedCount(m.answers, 0, |sends|)
      ensures e.Filled? <==> executed == old(executed) + 1
      ensures Refusal(r, t, m).Some? ==> e == Rejected(Refusal(r, t, m).value) && sends == []
      ensures Refusal(r, t, m).None? ==> sends == Attempt(m.modes, true, m.answers, 0).sends
      ensures e.Filled? ==> Refusal(r, t, m).None?
      ensures Refusal(r, t, m).None? && !e.Filled? ==> e == Rejected(BrokerRejected)
      ensures e.Filled? ==> var last := Attempt(m.modes, true, m.answers, 0).result;
        last.Some? && Accepted(last.value) &&
        e == Filled(if last.value.volume == 0.0 then NormalizeVolume(m.info, r.quantity).value else last.value.volume,
                    if last.value.price == 0.0 then (t.bid + t.ask) / 2.0 else last.value.price)
    {
      hide NormalizeVolume;
      sends := [];
      var refusal := Refusal(r, t, m);
      if refusal.Some? { e := Reject(refusal.value); return; }
      var volume := NormalizeVolume(m.info, r.quantity).value;
      var o := SendWithFallbacks(m.modes, true, m.answers);
      sends := o.sends;
      AtMostOneOrder(m.modes, true, m.answers);
      if o.result.None? || o.result.value.NoAnswer? || o.result.value.retcode != DONE {
        e := Reject(BrokerRejected);
        return;
      }
      var a := o.result.value;
      executed := executed + 1;
      e := Filled(if a.volume == 0.0 then volume else a.volume,
                  if a.price == 0.0 then (t.bid + t.ask) / 2.0 else a.price);
    }
  }
}
