/** The virtual-trade ledger: every signal with levels becomes a trade settled by later candles. */
module Evaluation {
  import opened Numeric
  import opened Market
  import opened Options
  import opened Lists

  const SEEN_LIMIT: nat := 20000
  const WINDOW: nat := 500

  datatype Settings = Settings(enabled: bool, maxHolding: real, falseBars: int, rLimit: nat)

  datatype Record = Record(id: string, strategy: string, symbol: string, direction: Direction,
                           zone: Option<(real, real)>, stop: Option<real>, target: Option<real>, at: real)

  datatype Trade = Trade(id: string, strategy: string, symbol: string, isLong: bool, entry: real, stop: real,
                         target: Option<real>, risk: real, openedAt: real, deadline: real)

  datatype Outcome = Win | Loss | Timeout

  datatype Verdict = Verdict(outcome: Outcome, r: real, closedAt: real, isFalse: bool)

  type Closing = (Trade, Verdict)

  datatype Perf = Perf(signals: nat, tracked: nat, evaluated: nat, wins: nat, losses: nat, timeouts: nat,
                       falseSignals: nat, grossWin: real, grossLoss: real, holding: real, rValues: seq<real>,
                       last: Option<real>)

  const NO_PERF := Perf(0, 0, 0, 0, 0, 0, 0, 0.0, 0.0, 0.0, [], None)

  /** Closed candles per symbol, oldest first. */
  type Histories = map<string, seq<Candle>>

  function History(m: Histories, symbol: string): seq<Candle> { if symbol in m then m[symbol] else [] }

  // ----- Opening a trade

  /** The virtual trade a signal stands for, if it carries a direction, an entry zone, a stop and some risk. */
  function Propose(r: Record, maxHolding: real): Option<Trade> {
    if r.direction.Neutral? || r.stop.None? || r.zone.None? then None
    else
      var entry := (r.zone.value.0 + r.zone.value.1) / 2.0;
      var risk := Abs(entry - r.stop.value);
      if risk <= 0.0 then None
      else Some(Trade(r.id, r.strategy, r.symbol, r.direction.Long?, entry, r.stop.value, r.target, risk, r.at,
                      r.at + maxHolding))
  }

  // ----- Settling a trade

  predicate HitsStop(t: Trade, c: Candle) { if t.isLong then c.low <= t.stop else c.high >= t.stop }

  predicate HitsTarget(t: Trade, c: Candle) {
    t.target.Some? && if t.isLong then c.high >= t.target.value else c.low <= t.target.value
  }

  predicate Touches(t: Trade, c: Candle) { HitsStop(t, c) || HitsTarget(t, c) }

  /** Candles ending after the trade was opened. */
  function After(h: seq<Candle>, openedAt: real): seq<Candle> {
    if h == [] then []
    else After(h[..|h| - 1], openedAt) + if h[|h| - 1].end > openedAt then [h[|h| - 1]] else []
  }

  function LatestWindow(h: seq<Candle>): seq<Candle> { Latest(h, WINDOW) }

  /** Index of the first touching candle, or the length if none touches. */
  function FirstTouch(t: Trade, cs: seq<Candle>): (i: nat)
    ensures i <= |cs|
  {
    if cs == [] then 0
    else
      var i := FirstTouch(t, cs[..|cs| - 1]);
      if i < |cs| - 1 || Touches(t, cs[|cs| - 1]) then i else |cs|
  }

  /** The stop wins over the target inside one candle. */
  function Touch(t: Trade, c: Candle, i: nat, falseBars: int): Verdict
    requires t.risk > 0.0 && Touches(t, c)
  {
    if HitsStop(t, c) then Verdict(Loss, -1.0, c.end, i < falseBars)
    else Verdict(Win, Abs(t.target.value - t.entry) / t.risk, c.end, false)
  }

  lemma {:induction false} FirstTouchSound(t: Trade, cs: seq<Candle>)
    ensures var i := FirstTouch(t, cs);
      (i < |cs| ==> Touches(t, cs[i])) && forall k :: 0 <= k < i ==> !Touches(t, cs[k])
  {
    if cs != [] { FirstTouchSound(t, cs[..|cs| - 1]); }
  }

  /** The first touching candle decides. */
  function Settle(t: Trade, cs: seq<Candle>, falseBars: int): Option<Verdict>
    requires t.risk > 0.0
  {
    FirstTouchSound(t, cs);
    var i := FirstTouch(t, cs);
    if i < |cs| then Some(Touch(t, cs[i], i, falseBars)) else None
  }

  /** A poll: settle on the visible candles, else mark to market once the deadline has passed. */
  function Judge(t: Trade, cs: seq<Candle>, now: real, falseBars: int): Option<Verdict>
    requires t.risk > 0.0
  {
    var settled := Settle(t, cs, falseBars);
    if settled.Some? then settled
    else if now >= t.deadline then
      var last := if cs == [] then t.entry else cs[|cs| - 1].close;
      Some(Verdict(Timeout, (if t.isLong then last - t.entry else t.entry - last) / t.risk, now, false))
    else None
  }

  function Visible(t: Trade, m: Histories): seq<Candle> { After(LatestWindow(History(m, t.symbol)), t.openedAt) }

  // ----- The ledger and its two operations

  /** `open` lists the open trades in dictionary order; `seen` is the bounded window of signal ids. */
  datatype Ledger = Ledger(open: seq<Trade>, stats: map<string, Perf>, seen: seq<string>, seenSet: set<string>)

  const EMPTY := Ledger([], map[], [], {})

  function PerfOf(stats: map<string, Perf>, strategy: string): Perf {
    if strategy in stats then stats[strategy] else NO_PERF
  }

  /** Position of the trade with an id, or the length. */
  function Place(open: seq<Trade>, id: string): (i: nat)
    ensures i <= |open|
    ensures i < |open| ==> open[i].id == id
  {
    if open == [] then 0
    else
      var n := |open| - 1;
      var i := Place(open[..n], id);
      if i < n || open[n].id == id then i else |open|
  }

  /** Dictionary assignment: a known key keeps its place. */
  function Put(open: seq<Trade>, t: Trade): seq<Trade> {
    var i := Place(open, t.id);
    if i < |open| then open[i := t] else open + [t]
  }

  /** Dictionary removal. */
  function Without(ts: seq<Trade>, id: string): seq<Trade> {
    var i := Place(ts, id);
    if i < |ts| then ts[..i] + ts[i + 1..] else ts
  }

  function Remember(seen: seq<string>, id: string): seq<string> {
    if |seen| == SEEN_LIMIT then seen[1..] + [id] else seen + [id]
  }

  predicate Accepted(s: Settings, l: Ledger, r: Record) { s.enabled && r.id !in l.seenSet }

  function OnSignal(s: Settings, l: Ledger, r: Record): Ledger {
    if !Accepted(s, l, r) then l
    else
      var evicted := if |l.seen| == SEEN_LIMIT then {l.seen[0]} else {};
      var p := PerfOf(l.stats, r.strategy);
      var trade := Propose(r, s.maxHolding);
      var p' := p.(signals := p.signals + 1, tracked := p.tracked + if trade.Some? then 1 else 0);
      Ledger(if trade.Some? then Put(l.open, trade.value) else l.open, l.stats[r.strategy := p'],
             Remember(l.seen, r.id), l.seenSet - evicted + {r.id})
  }

  function Credit(p: Perf, t: Trade, v: Verdict, rLimit: nat): Perf {
    p.(evaluated := p.evaluated + 1,
       wins := p.wins + if v.outcome.Win? then 1 else 0,
       losses := p.losses + if v.outcome.Loss? then 1 else 0,
       timeouts := p.timeouts + if v.outcome.Timeout? then 1 else 0,
       falseSignals := p.falseSignals + if v.isFalse then 1 else 0,
       grossWin := p.grossWin + if v.r >= 0.0 then v.r else 0.0,
       grossLoss := p.grossLoss + if v.r >= 0.0 then 0.0 else -v.r,
       rValues := Retain(p.rValues, v.r, rLimit),
       last := Some(RoundTo(v.r, 10000.0)),
       holding := p.holding + Max(0.0, v.closedAt - t.openedAt))
  }

  function Resolve(s: Settings, l: Ledger, t: Trade, v: Verdict): Ledger {
    l.(open := Without(l.open, t.id),
       stats := l.stats[t.strategy := Credit(PerfOf(l.stats, t.strategy), t, v, s.rLimit)])
  }

  ghost predicate AllRisky(ts: seq<Trade>) { forall i :: 0 <= i < |ts| ==> ts[i].risk > 0.0 }

  /** The pass over the first `k` trades of the snapshot taken when the poll began. */
  function PollUpTo(s: Settings, l: Ledger, snapshot: seq<Trade>, k: nat, now: real, m: Histories): Ledger
    requires k <= |snapshot| && AllRisky(snapshot)
  {
    if k == 0 then l
    else
      var before := PollUpTo(s, l, snapshot, k - 1, now, m);
      var t := snapshot[k - 1];
      var v := Judge(t, Visible(t, m), now, s.falseBars);
      if v.Some? then Resolve(s, before, t, v.value) else before
  }

  function Poll(s: Settings, l: Ledger, now: real, m: Histories): Ledger
    requires AllRisky(l.open)
  {
    PollUpTo(s, l, l.open, |l.open|, now, m)
  }

  class PerformanceTracker {
    const settings: Settings
    var open: seq<Trade>
    var stats: map<string, Perf>
    var seen: seq<string>
    var seenSet: set<string>

    function Snapshot(): Ledger
      reads this
    {
      Ledger(open, stats, seen, seenSet)
    }

    constructor (s: Settings)
      ensures settings == s && Snapshot() == EMPTY
    {
      settings := s;
      open, stats, seen, seenSet := [], map[], [], {};
    }

    method OnSignalRecord(r: Record)
      modifies this
      ensures Snapshot() == OnSignal(settings, old(Snapshot()), r)
    {
      hide Put, Abs, PerfOf;
      if !settings.enabled || r.id in seenSet { return; }
      if |seen| == SEEN_LIMIT {
        seenSet := seenSet - {seen[0]};
        seen := seen[1..];
      }
      seen := seen + [r.id];
      seenSet := seenSet + {r.id};
      var p := PerfOf(stats, r.strategy);
      p := p.(signals := p.signals + 1);
      stats := stats[r.strategy := p];
      if r.direction.Neutral? || r.stop.None? || r.zone.None? { return; }
      var entry := (r.zone.value.0 + r.zone.value.1) / 2.0;
      var risk := Abs(entry - r.stop.value);
      if risk <= 0.0 { return; }
      stats := stats[r.strategy := p.(tracked := p.tracked + 1)];
      open := Put(open, Trade(r.id, r.strategy, r.symbol, r.direction.Long?, entry, r.stop.value, r.target, risk, r.at,
                              r.at + settings.maxHolding));
    }

    /** The candle loop for one trade: stop before target, then the deadline. */
    method JudgeTrade(t: Trade, candles: seq<Candle>, now: real) returns (v: Option<Verdict>)
      requires t.risk > 0.0
      ensures v == Judge(t, candles, now, settings.falseBars)
    {
      for i := 0 to |candles|
        invariant FirstTouch(t, candles[..i]) == i
      {
        assert candles[..i + 1][..i] == candles[..i];
        var c := candles[i];
        if HitsStop(t, c) {
          TouchIsStable(t, candles, i);
          return Some(Verdict(Loss, -1.0, c.end, i < settings.falseBars));
        }
        if HitsTarget(t, c) {
          TouchIsStable(t, candles, i);
          return Some(Verdict(Win, Abs(t.target.value - t.entry) / t.risk, c.end, false));
        }
      }
      assert candles[..|candles|] == candles;
      if now >= t.deadline {
        var last := if candles == [] then t.entry else candles[|candles| - 1].close;
        var signed := last - t.entry;
        if !t.isLong { signed := -signed; }
        return Some(Verdict(Timeout, signed / t.risk, now, false));
      }
      return None;
    }

    method EvaluateOpen(now: real, m: Histories) returns (resolved: nat)
      requires AllRisky(open)
      modifies this
      ensures Snapshot() == Poll(settings, old(Snapshot()), now, m)
      ensures resolved == |Closed(settings, old(open), now, m)|
    {
      hide Judge, Visible, Credit, Without, PerfOf;
      resolved := 0;
      var snapshot := open;
      for k := 0 to |snapshot|
        invariant Snapshot() == PollUpTo(settings, old(Snapshot()), snapshot, k, now, m)
        invariant resolved == |Closed(settings, snapshot[..k], now, m)|
      {
        assert snapshot[..k + 1][..k] == snapshot[..k];
        var t := snapshot[k];
        var v := JudgeTrade(t, Visible(t, m), now);
        if v.Some? {
          open := Without(open, t.id);
          stats := stats[t.strategy := Credit(PerfOf(stats, t.strategy), t, v.value, settings.rLimit)];
          resolved := resolved + 1;
        }
      }
      assert snapshot[..|snapshot|] == snapshot;
    }
  }

  /** A touching candle with no earlier one is the first touch of any longer list. */
  lemma {:induction false} TouchIsStable(t: Trade, cs: seq<Candle>, i: nat)
    requires i < |cs| && FirstTouch(t, cs[..i]) == i && Touches(t, cs[i])
    ensures FirstTouch(t, cs) == i
  {
    var n := |cs| - 1;
    if i < n {
      assert cs[..n][..i] == cs[..i];
      TouchIsStable(t, cs[..n], i);
    } else {
      assert cs[..n] == cs[..i];
    }
  }

  // ----- What a verdict means in prices

  /** The candle trades strictly between the trade's stop and its target. */
  predicate Inside(t: Trade, c: Candle) {
    if t.isLong then t.stop < c.low && (t.target.Some? ==> c.high < t.target.value)
    else c.high < t.stop && (t.target.Some? ==> t.target.value < c.low)
  }

  /** A loss of one risk if the candle reaches the stop, whatever else it reaches, and otherwise a win of the target's
      distance. */
  ghost predicate Booked(t: Trade, c: Candle, early: bool, v: Verdict) {
    && v.closedAt == c.end
    && if (if t.isLong then c.low <= t.stop else t.stop <= c.high)
       then v.outcome.Loss? && v.r == -1.0 && (v.isFalse <==> early)
       else v.outcome.Win? && t.target.Some? && !v.isFalse && v.r * t.risk == Abs(t.target.value - t.entry)
  }

  /** The first candle `i` that leaves the trade's levels decides, at its end. Without one, the deadline settles at the
      last close, counted from the entry in the trade's direction. */
  lemma VerdictInPrices(t: Trade, cs: seq<Candle>, now: real, falseBars: int, i: nat)
    requires t.risk > 0.0 && i <= |cs| && forall k :: 0 <= k < i ==> Inside(t, cs[k])
    requires i < |cs| ==> !Inside(t, cs[i])
    ensures var v := Judge(t, cs, now, falseBars);
      if i < |cs| then
        v.Some? && Booked(t, cs[i], i < falseBars, v.value)
      else
        (v.Some? <==> t.deadline <= now)
        && (v.Some? ==> v.value.outcome.Timeout? && v.value.closedAt == now && !v.value.isFalse
                        && var gain := if cs == [] then 0.0 else cs[|cs| - 1].close - t.entry;
                           v.value.r * t.risk == if t.isLong then gain else -gain)
  {
    FirstTouchSound(t, cs);
    assert forall k :: 0 <= k < |cs| ==> (Inside(t, cs[k]) <==> !Touches(t, cs[k]));
    assert FirstTouch(t, cs) == i;
    if i < |cs| {
      if t.target.Some? { DivMul(Abs(t.target.value - t.entry), t.risk); }
    } else {
      var last := if cs == [] then t.entry else cs[|cs| - 1].close;
      DivMul(if t.isLong then last - t.entry else t.entry - last, t.risk);
    }
  }

  lemma AfterStep(h: seq<Candle>, c: Candle, openedAt: real)
    ensures After(h + [c], openedAt) == After(h, openedAt) + if openedAt < c.end then [c] else []
  {
    assert (h + [c])[..|h|] == h;
  }

  /** The candles a trade is judged on: those of the latest 500 that end after it was opened, in order. */
  lemma {:induction false} AfterConcat(a: seq<Candle>, b: seq<Candle>, openedAt: real)
    ensures After(a + b, openedAt) == After(a, openedAt) + After(b, openedAt)
    ensures |b| == 1 ==> After(b, openedAt) == if openedAt < b[0].end then b else []
  {
    hide After;
    if b == [] {
      assert a + b == a;
      AfterNone(openedAt);
    } else {
      var n := |b| - 1;
      AfterConcat(a, b[..n], openedAt);
      AfterStep(b[..n], b[n], openedAt);
      AfterStep(a + b[..n], b[n], openedAt);
      assert b[..n] + [b[n]] == b && a + b[..n] + [b[n]] == a + b;
      if n == 0 { AfterNone(openedAt); }
    }
  }

  lemma AfterNone(openedAt: real)
    ensures After([], openedAt) == []
  {
  }

  lemma VisibleMeaning(t: Trade, m: Histories, c: Candle)
    ensures var h := History(m, t.symbol);
      c in Visible(t, m) <==> t.openedAt < c.end && exists k :: 0 <= k < |h| && k >= |h| - 500 && h[k] == c
  {
    hide After, LatestWindow, History;
    var h := History(m, t.symbol);
    AfterMembers(LatestWindow(h), t.openedAt, c);
    WindowMembers(h, c);
  }

  lemma WindowMembers(h: seq<Candle>, c: Candle)
    ensures c in LatestWindow(h) <==> exists k :: 0 <= k < |h| && k >= |h| - 500 && h[k] == c
  {
    var latest := LatestWindow(h);
    var cut := |h| - |latest|;
    assert h == h[..cut] + latest;
    if c in latest {
      var j :| 0 <= j < |latest| && latest[j] == c;
      assert h[cut + j] == c;
    }
    if k :| 0 <= k < |h| && k >= |h| - 500 && h[k] == c {
      assert latest[k - cut] == c;
    }
  }

  lemma {:induction false} AfterMembers(h: seq<Candle>, openedAt: real, c: Candle)
    ensures c in After(h, openedAt) <==> c in h && openedAt < c.end
  {
    if h != [] {
      AfterMembers(h[..|h| - 1], openedAt, c);
      assert h == h[..|h| - 1] + [h[|h| - 1]];
    }
  }

  /** A trade is proposed exactly for a direction, a stop, an entry zone and some distance from its middle to the
      stop; it enters at the middle, risks that distance and expires after the holding time. */
  lemma ProposalMeaning(r: Record, maxHolding: real)
    ensures var p := Propose(r, maxHolding);
      && (p.Some? <==> !r.direction.Neutral? && r.stop.Some? && r.zone.Some?
                       && r.zone.value.0 + r.zone.value.1 != 2.0 * r.stop.value)
      && (p.Some? ==> var t := p.value;
            && t.id == r.id && t.strategy == r.strategy && t.symbol == r.symbol && t.target == r.target
            && Some(t.stop) == r.stop && (t.isLong <==> r.direction == Long) && (!t.isLong <==> r.direction == Short)
            && 2.0 * t.entry == r.zone.value.0 + r.zone.value.1 && t.risk > 0.0
            && (t.risk == t.entry - t.stop || t.risk == t.stop - t.entry)
            && t.openedAt == r.at && t.deadline - r.at == maxHolding)
  {
  }

  // ----- Long and short trades are judged alike

  /** The opposite trade on reflected prices. */
  function Opposite(t: Trade): Trade {
    t.(isLong := !t.isLong, entry := -t.entry, stop := -t.stop,
       target := if t.target.Some? then Some(-t.target.value) else None)
  }

  lemma {:induction false} FirstTouchReflected(t: Trade, cs: seq<Candle>)
    ensures FirstTouch(Opposite(t), ReflectAll(cs)) == FirstTouch(t, cs)
  {
    if cs != [] {
      var n := |cs| - 1;
      FirstTouchReflected(t, cs[..n]);
      assert ReflectAll(cs)[..n] == ReflectAll(cs[..n]);
    }
  }

  /** Turning the market upside down and every trade around changes no verdict. */
  lemma LongShortSymmetry(t: Trade, cs: seq<Candle>, now: real, falseBars: int)
    requires t.risk > 0.0
    ensures Judge(Opposite(t), ReflectAll(cs), now, falseBars) == Judge(t, cs, now, falseBars)
  {
    hide FirstTouch;
    FirstTouchReflected(t, cs);
    FirstTouchSound(t, cs);
    FirstTouchSound(Opposite(t), ReflectAll(cs));
  }

  // ----- Conservation along every run

  datatype Step = Signal(record: Record) | Evaluate(now: real, histories: Histories)

  /** The trades a poll closes with their verdicts, in order, and those it leaves open. */
  function Closed(s: Settings, ts: seq<Trade>, now: real, m: Histories): seq<Closing>
    requires AllRisky(ts)
  {
    if ts == [] then []
    else
      var n := |ts| - 1;
      var v := Judge(ts[n], Visible(ts[n], m), now, s.falseBars);
      Closed(s, ts[..n], now, m) + if v.Some? then [(ts[n], v.value)] else []
  }

  function Undecided(s: Settings, ts: seq<Trade>, now: real, m: Histories): seq<Trade>
    requires AllRisky(ts)
  {
    if ts == [] then []
    else
      var n := |ts| - 1;
      Undecided(s, ts[..n], now, m)
      + if Judge(ts[n], Visible(ts[n], m), now, s.falseBars).Some? then [] else [ts[n]]
  }

  /** Closings so far, and trades overwritten by a later signal with the same id. */
  datatype Trace = Trace(closings: seq<Closing>, replaced: seq<Trade>)

  ghost predicate Runnable(l: Ledger, step: Step) { step.Evaluate? ==> AllRisky(l.open) }

  function Next(s: Settings, l: Ledger, step: Step): Ledger
    requires Runnable(l, step)
  {
    match step
    case Signal(r) => OnSignal(s, l, r)
    case Evaluate(now, m) => Poll(s, l, now, m)
  }

  function Overwritten(s: Settings, l: Ledger, r: Record): seq<Trade> {
    var i := Place(l.open, r.id);
    if Accepted(s, l, r) && Propose(r, s.maxHolding).Some? && i < |l.open| then [l.open[i]] else []
  }

  function Noted(s: Settings, l: Ledger, step: Step, tr: Trace): Trace
    requires Runnable(l, step)
  {
    match step
    case Signal(r) => tr.(replaced := tr.replaced + Overwritten(s, l, r))
    case Evaluate(now, m) => tr.(closings := tr.closings + Closed(s, l.open, now, m))
  }

  function CountOf(ts: seq<Trade>, strategy: string): nat {
    if ts == [] then 0
    else CountOf(ts[..|ts| - 1], strategy) + if ts[|ts| - 1].strategy == strategy then 1 else 0
  }

  function ResultsOf(closings: seq<Closing>, strategy: string): seq<real> {
    if closings == [] then []
    else
      var n := |closings| - 1;
      ResultsOf(closings[..n], strategy) + if closings[n].0.strategy == strategy then [closings[n].1.r] else []
  }

  /** The counters a closing moves, as one commutative sum. */
  datatype Tally = Tally(evaluated: nat, wins: nat, losses: nat, timeouts: nat, falseSignals: nat,
                         grossWin: real, grossLoss: real, holding: real)

  function Plus(a: Tally, b: Tally): Tally {
    Tally(a.evaluated + b.evaluated, a.wins + b.wins, a.losses + b.losses, a.timeouts + b.timeouts,
          a.falseSignals + b.falseSignals, a.grossWin + b.grossWin, a.grossLoss + b.grossLoss, a.holding + b.holding)
  }

  const ZERO := Tally(0, 0, 0, 0, 0, 0.0, 0.0, 0.0)

  function TallyIn(p: Perf): Tally {
    Tally(p.evaluated, p.wins, p.losses, p.timeouts, p.falseSignals, p.grossWin, p.grossLoss, p.holding)
  }

  /** What one closing is worth to a strategy. */
  function Worth(c: Closing, strategy: string): Tally {
    var (t, v) := c;
    if t.strategy != strategy then ZERO
    else Tally(1, if v.outcome.Win? then 1 else 0, if v.outcome.Loss? then 1 else 0,
               if v.outcome.Timeout? then 1 else 0, if v.isFalse then 1 else 0,
               Max(v.r, 0.0), Max(-v.r, 0.0), Max(0.0, v.closedAt - t.openedAt))
  }

  function TallyOf(closings: seq<Closing>, strategy: string): Tally {
    if closings == [] then ZERO
    else Plus(TallyOf(closings[..|closings| - 1], strategy), Worth(closings[|closings| - 1], strategy))
  }

  /** The books of one strategy. */
  ghost predicate Balanced(s: Settings, l: Ledger, tr: Trace, strategy: string) {
    var p, rs := PerfOf(l.stats, strategy), ResultsOf(tr.closings, strategy);
    && p.tracked == p.evaluated + CountOf(l.open, strategy) + CountOf(tr.replaced, strategy)
    && p.tracked <= p.signals
    && TallyIn(p) == TallyOf(tr.closings, strategy)
    && p.evaluated == p.wins + p.losses + p.timeouts == |rs|
    && p.falseSignals <= p.losses && p.losses as real <= p.grossLoss && p.grossWin >= 0.0
    && p.grossWin - p.grossLoss == Sum(rs)
    && p.rValues == Latest(rs, s.rLimit)
    && p.last == (if rs == [] then None else Some(RoundTo(rs[|rs| - 1], 10000.0)))
  }

  ghost predicate DistinctIds(ts: seq<Trade>) { forall i, j :: 0 <= i < j < |ts| ==> ts[i].id != ts[j].id }

  /** The dedupe window and its set agree, and the open trades form a dictionary. */
  ghost predicate WellFormed(l: Ledger) {
    && l.seenSet == (set id | id in l.seen) && |l.seen| <= SEEN_LIMIT
    && (forall i, j :: 0 <= i < j < |l.seen| ==> l.seen[i] != l.seen[j])
    && DistinctIds(l.open) && AllRisky(l.open)
  }

  lemma {:induction false} PlaceFirst(open: seq<Trade>, id: string)
    ensures forall k :: 0 <= k < Place(open, id) ==> open[k].id != id
  {
    if open != [] { PlaceFirst(open[..|open| - 1], id); }
  }

  lemma PutShape(open: seq<Trade>, t: Trade)
    requires DistinctIds(open) && AllRisky(open) && t.risk > 0.0
    ensures DistinctIds(Put(open, t)) && AllRisky(Put(open, t))
  {
    PlaceFirst(open, t.id);
  }

  lemma {:induction false} CountUpdate(ts: seq<Trade>, i: nat, t: Trade, strategy: string)
    requires i < |ts|
    ensures CountOf(ts[i := t], strategy) + (if ts[i].strategy == strategy then 1 else 0)
            == CountOf(ts, strategy) + (if t.strategy == strategy then 1 else 0)
  {
    var n := |ts| - 1;
    if i < n {
      CountUpdate(ts[..n], i, t, strategy);
      assert ts[i := t][..n] == ts[..n][i := t];
    } else {
      assert ts[i := t][..n] == ts[..n];
    }
  }

  lemma {:induction false} CountConcat(a: seq<Trade>, b: seq<Trade>, strategy: string)
    ensures CountOf(a + b, strategy) == CountOf(a, strategy) + CountOf(b, strategy)
  {
    if b == [] {
      assert a + b == a;
    } else {
      var n := |b| - 1;
      CountConcat(a, b[..n], strategy);
      assert (a + b)[..|a + b| - 1] == a + b[..n];
    }
  }

  lemma CountOne(t: Trade, strategy: string)
    ensures CountOf([t], strategy) == if t.strategy == strategy then 1 else 0
  {
    assert [t][..0] == [];
  }

  /** Opening: one more trade for the strategy, unless it overwrites an open one. */
  lemma PutCounts(open: seq<Trade>, t: Trade, strategy: string)
    ensures var i := Place(open, t.id);
      CountOf(Put(open, t), strategy) + CountOf(if i < |open| then [open[i]] else [], strategy)
      == CountOf(open, strategy) + if t.strategy == strategy then 1 else 0
  {
    var i := Place(open, t.id);
    if i < |open| {
      CountUpdate(open, i, t, strategy);
      CountOne(open[i], strategy);
    } else {
      CountConcat(open, [t], strategy);
      CountOne(t, strategy);
    }
  }

  /** Removing one trade from between two stretches. */
  lemma WithoutMiddle(a: seq<Trade>, t: Trade, b: seq<Trade>)
    requires DistinctIds(a + [t] + b) && AllRisky(a + [t] + b)
    ensures Without(a + [t] + b, t.id) == a + b && DistinctIds(a + b) && AllRisky(a + b)
  {
    var all := a + [t] + b;
    PlaceFirst(all, t.id);
    assert all[|a|] == t;
    PlaceFinds(all, |a|);
    assert Place(all, t.id) == |a|;
    var n := |a|;
    assert forall i :: 0 <= i < |a + b| ==> (a + b)[i] == all[if i < n then i else i + 1];
  }

  lemma {:induction false} PlaceFinds(ts: seq<Trade>, k: nat)
    requires k < |ts|
    ensures Place(ts, ts[k].id) <= k
  {
    var n := |ts| - 1;
    if k < n { PlaceFinds(ts[..n], k); }
  }

  lemma JudgeShape(t: Trade, cs: seq<Candle>, now: real, falseBars: int)
    requires t.risk > 0.0
    ensures var v := Judge(t, cs, now, falseBars); v.Some? ==> Sane(v.value)
  {
    FirstTouchSound(t, cs);
    var i := FirstTouch(t, cs);
    if i < |cs| && !HitsStop(t, cs[i]) { DivMonotone(0.0, Abs(t.target.value - t.entry), t.risk); }
  }

  ghost predicate Sane(v: Verdict) {
    (v.outcome.Loss? ==> v.r == -1.0) && (v.outcome.Win? ==> v.r >= 0.0) && (v.isFalse ==> v.outcome.Loss?)
  }

  /** A poll leaves exactly the undecided trades open, in order. */
  lemma {:induction false} PollShape(s: Settings, l: Ledger, k: nat, now: real, m: Histories)
    requires AllRisky(l.open) && DistinctIds(l.open) && k <= |l.open|
    ensures var l' := PollUpTo(s, l, l.open, k, now, m);
      && l'.open == Undecided(s, l.open[..k], now, m) + l.open[k..] && AllRisky(l'.open)
      && DistinctIds(l'.open) && l'.seen == l.seen && l'.seenSet == l.seenSet
  {
    hide Judge, Visible, Without, Credit, DistinctIds, AllRisky;
    if k > 0 {
      PollShape(s, l, k - 1, now, m);
      var t := l.open[k - 1];
      RiskyParts(l.open, k);
      var kept := Undecided(s, l.open[..k - 1], now, m);
      assert l.open[..k][..k - 1] == l.open[..k - 1];
      assert l.open[k - 1..] == [t] + l.open[k..];
      assert PollUpTo(s, l, l.open, k - 1, now, m).open == kept + [t] + l.open[k..];
      WithoutMiddle(kept, t, l.open[k..]);
      assert kept + [t] + l.open[k..] == kept + l.open[k - 1..];
      assert Undecided(s, l.open[..k], now, m)
          == kept + if Judge(t, Visible(t, m), now, s.falseBars).Some? then [] else [t];
    }
  }

  lemma RiskyParts(ts: seq<Trade>, k: nat)
    requires 0 < k <= |ts| && AllRisky(ts)
    ensures AllRisky(ts[..k]) && AllRisky(ts[..k - 1]) && ts[k - 1].risk > 0.0
  {
  }

  lemma CreditTally(p: Perf, t: Trade, v: Verdict, rLimit: nat, closings: seq<Closing>)
    requires TallyIn(p) == TallyOf(closings, t.strategy)
    ensures TallyIn(Credit(p, t, v, rLimit)) == TallyOf(closings + [(t, v)], t.strategy)
  {
    assert (closings + [(t, v)])[..|closings|] == closings;
  }

  lemma OtherTally(closings: seq<Closing>, c: Closing, strategy: string)
    requires c.0.strategy != strategy
    ensures TallyOf(closings + [c], strategy) == TallyOf(closings, strategy)
  {
    hide Worth, Plus;
    assert (closings + [c])[..|closings|] == closings;
    PlusZero(TallyOf(closings, strategy), c, strategy);
  }

  lemma PlusZero(a: Tally, c: Closing, strategy: string)
    requires c.0.strategy != strategy
    ensures Plus(a, Worth(c, strategy)) == a
  {
  }

  /** Closing one trade keeps every strategy's books. */
  lemma ResolveBalanced(s: Settings, l: Ledger, tr: Trace, a: seq<Trade>, t: Trade, b: seq<Trade>, v: Verdict,
                        strategy: string)
    requires l.open == a + [t] + b && DistinctIds(l.open) && AllRisky(l.open) && Sane(v)
    requires Balanced(s, l, tr, strategy)
    ensures Balanced(s, Resolve(s, l, t, v), tr.(closings := tr.closings + [(t, v)]), strategy)
  {
    hide Latest, Retain, Without, DistinctIds, AllRisky, Sum, TallyOf, TallyIn, Plus, Worth;
    WithoutMiddle(a, t, b);
    CountConcat(a + [t], b, strategy);
    CountConcat(a, [t], strategy);
    CountConcat(a, b, strategy);
    CountOne(t, strategy);
    var all := tr.closings + [(t, v)];
    assert all[..|tr.closings|] == tr.closings;
    var rs := ResultsOf(tr.closings, strategy);
    if t.strategy == strategy {
      RetainLatest(rs, v.r, s.rLimit);
      SumConcat(rs, [v.r]);
      SumOne(v.r);
      CreditTally(PerfOf(l.stats, strategy), t, v, s.rLimit, tr.closings);
    } else {
      OtherTally(tr.closings, (t, v), strategy);
      assert ResultsOf(all, strategy) == rs;
    }
  }

  lemma PollStep(s: Settings, l: Ledger, k: nat, now: real, m: Histories)
    requires AllRisky(l.open) && 0 < k <= |l.open| && l.open[k - 1].risk > 0.0
    ensures AllRisky(l.open[..k]) && AllRisky(l.open[..k - 1])
    ensures var t := l.open[k - 1];
      var before, v := PollUpTo(s, l, l.open, k - 1, now, m), Judge(t, Visible(t, m), now, s.falseBars);
      && PollUpTo(s, l, l.open, k, now, m) == (if v.Some? then Resolve(s, before, t, v.value) else before)
      && Closed(s, l.open[..k], now, m)
         == Closed(s, l.open[..k - 1], now, m) + if v.Some? then [(t, v.value)] else []
  {
    hide Judge, Visible, Resolve;
    assert l.open[..k][..k - 1] == l.open[..k - 1];
  }

  /** The next trade of the snapshot is still open. */
  lemma PollFront(s: Settings, l: Ledger, k: nat, now: real, m: Histories) returns (kept: seq<Trade>)
    requires AllRisky(l.open) && DistinctIds(l.open) && 0 < k <= |l.open|
    ensures var before := PollUpTo(s, l, l.open, k - 1, now, m);
      before.open == kept + [l.open[k - 1]] + l.open[k..] && DistinctIds(before.open) && AllRisky(before.open)
  {
    hide PollUpTo, Undecided;
    PollShape(s, l, k - 1, now, m);
    RiskyParts(l.open, k);
    kept := Undecided(s, l.open[..k - 1], now, m);
    assert l.open[k - 1..] == [l.open[k - 1]] + l.open[k..];
  }

  /** A whole pass keeps every strategy's books. */
  lemma {:induction false} PollBalanced(s: Settings, l: Ledger, tr: Trace, k: nat, now: real, m: Histories,
                                        strategy: string)
    requires AllRisky(l.open) && DistinctIds(l.open) && k <= |l.open| && Balanced(s, l, tr, strategy)
    ensures AllRisky(l.open[..k])
    ensures Balanced(s, PollUpTo(s, l, l.open, k, now, m),
                     tr.(closings := tr.closings + Closed(s, l.open[..k], now, m)), strategy)
  {
    hide Balanced, Judge, Visible, DistinctIds, AllRisky, Resolve, PollUpTo, Closed;
    if k == 0 {
      PollNothing(s, l, now, m);
      assert tr.closings + [] == tr.closings;
    } else {
      PollBalanced(s, l, tr, k - 1, now, m, strategy);
      RiskyParts(l.open, k);
      PollStep(s, l, k, now, m);
      var t := l.open[k - 1];
      var closed := Closed(s, l.open[..k - 1], now, m);
      var tr' := tr.(closings := tr.closings + closed);
      var v := Judge(t, Visible(t, m), now, s.falseBars);
      if v.Some? {
        JudgeShape(t, Visible(t, m), now, s.falseBars);
        var kept := PollFront(s, l, k, now, m);
        ResolveBalanced(s, PollUpTo(s, l, l.open, k - 1, now, m), tr', kept, t, l.open[k..], v.value, strategy);
        assert tr'.closings + [(t, v.value)] == tr.closings + (closed + [(t, v.value)]);
      } else {
        assert closed + [] == closed;
      }
    }
  }

  lemma PollNothing(s: Settings, l: Ledger, now: real, m: Histories)
    requires AllRisky(l.open)
    ensures AllRisky(l.open[..0]) && PollUpTo(s, l, l.open, 0, now, m) == l && Closed(s, l.open[..0], now, m) == []
  {
  }

  /** A signal moves two counters of its own strategy and the open trades accordingly. */
  lemma SignalEffect(s: Settings, l: Ledger, r: Record, strategy: string)
    requires WellFormed(l)
    ensures var l', p := OnSignal(s, l, r), PerfOf(l.stats, strategy);
      var q := PerfOf(l'.stats, strategy);
      && q == p.(signals := q.signals, tracked := q.tracked)
      && 0 <= q.tracked - p.tracked <= q.signals - p.signals
      && q.tracked - p.tracked
         == CountOf(l'.open, strategy) + CountOf(Overwritten(s, l, r), strategy) - CountOf(l.open, strategy)
  {
    hide WellFormed, Propose, Put, Place, CountOf;
    var trade := Propose(r, s.maxHolding);
    if Accepted(s, l, r) && trade.Some? {
      ProposedStrategy(r, s.maxHolding);
      PutCounts(l.open, trade.value, strategy);
    } else {
      CountNone(strategy);
    }
  }

  lemma CountNone(strategy: string)
    ensures CountOf([], strategy) == 0
  {
  }

  lemma SignalKeeps(s: Settings, l: Ledger, r: Record, tr: Trace, strategy: string)
    requires WellFormed(l) && Balanced(s, l, tr, strategy)
    ensures Balanced(s, OnSignal(s, l, r), Noted(s, l, Signal(r), tr), strategy)
  {
    hide WellFormed, OnSignal, Overwritten, CountOf, PerfOf, ResultsOf, TallyOf, Sum, Latest;
    SignalEffect(s, l, r, strategy);
    CountConcat(tr.replaced, Overwritten(s, l, r), strategy);
  }

  lemma ProposedStrategy(r: Record, maxHolding: real)
    requires Propose(r, maxHolding).Some?
    ensures Propose(r, maxHolding).value.strategy == r.strategy && Propose(r, maxHolding).value.id == r.id
  {
  }

  lemma SignalWellFormed(s: Settings, l: Ledger, r: Record)
    requires WellFormed(l)
    ensures WellFormed(OnSignal(s, l, r))
  {
    if Accepted(s, l, r) {
      var trade := Propose(r, s.maxHolding);
      if trade.Some? { PutShape(l.open, trade.value); }
      var seen' := Remember(l.seen, r.id);
      if |l.seen| == SEEN_LIMIT {
        assert l.seen == [l.seen[0]] + l.seen[1..];
        assert l.seen[0] !in l.seen[1..];
      }
      assert OnSignal(s, l, r).seenSet == (set id | id in seen');
    }
  }

  function Run(s: Settings, steps: seq<Step>): (r: (Ledger, Trace))
    ensures WellFormed(r.0)
  {
    if steps == [] then (EMPTY, Trace([], []))
    else
      var (l, tr) := Run(s, steps[..|steps| - 1]);
      var step := steps[|steps| - 1];
      NextWellFormed(s, l, step);
      (Next(s, l, step), Noted(s, l, step, tr))
  }

  lemma NextWellFormed(s: Settings, l: Ledger, step: Step)
    requires WellFormed(l)
    ensures Runnable(l, step) && WellFormed(Next(s, l, step))
  {
    match step
    case Signal(r) => SignalWellFormed(s, l, r);
    case Evaluate(now, m) => PollShape(s, l, |l.open|, now, m);
  }

  /** Every reachable ledger balances for every strategy. */
  lemma {:induction false} BooksBalance(s: Settings, steps: seq<Step>, strategy: string)
    ensures Balanced(s, Run(s, steps).0, Run(s, steps).1, strategy)
  {
    hide Balanced, Run, OnSignal, Overwritten, PollUpTo, Closed;
    if steps != [] {
      var before := steps[..|steps| - 1];
      BooksBalance(s, before, strategy);
      RunLast(s, steps);
      var (l, tr) := Run(s, before);
      assert WellFormed(l);
      match steps[|steps| - 1]
      case Signal(r) => SignalKeeps(s, l, r, tr, strategy);
      case Evaluate(now, m) =>
        PollBalanced(s, l, tr, |l.open|, now, m, strategy);
        assert l.open[..|l.open|] == l.open;
    } else {
      RunNone(s);
      EmptyBalanced(s, strategy);
    }
  }

  lemma EmptyBalanced(s: Settings, strategy: string)
    ensures Balanced(s, EMPTY, Trace([], []), strategy)
  {
  }

  /** Tracked trades are all evaluated or open, for every strategy, exactly when no accepted signal
      reused the id of a trade still open. */
  lemma TrackedConserved(s: Settings, steps: seq<Step>)
    ensures var (l, tr) := Run(s, steps);
      (forall strategy :: PerfOf(l.stats, strategy).tracked
                          == PerfOf(l.stats, strategy).evaluated + CountOf(l.open, strategy))
      <==> tr.replaced == []
  {
    hide Balanced;
    var (l, tr) := Run(s, steps);
    forall strategy ensures PerfOf(l.stats, strategy).tracked == PerfOf(l.stats, strategy).evaluated
      + CountOf(l.open, strategy) + CountOf(tr.replaced, strategy)
    {
      TrackedSplit(s, steps, strategy);
    }
    if tr.replaced != [] {
      var last := tr.replaced[|tr.replaced| - 1].strategy;
      assert CountOf(tr.replaced, last) > 0;
      assert PerfOf(l.stats, last).tracked != PerfOf(l.stats, last).evaluated + CountOf(l.open, last);
    }
  }

  lemma TrackedSplit(s: Settings, steps: seq<Step>, strategy: string)
    ensures var (l, tr) := Run(s, steps);
      PerfOf(l.stats, strategy).tracked == PerfOf(l.stats, strategy).evaluated
      + CountOf(l.open, strategy) + CountOf(tr.replaced, strategy)
  {
    BooksBalance(s, steps, strategy);
  }

  // ----- What the counters count

  lemma {:induction false} UndecidedMeaning(s: Settings, ts: seq<Trade>, now: real, m: Histories, t: Trade)
    requires AllRisky(ts) && t.risk > 0.0
    ensures t in Undecided(s, ts, now, m) <==> t in ts && Judge(t, Visible(t, m), now, s.falseBars).None?
    ensures forall v :: (t, v) in Closed(s, ts, now, m)
                        <==> t in ts && Judge(t, Visible(t, m), now, s.falseBars) == Some(v)
  {
    hide Judge, Visible;
    if ts != [] {
      UndecidedMeaning(s, ts[..|ts| - 1], now, m, t);
      assert ts == ts[..|ts| - 1] + [ts[|ts| - 1]];
    }
  }

  /** A poll keeps exactly the open trades that get no verdict on their candles. */
  lemma PollDecides(s: Settings, l: Ledger, now: real, m: Histories, t: Trade)
    requires WellFormed(l) && t.risk > 0.0
    ensures t in Poll(s, l, now, m).open <==> t in l.open && Judge(t, Visible(t, m), now, s.falseBars).None?
  {
    hide Judge, Visible;
    PollShape(s, l, |l.open|, now, m);
    assert l.open[..|l.open|] == l.open;
    UndecidedMeaning(s, l.open, now, m, t);
  }

  /** What one closing adds to a sum over a strategy's closings. */
  function Amounts(closings: seq<Closing>, strategy: string, f: Closing -> real): seq<real> {
    seq(|closings|, k requires 0 <= k < |closings| =>
      if closings[k].0.strategy == strategy then f(closings[k]) else 0.0)
  }

  lemma AmountsAppend(closings: seq<Closing>, c: Closing, strategy: string, f: Closing -> real)
    ensures Sum(Amounts(closings + [c], strategy, f))
            == Sum(Amounts(closings, strategy, f)) + if c.0.strategy == strategy then f(c) else 0.0
  {
    var all := Amounts(closings + [c], strategy, f);
    assert all[..|closings|] == Amounts(closings, strategy, f);
  }

  /** Counters count closings and totals add up their results, strategy by strategy. */
  ghost predicate Counts(y: Tally, closings: seq<Closing>, strategy: string) {
    && y.evaluated == |Which(closings, (c: Closing) => c.0.strategy == strategy)|
    && y.wins == |Which(closings, (c: Closing) => c.0.strategy == strategy && c.1.outcome.Win?)|
    && y.losses == |Which(closings, (c: Closing) => c.0.strategy == strategy && c.1.outcome.Loss?)|
    && y.timeouts == |Which(closings, (c: Closing) => c.0.strategy == strategy && c.1.outcome.Timeout?)|
    && y.falseSignals == |Which(closings, (c: Closing) => c.0.strategy == strategy && c.1.isFalse)|
    && y.grossWin == Sum(Amounts(closings, strategy, (c: Closing) => if c.1.r > 0.0 then c.1.r else 0.0))
    && y.grossLoss == Sum(Amounts(closings, strategy, (c: Closing) => if c.1.r < 0.0 then -c.1.r else 0.0))
    && y.holding == Sum(Amounts(closings, strategy, (c: Closing) => Max(0.0, c.1.closedAt - c.0.openedAt)))
  }

  lemma CountsAppend(y: Tally, closings: seq<Closing>, c: Closing, strategy: string)
    requires Counts(y, closings, strategy)
    ensures Counts(Plus(y, Worth(c, strategy)), closings + [c], strategy)
  {
    hide Which, Amounts, Sum;
    WhichAppend(closings, c, (c: Closing) => c.0.strategy == strategy);
    WhichAppend(closings, c, (c: Closing) => c.0.strategy == strategy && c.1.outcome.Win?);
    WhichAppend(closings, c, (c: Closing) => c.0.strategy == strategy && c.1.outcome.Loss?);
    WhichAppend(closings, c, (c: Closing) => c.0.strategy == strategy && c.1.outcome.Timeout?);
    WhichAppend(closings, c, (c: Closing) => c.0.strategy == strategy && c.1.isFalse);
    AmountsAppend(closings, c, strategy, (c: Closing) => if c.1.r > 0.0 then c.1.r else 0.0);
    AmountsAppend(closings, c, strategy, (c: Closing) => if c.1.r < 0.0 then -c.1.r else 0.0);
    AmountsAppend(closings, c, strategy, (c: Closing) => Max(0.0, c.1.closedAt - c.0.openedAt));
  }

  lemma {:induction false} TallyCounts(closings: seq<Closing>, strategy: string)
    ensures Counts(TallyOf(closings, strategy), closings, strategy)
  {
    if closings == [] {
      CountsNothing(strategy);
    } else {
      hide Counts, Plus, Worth;
      var n := |closings| - 1;
      TallyCounts(closings[..n], strategy);
      CountsAppend(TallyOf(closings[..n], strategy), closings[..n], closings[n], strategy);
      assert closings == closings[..n] + [closings[n]];
    }
  }

  lemma CountsNothing(strategy: string)
    ensures Counts(ZERO, [], strategy)
  {
  }

  /** In every reachable ledger each counter is the number of closings it is about, and each total their sum. */
  lemma CountersMeaning(s: Settings, steps: seq<Step>, strategy: string)
    ensures Counts(TallyIn(PerfOf(Run(s, steps).0.stats, strategy)), Run(s, steps).1.closings, strategy)
  {
    hide Counts, TallyIn, TallyOf;
    BooksTally(s, steps, strategy);
    TallyCounts(Run(s, steps).1.closings, strategy);
  }

  /** The signals a run accepted: enabled, and the id not among those remembered. */
  function AcceptedRecords(s: Settings, steps: seq<Step>): seq<Record> {
    if steps == [] then []
    else
      var n := |steps| - 1;
      AcceptedRecords(s, steps[..n])
      + if steps[n].Signal? && s.enabled && steps[n].record.id !in Run(s, steps[..n]).0.seen
        then [steps[n].record] else []
  }

  function IdsOf(rs: seq<Record>): seq<string> { seq(|rs|, k requires 0 <= k < |rs| => rs[k].id) }

  /** The ids remembered are the latest 20,000 accepted, signals are counted when accepted, and trades when they
      also have a proposal. */
  ghost predicate Admitted(s: Settings, l: Ledger, rs: seq<Record>, strategy: string) {
    var p := PerfOf(l.stats, strategy);
    && l.seen == Latest(IdsOf(rs), SEEN_LIMIT)
    && p.signals == |Which(rs, (r: Record) => r.strategy == strategy)|
    && p.tracked == |Which(rs, (r: Record) => r.strategy == strategy && Propose(r, s.maxHolding).Some?)|
  }

  lemma AdmittedSignal(s: Settings, l: Ledger, rs: seq<Record>, r: Record, strategy: string)
    requires WellFormed(l) && Admitted(s, l, rs, strategy)
    ensures Admitted(s, OnSignal(s, l, r), if s.enabled && r.id !in l.seen then rs + [r] else rs, strategy)
  {
    hide Which, Propose, Put;
    if s.enabled && r.id !in l.seen {
      WhichAppend(rs, r, (r: Record) => r.strategy == strategy);
      WhichAppend(rs, r, (r: Record) => r.strategy == strategy && Propose(r, s.maxHolding).Some?);
      RetainLatest(IdsOf(rs), r.id, SEEN_LIMIT);
      assert IdsOf(rs + [r]) == IdsOf(rs) + [r.id];
      assert Remember(l.seen, r.id) == Retain(l.seen, r.id, SEEN_LIMIT);
    }
  }

  lemma {:induction false} RunAdmits(s: Settings, steps: seq<Step>, strategy: string)
    ensures Admitted(s, Run(s, steps).0, AcceptedRecords(s, steps), strategy)
  {
    hide Admitted, WellFormed;
    if steps == [] {
      AdmittedNothing(s, strategy);
    } else {
      var n := |steps| - 1;
      var l := Run(s, steps[..n]).0;
      RunAdmits(s, steps[..n], strategy);
      match steps[n]
      case Signal(r) =>
        AdmittedSignal(s, l, AcceptedRecords(s, steps[..n]), r, strategy);
        assert AcceptedRecords(s, steps[..n]) + [] == AcceptedRecords(s, steps[..n]);
      case Evaluate(now, m) =>
        NextWellFormed(s, l, steps[n]);
        AdmittedPoll(s, l, AcceptedRecords(s, steps[..n]), now, m, strategy);
        assert AcceptedRecords(s, steps) == AcceptedRecords(s, steps[..n]);
    }
  }

  lemma AdmittedNothing(s: Settings, strategy: string)
    ensures Admitted(s, EMPTY, [], strategy)
  {
  }

  lemma AdmittedPoll(s: Settings, l: Ledger, rs: seq<Record>, now: real, m: Histories, strategy: string)
    requires WellFormed(l) && Admitted(s, l, rs, strategy)
    ensures Admitted(s, Poll(s, l, now, m), rs, strategy)
  {
    hide PollUpTo, Which;
    PollKeepsEntries(s, l, |l.open|, now, m, strategy);
    PollShape(s, l, |l.open|, now, m);
  }

  /** A signal whose id is among the latest 20,000 accepted changes nothing. */
  lemma RepeatIgnored(s: Settings, steps: seq<Step>, r: Record, k: nat)
    requires k < |AcceptedRecords(s, steps)| && k >= |AcceptedRecords(s, steps)| - 20000
    requires AcceptedRecords(s, steps)[k].id == r.id
    ensures Run(s, steps + [Signal(r)]).0 == Run(s, steps).0
  {
    hide Run, AcceptedRecords, Admitted, WellFormed, Propose;
    var rs, l := AcceptedRecords(s, steps), Run(s, steps).0;
    RunAdmits(s, steps, r.strategy);
    AmongRemembered(s, l, rs, r.strategy, k);
    assert WellFormed(l);
    SeenIsSet(l, r.id);
    RunLast(s, steps + [Signal(r)]);
    assert (steps + [Signal(r)])[..|steps|] == steps;
  }

  lemma AmongRemembered(s: Settings, l: Ledger, rs: seq<Record>, strategy: string, k: nat)
    requires Admitted(s, l, rs, strategy) && k < |rs| && k >= |rs| - 20000
    ensures rs[k].id in l.seen
  {
    hide Which;
    var cut := |rs| - |l.seen|;
    assert IdsOf(rs) == IdsOf(rs)[..cut] + l.seen;
    assert l.seen[k - cut] == IdsOf(rs)[k];
  }

  lemma SeenIsSet(l: Ledger, id: string)
    requires WellFormed(l)
    ensures id in l.seen <==> id in l.seenSet
  {
  }

  // ----- An id can come back while its trade is open

  function FloodId(i: nat): string { seq(i, (k: nat) => 'n') }

  /** A long signal first, then neutral ones, each with an id of its own. */
  function FloodRecord(i: nat): Record {
    Record(FloodId(i), "s", "x", if i == 0 then Long else Neutral, Some((1.0, 1.0)), Some(0.0), None, 0.0)
  }

  function Flood(n: nat): seq<Step> { seq(n, (i: nat) => Signal(FloodRecord(i))) }

  ghost predicate Flooded(l: Ledger, n: nat) {
    && |l.open| == 1 && l.open[0].id == FloodId(0) && l.open[0].strategy == "s"
    && |l.seen| == n && forall i :: 0 <= i < n ==> l.seen[i] == FloodId(i)
  }

  lemma FloodAdds(s: Settings, l: Ledger, n: nat)
    requires s.enabled && WellFormed(l) && 1 <= n < SEEN_LIMIT && Flooded(l, n)
    ensures Flooded(OnSignal(s, l, FloodRecord(n)), n + 1) && Overwritten(s, l, FloodRecord(n)) == []
  {
    hide FloodId;
    FloodIds(n);
    assert FloodId(n) !in l.seenSet;
  }

  lemma {:induction false} FloodState(s: Settings, n: nat)
    requires s.enabled && 1 <= n <= SEEN_LIMIT
    ensures Flooded(Run(s, Flood(n)).0, n) && Run(s, Flood(n)).1.replaced == []
  {
    hide Run, Flooded, OnSignal, Overwritten;
    RunLast(s, Flood(n));
    assert Flood(n)[..n - 1] == Flood(n - 1);
    if n > 1 {
      FloodState(s, n - 1);
      FloodAdds(s, Run(s, Flood(n - 1)).0, n - 1);
    } else {
      RunNone(s);
      FloodStarts(s);
    }
  }

  lemma FloodStarts(s: Settings)
    requires s.enabled
    ensures Flooded(OnSignal(s, EMPTY, FloodRecord(0)), 1) && Overwritten(s, EMPTY, FloodRecord(0)) == []
  {
  }

  lemma RunNone(s: Settings)
    ensures Run(s, []) == (EMPTY, Trace([], []))
  {
  }

  lemma FloodIds(n: nat)
    ensures forall i :: 0 <= i < n ==> |FloodId(i)| < |FloodId(n)|
  {
  }

  /** One signal past the window, the first id is forgotten. */
  lemma FloodForgets(s: Settings)
    requires s.enabled
    ensures var (l, tr) := Run(s, Flood(SEEN_LIMIT + 1));
      && |l.open| == 1 && l.open[0].id == FloodId(0) && l.open[0].strategy == "s"
      && FloodId(0) !in l.seenSet && tr.replaced == []
  {
    hide Run;
    var n := SEEN_LIMIT;
    FloodState(s, n);
    FloodIds(n);
    var (l, tr) := Run(s, Flood(n));
    assert Flood(n + 1)[..n] == Flood(n);
    RunLast(s, Flood(n + 1));
    assert WellFormed(l);
    assert FloodId(n) !in l.seenSet;
    var full := Run(s, Flood(n + 1)).0;
    assert WellFormed(full);
    assert forall i :: 0 <= i < |full.seen| ==> full.seen[i] != FloodId(0);
  }

  lemma RunLast(s: Settings, steps: seq<Step>)
    requires steps != []
    ensures var n := |steps| - 1; var (l, tr) := Run(s, steps[..n]);
      Runnable(l, steps[n]) && Run(s, steps) == (Next(s, l, steps[n]), Noted(s, l, steps[n], tr))
  {
    NextWellFormed(s, Run(s, steps[..|steps| - 1]).0, steps[|steps| - 1]);
  }

  /** Seen again, the first signal overwrites its own open trade. */
  lemma ReusedIdExample(s: Settings)
    requires s.enabled
    ensures var replaced := Run(s, Flood(SEEN_LIMIT + 1) + [Signal(FloodRecord(0))]).1.replaced;
      |replaced| == 1 && replaced[0].strategy == "s"
  {
    hide Run;
    var flood, again := Flood(SEEN_LIMIT + 1), Signal(FloodRecord(0));
    FloodForgets(s);
    RunLast(s, flood + [again]);
    assert (flood + [again])[..|flood|] == flood;
    PlaceFinds(Run(s, flood).0.open, 0);
  }

  lemma {:induction false} ReplacedGrows(s: Settings, steps: seq<Step>, more: seq<Step>)
    ensures Run(s, steps).1.replaced <= Run(s, steps + more).1.replaced
  {
    hide Run;
    if more == [] {
      assert steps + more == steps;
    } else {
      var n := |more| - 1;
      ReplacedGrows(s, steps, more[..n]);
      RunLast(s, steps + more);
      assert (steps + more)[..|steps + more| - 1] == steps + more[..n];
    }
  }

  lemma {:induction false} CountMember(ts: seq<Trade>, k: nat, strategy: string)
    requires k < |ts| && ts[k].strategy == strategy
    ensures CountOf(ts, strategy) > 0
  {
    var n := |ts| - 1;
    if k < n { CountMember(ts[..n], k, strategy); }
  }

  /** The overwritten trade stays lost: however the run goes on, more trades are tracked than evaluated and open. */
  lemma NeverEvaluated(s: Settings, more: seq<Step>)
    requires s.enabled
    ensures var l := Run(s, Flood(SEEN_LIMIT + 1) + [Signal(FloodRecord(0))] + more).0;
      PerfOf(l.stats, "s").tracked > PerfOf(l.stats, "s").evaluated + CountOf(l.open, "s")
  {
    hide Run, Flood, CountOf, PerfOf;
    var steps := Flood(SEEN_LIMIT + 1) + [Signal(FloodRecord(0))];
    ReusedIdExample(s);
    ReplacedGrows(s, steps, more);
    var replaced := Run(s, steps + more).1.replaced;
    assert Run(s, steps).1.replaced[0] == replaced[0];
    CountMember(replaced, 0, "s");
    TrackedSplit(s, steps + more, "s");
  }

  // ----- The polling schedule does not matter

  /** The verdict of the whole history known so far: no window, no deadline, no clock. */
  function Settlement(s: Settings, t: Trade, m: Histories): Option<Verdict>
    requires t.risk > 0.0
  {
    Settle(t, After(History(m, t.symbol), t.openedAt), s.falseBars)
  }

  /** A trade is settled with a verdict exactly when that is booked for the first candle leaving its levels. */
  lemma SettledByFirstTouch(t: Trade, cs: seq<Candle>, falseBars: int, v: Verdict)
    requires t.risk > 0.0
    ensures Settle(t, cs, falseBars) == Some(v)
            <==> exists i :: 0 <= i < |cs| && !Inside(t, cs[i]) && (forall k :: 0 <= k < i ==> Inside(t, cs[k]))
                             && Booked(t, cs[i], i < falseBars, v)
  {
    hide Touches, Inside, Touch, Booked, FirstTouch;
    FirstTouchSound(t, cs);
    forall k | 0 <= k < |cs|
      ensures Inside(t, cs[k]) <==> !Touches(t, cs[k])
      ensures Touches(t, cs[k]) ==> (v == Touch(t, cs[k], k, falseBars) <==> Booked(t, cs[k], k < falseBars, v))
    {
      TouchBooked(t, cs[k], k, falseBars, v);
    }
  }

  lemma TouchBooked(t: Trade, c: Candle, i: nat, falseBars: int, v: Verdict)
    requires t.risk > 0.0
    ensures Inside(t, c) <==> !Touches(t, c)
    ensures Touches(t, c) ==> (v == Touch(t, c, i, falseBars) <==> Booked(t, c, i < falseBars, v))
  {
    if t.target.Some? {
      var gain := Abs(t.target.value - t.entry);
      DivMul(gain, t.risk);
      if v.r * t.risk == gain { UniqueQuotient(gain, t.risk, v.r); }
    }
  }

  ghost predicate Grows(m: Histories, m': Histories) {
    forall symbol :: History(m, symbol) <= History(m', symbol)
  }

  lemma {:induction false} AfterPrefix(h: seq<Candle>, h': seq<Candle>, openedAt: real)
    requires h <= h'
    ensures After(h, openedAt) <= After(h', openedAt)
  {
    if h != h' { AfterPrefix(h, h'[..|h'| - 1], openedAt); }
  }

  lemma {:induction false} FirstTouchPrefix(t: Trade, cs: seq<Candle>, cs': seq<Candle>)
    requires cs <= cs' && FirstTouch(t, cs) < |cs|
    ensures FirstTouch(t, cs') == FirstTouch(t, cs)
  {
    if cs != cs' {
      FirstTouchPrefix(t, cs, cs'[..|cs'| - 1]);
    }
  }

  /** Later candles never change a verdict. */
  lemma SettlementStable(s: Settings, t: Trade, m: Histories, m': Histories)
    requires t.risk > 0.0 && Grows(m, m') && Settlement(s, t, m).Some?
    ensures Settlement(s, t, m') == Settlement(s, t, m)
  {
    var cs, cs' := After(History(m, t.symbol), t.openedAt), After(History(m', t.symbol), t.openedAt);
    AfterPrefix(History(m, t.symbol), History(m', t.symbol), t.openedAt);
    FirstTouchPrefix(t, cs, cs');
  }

  /** The window still holds every candle since the trade was opened, and its deadline is ahead unless one of
      them settles it. */
  ghost predicate Timely(s: Settings, t: Trade, now: real, m: Histories)
    requires t.risk > 0.0
  {
    && Visible(t, m) == After(History(m, t.symbol), t.openedAt)
    && (now < t.deadline || Settlement(s, t, m).Some?)
  }

  function LastMarket(steps: seq<Step>): Histories {
    if steps == [] then map[]
    else
      var n := |steps| - 1;
      if steps[n].Evaluate? then steps[n].histories else LastMarket(steps[..n])
  }

  /** Every poll sees a market that has only grown and is timely for each trade still open. */
  ghost predicate Fair(s: Settings, steps: seq<Step>) {
    steps == []
    || var n := |steps| - 1;
       var l := Run(s, steps[..n]).0;
       && Fair(s, steps[..n])
       && (steps[n].Evaluate? ==>
             && Grows(LastMarket(steps[..n]), steps[n].histories)
             && forall i :: 0 <= i < |l.open| ==> Timely(s, l.open[i], steps[n].now, steps[n].histories))
  }

  /** The trades the accepted signals of a run opened. */
  function Opened(s: Settings, steps: seq<Step>): (ts: seq<Trade>)
    ensures AllRisky(ts)
  {
    if steps == [] then []
    else
      var n := |steps| - 1;
      var l := Run(s, steps[..n]).0;
      Opened(s, steps[..n])
      + if steps[n].Signal? && Accepted(s, l, steps[n].record) && Propose(steps[n].record, s.maxHolding).Some?
        then [Propose(steps[n].record, s.maxHolding).value] else []
  }

  /** The settled trades with their verdicts, and the others, under a market. */
  function Decided(s: Settings, ts: seq<Trade>, m: Histories): seq<Closing>
    requires AllRisky(ts)
  {
    if ts == [] then []
    else
      var n := |ts| - 1;
      var v := Settlement(s, ts[n], m);
      Decided(s, ts[..n], m) + if v.Some? then [(ts[n], v.value)] else []
  }

  function Remaining(s: Settings, ts: seq<Trade>, m: Histories): seq<Trade>
    requires AllRisky(ts)
  {
    if ts == [] then []
    else
      var n := |ts| - 1;
      Remaining(s, ts[..n], m) + if Settlement(s, ts[n], m).Some? then [] else [ts[n]]
  }

  /** A timely poll decides by the whole history. */
  lemma {:induction false} TimelyPoll(s: Settings, ts: seq<Trade>, now: real, m: Histories)
    requires AllRisky(ts) && forall i :: 0 <= i < |ts| ==> Timely(s, ts[i], now, m)
    ensures Closed(s, ts, now, m) == Decided(s, ts, m)
    ensures Undecided(s, ts, now, m) == Remaining(s, ts, m)
  {
    if ts != [] { TimelyPoll(s, ts[..|ts| - 1], now, m); }
  }

  lemma DecidedAppend(s: Settings, ts: seq<Trade>, t: Trade, m: Histories)
    requires AllRisky(ts) && t.risk > 0.0
    ensures AllRisky(ts + [t])
    ensures Remaining(s, ts + [t], m) == Remaining(s, ts, m) + if Settlement(s, t, m).Some? then [] else [t]
    ensures Decided(s, ts + [t], m)
            == Decided(s, ts, m) + if Settlement(s, t, m).Some? then [(t, Settlement(s, t, m).value)] else []
  {
    assert (ts + [t])[..|ts|] == ts;
  }

  /** Deciding in two rounds over a growing market leaves and settles the same trades. */
  lemma {:induction false} TwoRounds(s: Settings, ts: seq<Trade>, m: Histories, m': Histories)
    requires AllRisky(ts) && Grows(m, m')
    ensures var rest := Remaining(s, ts, m);
      && AllRisky(rest) && Remaining(s, rest, m') == Remaining(s, ts, m')
      && multiset(Decided(s, ts, m)) + multiset(Decided(s, rest, m')) == multiset(Decided(s, ts, m'))
  {
    hide Settlement, Grows, AllRisky, Decided, Remaining;
    if ts == [] {
      NothingDecided(s, m);
      NothingDecided(s, m');
    } else {
      var n := |ts| - 1;
      RiskyParts(ts, n + 1);
      TwoRounds(s, ts[..n], m, m');
      assert ts == ts[..n] + [ts[n]];
      TwoRoundsStep(s, ts[..n], ts[n], m, m');
    }
  }

  lemma NothingDecided(s: Settings, m: Histories)
    ensures Decided(s, [], m) == [] && Remaining(s, [], m) == []
  {
  }

  lemma TwoRoundsStep(s: Settings, ts: seq<Trade>, t: Trade, m: Histories, m': Histories)
    requires AllRisky(ts) && t.risk > 0.0 && Grows(m, m') && AllRisky(Remaining(s, ts, m)) && AllRisky(ts + [t])
    requires Remaining(s, Remaining(s, ts, m), m') == Remaining(s, ts, m')
    requires multiset(Decided(s, ts, m)) + multiset(Decided(s, Remaining(s, ts, m), m')) == multiset(Decided(s, ts, m'))
    ensures var rest := Remaining(s, ts + [t], m);
      && AllRisky(rest) && Remaining(s, rest, m') == Remaining(s, ts + [t], m')
      && multiset(Decided(s, ts + [t], m)) + multiset(Decided(s, rest, m')) == multiset(Decided(s, ts + [t], m'))
  {
    hide Settlement, Grows, AllRisky, Decided, Remaining;
    var rest := Remaining(s, ts, m);
    DecidedAppend(s, ts, t, m);
    DecidedAppend(s, ts, t, m');
    DecidedAppend(s, rest, t, m');
    if Settlement(s, t, m).Some? {
      SettlementStable(s, t, m, m');
      assert Remaining(s, ts + [t], m) == rest;
      assert Remaining(s, ts + [t], m') == Remaining(s, ts, m');
    } else {
      assert Decided(s, ts + [t], m) == Decided(s, ts, m);
    }
  }

  lemma {:induction false} RemainingIncluded(s: Settings, ts: seq<Trade>, m: Histories)
    requires AllRisky(ts)
    ensures forall t :: t in Remaining(s, ts, m) ==> t in ts
  {
    if ts != [] { RemainingIncluded(s, ts[..|ts| - 1], m); }
  }

  /** Open trades, closings and opened trades of a fair run, seen from any later market. */
  ghost predicate Accounted(s: Settings, l: Ledger, closings: seq<Closing>, ts: seq<Trade>, m: Histories)
    requires AllRisky(ts)
  {
    && AllRisky(l.open) && (forall t :: t in l.open ==> t in ts)
    && Remaining(s, l.open, m) == Remaining(s, ts, m)
    && multiset(closings) + multiset(Decided(s, l.open, m)) == multiset(Decided(s, ts, m))
  }

  lemma AccountedSignal(s: Settings, l: Ledger, r: Record, closings: seq<Closing>, ts: seq<Trade>,
                        m: Histories)
    requires AllRisky(ts) && Accounted(s, l, closings, ts, m)
    requires Accepted(s, l, r) && Propose(r, s.maxHolding).Some? && DistinctIds(ts + [Propose(r, s.maxHolding).value])
    ensures AllRisky(ts + [Propose(r, s.maxHolding).value])
    ensures Accounted(s, OnSignal(s, l, r), closings, ts + [Propose(r, s.maxHolding).value], m)
  {
    hide Decided, Remaining, Settlement;
    var t := Propose(r, s.maxHolding).value;
    var all := ts + [t];
    assert all[|ts|] == t;
    forall u | u in l.open ensures u.id != t.id {
      var i :| 0 <= i < |ts| && ts[i] == u;
      assert all[i] == u;
    }
    assert Put(l.open, t) == l.open + [t];
    DecidedAppend(s, l.open, t, m);
    DecidedAppend(s, ts, t, m);
  }

  lemma AccountedPoll(s: Settings, l: Ledger, now: real, m: Histories, closings: seq<Closing>,
                      ts: seq<Trade>, m': Histories)
    requires AllRisky(ts) && Accounted(s, l, closings, ts, m) && DistinctIds(l.open) && Grows(m, m')
    requires forall i :: 0 <= i < |l.open| ==> Timely(s, l.open[i], now, m)
    ensures Poll(s, l, now, m).open == Remaining(s, ts, m)
    ensures multiset(closings + Closed(s, l.open, now, m)) == multiset(Decided(s, ts, m))
    ensures Accounted(s, Poll(s, l, now, m), closings + Closed(s, l.open, now, m), ts, m')
  {
    hide Decided, Remaining, Settlement, Closed, Undecided, Timely;
    PollShape(s, l, |l.open|, now, m);
    assert l.open[..|l.open|] == l.open;
    TimelyPoll(s, l.open, now, m);
    TwoRounds(s, ts, m, m');
    RemainingIncluded(s, ts, m);
  }

  lemma {:induction false} FairRunAccounted(s: Settings, steps: seq<Step>, m: Histories)
    requires Fair(s, steps) && DistinctIds(Opened(s, steps)) && Grows(LastMarket(steps), m)
    ensures Accounted(s, Run(s, steps).0, Run(s, steps).1.closings, Opened(s, steps), m)
  {
    hide Accounted, Accepted, Propose, DistinctIds, AllRisky, Grows;
    if steps == [] {
      EmptyAccounted(s, m);
    } else {
      var n := |steps| - 1;
      var (l, tr) := Run(s, steps[..n]);
      var ts := Opened(s, steps[..n]);
      DistinctPrefix(Opened(s, steps), |ts|);
      match steps[n]
      case Signal(r) =>
        FairRunAccounted(s, steps[..n], m);
        if Accepted(s, l, r) && Propose(r, s.maxHolding).Some? {
          AccountedSignal(s, l, r, tr.closings, ts, m);
        } else {
          IdleSignal(s, l, r, tr.closings, ts, m);
          assert Opened(s, steps) == ts;
        }
      case Evaluate(now, m0) =>
        FairRunAccounted(s, steps[..n], m0);
        AccountedPoll(s, l, now, m0, tr.closings, ts, m);
        assert Opened(s, steps) == ts;
    }
  }

  lemma EmptyAccounted(s: Settings, m: Histories)
    ensures Accounted(s, EMPTY, [], [], m)
  {
  }

  lemma IdleSignal(s: Settings, l: Ledger, r: Record, closings: seq<Closing>, ts: seq<Trade>, m: Histories)
    requires AllRisky(ts) && Accounted(s, l, closings, ts, m)
    requires !(Accepted(s, l, r) && Propose(r, s.maxHolding).Some?)
    ensures Accounted(s, OnSignal(s, l, r), closings, ts, m)
  {
  }

  lemma DistinctPrefix(ts: seq<Trade>, k: nat)
    requires DistinctIds(ts) && k <= |ts|
    ensures DistinctIds(ts[..k])
  {
  }

  lemma {:induction false} TallyConcat(a: seq<Closing>, b: seq<Closing>, strategy: string)
    ensures TallyOf(a + b, strategy) == Plus(TallyOf(a, strategy), TallyOf(b, strategy))
  {
    hide Worth, Plus;
    if b == [] {
      assert a + b == a;
      PlusLaws(TallyOf(a, strategy), ZERO, ZERO);
    } else {
      var n := |b| - 1;
      TallyConcat(a, b[..n], strategy);
      assert (a + b)[..|a + b| - 1] == a + b[..n];
      PlusLaws(TallyOf(a, strategy), TallyOf(b[..n], strategy), Worth(b[n], strategy));
    }
  }

  lemma PlusLaws(a: Tally, b: Tally, c: Tally)
    ensures Plus(Plus(a, b), c) == Plus(a, Plus(b, c)) && Plus(Plus(a, c), b) == Plus(Plus(a, b), c)
    ensures Plus(a, ZERO) == a
  {
  }

  lemma TallyWithout(b: seq<Closing>, k: nat, strategy: string)
    requires k < |b|
    ensures TallyOf(b, strategy) == Plus(TallyOf(b[..k] + b[k + 1..], strategy), Worth(b[k], strategy))
  {
    hide Worth, Plus;
    assert b == b[..k + 1] + b[k + 1..];
    TallyConcat(b[..k + 1], b[k + 1..], strategy);
    assert b[..k + 1][..k] == b[..k];
    TallyConcat(b[..k], b[k + 1..], strategy);
    PlusLaws(TallyOf(b[..k], strategy), TallyOf(b[k + 1..], strategy), Worth(b[k], strategy));
  }

  /** Tallies do not depend on the order of the closings. */
  lemma {:induction false} TallyPermutation(a: seq<Closing>, b: seq<Closing>, strategy: string)
    requires multiset(a) == multiset(b)
    ensures TallyOf(a, strategy) == TallyOf(b, strategy)
  {
    hide Worth, Plus;
    if a == [] {
      assert |multiset(b)| == 0;
    } else {
      var k := SameWithout(a, b);
      TallyPermutation(a[..|a| - 1], b[..k] + b[k + 1..], strategy);
      TallyWithout(b, k, strategy);
    }
  }

  /** After a fair poll the books are a function of the opened trades and the market alone. */
  lemma FairRunSettles(s: Settings, steps: seq<Step>, now: real, m: Histories, strategy: string)
    requires Fair(s, steps + [Evaluate(now, m)]) && DistinctIds(Opened(s, steps))
    ensures var l := Run(s, steps + [Evaluate(now, m)]).0;
      && l.open == Remaining(s, Opened(s, steps), m)
      && TallyIn(PerfOf(l.stats, strategy)) == TallyOf(Decided(s, Opened(s, steps), m), strategy)
  {
    hide Accounted, DistinctIds, AllRisky, TallyOf, TallyIn, Decided, Remaining, Grows, Balanced, Timely;
    var all := steps + [Evaluate(now, m)];
    assert all[..|steps|] == steps;
    var (l, tr) := Run(s, steps);
    FairRunAccounted(s, steps, m);
    GrowsReflexive(m);
    ReachableDistinct(s, steps);
    AccountedPoll(s, l, now, m, tr.closings, Opened(s, steps), m);
    BooksTally(s, all, strategy);
    TallyPermutation(Run(s, all).1.closings, Decided(s, Opened(s, steps), m), strategy);
  }

  lemma GrowsReflexive(m: Histories)
    ensures Grows(m, m)
  {
  }

  lemma ReachableDistinct(s: Settings, steps: seq<Step>)
    ensures DistinctIds(Run(s, steps).0.open)
  {
  }

  lemma BooksTally(s: Settings, steps: seq<Step>, strategy: string)
    ensures TallyIn(PerfOf(Run(s, steps).0.stats, strategy)) == TallyOf(Run(s, steps).1.closings, strategy)
  {
    BooksBalance(s, steps, strategy);
  }

  function Signals(steps: seq<Step>): seq<Step> {
    if steps == [] then []
    else
      var n := |steps| - 1;
      Signals(steps[..n]) + if steps[n].Signal? then [steps[n]] else []
  }

  /** Polls admit no signal and change no signal counter. */
  lemma {:induction false} PollKeepsEntries(s: Settings, l: Ledger, k: nat, now: real, m: Histories, strategy: string)
    requires AllRisky(l.open) && k <= |l.open|
    ensures var p, q := PerfOf(l.stats, strategy), PerfOf(PollUpTo(s, l, l.open, k, now, m).stats, strategy);
      p.signals == q.signals && p.tracked == q.tracked
  {
    hide Judge, Visible, Without;
    if k > 0 { PollKeepsEntries(s, l, k - 1, now, m, strategy); }
  }

  lemma SameSeen(s: Settings, l: Ledger, now: real, m: Histories)
    requires WellFormed(l)
    ensures Poll(s, l, now, m).seen == l.seen && Poll(s, l, now, m).seenSet == l.seenSet
    ensures Poll(s, l, now, m) == PollUpTo(s, l, l.open, |l.open|, now, m)
  {
    PollShape(s, l, |l.open|, now, m);
  }

  ghost predicate EntriesAgree(l: Ledger, u: Ledger, strategy: string) {
    && l.seen == u.seen && l.seenSet == u.seenSet
    && PerfOf(l.stats, strategy).signals == PerfOf(u.stats, strategy).signals
    && PerfOf(l.stats, strategy).tracked == PerfOf(u.stats, strategy).tracked
  }

  lemma SameEntries(s: Settings, l: Ledger, u: Ledger, r: Record, strategy: string)
    requires EntriesAgree(l, u, strategy)
    ensures EntriesAgree(OnSignal(s, l, r), OnSignal(s, u, r), strategy) && Accepted(s, l, r) == Accepted(s, u, r)
  {
    hide Propose, Put, Remember;
  }

  ghost predicate SameEntriesAlong(s: Settings, a: seq<Step>, b: seq<Step>, strategy: string) {
    Opened(s, a) == Opened(s, b) && EntriesAgree(Run(s, a).0, Run(s, b).0, strategy)
  }

  lemma SignalOnBoth(s: Settings, a: seq<Step>, b: seq<Step>, r: Record, strategy: string)
    requires SameEntriesAlong(s, a, b, strategy)
    ensures SameEntriesAlong(s, a + [Signal(r)], b + [Signal(r)], strategy)
  {
    hide WellFormed, AllRisky, OnSignal, EntriesAgree;
    assert (a + [Signal(r)])[..|a|] == a;
    assert (b + [Signal(r)])[..|b|] == b;
    SameEntries(s, Run(s, a).0, Run(s, b).0, r, strategy);
  }

  lemma PollOnOne(s: Settings, a: seq<Step>, now: real, m: Histories, b: seq<Step>, strategy: string)
    requires SameEntriesAlong(s, a, b, strategy)
    ensures SameEntriesAlong(s, a + [Evaluate(now, m)], b, strategy)
  {
    hide AllRisky, PollUpTo, Poll, Accepted, Propose, WellFormed;
    assert (a + [Evaluate(now, m)])[..|a|] == a;
    var l := Run(s, a).0;
    SameSeen(s, l, now, m);
    NextWellFormed(s, l, Evaluate(now, m));
    PollKeepsEntries(s, l, |l.open|, now, m, strategy);
  }

  /** Which trades a run opens is settled by its signals, whatever it polls in between. */
  lemma {:induction false} SignalsDecideEntries(s: Settings, steps: seq<Step>, strategy: string)
    ensures SameEntriesAlong(s, steps, Signals(steps), strategy)
  {
    hide Run, Opened, SameEntriesAlong;
    if steps == [] {
      SameAsItself(s, [], strategy);
    } else {
      var n := |steps| - 1;
      SignalsDecideEntries(s, steps[..n], strategy);
      assert steps == steps[..n] + [steps[n]];
      match steps[n]
      case Signal(r) => SignalOnBoth(s, steps[..n], Signals(steps[..n]), r, strategy);
      case Evaluate(now, m) =>
        PollOnOne(s, steps[..n], now, m, Signals(steps[..n]), strategy);
        assert Signals(steps) == Signals(steps[..n]);
    }
  }

  lemma SameAsItself(s: Settings, steps: seq<Step>, strategy: string)
    ensures SameEntriesAlong(s, steps, steps, strategy)
  {
  }

  function LedgerAfter(s: Settings, steps: seq<Step>): Ledger { Run(s, steps).0 }

  predicate EndsPolling(steps: seq<Step>, m: Histories) {
    steps != [] && var last := steps[|steps| - 1]; last.Evaluate? && last.histories == m
  }

  /** Same trades open, and the same counters and totals for a strategy. */
  ghost predicate SameBooks(l: Ledger, u: Ledger, strategy: string) {
    && l.open == u.open
    && TallyIn(PerfOf(l.stats, strategy)) == TallyIn(PerfOf(u.stats, strategy))
    && PerfOf(l.stats, strategy).signals == PerfOf(u.stats, strategy).signals
    && PerfOf(l.stats, strategy).tracked == PerfOf(u.stats, strategy).tracked
  }

  /** Two fair runs with the same signals that end polling the same market keep the same books for every
      strategy, however often and whenever each of them polled before. */
  lemma {:induction false} ScheduleIndependence(s: Settings, a: seq<Step>, b: seq<Step>, m: Histories, strategy: string)
    requires Signals(a) == Signals(b) && DistinctIds(Opened(s, a))
    requires Fair(s, a) && Fair(s, b) && EndsPolling(a, m) && EndsPolling(b, m)
    ensures SameBooks(LedgerAfter(s, a), LedgerAfter(s, b), strategy)
  {
    hide Fair, Run, Opened, DistinctIds, TallyIn, Remaining, Decided, TallyOf, Signals;
    SettledRun(s, a, m, strategy);
    SignalsDecideEntries(s, a, strategy);
    SignalsDecideEntries(s, b, strategy);
    SettledRun(s, b, m, strategy);
  }

  lemma {:induction false} SettledRun(s: Settings, steps: seq<Step>, m: Histories, strategy: string)
    requires Fair(s, steps) && EndsPolling(steps, m) && DistinctIds(Opened(s, steps))
    ensures var l := Run(s, steps).0;
      && l.open == Remaining(s, Opened(s, steps), m)
      && TallyIn(PerfOf(l.stats, strategy)) == TallyOf(Decided(s, Opened(s, steps), m), strategy)
  {
    hide Fair, Run, DistinctIds, TallyIn, Remaining, Decided, TallyOf;
    var n := |steps| - 1;
    assert steps == steps[..n] + [Evaluate(steps[n].now, m)];
    assert Opened(s, steps) == Opened(s, steps[..n]);
    FairRunSettles(s, steps[..n], steps[n].now, m, strategy);
  }

  // ----- Conservation when no id is reused

  lemma {:induction false} UndecidedIncluded(s: Settings, ts: seq<Trade>, now: real, m: Histories)
    requires AllRisky(ts)
    ensures forall t :: t in Undecided(s, ts, now, m) ==> t in ts
  {
    if ts != [] { UndecidedIncluded(s, ts[..|ts| - 1], now, m); }
  }

  lemma PollIncluded(s: Settings, l: Ledger, now: real, m: Histories)
    requires WellFormed(l)
    ensures forall t :: t in Poll(s, l, now, m).open ==> t in l.open
  {
    PollShape(s, l, |l.open|, now, m);
    assert l.open[..|l.open|] == l.open;
    UndecidedIncluded(s, l.open, now, m);
  }

  lemma {:induction false} PutIncluded(open: seq<Trade>, t: Trade, ts: seq<Trade>)
    requires DistinctIds(ts + [t]) && forall u :: u in open ==> u in ts
    ensures Place(open, t.id) == |open| && Put(open, t) == open + [t]
  {
    var all := ts + [t];
    assert all[|ts|] == t;
    forall u | u in open ensures u.id != t.id {
      var i :| 0 <= i < |ts| && ts[i] == u;
      assert all[i] == u;
    }
  }

  /** While the trades a run opens have distinct ids, none is overwritten. */
  lemma {:induction false} DistinctNeverOverwritten(s: Settings, steps: seq<Step>)
    requires DistinctIds(Opened(s, steps))
    ensures Run(s, steps).1.replaced == []
    ensures forall t :: t in Run(s, steps).0.open ==> t in Opened(s, steps)
  {
    hide DistinctIds, Propose, Accepted, WellFormed;
    if steps == [] {
      RunNone(s);
    } else {
      var n := |steps| - 1;
      var l := Run(s, steps[..n]).0;
      RunLast(s, steps);
      DistinctPrefix(Opened(s, steps), |Opened(s, steps[..n])|);
      DistinctNeverOverwritten(s, steps[..n]);
      match steps[n]
      case Signal(r) =>
        var trade := Propose(r, s.maxHolding);
        if Accepted(s, l, r) && trade.Some? {
          ProposedStrategy(r, s.maxHolding);
          PutIncluded(l.open, trade.value, Opened(s, steps[..n]));
        }
      case Evaluate(now, m) => PollIncluded(s, l, now, m);
    }
  }

  // ----- Drawdown of the accumulated results

  function Cumulative(rs: seq<real>, i: nat): real
    requires i <= |rs|
  {
    Sum(rs[..i])
  }

  /** One pass: the result is the largest fall of the cumulative sum from any earlier value, zero included. */
  method MaxDrawdown(rs: seq<real>) returns (drawdown: real)
    ensures forall i, j :: 0 <= i <= j <= |rs| ==> Cumulative(rs, i) - Cumulative(rs, j) <= drawdown
    ensures exists i, j :: 0 <= i <= j <= |rs| && drawdown == Cumulative(rs, i) - Cumulative(rs, j)
  {
    hide Cumulative, FallsWithin, PeakOf;
    var peak, equity := 0.0, 0.0;
    drawdown := 0.0;
    ghost var top, from, to := 0, 0, 0;
    CumulativeStart(rs);
    for k := 0 to |rs|
      invariant equity == Cumulative(rs, k)
      invariant 0 <= top <= k && peak == Cumulative(rs, top) && PeakOf(rs, k, peak)
      invariant 0 <= from <= to <= k && drawdown == Cumulative(rs, from) - Cumulative(rs, to)
      invariant FallsWithin(rs, k, drawdown)
    {
      CumulativeStep(rs, k);
      equity := equity + rs[k];
      FallsExtend(rs, k, peak, drawdown);
      if equity > peak { peak, top := equity, k + 1; }
      if peak - equity > drawdown { drawdown, from, to := peak - equity, top, k + 1; }
    }
    FallsMeaning(rs, drawdown);
  }

  ghost predicate PeakOf(rs: seq<real>, k: nat, peak: real)
    requires k <= |rs|
  {
    forall i :: 0 <= i <= k ==> Cumulative(rs, i) <= peak
  }

  ghost predicate FallsWithin(rs: seq<real>, k: nat, drawdown: real)
    requires k <= |rs|
  {
    forall i, j :: 0 <= i <= j <= k ==> Cumulative(rs, i) - Cumulative(rs, j) <= drawdown
  }

  lemma FallsExtend(rs: seq<real>, k: nat, peak: real, drawdown: real)
    requires k < |rs| && PeakOf(rs, k, peak) && FallsWithin(rs, k, drawdown)
    ensures var high := Max(peak, Cumulative(rs, k + 1));
      PeakOf(rs, k + 1, high) && FallsWithin(rs, k + 1, Max(drawdown, high - Cumulative(rs, k + 1)))
  {
    hide Cumulative;
  }

  lemma FallsMeaning(rs: seq<real>, drawdown: real)
    requires FallsWithin(rs, |rs|, drawdown)
    ensures forall i, j :: 0 <= i <= j <= |rs| ==> Cumulative(rs, i) - Cumulative(rs, j) <= drawdown
  {
  }

  lemma CumulativeStart(rs: seq<real>)
    ensures Cumulative(rs, 0) == 0.0 && PeakOf(rs, 0, 0.0) && FallsWithin(rs, 0, 0.0)
  {
  }

  lemma CumulativeStep(rs: seq<real>, k: nat)
    requires k < |rs|
    ensures Cumulative(rs, k + 1) == Cumulative(rs, k) + rs[k]
  {
    SumStep(rs, k);
  }
}
