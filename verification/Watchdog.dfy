/** Supervision of components: heartbeats, scan passes and bounded restarts. */
module Watchdogs {
  import opened Options

  datatype Status = Ok | Frozen | Restarting | Exhausted

  datatype Component = Component(timeout: real, hasRestart: bool, maxRestarts: int, lastHeartbeat: real,
                                 status: Status, restartCount: nat)

  /** One scan pass visits `rest` in order; `pending` is the component whose restart it awaits. */
  datatype State = State(components: map<string, Component>, order: seq<string>, rest: seq<string>,
                         scanNow: real, pending: Option<string>)

  // ----- One component

  function Beat(c: Component, t: real): Component {
    c.(lastHeartbeat := t, status := if c.status.Frozen? then Ok else c.status)
  }

  predicate Stale(c: Component, now: real) {
    !c.status.Restarting? && !c.status.Exhausted? && now - c.lastHeartbeat > c.timeout
  }

  predicate RestartDue(c: Component, now: real) {
    Stale(c, now) && c.hasRestart && c.restartCount < c.maxRestarts
  }

  function Inspect(c: Component, now: real): Component {
    if !Stale(c, now) then c
    else if !c.hasRestart then c.(status := Frozen)
    else if c.restartCount >= c.maxRestarts then c.(status := Exhausted)
    else c.(status := Restarting, restartCount := c.restartCount + 1)
  }

  function Finish(c: Component, succeeded: bool, t: real): Component {
    if succeeded then c.(lastHeartbeat := t, status := Ok) else c.(status := Frozen)
  }

  // ----- Steps of the whole supervisor, in any interleaving

  datatype Step =
    | Register(name: string, component: Component)
    | Heartbeat(who: string, at: real)
    | BeginScan(now: real)
    | Visit
    | RestartDone(succeeded: bool, when: real)
    | Stop

  predicate Enabled(s: State, step: Step) {
    match step
    case Register(name, c) => name !in s.components && c.status.Ok? && c.restartCount == 0
    case Heartbeat(name, _) => name in s.components
    case BeginScan(_) => s.rest == [] && s.pending.None?
    case Visit => s.rest != [] && s.pending.None? && s.rest[0] in s.components
    case RestartDone(_, _) => s.pending.Some? && s.pending.value in s.components
    case Stop => true
  }

  /** A step that is not enabled changes nothing; registering mid-pass ends the pass, and so does stopping the
      service, which leaves the component whose restart was awaited as it stands. */
  function Next(s: State, step: Step): State {
    if !Enabled(s, step) then s
    else match step
      case Register(name, c) =>
        s.(components := s.components[name := c], order := s.order + [name], rest := [])
      case Heartbeat(name, t) =>
        s.(components := s.components[name := Beat(s.components[name], t)])
      case BeginScan(now) => s.(rest := s.order, scanNow := now)
      case Visit =>
        var name := s.rest[0];
        var c := s.components[name];
        s.(components := s.components[name := Inspect(c, s.scanNow)], rest := s.rest[1..],
           pending := if RestartDue(c, s.scanNow) then Some(name) else None)
      case RestartDone(ok, t) =>
        var name := s.pending.value;
        s.(components := s.components[name := Finish(s.components[name], ok, t)], pending := None)
      case Stop => s.(rest := [], pending := None)
  }

  class Watchdog {
    var components: map<string, Component>
    var order: seq<string>
    var rest: seq<string>
    var scanNow: real
    var pending: Option<string>

    function Snapshot(): State
      reads this
    {
      State(components, order, rest, scanNow, pending)
    }

    constructor ()
      ensures Snapshot() == INITIAL
    {
      components, order, rest, scanNow, pending := map[], [], [], 0.0, None;
    }

    /** False stands for the error raised on a duplicate name. */
    method Register(name: string, timeout: real, hasRestart: bool, maxRestarts: int, now: real)
      returns (registered: bool)
      modifies this
      ensures registered == (name !in old(components))
      ensures Snapshot() == Next(old(Snapshot()),
                                 Step.Register(name, Component(timeout, hasRestart, maxRestarts, now, Ok, 0)))
    {
      if name in components { return false; }
      components := components[name := Component(timeout, hasRestart, maxRestarts, now, Ok, 0)];
      order := order + [name];
      rest := [];
      return true;
    }

    /** False stands for the error raised on an unknown name. */
    method Heartbeat(name: string, now: real) returns (known: bool)
      modifies this
      ensures known == (name in old(components))
      ensures Snapshot() == Next(old(Snapshot()), Step.Heartbeat(name, now))
    {
      if name !in components { return false; }
      var c := components[name].(lastHeartbeat := now);
      if c.status.Frozen? { c := c.(status := Ok); }
      components := components[name := c];
      return true;
    }

    method BeginScan(now: real)
      requires rest == [] && pending.None?
      modifies this
      ensures Snapshot() == Next(old(Snapshot()), Step.BeginScan(now))
    {
      rest, scanNow := order, now;
    }

    /** One component of the pass, up to the point where its restart is awaited. */
    method Visit() returns (action: string)
      requires rest != [] && pending.None? && rest[0] in components
      modifies this
      ensures Snapshot() == Next(old(Snapshot()), Step.Visit)
    {
      var name := rest[0];
      rest := rest[1..];
      var c := components[name];
      if c.status.Restarting? || c.status.Exhausted? { return "skip"; }
      if scanNow - c.lastHeartbeat <= c.timeout { return "alive"; }
      c := c.(status := Frozen);
      components := components[name := c];
      if !c.hasRestart { return "none"; }
      if c.restartCount >= c.maxRestarts {
        components := components[name := c.(status := Exhausted)];
        return "exhausted";
      }
      components := components[name := c.(status := Restarting, restartCount := c.restartCount + 1)];
      pending := Some(name);
      return "restarting";
    }

    method RestartDone(succeeded: bool, now: real)
      requires pending.Some? && pending.value in components
      modifies this
      ensures Snapshot() == Next(old(Snapshot()), Step.RestartDone(succeeded, now))
    {
      var c := components[pending.value];
      c := if succeeded then c.(lastHeartbeat := now, status := Ok) else c.(status := Frozen);
      components := components[pending.value := c];
      pending := None;
    }

    /** Cancelling the pass skips both outcomes of an awaited restart. */
    method Stop()
      modifies this
      ensures Snapshot() == Next(old(Snapshot()), Step.Stop)
    {
      rest, pending := [], None;
    }
  }

  // ----- Runs

  const INITIAL := State(map[], [], [], 0.0, None)

  function Run(s: State, steps: seq<Step>): State {
    if steps == [] then s else Next(Run(s, steps[..|steps| - 1]), steps[|steps| - 1])
  }

  /** The step calls the restart callback of `name`. */
  predicate Calls(s: State, step: Step, name: string) {
    step.Visit? && Enabled(s, step) && s.rest[0] == name && RestartDue(s.components[name], s.scanNow)
  }

  /** The step finds `name` stale. */
  predicate Detects(s: State, step: Step, name: string) {
    step.Visit? && Enabled(s, step) && s.rest[0] == name && Stale(s.components[name], s.scanNow)
  }

  function CallsOf(steps: seq<Step>, name: string): nat {
    if steps == [] then 0
    else
      var before := steps[..|steps| - 1];
      CallsOf(before, name) + if Calls(Run(INITIAL, before), steps[|steps| - 1], name) then 1 else 0
  }

  function DetectionsOf(steps: seq<Step>, name: string): nat {
    if steps == [] then 0
    else
      var before := steps[..|steps| - 1];
      DetectionsOf(before, name) + if Detects(Run(INITIAL, before), steps[|steps| - 1], name) then 1 else 0
  }

  /** What every reachable state keeps about one component. */
  ghost predicate Accounted(s: State, name: string, calls: nat, detections: nat) {
    && (name !in s.components ==> calls == 0 && detections == 0)
    && (name in s.components ==>
          var c := s.components[name];
          && calls == c.restartCount
          && (c.restartCount == 0 || c.restartCount <= c.maxRestarts)
          && (c.hasRestart ==> detections == calls + if c.status.Exhausted? then 1 else 0)
          && (!c.hasRestart ==> calls == 0 && (c.status.Ok? || c.status.Frozen?)))
  }

  /** Components whose awaited restart was cancelled by a stop. */
  function Abandons(s: State, step: Step): set<string> {
    if step.Stop? && s.pending.Some? then {s.pending.value} else {}
  }

  function Abandoned(steps: seq<Step>): set<string> {
    if steps == [] then {}
    else
      var before := steps[..|steps| - 1];
      Abandoned(before) + Abandons(Run(INITIAL, before), steps[|steps| - 1])
  }

  lemma {:induction false} RunAccounted(steps: seq<Step>, name: string)
    ensures Accounted(Run(INITIAL, steps), name, CallsOf(steps, name), DetectionsOf(steps, name))
    ensures PassSane(Run(INITIAL, steps), Abandoned(steps))
  {
    if steps != [] {
      hide Accounted, PassSane, Next, Calls, Detects;
      var before := steps[..|steps| - 1];
      RunAccounted(before, name);
      StepKeepsPass(Run(INITIAL, before), steps[|steps| - 1], Abandoned(before));
      StepAccounted(Run(INITIAL, before), steps[|steps| - 1], name, CallsOf(before, name), DetectionsOf(before, name),
                    Abandoned(before));
    }
  }

  /** Exactly the awaited component and the abandoned ones are restarting. */
  ghost predicate PassSane(s: State, abandoned: set<string>) {
    && (forall n :: n in s.components && s.components[n].status.Restarting?
                    <==> s.pending == Some(n) || n in abandoned)
    && (s.pending.Some? ==> s.pending.value !in abandoned)
    && (forall i :: 0 <= i < |s.rest| ==> s.rest[i] in s.components)
    && (forall i :: 0 <= i < |s.order| ==> s.order[i] in s.components)
  }

  lemma StepKeepsPass(s: State, step: Step, abandoned: set<string>)
    requires PassSane(s, abandoned)
    ensures PassSane(Next(s, step), abandoned + Abandons(s, step))
  {
  }

  lemma StepAccounted(s: State, step: Step, name: string, calls: nat, detections: nat, abandoned: set<string>)
    requires Accounted(s, name, calls, detections) && PassSane(s, abandoned)
    ensures Accounted(Next(s, step), name, calls + (if Calls(s, step, name) then 1 else 0),
                      detections + if Detects(s, step, name) then 1 else 0)
  {
  }

  /** The restart callback of a component runs at most its budget of times. */
  lemma RestartBudget(steps: seq<Step>, name: string)
    requires name in Run(INITIAL, steps).components
    ensures var max := Run(INITIAL, steps).components[name].maxRestarts;
      CallsOf(steps, name) <= if max > 0 then max else 0
  {
    RunAccounted(steps, name);
  }

  /** With a callback, staleness is detected once per restart and once more when the budget is spent. */
  lemma {:induction false} DetectionBudget(steps: seq<Step>, name: string)
    requires name in Run(INITIAL, steps).components && Run(INITIAL, steps).components[name].hasRestart
    ensures var c := Run(INITIAL, steps).components[name];
      && DetectionsOf(steps, name) == CallsOf(steps, name) + (if c.status.Exhausted? then 1 else 0)
      && DetectionsOf(steps, name) <= 1 + if c.maxRestarts > 0 then c.maxRestarts else 0
  {
    RunAccounted(steps, name);
  }

  /** An exhausted component stays exhausted whatever happens next. */
  lemma {:induction false} ExhaustedForever(s: State, steps: seq<Step>, name: string, abandoned: set<string>)
    returns (later: set<string>)
    requires PassSane(s, abandoned) && name in s.components && s.components[name].status.Exhausted?
    ensures PassSane(Run(s, steps), later)
    ensures name in Run(s, steps).components
    ensures Run(s, steps).components[name].status.Exhausted?
    ensures Run(s, steps).components[name].restartCount == s.components[name].restartCount
  {
    hide PassSane, Next;
    later := abandoned;
    if steps != [] {
      var before := steps[..|steps| - 1];
      var gone := ExhaustedForever(s, before, name, abandoned);
      StepKeepsPass(Run(s, before), steps[|steps| - 1], gone);
      later := gone + Abandons(Run(s, before), steps[|steps| - 1]);
      ExhaustedStays(Run(s, before), steps[|steps| - 1], name, gone);
    }
  }

  lemma ExhaustedStays(s: State, step: Step, name: string, abandoned: set<string>)
    requires PassSane(s, abandoned) && name in s.components && s.components[name].status.Exhausted?
    ensures name in Next(s, step).components && Next(s, step).components[name].status.Exhausted?
    ensures Next(s, step).components[name].restartCount == s.components[name].restartCount
  {
  }

  /** An abandoned component stays restarting forever: heartbeats do not revive it and no pass looks at it again. */
  lemma {:induction false} AbandonedForever(s: State, steps: seq<Step>, name: string, abandoned: set<string>)
    returns (later: set<string>)
    requires PassSane(s, abandoned) && name in abandoned
    ensures PassSane(Run(s, steps), later) && name in later
    ensures name in Run(s, steps).components && Run(s, steps).components[name].status.Restarting?
    ensures forall i :: 0 <= i < |steps| ==> !Detects(Run(s, steps[..i]), steps[i], name)
  {
    hide PassSane, Next, Detects;
    later := abandoned;
    AbandonedRestarting(s, name, abandoned);
    if steps != [] {
      var n := |steps| - 1;
      var gone := AbandonedForever(s, steps[..n], name, abandoned);
      StepKeepsPass(Run(s, steps[..n]), steps[n], gone);
      later := gone + Abandons(Run(s, steps[..n]), steps[n]);
      AbandonedUnseen(Run(s, steps[..n]), steps[n], name, gone);
      AbandonedRestarting(Run(s, steps), name, later);
      forall i | 0 <= i < n ensures !Detects(Run(s, steps[..i]), steps[i], name) {
        assert steps[..n][..i] == steps[..i] && steps[..n][i] == steps[i];
      }
    }
  }

  lemma AbandonedRestarting(s: State, name: string, abandoned: set<string>)
    requires PassSane(s, abandoned) && name in abandoned
    ensures name in s.components && s.components[name].status.Restarting?
  {
  }

  lemma AbandonedUnseen(s: State, step: Step, name: string, abandoned: set<string>)
    requires PassSane(s, abandoned) && name in abandoned
    ensures !Detects(s, step, name)
  {
  }

  /** While a restart hangs, no component's fall silent is noticed: each keeps its status, except that a heartbeat
      thaws a frozen one, and its restart counter. */
  lemma {:induction false} HangingRestartBlinds(s: State, steps: seq<Step>, name: string)
    requires s.pending.Some? && name in s.components
    requires forall i :: 0 <= i < |steps| ==> !steps[i].RestartDone? && !steps[i].Stop?
    ensures var s' := Run(s, steps);
      && s'.pending == s.pending && name in s'.components
      && s'.components[name].restartCount == s.components[name].restartCount
      && (s'.components[name].status == s.components[name].status
          || (s.components[name].status.Frozen? && s'.components[name].status.Ok?))
  {
    if steps != [] { HangingRestartBlinds(s, steps[..|steps| - 1], name); }
  }

  /** Without a callback there is no budget: n silent passes give n detections. */
  function SilentPasses(n: nat): seq<Step> {
    if n == 0 then [Register("w", Component(1.0, false, 3, 0.0, Ok, 0))]
    else SilentPasses(n - 1) + [BeginScan(2.0), Visit]
  }

  /** The one component has no callback and has been silent since time zero; no pass is under way. */
  ghost predicate Silent(s: State) {
    && s.order == ["w"] && s.rest == [] && s.pending.None? && "w" in s.components
    && s.components["w"].timeout == 1.0 && s.components["w"].lastHeartbeat == 0.0
    && !s.components["w"].hasRestart && (s.components["w"].status.Ok? || s.components["w"].status.Frozen?)
  }

  lemma SilentPass(s: State)
    requires Silent(s)
    ensures var begun := Next(s, BeginScan(2.0));
      !Detects(s, BeginScan(2.0), "w") && Detects(begun, Visit, "w") && Silent(Next(begun, Visit))
  {
  }

  lemma {:induction false} NoCallbackUnbounded(n: nat)
    ensures DetectionsOf(SilentPasses(n), "w") == n && Silent(Run(INITIAL, SilentPasses(n)))
  {
    var all := SilentPasses(n);
    if n == 0 {
      assert all[..0] == [];
    } else {
      hide Next, Detects, Silent;
      NoCallbackUnbounded(n - 1);
      var before := SilentPasses(n - 1);
      SilentPass(Run(INITIAL, before));
      assert all[..|all| - 1] == before + [BeginScan(2.0)];
      assert (before + [BeginScan(2.0)])[..|before|] == before;
    }
  }

  // ----- What each step does to a component

  predicate About(s: State, step: Step, name: string) {
    match step
    case Register(_, _) => name !in s.components
    case Heartbeat(who, _) => who == name
    case BeginScan(_) => false
    case Visit => s.rest != [] && s.rest[0] == name
    case RestartDone(_, _) => s.pending == Some(name)
    case Stop => false
  }

  /** A component changes only by a step about it: its registration, its heartbeat, its visit or its restart. */
  lemma OthersUntouched(s: State, step: Step, name: string)
    requires name in s.components && !About(s, step, name)
    ensures name in Next(s, step).components && Next(s, step).components[name] == s.components[name]
  {
  }

  /** A visit leaves alone what is restarting, exhausted or not silent beyond its timeout. It freezes a silent component
      without callback, exhausts one whose budget is spent, and otherwise begins a restart and counts it. */
  lemma VisitMeaning(s: State, name: string)
    requires s.rest != [] && s.rest[0] == name && name in s.components && s.pending.None?
    ensures var c, s' := s.components[name], Next(s, Visit);
      var silent := s.scanNow - c.lastHeartbeat > c.timeout;
      && s'.rest == s.rest[1..] && s'.order == s.order && s'.scanNow == s.scanNow && name in s'.components
      && var c' := s'.components[name];
         if c.status == Restarting || c.status == Exhausted || !silent then c' == c && s'.pending.None?
         else
           && c'.lastHeartbeat == c.lastHeartbeat && c'.timeout == c.timeout && c'.hasRestart == c.hasRestart
           && c'.maxRestarts == c.maxRestarts
           && (!c.hasRestart ==> c'.status == Frozen && c'.restartCount == c.restartCount && s'.pending.None?)
           && (c.hasRestart && c.restartCount >= c.maxRestarts ==>
                 c'.status == Exhausted && c'.restartCount == c.restartCount && s'.pending.None?)
           && (c.hasRestart && c.restartCount < c.maxRestarts ==>
                 c'.status == Restarting && c'.restartCount == c.restartCount + 1 && s'.pending == Some(name))
  {
  }

  /** A heartbeat is remembered and revives a frozen component; it changes no other status and no counter. */
  lemma HeartbeatMeaning(s: State, name: string, t: real)
    requires name in s.components
    ensures var c, s' := s.components[name], Next(s, Step.Heartbeat(name, t));
      && s'.rest == s.rest && s'.order == s.order && s'.pending == s.pending && name in s'.components
      && var c' := s'.components[name];
         && c'.lastHeartbeat == t && c'.restartCount == c.restartCount && c'.timeout == c.timeout
         && c'.status == if c.status == Frozen then Ok else c.status
  {
  }

  /** A restart ends the wait: a success counts as a sign of life and makes the component healthy, a failure leaves it
      frozen with its last sign of life. */
  lemma OutcomeMeaning(s: State, name: string, succeeded: bool, t: real)
    requires s.pending == Some(name) && name in s.components
    ensures var c, s' := s.components[name], Next(s, Step.RestartDone(succeeded, t));
      && s'.pending.None? && s'.rest == s.rest && name in s'.components
      && var c' := s'.components[name];
         && c'.restartCount == c.restartCount && c'.timeout == c.timeout && c'.maxRestarts == c.maxRestarts
         && (succeeded ==> c'.status == Ok && c'.lastHeartbeat == t)
         && (!succeeded ==> c'.status == Frozen && c'.lastHeartbeat == c.lastHeartbeat)
  {
  }

  /** The latest sign of life of a component: its registration, a heartbeat or a successful restart. */
  function LastSign(steps: seq<Step>, name: string): real {
    if steps == [] then 0.0
    else
      var n := |steps| - 1;
      SignAfter(Run(INITIAL, steps[..n]), steps[n], name, LastSign(steps[..n], name))
  }

  function SignAfter(s: State, step: Step, name: string, before: real): real {
    match step
    case Register(who, c) =>
      if who == name && name !in s.components && c.status == Ok && c.restartCount == 0 then c.lastHeartbeat else before
    case Heartbeat(who, t) => if who == name && name in s.components then t else before
    case RestartDone(ok, t) => if ok && s.pending == Some(name) then t else before
    case _ => before
  }

  lemma SignStep(s: State, step: Step, name: string, before: real)
    requires name in s.components ==> s.components[name].lastHeartbeat == before
    requires s.pending.Some? ==> s.pending.value in s.components
    ensures name in Next(s, step).components ==>
      Next(s, step).components[name].lastHeartbeat == SignAfter(s, step, name, before)
  {
  }

  /** Silence is measured from the latest sign of life, and the pass lists every component exactly once. */
  lemma {:induction false} SilenceMeasured(steps: seq<Step>, name: string)
    ensures var s := Run(INITIAL, steps);
      && (name in s.components ==> s.components[name].lastHeartbeat == LastSign(steps, name))
      && OrderComplete(s)
  {
    hide Next, SignAfter;
    if steps != [] {
      var n := |steps| - 1;
      SilenceMeasured(steps[..n], name);
      SignStep(Run(INITIAL, steps[..n]), steps[n], name, LastSign(steps[..n], name));
      OrderStep(Run(INITIAL, steps[..n]), steps[n]);
    }
  }

  ghost predicate OrderComplete(s: State) {
    && (forall n :: n in s.components <==> n in s.order)
    && (forall i, j :: 0 <= i < j < |s.order| ==> s.order[i] != s.order[j])
    && (s.pending.Some? ==> s.pending.value in s.components)
    && forall i :: 0 <= i < |s.rest| ==> s.rest[i] in s.components
  }

  lemma OrderStep(s: State, step: Step)
    requires OrderComplete(s)
    ensures OrderComplete(Next(s, step))
  {
    var s' := Next(s, step);
    if step.Register? && Enabled(s, step) {
      assert s'.order[|s.order|] == step.name;
      forall n ensures n in s'.components <==> n in s'.order {
        if n in s'.order && n != step.name { assert n in s.order; }
      }
    }
  }

  /** Visits of a stretch of steps. */
  function VisitsIn(s: State, steps: seq<Step>): nat {
    if steps == [] then 0
    else
      var n := |steps| - 1;
      VisitsIn(s, steps[..n]) + if steps[n].Visit? && Enabled(Run(s, steps[..n]), Visit) then 1 else 0
  }

  /** A pass takes the components in turn: after k visits it has k fewer to go, whatever else happens meanwhile. */
  lemma {:induction false} PassInTurn(s: State, steps: seq<Step>)
    requires forall i :: 0 <= i < |steps| ==> !steps[i].Register? && !steps[i].Stop? && !steps[i].BeginScan?
    ensures VisitsIn(s, steps) <= |s.rest| && Run(s, steps).rest == s.rest[VisitsIn(s, steps)..]
    ensures Run(s, steps).scanNow == s.scanNow
  {
    if steps != [] { PassInTurn(s, steps[..|steps| - 1]); }
  }

  /** A pass begins only when none is under way, with every component to go and the clock it is given. */
  lemma PassBegins(steps: seq<Step>, now: real, name: string)
    ensures var s, s' := Run(INITIAL, steps), Next(Run(INITIAL, steps), Step.BeginScan(now));
      if s.rest != [] || s.pending.Some? then s' == s
      else s'.components == s.components && s'.scanNow == now && (name in s'.rest <==> name in s.components)
  {
    SilenceMeasured(steps, name);
  }
}
