/** Asynchronous event bus: one queue, one worker, concurrent handlers with error isolation. */
module EventBuses {
  import opened Numeric
  import opened Options
  import opened Lists

  type Handler = string

  /** An event with its class and all base classes. */
  datatype Event = Event(id: nat, types: set<string>)

  /** One key of the subscriber table; `None` subscribes to everything. */
  datatype Entry = Entry(eventType: Option<string>, handlers: seq<Handler>)

  // ----- The subscriber table

  predicate Matches(t: Option<string>, e: Event) { t.None? || t.value in e.types }

  function HandlersFor(table: seq<Entry>, e: Event): seq<Handler> {
    if table == [] then []
    else
      var n := |table| - 1;
      HandlersFor(table[..n], e) + if Matches(table[n].eventType, e) then table[n].handlers else []
  }

  function Registered(table: seq<Entry>): nat {
    if table == [] then 0 else Registered(table[..|table| - 1]) + |table[|table| - 1].handlers|
  }

  function Position(table: seq<Entry>, t: Option<string>): (i: nat)
    ensures i <= |table|
    ensures i < |table| ==> table[i].eventType == t
  {
    if table == [] then 0
    else
      var i := Position(table[..|table| - 1], t);
      if i < |table| - 1 || table[|table| - 1].eventType == t then i else |table|
  }

  function RemoveFirst(hs: seq<Handler>, h: Handler): (r: seq<Handler>)
    requires h in hs
    ensures |r| == |hs| - 1 && multiset(r) == multiset(hs) - multiset{h}
  {
    assert hs == [hs[0]] + hs[1..];
    if hs[0] == h then hs[1..] else [hs[0]] + RemoveFirst(hs[1..], h)
  }

  function Add(table: seq<Entry>, t: Option<string>, h: Handler): seq<Entry> {
    var i := Position(table, t);
    if i < |table| then table[i := Entry(t, table[i].handlers + [h])] else table + [Entry(t, [h])]
  }

  predicate Present(table: seq<Entry>, t: Option<string>, h: Handler) {
    var i := Position(table, t);
    i < |table| && h in table[i].handlers
  }

  function Remove(table: seq<Entry>, t: Option<string>, h: Handler): seq<Entry> {
    if !Present(table, t, h) then table
    else
      var i := Position(table, t);
      table[i := Entry(t, RemoveFirst(table[i].handlers, h))]
  }

  function Own(entry: Entry, e: Event): multiset<Handler> {
    if Matches(entry.eventType, e) then multiset(entry.handlers) else multiset{}
  }

  /** How often each handler is called for an event. */
  function Deliveries(table: seq<Entry>, e: Event): multiset<Handler> {
    if table == [] then multiset{}
    else Deliveries(table[..|table| - 1], e) + Own(table[|table| - 1], e)
  }

  lemma {:induction false} DeliveriesAreHandlers(table: seq<Entry>, e: Event)
    ensures multiset(HandlersFor(table, e)) == Deliveries(table, e)
  {
    if table != [] { DeliveriesAreHandlers(table[..|table| - 1], e); }
  }

  lemma {:induction false} ReplaceDeliveries(table: seq<Entry>, i: nat, entry: Entry, e: Event)
    requires i < |table|
    ensures Deliveries(table[i := entry], e) + Own(table[i], e) == Deliveries(table, e) + Own(entry, e)
  {
    hide Own;
    var n := |table| - 1;
    if i < n {
      ReplaceDeliveries(table[..n], i, entry, e);
      var after := table[i := entry];
      assert after[..n] == table[..n][i := entry];
      assert Deliveries(after, e) + Own(table[i], e)
             == (Deliveries(after[..n], e) + Own(table[i], e)) + Own(table[n], e);
    } else {
      assert table[i := entry][..n] == table[..n];
    }
  }

  lemma {:induction false} ReplaceRegistered(table: seq<Entry>, i: nat, entry: Entry)
    requires i < |table|
    ensures Registered(table[i := entry]) + |table[i].handlers| == Registered(table) + |entry.handlers|
  {
    var n := |table| - 1;
    if i < n {
      ReplaceRegistered(table[..n], i, entry);
      assert table[i := entry][..n] == table[..n][i := entry];
    } else {
      assert table[i := entry][..n] == table[..n];
    }
  }

  /** The single delivery a subscription stands for. */
  function Delta(t: Option<string>, h: Handler, e: Event): multiset<Handler> {
    if Matches(t, e) then multiset{h} else multiset{}
  }

  /** Subscribing adds exactly one delivery per matching event. */
  lemma SubscribeMeaning(table: seq<Entry>, t: Option<string>, h: Handler, e: Event)
    ensures Deliveries(Add(table, t, h), e) == Deliveries(table, e) + Delta(t, h, e)
  {
    hide Own, Delta;
    var i := Position(table, t);
    if i < |table| {
      var entry := Entry(t, table[i].handlers + [h]);
      OwnGrows(table[i], h, e);
      ReplaceDeliveries(table, i, entry, e);
      CancelCommon(Deliveries(Add(table, t, h), e), Deliveries(table, e) + Delta(t, h, e), Own(table[i], e));
    } else {
      assert Add(table, t, h)[..|table|] == table;
      OwnGrows(Entry(t, []), h, e);
      assert [] + [h] == [h];
    }
  }

  lemma OwnGrows(entry: Entry, h: Handler, e: Event)
    ensures Own(Entry(entry.eventType, entry.handlers + [h]), e) == Own(entry, e) + Delta(entry.eventType, h, e)
    ensures entry.handlers == [] ==> Own(entry, e) == multiset{}
  {
  }

  /** Unsubscribing a registered handler takes exactly that delivery away; otherwise nothing changes. */
  lemma UnsubscribeMeaning(table: seq<Entry>, t: Option<string>, h: Handler, e: Event)
    ensures !Present(table, t, h) ==> Remove(table, t, h) == table
    ensures Present(table, t, h) ==>
      Deliveries(table, e) == Deliveries(Remove(table, t, h), e) + Delta(t, h, e)
  {
    if Present(table, t, h) {
      var i := Position(table, t);
      var entry := Entry(t, RemoveFirst(table[i].handlers, h));
      assert multiset(table[i].handlers) == multiset(entry.handlers) + multiset{h};
      assert Own(table[i], e) == Own(entry, e) + Delta(t, h, e);
      hide Deliveries, Own, Delta;
      ReplaceDeliveries(table, i, entry, e);
      CancelCommon(Deliveries(table, e), Deliveries(Remove(table, t, h), e) + Delta(t, h, e), Own(entry, e));
    }
  }

  /** The subscriber counter's arithmetic. */
  lemma RegisteredCounts(table: seq<Entry>, t: Option<string>, h: Handler)
    ensures Registered(Add(table, t, h)) == Registered(table) + 1
    ensures Present(table, t, h) ==> Registered(Remove(table, t, h)) == Registered(table) - 1
  {
    var i := Position(table, t);
    if i < |table| {
      ReplaceRegistered(table, i, Entry(t, table[i].handlers + [h]));
      if h in table[i].handlers { ReplaceRegistered(table, i, Entry(t, RemoveFirst(table[i].handlers, h))); }
    } else {
      assert Add(table, t, h)[..|table|] == table;
    }
  }

  // ----- The table as a plain list of subscriptions

  /** The handlers called for an event are those of its class, its bases and the wildcard, key by key. */
  lemma {:induction false} HandlersConcat(a: seq<Entry>, b: seq<Entry>, e: Event)
    ensures HandlersFor(a + b, e) == HandlersFor(a, e) + HandlersFor(b, e)
  {
    if b == [] {
      assert a + b == a;
    } else {
      var n := |b| - 1;
      HandlersConcat(a, b[..n], e);
      assert (a + b)[..|a + b| - 1] == a + b[..n];
    }
  }

  lemma HandlersOne(entry: Entry, e: Event)
    ensures HandlersFor([entry], e)
            == if entry.eventType == None || entry.eventType.value in e.types then entry.handlers else []
  {
    assert [entry][..0] == [];
  }

  datatype Subscription = Subscription(eventType: Option<string>, handler: Handler)

  function Under(subs: seq<Subscription>, t: Option<string>): seq<Handler> {
    if subs == [] then []
    else
      var n := |subs| - 1;
      Under(subs[..n], t) + if subs[n].eventType == t then [subs[n].handler] else []
  }

  function Listed(table: seq<Entry>, t: Option<string>): seq<Handler> {
    var i := Position(table, t);
    if i < |table| then table[i].handlers else []
  }

  /** Cancelling takes away the oldest equal subscription. */
  function Cancel(subs: seq<Subscription>, s: Subscription): seq<Subscription> {
    if subs == [] then []
    else if subs[0] == s then subs[1..]
    else [subs[0]] + Cancel(subs[1..], s)
  }

  lemma {:induction false} UnderConcat(a: seq<Subscription>, b: seq<Subscription>, t: Option<string>)
    ensures Under(a + b, t) == Under(a, t) + Under(b, t)
  {
    if b == [] {
      assert a + b == a;
    } else {
      var n := |b| - 1;
      UnderConcat(a, b[..n], t);
      assert (a + b)[..|a + b| - 1] == a + b[..n];
    }
  }

  lemma UnderOne(s: Subscription, t: Option<string>)
    ensures Under([s], t) == if s.eventType == t then [s.handler] else []
  {
    assert [s][..0] == [];
  }

  lemma {:induction false} CancelUnder(subs: seq<Subscription>, s: Subscription, t: Option<string>)
    ensures Under(Cancel(subs, s), t)
            == if t == s.eventType && s.handler in Under(subs, t) then RemoveFirst(Under(subs, t), s.handler)
               else Under(subs, t)
  {
    hide Under;
    if subs != [] {
      assert subs == [subs[0]] + subs[1..];
      UnderConcat([subs[0]], subs[1..], t);
      UnderOne(subs[0], t);
      if subs[0] != s {
        CancelUnder(subs[1..], s, t);
        UnderConcat([subs[0]], Cancel(subs[1..], s), t);
      }
      var rest, left := Under(subs[1..], t), Under(Cancel(subs[1..], s), t);
      assert [] + rest == rest && [] + left == left;
      if subs[0].eventType == t == s.eventType { RemoveAhead(subs[0].handler, Under(subs[1..], t), s.handler); }
    } else {
      UnderNone(t);
    }
  }

  lemma RemoveAhead(g: Handler, rest: seq<Handler>, h: Handler)
    ensures g == h ==> RemoveFirst([g] + rest, h) == rest
    ensures g != h && h in rest ==> RemoveFirst([g] + rest, h) == [g] + RemoveFirst(rest, h)
  {
    assert ([g] + rest)[1..] == rest;
  }

  lemma UnderNone(t: Option<string>)
    ensures Under([], t) == []
  {
  }

  ghost predicate DistinctKeys(table: seq<Entry>) {
    forall i, j :: 0 <= i < j < |table| ==> table[i].eventType != table[j].eventType
  }

  lemma {:induction false} PositionFirst(table: seq<Entry>, t: Option<string>)
    ensures forall k :: 0 <= k < Position(table, t) ==> table[k].eventType != t
  {
    if table != [] { PositionFirst(table[..|table| - 1], t); }
  }

  lemma ListedAt(table: seq<Entry>, t: Option<string>, i: nat)
    requires DistinctKeys(table) && i < |table| && table[i].eventType == t
    ensures Position(table, t) == i && Listed(table, t) == table[i].handlers
  {
    PositionFirst(table, t);
  }

  lemma NotListed(table: seq<Entry>, t: Option<string>)
    requires forall i :: 0 <= i < |table| ==> table[i].eventType != t
    ensures Position(table, t) == |table| && Listed(table, t) == []
  {
  }

  /** Replacing one key's list leaves the others alone. */
  lemma ReplaceListed(table: seq<Entry>, i: nat, handlers: seq<Handler>, k: Option<string>)
    requires DistinctKeys(table) && i < |table|
    ensures var all := table[i := Entry(table[i].eventType, handlers)];
      DistinctKeys(all) && Listed(all, k) == if k == table[i].eventType then handlers else Listed(table, k)
  {
    hide Position, Listed;
    var all := table[i := Entry(table[i].eventType, handlers)];
    if j :| 0 <= j < |table| && table[j].eventType == k {
      ListedAt(table, k, j);
      ListedAt(all, k, j);
    } else {
      NotListed(table, k);
      NotListed(all, k);
    }
  }

  lemma AppendListed(table: seq<Entry>, entry: Entry, k: Option<string>)
    requires DistinctKeys(table) && forall i :: 0 <= i < |table| ==> table[i].eventType != entry.eventType
    ensures var all := table + [entry];
      DistinctKeys(all) && Listed(all, k) == if k == entry.eventType then entry.handlers else Listed(table, k)
  {
    hide Position, Listed;
    var all := table + [entry];
    assert all[|table|] == entry;
    if k == entry.eventType {
      ListedAt(all, k, |table|);
    } else if j :| 0 <= j < |table| && table[j].eventType == k {
      ListedAt(table, k, j);
      ListedAt(all, k, j);
    } else {
      NotListed(table, k);
      NotListed(all, k);
    }
  }

  /** A subscription goes to the end of its key's list and a new key to the end of the table. */
  lemma AddMeaning(table: seq<Entry>, t: Option<string>, h: Handler, k: Option<string>)
    requires DistinctKeys(table)
    ensures DistinctKeys(Add(table, t, h)) && |table| <= |Add(table, t, h)|
    ensures forall i :: 0 <= i < |table| ==> Add(table, t, h)[i].eventType == table[i].eventType
    ensures Listed(Add(table, t, h), k) == Listed(table, k) + if k == t then [h] else []
  {
    hide DistinctKeys;
    PositionFirst(table, t);
    var i := Position(table, t);
    if i < |table| {
      ReplaceListed(table, i, table[i].handlers + [h], k);
    } else {
      AppendListed(table, Entry(t, [h]), k);
    }
  }

  lemma RemoveMeaning(table: seq<Entry>, t: Option<string>, h: Handler, k: Option<string>)
    requires DistinctKeys(table)
    ensures DistinctKeys(Remove(table, t, h)) && (Present(table, t, h) <==> h in Listed(table, t))
    ensures Listed(Remove(table, t, h), k)
            == if k == t && h in Listed(table, t) then RemoveFirst(Listed(table, t), h) else Listed(table, k)
  {
    hide DistinctKeys, RemoveFirst;
    var i := Position(table, t);
    if i < |table| && h in table[i].handlers { ReplaceListed(table, i, RemoveFirst(table[i].handlers, h), k); }
  }

  // ----- The bus as a state machine

  /** The event being dispatched, the handlers matched when it was taken and those that have ended. */
  datatype Flight = Flight(event: Event, handlers: seq<Handler>, ended: set<nat>)

  datatype DeadLetter = DeadLetter(event: Event, handler: Handler)

  datatype Stats = Stats(published: nat, dispatched: nat, handlerErrors: nat, dropped: nat, subscribers: nat)

  datatype State = State(running: bool, maxQueue: nat, deadLimit: nat, table: seq<Entry>, queue: seq<Event>,
                         flight: Option<Flight>, stats: Stats, dead: seq<DeadLetter>)

  datatype Step =
    | SetRunning(on: bool)
    | Subscribe(eventType: Option<string>, handler: Handler)
    | Unsubscribe(fromType: Option<string>, gone: Handler)
    | Publish(event: Event)
    | Take
    | End(index: nat, failed: bool)
    | Complete

  /** `asyncio.Queue(maxsize=0)` is unbounded. */
  predicate Accepts(s: State) { s.running && (s.maxQueue == 0 || |s.queue| < s.maxQueue) }

  predicate Enabled(s: State, step: Step) {
    match step
    case Take => s.flight.None? && s.queue != []
    case End(i, _) => s.flight.Some? && i < |s.flight.value.handlers| && i !in s.flight.value.ended
    case Complete => s.flight.Some? && forall i: nat :: i < |s.flight.value.handlers| ==> i in s.flight.value.ended
    case _ => true
  }

  function Next(s: State, step: Step): State {
    if !Enabled(s, step) then s
    else match step
      case SetRunning(on) => s.(running := on)
      case Subscribe(t, h) =>
        s.(table := Add(s.table, t, h), stats := s.stats.(subscribers := s.stats.subscribers + 1))
      case Unsubscribe(t, h) =>
        if Present(s.table, t, h) && s.stats.subscribers > 0 then
          s.(table := Remove(s.table, t, h), stats := s.stats.(subscribers := s.stats.subscribers - 1))
        else s
      case Publish(e) =>
        if Accepts(s) then
          s.(queue := s.queue + [e], stats := s.stats.(published := s.stats.published + 1))
        else if s.running then s.(stats := s.stats.(dropped := s.stats.dropped + 1))
        else s
      case Take =>
        var handlers := HandlersFor(s.table, s.queue[0]);
        s.(queue := s.queue[1..],
           flight := if handlers == [] then None else Some(Flight(s.queue[0], handlers, {})))
      case End(i, failed) =>
        var f := s.flight.value;
        var s' := s.(flight := Some(f.(ended := f.ended + {i})));
        if failed then
          s'.(stats := s.stats.(handlerErrors := s.stats.handlerErrors + 1),
              dead := Retain(s.dead, DeadLetter(f.event, f.handlers[i]), s.deadLimit))
        else s'
      case Complete => s.(flight := None, stats := s.stats.(dispatched := s.stats.dispatched + 1))
  }

  class EventBus {
    const maxQueue: nat
    const deadLimit: nat
    var running: bool
    var table: seq<Entry>
    var queue: seq<Event>
    var flight: Option<Flight>
    var stats: Stats
    var dead: seq<DeadLetter>

    function Snapshot(): State
      reads this
    {
      State(running, maxQueue, deadLimit, table, queue, flight, stats, dead)
    }

    ghost predicate Valid()
      reads this
    {
      stats.subscribers == Registered(table)
    }

    constructor (maxQueue: nat, deadLimit: nat)
      ensures Valid() && Snapshot() == Initial(maxQueue, deadLimit)
    {
      this.maxQueue, this.deadLimit, running := maxQueue, deadLimit, false;
      table, queue, flight, stats, dead := [], [], None, Stats(0, 0, 0, 0, 0), [];
    }

    method Subscribe(handler: Handler, eventType: Option<string>)
      requires Valid()
      modifies this
      ensures Valid() && Snapshot() == Next(old(Snapshot()), Step.Subscribe(eventType, handler))
    {
      hide Registered;
      RegisteredCounts(table, eventType, handler);
      var i := Position(table, eventType);
      if i == |table| {
        table := table + [Entry(eventType, [handler])];
      } else {
        table := table[i := Entry(eventType, table[i].handlers + [handler])];
      }
      stats := stats.(subscribers := stats.subscribers + 1);
    }

    method Unsubscribe(eventType: Option<string>, handler: Handler)
      requires Valid()
      modifies this
      ensures Valid() && Snapshot() == Next(old(Snapshot()), Step.Unsubscribe(eventType, handler))
    {
      hide Registered;
      RegisteredCounts(table, eventType, handler);
      var i := Position(table, eventType);
      if i < |table| && handler in table[i].handlers {
        table := table[i := Entry(eventType, RemoveFirst(table[i].handlers, handler))];
        stats := stats.(subscribers := stats.subscribers - 1);
      }
    }

    /** False stands for the error raised when the bus is stopped or the queue is full. */
    method Publish(e: Event) returns (accepted: bool)
      requires Valid()
      modifies this
      ensures Valid() && accepted == Accepts(old(Snapshot()))
      ensures Snapshot() == Next(old(Snapshot()), Step.Publish(e))
    {
      if !running { return false; }
      if maxQueue > 0 && |queue| >= maxQueue {
        stats := stats.(dropped := stats.dropped + 1);
        return false;
      }
      queue := queue + [e];
      stats := stats.(published := stats.published + 1);
      return true;
    }

    /** Handlers of the event type, its bases and the wildcard, in table order. */
    method CollectHandlers(e: Event) returns (matched: seq<Handler>)
      ensures matched == HandlersFor(table, e)
    {
      matched := [];
      for i := 0 to |table|
        invariant matched == HandlersFor(table[..i], e)
      {
        assert table[..i + 1][..i] == table[..i];
        if Matches(table[i].eventType, e) { matched := matched + table[i].handlers; }
      }
      assert table[..|table|] == table;
    }

    /** The worker takes the oldest event and starts every matching handler. */
    method Take()
      requires Valid() && flight.None? && queue != []
      modifies this
      ensures Valid() && Snapshot() == Next(old(Snapshot()), Step.Take)
    {
      var e := queue[0];
      var handlers := CollectHandlers(e);
      queue := queue[1..];
      if handlers != [] { flight := Some(Flight(e, handlers, {})); }
    }

    /** One handler returns or raises; a failure is recorded and isolated. */
    method HandlerEnds(i: nat, failed: bool)
      requires Valid() && flight.Some? && i < |flight.value.handlers| && i !in flight.value.ended
      modifies this
      ensures Valid() && Snapshot() == Next(old(Snapshot()), End(i, failed))
    {
      var f := flight.value;
      flight := Some(f.(ended := f.ended + {i}));
      if failed {
        stats := stats.(handlerErrors := stats.handlerErrors + 1);
        dead := Retain(dead, DeadLetter(f.event, f.handlers[i]), deadLimit);
      }
    }

    method Complete()
      requires Valid() && Enabled(Snapshot(), Step.Complete)
      modifies this
      ensures Valid() && Snapshot() == Next(old(Snapshot()), Step.Complete)
    {
      flight := None;
      stats := stats.(dispatched := stats.dispatched + 1);
    }
  }

  // ----- Runs and what they record

  function Initial(maxQueue: nat, deadLimit: nat): State {
    State(false, maxQueue, deadLimit, [], [], None, Stats(0, 0, 0, 0, 0), [])
  }

  function Run(s0: State, steps: seq<Step>): State {
    if steps == [] then s0 else Next(Run(s0, steps[..|steps| - 1]), steps[|steps| - 1])
  }

  /** A handler entry `index` of the `event`-th taken event. */
  datatype Delivery = Delivery(event: nat, index: nat)

  /** Everything observable about a run: accepted events, taken events with the handlers they were
      handed to, handler endings in order, and recorded failures. */
  datatype Trace = Trace(accepted: seq<Event>, taken: seq<Flight>, endings: seq<Delivery>, failures: seq<DeadLetter>)

  function Record(s: State, step: Step, t: Trace): Trace {
    if !Enabled(s, step) then t
    else match step
      case Publish(e) =>
        if s.running && (s.maxQueue == 0 || |s.queue| < s.maxQueue) then t.(accepted := t.accepted + [e]) else t
      case Take => t.(taken := t.taken + [Flight(s.queue[0], HandlersFor(s.table, s.queue[0]), {})])
      case End(i, failed) =>
        var f := s.flight.value;
        var t' := t.(endings := t.endings + [Delivery(if t.taken == [] then 0 else |t.taken| - 1, i)]);
        if failed then t'.(failures := t.failures + [DeadLetter(f.event, f.handlers[i])]) else t'
      case _ => t
  }

  function TraceOf(s0: State, steps: seq<Step>): Trace {
    if steps == [] then Trace([], [], [], [])
    else
      var before := steps[..|steps| - 1];
      Record(Run(s0, before), steps[|steps| - 1], TraceOf(s0, before))
  }

  function EventsOf(taken: seq<Flight>): seq<Event> {
    seq(|taken|, i requires 0 <= i < |taken| => taken[i].event)
  }

  /** Taken events whose handlers existed and have all ended. */
  function Dispatched(taken: seq<Flight>, flying: bool): nat {
    if taken == [] then 0
    else
      var n := |taken| - 1;
      Dispatched(taken[..n], false) + if taken[n].handlers != [] && !flying then 1 else 0
  }

  /** Events leave in arrival order: what was taken plus what is queued is what was accepted. */
  ghost predicate InOrder(s: State, t: Trace) {
    && t.accepted == EventsOf(t.taken) + s.queue
    && s.stats.published == |t.accepted|
    && s.stats.dispatched == Dispatched(t.taken, s.flight.Some?)
    && s.stats.subscribers == Registered(s.table)
    && (s.flight.Some? ==> t.taken != [] && s.flight.value.event == t.taken[|t.taken| - 1].event
                           && s.flight.value.handlers == t.taken[|t.taken| - 1].handlers != [])
  }

  /** The delivery belongs to a finished event, or to the current one and has ended. */
  predicate Over(taken: seq<Flight>, flight: Option<Flight>, d: Delivery) {
    && d.event < |taken| && d.index < |taken[d.event].handlers|
    && (d.event < |taken| - 1 || flight.None? || d.index in flight.value.ended)
  }

  /** Each delivery that is over ended exactly once, and nothing else ended. */
  ghost predicate OverOnce(endings: seq<Delivery>, taken: seq<Flight>, flight: Option<Flight>) {
    forall d: Delivery :: multiset(endings)[d] == if Over(taken, flight, d) then 1 else 0
  }

  ghost predicate EndedOnce(s: State, t: Trace) { OverOnce(t.endings, t.taken, s.flight) }

  /** No handler of an event ends after a handler of a later one. */
  ghost predicate EndingsOrdered(t: Trace) {
    && (forall i :: 0 <= i < |t.endings| ==> t.endings[i].event < |t.taken|)
    && (forall i, j :: 0 <= i < j < |t.endings| ==> t.endings[i].event <= t.endings[j].event)
  }

  /** The dead-letter queue holds the most recent failures, as many as fit. */
  ghost predicate DeadLettersRecent(s: State, t: Trace) {
    s.stats.handlerErrors == |t.failures| && s.dead == Latest(t.failures, s.deadLimit)
  }

  ghost predicate Invariant(s: State, t: Trace) {
    InOrder(s, t) && EndedOnce(s, t) && EndingsOrdered(t) && DeadLettersRecent(s, t)
  }

  lemma StepInOrder(s: State, step: Step, t: Trace)
    requires InOrder(s, t)
    ensures InOrder(Next(s, step), Record(s, step, t))
  {
    match step
    case Subscribe(ty, h) =>
      hide Registered, Add;
      RegisteredCounts(s.table, ty, h);
    case Unsubscribe(ty, h) =>
      hide Registered, Remove;
      RegisteredCounts(s.table, ty, h);
    case Publish(e) =>
      assert EventsOf(t.taken) + (s.queue + [e]) == EventsOf(t.taken) + s.queue + [e];
    case Take => if Enabled(s, step) { TakeInOrder(s, t); }
    case _ =>
  }

  lemma TakeInOrder(s: State, t: Trace)
    requires InOrder(s, t) && Enabled(s, Take)
    ensures InOrder(Next(s, Take), Record(s, Take, t))
  {
    hide HandlersFor, Registered;
    var t' := Record(s, Take, t);
    assert t'.taken[..|t.taken|] == t.taken;
    assert EventsOf(t'.taken) == EventsOf(t.taken) + [s.queue[0]];
    assert s.queue == [s.queue[0]] + s.queue[1..];
  }

  lemma StepEndedOnce(s: State, step: Step, t: Trace)
    requires InOrder(s, t) && EndedOnce(s, t)
    ensures EndedOnce(Next(s, step), Record(s, step, t))
  {
    hide OverOnce, Registered, Dispatched, Add, Remove, HandlersFor, EventsOf, Over;
    if step.End? && Enabled(s, step) {
      HandlerEndsOnce(t.endings, t.taken, s.flight.value, step.index);
    } else if step.Take? && Enabled(s, step) {
      TakenOver(t.taken, Next(s, step).flight, Flight(s.queue[0], HandlersFor(s.table, s.queue[0]), {}), t.endings);
    } else if step.Complete? && Enabled(s, step) {
      CompletedOver(t.taken, s.flight.value, t.endings);
    }
  }

  lemma HandlerEndsOnce(endings: seq<Delivery>, taken: seq<Flight>, f: Flight, i: nat)
    requires OverOnce(endings, taken, Some(f)) && taken != [] && f.handlers == taken[|taken| - 1].handlers
    requires i < |f.handlers| && i !in f.ended
    ensures OverOnce(endings + [Delivery(|taken| - 1, i)], taken, Some(f.(ended := f.ended + {i})))
  {
    var d := Delivery(|taken| - 1, i);
    assert multiset(endings + [d]) == multiset(endings) + multiset{d};
    forall e: Delivery
      ensures Over(taken, Some(f.(ended := f.ended + {i})), e) <==> e == d || Over(taken, Some(f), e)
    {
    }
  }

  lemma TakenOver(taken: seq<Flight>, flight: Option<Flight>, f: Flight, endings: seq<Delivery>)
    requires OverOnce(endings, taken, None) && flight == if f.handlers == [] then None else Some(f)
    requires f.ended == {}
    ensures OverOnce(endings, taken + [f], flight)
  {
    forall e: Delivery ensures Over(taken + [f], flight, e) <==> Over(taken, None, e) {}
  }

  lemma CompletedOver(taken: seq<Flight>, f: Flight, endings: seq<Delivery>)
    requires OverOnce(endings, taken, Some(f)) && taken != [] && f.handlers == taken[|taken| - 1].handlers
    requires forall i :: 0 <= i < |f.handlers| ==> i in f.ended
    ensures OverOnce(endings, taken, None)
  {
    forall e: Delivery ensures Over(taken, None, e) <==> Over(taken, Some(f), e) {}
  }

  lemma StepEndings(s: State, step: Step, t: Trace)
    requires InOrder(s, t) && EndingsOrdered(t)
    ensures EndingsOrdered(Record(s, step, t))
  {
  }

  lemma StepDeadLetters(s: State, step: Step, t: Trace)
    requires DeadLettersRecent(s, t)
    ensures DeadLettersRecent(Next(s, step), Record(s, step, t))
  {
    hide Registered, Add, Remove, HandlersFor, Retain, Latest;
    if step.End? && Enabled(s, step) {
      var f := s.flight.value;
      RetainLatest(t.failures, DeadLetter(f.event, f.handlers[step.index]), s.deadLimit);
    }
  }

  /** The protocol invariant holds along every run. */
  lemma {:induction false} RunInvariant(maxQueue: nat, deadLimit: nat, steps: seq<Step>)
    ensures Invariant(Run(Initial(maxQueue, deadLimit), steps), TraceOf(Initial(maxQueue, deadLimit), steps))
  {
    var s0 := Initial(maxQueue, deadLimit);
    if steps == [] {
      assert forall d: Delivery :: multiset(TraceOf(s0, []).endings)[d] == 0;
    } else {
      hide InOrder, EndedOnce, EndingsOrdered, DeadLettersRecent, Next, Record;
      var before := steps[..|steps| - 1];
      RunInvariant(maxQueue, deadLimit, before);
      var s, step, t := Run(s0, before), steps[|steps| - 1], TraceOf(s0, before);
      StepInOrder(s, step, t);
      StepEndedOnce(s, step, t);
      StepEndings(s, step, t);
      StepDeadLetters(s, step, t);
    }
  }

  /** Taken events that no handler was subscribed to. */
  function Unheard(taken: seq<Flight>): nat {
    if taken == [] then 0
    else
      var n := |taken| - 1;
      Unheard(taken[..n]) + if taken[n].handlers == [] then 1 else 0
  }

  lemma {:induction false} TakenSplit(taken: seq<Flight>, flying: bool)
    requires flying ==> taken != [] && taken[|taken| - 1].handlers != []
    ensures |taken| == Dispatched(taken, flying) + Unheard(taken) + if flying then 1 else 0
  {
    if taken != [] { TakenSplit(taken[..|taken| - 1], false); }
  }

  /** Conservation: every published event is counted as dispatched, found no handler, is in flight or queued. */
  lemma {:induction false} PublishedConserved(maxQueue: nat, deadLimit: nat, steps: seq<Step>)
    ensures var s, t := Run(Initial(maxQueue, deadLimit), steps), TraceOf(Initial(maxQueue, deadLimit), steps);
      s.stats.published
      == s.stats.dispatched + Unheard(t.taken) + (if s.flight.Some? then 1 else 0) + |s.queue|
  {
    RunInvariant(maxQueue, deadLimit, steps);
    var s0 := Initial(maxQueue, deadLimit);
    TakenSplit(TraceOf(s0, steps).taken, Run(s0, steps).flight.Some?);
  }

  /** When the bus is idle, every accepted event was handed once to each handler entry matched when it
      was taken, in acceptance order, and each of those handlers ended exactly once. */
  lemma ExactlyOnce(maxQueue: nat, deadLimit: nat, steps: seq<Step>, n: nat, i: nat)
    requires var s := Run(Initial(maxQueue, deadLimit), steps); s.queue == [] && s.flight.None?
    ensures var t := TraceOf(Initial(maxQueue, deadLimit), steps);
      && EventsOf(t.taken) == t.accepted
      && (n < |t.taken| && i < |t.taken[n].handlers| ==> multiset(t.endings)[Delivery(n, i)] == 1)
      && (!(n < |t.taken| && i < |t.taken[n].handlers|) ==> multiset(t.endings)[Delivery(n, i)] == 0)
  {
    RunInvariant(maxQueue, deadLimit, steps);
  }

  /** A new event is taken only after every handler of the previous one has ended. */
  lemma {:induction false} NoOverlap(maxQueue: nat, deadLimit: nat, steps: seq<Step>, n: nat, i: nat)
    requires var s0 := Initial(maxQueue, deadLimit);
      Enabled(Run(s0, steps), Take) && n < |TraceOf(s0, steps).taken| && i < |TraceOf(s0, steps).taken[n].handlers|
    ensures multiset(TraceOf(Initial(maxQueue, deadLimit), steps).endings)[Delivery(n, i)] == 1
  {
    RunInvariant(maxQueue, deadLimit, steps);
  }

  // ----- Subscriptions and publications of a run, step by step

  /** The subscriptions in force. */
  function SubscriptionsOf(steps: seq<Step>): seq<Subscription> {
    if steps == [] then [] else Resubscribed(SubscriptionsOf(steps[..|steps| - 1]), steps[|steps| - 1])
  }

  function Resubscribed(subs: seq<Subscription>, step: Step): seq<Subscription> {
    match step
    case Subscribe(t, h) => subs + [Subscription(t, h)]
    case Unsubscribe(t, h) => Cancel(subs, Subscription(t, h))
    case _ => subs
  }

  ghost predicate Refines(table: seq<Entry>, subs: seq<Subscription>) {
    DistinctKeys(table) && forall t: Option<string> :: Listed(table, t) == Under(subs, t)
  }

  /** In every run the table lists under each key the subscriptions to it in force, oldest first. */
  lemma {:induction false} TableIsSubscriptions(maxQueue: nat, deadLimit: nat, steps: seq<Step>)
    ensures Refines(Run(Initial(maxQueue, deadLimit), steps).table, SubscriptionsOf(steps))
  {
    hide Refines, Add, Remove, Resubscribed, Next;
    if steps == [] {
      NothingListed();
    } else {
      var n, s0 := |steps| - 1, Initial(maxQueue, deadLimit);
      TableIsSubscriptions(maxQueue, deadLimit, steps[..n]);
      RunInvariant(maxQueue, deadLimit, steps[..n]);
      TableStep(Run(s0, steps[..n]), steps[n], SubscriptionsOf(steps[..n]), TraceOf(s0, steps[..n]));
    }
  }

  lemma NothingListed()
    ensures Refines([], [])
  {
  }

  lemma TableStep(s: State, step: Step, subs: seq<Subscription>, tr: Trace)
    requires Refines(s.table, subs) && InOrder(s, tr)
    ensures Refines(Next(s, step).table, Resubscribed(subs, step))
  {
    hide Add, Remove, Cancel, Under, Listed, Present, Registered, HandlersFor;
    match step
    case Subscribe(t, h) =>
      forall k: Option<string> ensures Listed(Add(s.table, t, h), k) == Under(subs + [Subscription(t, h)], k) {
        AddMeaning(s.table, t, h, k);
        UnderConcat(subs, [Subscription(t, h)], k);
        UnderOne(Subscription(t, h), k);
      }
      AddMeaning(s.table, t, h, t);
    case Unsubscribe(t, h) =>
      RemoveMeaning(s.table, t, h, t);
      CountedPresent(s.table, t, h);
      forall k: Option<string>
        ensures Listed(Remove(s.table, t, h), k) == Under(Cancel(subs, Subscription(t, h)), k)
        ensures !Present(s.table, t, h) ==> Listed(s.table, k) == Under(Cancel(subs, Subscription(t, h)), k)
      {
        RemoveMeaning(s.table, t, h, k);
        CancelUnder(subs, Subscription(t, h), k);
      }
    case _ =>
  }

  lemma CountedPresent(table: seq<Entry>, t: Option<string>, h: Handler)
    ensures Present(table, t, h) ==> Registered(table) > 0
  {
    RegisteredCounts(table, t, h);
  }

  /** Publications of a run that found the bus running with room in the queue, or running and full. */
  function Admissions(s0: State, steps: seq<Step>, full: bool): nat {
    if steps == [] then 0
    else
      var n := |steps| - 1;
      var s := Run(s0, steps[..n]);
      Admissions(s0, steps[..n], full)
      + if steps[n].Publish? && s.running && full == (s.maxQueue > 0 && |s.queue| >= s.maxQueue) then 1 else 0
  }

  /** An event is accepted exactly when the bus runs and its queue has room and dropped exactly when it runs and the
      queue is full, so the queue never exceeds its limit. */
  lemma {:induction false} AdmissionsCounted(maxQueue: nat, deadLimit: nat, steps: seq<Step>)
    ensures var s0 := Initial(maxQueue, deadLimit);
      var s := Run(s0, steps);
      && s.maxQueue == maxQueue && (maxQueue > 0 ==> |s.queue| <= maxQueue)
      && s.stats.published == Admissions(s0, steps, false) && s.stats.dropped == Admissions(s0, steps, true)
  {
    hide HandlersFor, Add, Remove, Present;
    if steps != [] { AdmissionsCounted(maxQueue, deadLimit, steps[..|steps| - 1]); }
  }

  /** The worker is never stuck: there is a next event to take, a handler still to end, or an event to complete. */
  lemma WorkerNeverStuck(s: State)
    requires s.queue != [] || s.flight.Some?
    ensures (s.flight.None? ==> Enabled(s, Take))
    ensures s.flight.Some? ==>
      Enabled(s, Complete) || exists i: nat :: i < |s.flight.value.handlers| && Enabled(s, End(i, false))
  {
    if s.flight.Some? && !Enabled(s, Complete) {
      var i: nat :| i < |s.flight.value.handlers| && i !in s.flight.value.ended;
      assert Enabled(s, End(i, false));
    }
  }
}
