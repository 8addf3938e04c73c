/** Token-bucket rate limiting, keyed by client. */
module RateLimiting {
  import opened Numeric
  import opened Options

  datatype Bucket = Bucket(tokens: real, updatedAt: real)

  datatype Limits = Limits(capacity: real, refillPerSecond: real) {
    predicate Valid() { capacity >= 1.0 && refillPerSecond > 0.0 }

    /** Tokens regained over a stretch of time. */
    function Regained(elapsed: real): real { elapsed * refillPerSecond }
  }

  function LimitsFor(capacity: int, windowSeconds: real): (l: Limits)
    ensures l.Valid()
  {
    var c := if capacity >= 1 then capacity as real else 1.0;
    var w := Max(0.001, windowSeconds);
    DivMul(c, w);
    assert c / w > 0.0 by { if c / w <= 0.0 { MulMonotone(c / w, 0.0, w); } }
    Limits(c, c / w)
  }

  /** A burst of at least one call, all of which one window of at least a millisecond regains. */
  lemma LimitsMeaning(capacity: int, windowSeconds: real)
    ensures var l := LimitsFor(capacity, windowSeconds);
      && (capacity >= 1 ==> l.capacity == capacity as real) && (capacity < 1 ==> l.capacity == 1.0)
      && l.Regained(if windowSeconds < 0.001 then 0.001 else windowSeconds) == l.capacity
  {
    var l := LimitsFor(capacity, windowSeconds);
    DivMul(l.capacity, Max(0.001, windowSeconds));
  }

  type Buckets = map<string, Bucket>

  ghost predicate BucketsValid(l: Limits, b: Buckets) {
    forall k | k in b :: 0.0 <= b[k].tokens <= l.capacity
  }

  /** Tokens at hand when `key` calls at `now`. */
  function Available(l: Limits, b: Buckets, key: string, now: real): real {
    if key in b then Min(l.capacity, b[key].tokens + l.Regained(Max(0.0, now - b[key].updatedAt)))
    else l.capacity
  }

  predicate Granted(l: Limits, b: Buckets, key: string, now: real) { Available(l, b, key, now) >= 1.0 }

  function AfterCall(l: Limits, b: Buckets, key: string, now: real): Buckets {
    var tokens := Available(l, b, key, now);
    b[key := Bucket(if tokens >= 1.0 then tokens - 1.0 else tokens, now)]
  }

  class RateLimiter {
    const limits: Limits
    var buckets: Buckets

    ghost predicate Valid()
      reads this
    {
      limits.Valid() && BucketsValid(limits, buckets)
    }

    constructor (capacity: int, windowSeconds: real)
      ensures Valid() && buckets == map[] && limits == LimitsFor(capacity, windowSeconds)
    {
      limits := LimitsFor(capacity, windowSeconds);
      buckets := map[];
    }

    method Allow(key: string, now: real) returns (allowed: bool)
      requires Valid()
      modifies this
      ensures Valid()
      ensures allowed == Granted(limits, old(buckets), key, now)
      ensures buckets == AfterCall(limits, old(buckets), key, now)
    {
      CallKeepsValid(limits, buckets, key, now);
      if key !in buckets {
        buckets := buckets[key := Bucket(limits.capacity - 1.0, now)];
        return true;
      }
      var elapsed := Max(0.0, now - buckets[key].updatedAt);
      var tokens := Min(limits.capacity, buckets[key].tokens + limits.Regained(elapsed));
      if tokens >= 1.0 {
        buckets := buckets[key := Bucket(tokens - 1.0, now)];
        return true;
      }
      buckets := buckets[key := Bucket(tokens, now)];
      return false;
    }

    method Reset(key: Option<string>)
      requires Valid()
      modifies this
      ensures Valid()
      ensures buckets == if key.None? then map[] else old(buckets) - {key.value}
    {
      buckets := if key.None? then map[] else buckets - {key.value};
    }
  }

  lemma RegainedMonotone(l: Limits, a: real, b: real)
    requires l.Valid() && a <= b
    ensures l.Regained(a) <= l.Regained(b)
  {
    MulMonotone(a, b, l.refillPerSecond);
  }

  lemma RegainedAdds(l: Limits, a: real, b: real)
    ensures l.Regained(a) + l.Regained(b) == l.Regained(a + b)
    ensures l.Regained(0.0) == 0.0
  {
  }

  lemma CallKeepsValid(l: Limits, b: Buckets, key: string, now: real)
    requires l.Valid() && BucketsValid(l, b)
    ensures 0.0 <= Available(l, b, key, now) <= l.capacity
    ensures BucketsValid(l, AfterCall(l, b, key, now))
  {
    hide Limits.Regained;
    if key in b {
      RegainedMonotone(l, 0.0, Max(0.0, now - b[key].updatedAt));
      RegainedAdds(l, 0.0, 0.0);
    }
  }

  // ----- Runs

  datatype Call = Call(key: string, now: real)

  function StateAfter(l: Limits, b: Buckets, calls: seq<Call>): Buckets
    decreases calls
  {
    if calls == [] then b
    else StateAfter(l, AfterCall(l, b, calls[0].key, calls[0].now), calls[1..])
  }

  /** Calls of `key` granted at a time inside [s, t]. */
  function GrantedIn(l: Limits, b: Buckets, calls: seq<Call>, key: string, s: real, t: real): nat
    decreases calls
  {
    if calls == [] then 0
    else
      var c := calls[0];
      (if c.key == key && s <= c.now <= t && Granted(l, b, key, c.now) then 1 else 0)
      + GrantedIn(l, AfterCall(l, b, c.key, c.now), calls[1..], key, s, t)
  }

  /** The key's own call times never fall, nor below `last`. */
  ghost predicate Ordered(calls: seq<Call>, key: string, last: Option<real>) {
    calls == []
    || if calls[0].key != key then Ordered(calls[1..], key, last)
       else (last.Some? ==> last.value <= calls[0].now) && Ordered(calls[1..], key, Some(calls[0].now))
  }

  lemma {:induction false} StateStaysValid(l: Limits, b: Buckets, calls: seq<Call>)
    requires l.Valid() && BucketsValid(l, b)
    ensures BucketsValid(l, StateAfter(l, b, calls))
    decreases calls
  {
    if calls != [] {
      CallKeepsValid(l, b, calls[0].key, calls[0].now);
      StateStaysValid(l, AfterCall(l, b, calls[0].key, calls[0].now), calls[1..]);
    }
  }

  /** From a call inside the window on: the bucket's tokens plus what the remaining window regains. */
  lemma {:induction false} GrantedAfter(l: Limits, b: Buckets, calls: seq<Call>, key: string, s: real, t: real)
    requires l.Valid() && BucketsValid(l, b) && key in b && s <= b[key].updatedAt
    requires Ordered(calls, key, Some(b[key].updatedAt))
    ensures GrantedIn(l, b, calls, key, s, t) as real
            <= b[key].tokens + l.Regained(Max(0.0, t - b[key].updatedAt))
    decreases calls
  {
    hide Limits.Regained;
    var left := Max(0.0, t - b[key].updatedAt);
    RegainedMonotone(l, 0.0, left);
    RegainedAdds(l, 0.0, 0.0);
    if calls != [] {
      var c := calls[0];
      var after := AfterCall(l, b, c.key, c.now);
      CallKeepsValid(l, b, c.key, c.now);
      GrantedAfter(l, after, calls[1..], key, s, t);
      if c.key == key {
        RegainedAdds(l, c.now - b[key].updatedAt, Max(0.0, t - c.now));
        if c.now > t { NoneAfter(l, after, calls[1..], key, s, t, c.now); }
      }
    }
  }

  lemma {:induction false} NoneAfter(l: Limits, b: Buckets, calls: seq<Call>, key: string, s: real, t: real, last: real)
    requires Ordered(calls, key, Some(last)) && last > t
    ensures GrantedIn(l, b, calls, key, s, t) == 0
    decreases calls
  {
    if calls != [] {
      var c := calls[0];
      NoneAfter(l, AfterCall(l, b, c.key, c.now), calls[1..], key, s, t, if c.key == key then c.now else last);
    }
  }

  lemma {:induction false} WindowBoundFrom(l: Limits, b: Buckets, calls: seq<Call>, key: string, s: real, t: real,
                                           last: Option<real>)
    requires l.Valid() && BucketsValid(l, b) && s <= t && Ordered(calls, key, last)
    ensures GrantedIn(l, b, calls, key, s, t) as real <= l.capacity + l.Regained(t - s)
    decreases calls
  {
    hide Limits.Regained;
    RegainedMonotone(l, 0.0, t - s);
    RegainedAdds(l, 0.0, 0.0);
    if calls != [] {
      var c := calls[0];
      var after := AfterCall(l, b, c.key, c.now);
      CallKeepsValid(l, b, c.key, c.now);
      if c.key == key && s <= c.now <= t {
        GrantedAfter(l, after, calls[1..], key, s, t);
        RegainedMonotone(l, t - c.now, t - s);
      } else {
        WindowBoundFrom(l, after, calls[1..], key, s, t, if c.key == key then Some(c.now) else last);
      }
    }
  }

  /** In any window of time a key is granted at most its burst plus the window's refill, after any earlier calls
      and whatever the other keys do, as long as the key's own times do not fall. */
  lemma WindowBound(l: Limits, earlier: seq<Call>, calls: seq<Call>, key: string, s: real, t: real)
    requires l.Valid() && s <= t && Ordered(calls, key, None)
    ensures GrantedIn(l, StateAfter(l, map[], earlier), calls, key, s, t) as real <= l.capacity + l.Regained(t - s)
  {
    StateStaysValid(l, map[], earlier);
    WindowBoundFrom(l, StateAfter(l, map[], earlier), calls, key, s, t, None);
  }

  /** Other keys' calls leave a key's bucket alone. */
  lemma {:induction false} OthersDoNotInterfere(l: Limits, b: Buckets, calls: seq<Call>, key: string)
    requires forall c | c in calls :: c.key != key
    ensures key in b <==> key in StateAfter(l, b, calls)
    ensures key in b ==> StateAfter(l, b, calls)[key] == b[key]
    decreases calls
  {
    if calls != [] {
      assert calls[0] in calls;
      OthersDoNotInterfere(l, AfterCall(l, b, calls[0].key, calls[0].now), calls[1..], key);
    }
  }

  function OwnCalls(calls: seq<Call>, key: string): seq<Call>
    decreases calls
  {
    if calls == [] then []
    else (if calls[0].key == key then [calls[0]] else []) + OwnCalls(calls[1..], key)
  }

  /** What a key is granted depends on its own bucket and its own calls alone. */
  lemma {:induction false} OwnCallsDecide(l: Limits, b: Buckets, own: Buckets, calls: seq<Call>, key: string,
                                          s: real, t: real)
    requires (key in b <==> key in own) && (key in b ==> own[key] == b[key])
    ensures GrantedIn(l, own, OwnCalls(calls, key), key, s, t) == GrantedIn(l, b, calls, key, s, t)
    decreases calls
  {
    if calls != [] {
      var c, rest := calls[0], OwnCalls(calls[1..], key);
      if c.key == key {
        assert ([c] + rest)[1..] == rest;
        OwnCallsDecide(l, AfterCall(l, b, key, c.now), AfterCall(l, own, key, c.now), calls[1..], key, s, t);
      } else {
        assert OwnCalls(calls, key) == rest;
        OwnCallsDecide(l, AfterCall(l, b, c.key, c.now), own, calls[1..], key, s, t);
      }
    }
  }

  // ----- A refusal is never unnecessary

  /** No own call lies after `now`. */
  ghost predicate UpTo(calls: seq<Call>, key: string, now: real) {
    forall k :: 0 <= k < |calls| && calls[k].key == key ==> calls[k].now <= now
  }

  lemma {:induction false} OrderedPrefix(calls: seq<Call>, last: Call, key: string, from: Option<real>)
    requires Ordered(calls + [last], key, from)
    ensures Ordered(calls, key, from) && (last.key == key ==> UpTo(calls, key, last.now))
    ensures last.key == key && from.Some? ==> from.value <= last.now
    decreases calls
  {
    var all := calls + [last];
    if calls != [] {
      assert all[1..] == calls[1..] + [last] && all[0] == calls[0];
      OrderedPrefix(calls[1..], last, key, if calls[0].key == key then Some(calls[0].now) else from);
      assert forall k :: 1 <= k < |calls| ==> calls[k] == calls[1..][k - 1];
    }
  }

  lemma LastCall(l: Limits, b: Buckets, calls: seq<Call>, last: Call, key: string, s: real, t: real)
    ensures var before := StateAfter(l, b, calls);
      && StateAfter(l, b, calls + [last]) == AfterCall(l, before, last.key, last.now)
      && GrantedIn(l, b, calls + [last], key, s, t)
         == GrantedIn(l, b, calls, key, s, t)
            + if last.key == key && s <= last.now <= t && Granted(l, before, key, last.now) then 1 else 0
  {
    hide AfterCall, Granted;
    GrantedConcat(l, b, calls, [last], key, s, t);
    assert [last][1..] == [];
  }

  lemma {:induction false} GrantedAtLeast(l: Limits, b: Buckets, calls: seq<Call>, key: string, s: real, u: real,
                                          t: real)
    requires u <= t
    ensures GrantedIn(l, b, calls, key, s, u) <= GrantedIn(l, b, calls, key, s, t)
    decreases calls
  {
    if calls != [] {
      GrantedAtLeast(l, AfterCall(l, b, calls[0].key, calls[0].now), calls[1..], key, s, u, t);
    }
  }

  /** Since the bucket was last full, tokens at hand and tokens granted make up the burst and everything regained. */
  lemma {:induction false} FullSince(l: Limits, calls: seq<Call>, key: string, now: real) returns (s: real)
    requires l.Valid() && Ordered(calls, key, None) && UpTo(calls, key, now)
    ensures s <= now && Available(l, StateAfter(l, map[], calls), key, now)
                        + GrantedIn(l, map[], calls, key, s, now) as real >= l.capacity + l.Regained(now - s)
    ensures key in StateAfter(l, map[], calls) <==> exists k :: 0 <= k < |calls| && calls[k].key == key
  {
    hide Limits.Regained, Granted, AfterCall, Available;
    RegainedAdds(l, 0.0, 0.0);
    if calls == [] {
      s := now;
      NewBucket(l, key, now);
    } else {
      var n, c := |calls| - 1, calls[|calls| - 1];
      assert calls == calls[..n] + [c];
      OrderedPrefix(calls[..n], c, key, None);
      var before := StateAfter(l, map[], calls[..n]);
      assert BucketsValid(l, map[]);
      StateStaysValid(l, map[], calls[..n]);
      if c.key != key {
        s := FullSince(l, calls[..n], key, now);
        LastCall(l, map[], calls[..n], c, key, s, now);
        OtherCall(l, before, c.key, c.now, key, now);
      } else {
        s := FullSince(l, calls[..n], key, c.now);
        LastCall(l, map[], calls[..n], c, key, s, now);
        GrantedAtLeast(l, map[], calls[..n], key, s, c.now, now);
        OneCall(l, before, key, c.now);
        var after := AfterCall(l, before, key, c.now);
        Refilled(l, after, key, now);
        RegainedAdds(l, c.now - s, now - c.now);
        if Available(l, after, key, now) == l.capacity { s := now; }
      }
    }
  }

  lemma NewBucket(l: Limits, key: string, now: real)
    ensures Available(l, map[], key, now) == l.capacity
  {
  }

  lemma OtherCall(l: Limits, b: Buckets, other: string, at: real, key: string, now: real)
    requires other != key
    ensures Available(l, AfterCall(l, b, other, at), key, now) == Available(l, b, key, now)
    ensures key in AfterCall(l, b, other, at) <==> key in b
  {
  }

  /** On ordered own times a call is refused exactly when granting it would exceed the burst and refill of some window
      that ends with it: the limiter refuses no call that the bound would allow. */
  lemma RefusedIffExcess(l: Limits, calls: seq<Call>, key: string, now: real)
    requires l.Valid() && Ordered(calls, key, None) && UpTo(calls, key, now)
    ensures Granted(l, StateAfter(l, map[], calls), key, now)
            <==> forall s :: s <= now ==>
                   GrantedIn(l, map[], calls, key, s, now) as real + 1.0 <= l.capacity + l.Regained(now - s)
  {
    var last := Call(key, now);
    var before := StateAfter(l, map[], calls);
    if Granted(l, before, key, now) {
      OrderedAppend(calls, last, key, None);
      forall s | s <= now
        ensures GrantedIn(l, map[], calls, key, s, now) as real + 1.0 <= l.capacity + l.Regained(now - s)
      {
        LastCall(l, map[], calls, last, key, s, now);
        WindowBound(l, [], calls + [last], key, s, now);
      }
    } else {
      var s := FullSince(l, calls, key, now);
      assert GrantedIn(l, map[], calls, key, s, now) as real + 1.0 > l.capacity + l.Regained(now - s);
    }
  }

  lemma {:induction false} OrderedAppend(calls: seq<Call>, last: Call, key: string, from: Option<real>)
    requires Ordered(calls, key, from) && last.key == key && UpTo(calls, key, last.now)
    requires from.Some? ==> from.value <= last.now
    ensures Ordered(calls + [last], key, from)
    decreases calls
  {
    var all := calls + [last];
    if calls == [] {
      assert all[1..] == [];
    } else {
      assert all[1..] == calls[1..] + [last] && all[0] == calls[0];
      assert forall k :: 0 <= k < |calls[1..]| ==> calls[1..][k] == calls[k + 1];
      OrderedAppend(calls[1..], last, key, if calls[0].key == key then Some(calls[0].now) else from);
    }
  }

  /** A key that waits one refill period since its previous call is always served. */
  lemma PatientCallerServed(l: Limits, b: Buckets, key: string, previous: real, others: seq<Call>, now: real)
    requires l.Valid() && BucketsValid(l, b)
    requires forall c | c in others :: c.key != key
    requires now - previous >= 1.0 / l.refillPerSecond
    ensures Granted(l, StateAfter(l, AfterCall(l, b, key, previous), others), key, now)
  {
    CallKeepsValid(l, b, key, previous);
    OthersDoNotInterfere(l, AfterCall(l, b, key, previous), others, key);
    assert l.Regained(1.0 / l.refillPerSecond) == 1.0 by { DivMul(1.0, l.refillPerSecond); }
    hide Limits.Regained;
    RegainedMonotone(l, 1.0 / l.refillPerSecond, Max(0.0, now - previous));
  }

  /** Forward movement of a key's clock over a run; `last` is its previous call, if any. */
  function Forward(calls: seq<Call>, key: string, last: Option<real>): real {
    if calls == [] then 0.0
    else if calls[0].key != key then Forward(calls[1..], key, last)
    else
      (if last.Some? then Max(0.0, calls[0].now - last.value) else 0.0)
      + Forward(calls[1..], key, Some(calls[0].now))
  }

  function GrantedCount(l: Limits, b: Buckets, calls: seq<Call>, key: string): nat
    decreases calls
  {
    if calls == [] then 0
    else
      (if calls[0].key == key && Granted(l, b, key, calls[0].now) then 1 else 0)
      + GrantedCount(l, AfterCall(l, b, calls[0].key, calls[0].now), calls[1..], key)
  }

  lemma {:induction false} TokensSpent(l: Limits, b: Buckets, calls: seq<Call>, key: string)
    requires l.Valid() && BucketsValid(l, b) && key in b
    ensures GrantedCount(l, b, calls, key) as real
            <= b[key].tokens + l.Regained(Forward(calls, key, Some(b[key].updatedAt)))
    decreases calls
  {
    hide Limits.Regained;
    RegainedAdds(l, 0.0, 0.0);
    if calls != [] {
      var c := calls[0];
      CallKeepsValid(l, b, c.key, c.now);
      TokensSpent(l, AfterCall(l, b, c.key, c.now), calls[1..], key);
      if c.key == key {
        RegainedAdds(l, Max(0.0, c.now - b[key].updatedAt), Forward(calls[1..], key, Some(c.now)));
      }
    }
  }

  /** Without any order on the call times: the burst plus the refill of every forward movement. */
  lemma {:induction false} AnyOrderBound(l: Limits, b: Buckets, calls: seq<Call>, key: string)
    requires l.Valid() && BucketsValid(l, b)
    ensures GrantedCount(l, b, calls, key) as real <= l.capacity + l.Regained(Forward(calls, key, None))
    decreases calls
  {
    hide Limits.Regained;
    RegainedAdds(l, 0.0, 0.0);
    if calls != [] {
      var c := calls[0];
      CallKeepsValid(l, b, c.key, c.now);
      if c.key == key {
        TokensSpent(l, AfterCall(l, b, c.key, c.now), calls[1..], key);
      } else {
        AnyOrderBound(l, AfterCall(l, b, c.key, c.now), calls[1..], key);
      }
    }
  }

  /** A caller time read before the lock can arrive out of order, and then the window bound fails:
      one token, times 10, 0, 10 grant two calls at instant 10. */
  lemma OutOfOrderExample()
    ensures var l := Limits(1.0, 1.0);
      var calls := [Call("k", 10.0), Call("k", 0.0), Call("k", 10.0)];
      GrantedIn(l, map[], calls, "k", 10.0, 10.0) as real > l.capacity + l.Regained(0.0)
  {
    var l := Limits(1.0, 1.0);
    var c0, c1 := Call("k", 10.0), Call("k", 0.0);
    var s1 := AfterCall(l, map[], "k", 10.0);
    var s2 := AfterCall(l, s1, "k", 0.0);
    assert s1["k"] == Bucket(0.0, 10.0) && s2["k"] == Bucket(0.0, 0.0);
    assert Granted(l, s2, "k", 10.0);
    assert GrantedIn(l, s2, [c0], "k", 10.0, 10.0) == 1;
    assert [c0, c1, c0][1..] == [c1, c0] && [c1, c0][1..] == [c0];
  }

  // ----- Exactly which clock readings keep the window bound

  function Burst(key: string, now: real, n: nat): seq<Call> { seq(n, k => Call(key, now)) }

  /** `counts[k]` calls at each of the first `n` clock readings. */
  function Load(key: string, readings: seq<real>, counts: seq<nat>, n: nat): seq<Call>
    requires n <= |readings| == |counts|
  {
    if n == 0 then [] else Load(key, readings, counts, n - 1) + Burst(key, readings[n - 1], counts[n - 1])
  }

  ghost predicate Loads(readings: seq<real>, counts: seq<nat>) {
    |counts| == |readings| && forall k :: 0 <= k < |counts| ==> counts[k] > 0
  }

  /** Forward movement of the clock from reading `i` to reading `j`. */
  function Advance(readings: seq<real>, i: nat, j: nat): (d: real)
    requires j < |readings|
    ensures d >= 0.0
  {
    if j <= i then 0.0 else Advance(readings, i, j - 1) + Max(0.0, readings[j] - readings[j - 1])
  }

  /** Between any two readings the clock moved forward no further than they lie apart. */
  ghost predicate Orderly(readings: seq<real>) {
    forall i, j :: 0 <= i <= j < |readings| ==> Advance(readings, i, j) <= Abs(readings[j] - readings[i])
  }

  /** The window bound holds for every limiter, every state before and every number of calls at each reading. */
  ghost predicate Bounded(key: string, readings: seq<real>) {
    forall capacity: int, window: real, b: Buckets, counts: seq<nat>, s: real, t: real ::
      Loads(readings, counts) && s <= t && BucketsValid(LimitsFor(capacity, window), b) ==>
        GrantedIn(LimitsFor(capacity, window), b, Load(key, readings, counts, |readings|), key, s, t) as real
        <= LimitsFor(capacity, window).capacity + LimitsFor(capacity, window).Regained(t - s)
  }

  lemma {:induction false} GrantedConcat(l: Limits, b: Buckets, a: seq<Call>, c: seq<Call>, key: string, s: real,
                                         t: real)
    ensures StateAfter(l, b, a + c) == StateAfter(l, StateAfter(l, b, a), c)
    ensures GrantedIn(l, b, a + c, key, s, t)
            == GrantedIn(l, b, a, key, s, t) + GrantedIn(l, StateAfter(l, b, a), c, key, s, t)
    decreases a
  {
    hide AfterCall, Granted;
    if a == [] {
      assert a + c == c;
    } else {
      assert (a + c)[1..] == a[1..] + c;
      GrantedConcat(l, AfterCall(l, b, a[0].key, a[0].now), a[1..], c, key, s, t);
    }
  }

  /** One call at the same instant as the last adds nothing to the tokens at hand. */
  lemma OneCall(l: Limits, b: Buckets, key: string, now: real)
    requires l.Valid() && BucketsValid(l, b)
    ensures var after, tokens := AfterCall(l, b, key, now), Available(l, b, key, now);
      && BucketsValid(l, after) && key in after && after[key].updatedAt == now && 0.0 <= tokens <= l.capacity
      && Available(l, after, key, now) == after[key].tokens
      && (Granted(l, b, key, now) <==> tokens >= 1.0)
      && after[key].tokens == if tokens >= 1.0 then tokens - 1.0 else tokens
  {
    hide Limits.Regained;
    CallKeepsValid(l, b, key, now);
    RegainedAdds(l, 0.0, 0.0);
  }

  /** A burst spends one token per granted call, and when it is long enough leaves less than one. */
  lemma {:induction false} BurstAccount(l: Limits, b: Buckets, key: string, now: real, n: nat, s: real, t: real)
    requires l.Valid() && BucketsValid(l, b) && n > 0
    ensures var after, tokens := StateAfter(l, b, Burst(key, now, n)), Available(l, b, key, now);
      var granted := GrantedIn(l, b, Burst(key, now, n), key, s, t) as real;
      && BucketsValid(l, after) && key in after && after[key].updatedAt == now
      && granted + after[key].tokens <= tokens
      && (s <= now <= t ==> granted + after[key].tokens == tokens)
      && (!(s <= now <= t) ==> granted == 0.0)
      && (n as real >= tokens ==> after[key].tokens < 1.0)
      && after[key].tokens >= tokens - n as real
    decreases n
  {
    hide AfterCall, Granted, Available, BucketsValid;
    OneCall(l, b, key, now);
    var calls, next := Burst(key, now, n), AfterCall(l, b, key, now);
    assert calls[0] == Call(key, now) && calls[1..] == Burst(key, now, n - 1);
    if n > 1 {
      BurstAccount(l, next, key, now, n - 1, s, t);
    } else {
      assert calls[1..] == [];
    }
  }

  /** State and grants after the first `n` readings. */
  function Tokens(l: Limits, b: Buckets, key: string, readings: seq<real>, counts: seq<nat>, n: nat): Buckets
    requires n <= |readings| == |counts|
  {
    StateAfter(l, b, Load(key, readings, counts, n))
  }

  function Grants(l: Limits, b: Buckets, key: string, readings: seq<real>, counts: seq<nat>, n: nat, s: real,
                  t: real): nat
    requires n <= |readings| == |counts|
  {
    GrantedIn(l, b, Load(key, readings, counts, n), key, s, t)
  }

  /** What the calls at reading `n` do, given what was there before. */
  lemma ReadingStep(l: Limits, b: Buckets, key: string, readings: seq<real>, counts: seq<nat>, n: nat, s: real, t: real)
    requires l.Valid() && Loads(readings, counts) && n < |readings|
    requires BucketsValid(l, Tokens(l, b, key, readings, counts, n))
    ensures var before, after := Tokens(l, b, key, readings, counts, n), Tokens(l, b, key, readings, counts, n + 1);
      var now, tokens := readings[n], Available(l, before, key, readings[n]);
      var granted := Grants(l, b, key, readings, counts, n + 1, s, t) - Grants(l, b, key, readings, counts, n, s, t);
      && BucketsValid(l, after) && key in after && after[key].updatedAt == now && granted >= 0
      && granted as real + after[key].tokens <= tokens
      && (s <= now <= t ==> granted as real + after[key].tokens == tokens)
      && (!(s <= now <= t) ==> granted == 0)
      && (counts[n] as real >= tokens ==> after[key].tokens < 1.0)
      && after[key].tokens >= tokens - counts[n] as real
  {
    hide Available;
    var burst := Burst(key, readings[n], counts[n]);
    GrantedConcat(l, b, Load(key, readings, counts, n), burst, key, s, t);
    BurstAccount(l, Tokens(l, b, key, readings, counts, n), key, readings[n], counts[n], s, t);
  }

  lemma {:induction false} TokensStayValid(l: Limits, b: Buckets, key: string, readings: seq<real>, counts: seq<nat>,
                                           n: nat)
    requires l.Valid() && BucketsValid(l, b) && n <= |readings| == |counts|
    ensures BucketsValid(l, Tokens(l, b, key, readings, counts, n))
  {
    StateStaysValid(l, b, Load(key, readings, counts, n));
  }

  /** Tokens at hand at a reading, from those left at the previous one. */
  lemma Refilled(l: Limits, b: Buckets, key: string, now: real)
    requires l.Valid() && key in b
    ensures Available(l, b, key, now)
            == Min(l.capacity, b[key].tokens + l.Regained(Max(0.0, now - b[key].updatedAt)))
    ensures l.Regained(Max(0.0, now - b[key].updatedAt)) >= 0.0
  {
    RegainedMonotone(l, 0.0, Max(0.0, now - b[key].updatedAt));
    RegainedAdds(l, 0.0, 0.0);
  }

  // The bound holds on orderly readings.

  /** From the first reading inside the window on, grants and tokens left come from burst and advance. */
  lemma {:induction false} GrantsFrom(l: Limits, b: Buckets, key: string, readings: seq<real>, counts: seq<nat>,
                                      i: nat, n: nat, s: real, t: real)
    requires l.Valid() && BucketsValid(l, b) && Loads(readings, counts) && n <= |readings|
    requires forall k :: 0 <= k < i && k < |readings| ==> !(s <= readings[k] <= t)
    ensures n <= i ==> Grants(l, b, key, readings, counts, n, s, t) == 0
    ensures n > i ==> var after := Tokens(l, b, key, readings, counts, n);
      && key in after && after[key].updatedAt == readings[n - 1]
      && Grants(l, b, key, readings, counts, n, s, t) as real + after[key].tokens
         <= l.capacity + l.Regained(Advance(readings, i, n - 1))
  {
    hide Available, Tokens, Grants, Limits.Regained;
    if n == 0 {
      NoReadings(l, b, key, readings, counts, s, t);
    } else {
      GrantsFrom(l, b, key, readings, counts, i, n - 1, s, t);
      TokensStayValid(l, b, key, readings, counts, n - 1);
      ReadingStep(l, b, key, readings, counts, n - 1, s, t);
      var before := Tokens(l, b, key, readings, counts, n - 1);
      CallKeepsValid(l, before, key, readings[n - 1]);
      if n - 1 == i {
        RegainedAdds(l, 0.0, 0.0);
      } else if n - 1 > i {
        Refilled(l, before, key, readings[n - 1]);
        RegainedAdds(l, Advance(readings, i, n - 2), Max(0.0, readings[n - 1] - readings[n - 2]));
      }
    }
  }

  lemma NoReadings(l: Limits, b: Buckets, key: string, readings: seq<real>, counts: seq<nat>, s: real, t: real)
    requires |readings| == |counts|
    ensures Grants(l, b, key, readings, counts, 0, s, t) == 0 && Tokens(l, b, key, readings, counts, 0) == b
  {
  }

  /** The first reading inside the window. */
  function FirstInside(readings: seq<real>, s: real, t: real): (i: nat)
    ensures i <= |readings| && (i < |readings| ==> s <= readings[i] <= t)
    ensures forall k :: 0 <= k < i ==> !(s <= readings[k] <= t)
  {
    if readings == [] then 0
    else
      var n := |readings| - 1;
      var i := FirstInside(readings[..n], s, t);
      if i < n || s <= readings[n] <= t then i else |readings|
  }

  lemma {:induction false} OrderlyBound(l: Limits, b: Buckets, key: string, readings: seq<real>, counts: seq<nat>,
                                        n: nat, s: real, t: real)
    requires l.Valid() && BucketsValid(l, b) && Loads(readings, counts) && n <= |readings| && s <= t
    requires Orderly(readings)
    ensures Grants(l, b, key, readings, counts, n, s, t) as real <= l.capacity + l.Regained(t - s)
  {
    hide Available, Tokens, Grants, Limits.Regained, Orderly, Advance;
    RegainedMonotone(l, 0.0, t - s);
    RegainedAdds(l, 0.0, 0.0);
    if n == 0 {
      NoReadings(l, b, key, readings, counts, s, t);
    } else {
      var now, i := readings[n - 1], FirstInside(readings, s, t);
      TokensStayValid(l, b, key, readings, counts, n - 1);
      ReadingStep(l, b, key, readings, counts, n - 1, s, t);
      if s <= now <= t {
        GrantsFrom(l, b, key, readings, counts, i, n, s, t);
        OrderlyPair(readings, i, n - 1);
        RegainedMonotone(l, Advance(readings, i, n - 1), t - s);
      } else {
        OrderlyBound(l, b, key, readings, counts, n - 1, s, t);
      }
    }
  }

  lemma OrderlyPair(readings: seq<real>, i: nat, j: nat)
    requires Orderly(readings) && i <= j < |readings|
    ensures Advance(readings, i, j) <= Abs(readings[j] - readings[i])
  {
  }

  // It fails on any others: exhaust the bucket at reading i and again at reading j.

  /** Every reading calls once, readings `i` and `j` as often as the bucket is large. */
  function Exhausting(readings: seq<real>, i: nat, j: nat, capacity: nat): seq<nat> {
    seq(|readings|, k => if k == i || k == j then capacity else 1)
  }

  /** Before reading `k` no more than `k` tokens are gone. */
  lemma {:induction false} TokensBefore(l: Limits, key: string, readings: seq<real>, counts: seq<nat>, k: nat)
    requires l.Valid() && Loads(readings, counts) && k < |readings|
    requires forall m :: 0 <= m < k ==> counts[m] == 1
    ensures Available(l, Tokens(l, map[], key, readings, counts, k), key, readings[k]) >= l.capacity - k as real
  {
    hide Available, Tokens, Grants, Limits.Regained;
    if k == 0 {
      NoReadings(l, map[], key, readings, counts, 0.0, 0.0);
      FullBucket(l, key, readings[0]);
    } else {
      TokensBefore(l, key, readings, counts, k - 1);
      TokensStayValid(l, map[], key, readings, counts, k - 1);
      ReadingStep(l, map[], key, readings, counts, k - 1, 0.0, 0.0);
      Refilled(l, Tokens(l, map[], key, readings, counts, k), key, readings[k]);
    }
  }

  lemma FullBucket(l: Limits, key: string, now: real)
    ensures Available(l, map[], key, now) == l.capacity
  {
  }

  /** After reading `i` the bucket regains the clock's advance, less one token for each reading passed. */
  lemma {:induction false} TokensAfter(l: Limits, key: string, readings: seq<real>, counts: seq<nat>, i: nat, k: nat)
    requires l.Valid() && Loads(readings, counts) && i < k < |readings|
    requires forall m :: i < m < k ==> counts[m] == 1
    requires l.Regained(Advance(readings, i, k)) <= l.capacity
    ensures Available(l, Tokens(l, map[], key, readings, counts, k), key, readings[k])
            >= l.Regained(Advance(readings, i, k)) - (k - 1 - i) as real
  {
    hide Available, Tokens, Grants, Limits.Regained;
    var step := Max(0.0, readings[k] - readings[k - 1]);
    TokensStayValid(l, map[], key, readings, counts, k - 1);
    ReadingStep(l, map[], key, readings, counts, k - 1, 0.0, 0.0);
    Refilled(l, Tokens(l, map[], key, readings, counts, k), key, readings[k]);
    RegainedAdds(l, Advance(readings, i, k - 1), step);
    if k - 1 > i {
      TokensAfter(l, key, readings, counts, i, k - 1);
    } else {
      RegainedAdds(l, 0.0, 0.0);
    }
  }

  lemma {:induction false} GrantsGrow(l: Limits, b: Buckets, key: string, readings: seq<real>, counts: seq<nat>,
                                      m: nat, n: nat, s: real, t: real)
    requires l.Valid() && BucketsValid(l, b) && Loads(readings, counts) && m <= n <= |readings|
    ensures Grants(l, b, key, readings, counts, m, s, t) <= Grants(l, b, key, readings, counts, n, s, t)
  {
    hide Available, Tokens, Grants;
    if m < n {
      GrantsGrow(l, b, key, readings, counts, m, n - 1, s, t);
      TokensStayValid(l, b, key, readings, counts, n - 1);
      ReadingStep(l, b, key, readings, counts, n - 1, s, t);
    }
  }

  /** Two exhausted readings: the burst and everything regained in between, less one token a reading. */
  lemma ExhaustedTwice(l: Limits, key: string, readings: seq<real>, i: nat, j: nat, capacity: nat, s: real, t: real)
    requires l.Valid() && i < j < |readings| && l.capacity == capacity as real
    requires s <= readings[i] <= t && s <= readings[j] <= t && l.Regained(Advance(readings, i, j)) <= l.capacity
    ensures var counts := Exhausting(readings, i, j, capacity);
      && Loads(readings, counts)
      && Grants(l, map[], key, readings, counts, |readings|, s, t) as real
         > l.capacity + l.Regained(Advance(readings, i, j)) - (j + 1) as real
  {
    hide Available, Tokens, Grants, Limits.Regained, Advance;
    var counts := Exhausting(readings, i, j, capacity);
    TokensStayValid(l, map[], key, readings, counts, i);
    TokensStayValid(l, map[], key, readings, counts, j);
    TokensBefore(l, key, readings, counts, i);
    TokensAfter(l, key, readings, counts, i, j);
    CallKeepsValid(l, Tokens(l, map[], key, readings, counts, i), key, readings[i]);
    CallKeepsValid(l, Tokens(l, map[], key, readings, counts, j), key, readings[j]);
    ReadingStep(l, map[], key, readings, counts, i, s, t);
    ReadingStep(l, map[], key, readings, counts, j, s, t);
    GrantsGrow(l, map[], key, readings, counts, i + 1, j, s, t);
    GrantsGrow(l, map[], key, readings, counts, j + 1, |readings|, s, t);
  }

  /** A limiter that regains `need` tokens over `gap` seconds and holds what it regains over `most`. */
  lemma LimiterFor(need: nat, gap: real, most: real) returns (capacity: nat, window: real)
    requires need > 0 && gap > 0.0 && most >= 0.0
    ensures capacity > 0
    ensures var l := LimitsFor(capacity, window);
      l.capacity == capacity as real && l.Regained(gap) == need as real && l.Regained(most) <= l.capacity
  {
    var rate := need as real / gap;
    DivMul(need as real, gap);
    RatePositive(need as real, gap, rate);
    capacity := (Times(rate, most) + rate).Floor + 1;
    MulMonotone(0.0, most, rate);
    var c := capacity as real;
    window := c / rate;
    DivMul(c, rate);
    DivMonotone(rate, c, rate);
    UniqueQuotient(rate, rate, 1.0);
    UniqueQuotient(c, window, rate);
  }

  lemma RatePositive(need: real, gap: real, rate: real)
    requires need > 0.0 && gap > 0.0 && rate * gap == need
    ensures rate > 0.0
  {
    if rate <= 0.0 { MulMonotone(rate, 0.0, gap); }
  }

  lemma DisorderBreaksBound(key: string, readings: seq<real>, i: nat, j: nat)
    requires i <= j < |readings| && Advance(readings, i, j) > Abs(readings[j] - readings[i])
    ensures !Bounded(key, readings)
  {
    hide Limits.Regained, Grants, Advance, LimitsFor, BucketsValid;
    AdvanceSelf(readings, i);
    var most, apart := Advance(readings, i, j), Abs(readings[j] - readings[i]);
    var capacity, window := LimiterFor(j + 1, most - apart, most);
    var l, counts := LimitsFor(capacity, window), Exhausting(readings, i, j, capacity);
    var s, t := Min(readings[i], readings[j]), Max(readings[i], readings[j]);
    ExhaustedTwice(l, key, readings, i, j, capacity, s, t);
    RegainedAdds(l, apart, most - apart);
    NoBuckets(l);
    GrantsMeaning(l, key, readings, counts, s, t);
    assert t - s == apart;
  }

  lemma AdvanceSelf(readings: seq<real>, i: nat)
    requires i < |readings|
    ensures Advance(readings, i, i) == 0.0
  {
  }

  lemma NoBuckets(l: Limits)
    ensures BucketsValid(l, map[])
  {
  }

  lemma GrantsMeaning(l: Limits, key: string, readings: seq<real>, counts: seq<nat>, s: real, t: real)
    requires |readings| == |counts|
    ensures Grants(l, map[], key, readings, counts, |readings|, s, t)
            == GrantedIn(l, map[], Load(key, readings, counts, |readings|), key, s, t)
  {
  }

  /** For a list of clock readings the window bound holds whatever the limiter and the load exactly when the clock
      never moves forward further between two readings than these lie apart. */
  lemma BoundedIffOrderly(key: string, readings: seq<real>)
    ensures Bounded(key, readings) <==> Orderly(readings)
  {
    if Orderly(readings) {
      forall capacity: int, window: real, b: Buckets, counts: seq<nat>, s: real, t: real
        | Loads(readings, counts) && s <= t && BucketsValid(LimitsFor(capacity, window), b)
        ensures GrantedIn(LimitsFor(capacity, window), b, Load(key, readings, counts, |readings|), key, s, t) as real
                <= LimitsFor(capacity, window).capacity + LimitsFor(capacity, window).Regained(t - s)
      {
        OrderlyBound(LimitsFor(capacity, window), b, key, readings, counts, |readings|, s, t);
      }
    } else {
      var i, j :| 0 <= i <= j < |readings| && Advance(readings, i, j) > Abs(readings[j] - readings[i]);
      DisorderBreaksBound(key, readings, i, j);
    }
  }
}
