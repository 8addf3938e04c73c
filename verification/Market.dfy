/** Market data the indicators read. */
module Market {

  /** A closed candle; times are seconds, prices and volumes exact reals. */
  datatype Candle = Candle(start: real, end: real, open: real, high: real, low: real,
                           close: real, volume: real, vwap: real)

  datatype Direction = Long | Short | Neutral

  function Mirror(d: Direction): Direction
  {
    match d
    case Long => Short
    case Short => Long
    case Neutral => Neutral
  }

  /** The candle on prices turned upside down. */
  function Reflect(c: Candle): Candle {
    Candle(c.start, c.end, -c.open, -c.low, -c.high, -c.close, c.volume, -c.vwap)
  }

  function ReflectAll(cs: seq<Candle>): (r: seq<Candle>)
    ensures |r| == |cs| && forall k :: 0 <= k < |cs| ==> r[k] == Reflect(cs[k])
  {
    seq(|cs|, k requires 0 <= k < |cs| => Reflect(cs[k]))
  }
}

/** The usual optional value. */
module Options {
  datatype Option<+T> = None | Some(value: T)
}

/** Lists: the latest elements, as `deque(maxlen=limit)` keeps them, and counting. */
module Lists {
  function Latest<T>(xs: seq<T>, limit: nat): seq<T> { if |xs| > limit then xs[|xs| - limit..] else xs }

  /** The last elements in their order, as many as the limit allows. */
  lemma LatestMeaning<T>(xs: seq<T>, limit: nat)
    ensures var r := Latest(xs, limit);
      |r| <= limit && |r| <= |xs| && r == xs[|xs| - |r|..] && (|r| == limit || r == xs)
  {
  }

  function Retain<T>(s: seq<T>, x: T, limit: nat): seq<T> { Latest(s + [x], limit) }

  lemma RetainLatest<T>(xs: seq<T>, x: T, limit: nat)
    ensures Retain(Latest(xs, limit), x, limit) == Latest(xs + [x], limit)
  {
  }

  /** The places at which a list has a property. */
  ghost function Which<T>(xs: seq<T>, p: T -> bool): set<nat> { set k: nat | k < |xs| && p(xs[k]) }

  lemma WhichAppend<T>(xs: seq<T>, x: T, p: T -> bool)
    ensures |Which(xs + [x], p)| == |Which(xs, p)| + if p(x) then 1 else 0
  {
    assert Which(xs + [x], p) == Which(xs, p) + if p(x) then {|xs|} else {};
  }
}
