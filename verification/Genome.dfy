/** Decimal printing and parsing of naturals. */
module Decimals {
  function DigitChar(d: nat): char
    requires d < 10
  {
    "0123456789"[d]
  }

  function DigitValue(c: char): nat {
    if '0' <= c <= '9' then (c as int) - ('0' as int) else 0
  }

  /** `str(n)`. */
  function Print(n: nat): (s: string)
    ensures s != [] && forall c :: c in s ==> '0' <= c <= '9'
  {
    if n < 10 then [DigitChar(n)] else Print(n / 10) + [DigitChar(n % 10)]
  }

  /** `int(s)` of a string of digits. */
  function Parse(s: string): nat {
    if s == [] then 0 else 10 * Parse(s[..|s| - 1]) + DigitValue(s[|s| - 1])
  }

  lemma {:induction false} ParsePrint(n: nat)
    ensures Parse(Print(n)) == n
  {
    if n < 10 {
      assert Print(n)[..0] == [];
    } else {
      ParsePrint(n / 10);
      assert Print(n)[..|Print(n)| - 1] == Print(n / 10);
    }
  }
}

/** Strategy genomes and their flat parameter vectors. */
module Genomes {
  import opened Decimals

  type Params = map<string, real>

  /** A signal block or a context filter: a kind and numeric parameters. */
  datatype Part = Part(kind: string, params: Params)

  /** `rest` stands for the fields no parameter touches. */
  datatype Genome<R> = Genome(blocks: seq<Part>, filters: seq<Part>, rest: R)

  /** `b{i}_{k}` and `f{i}_{k}`. */
  function Key(prefix: char, i: nat, k: string): string { [prefix] + Print(i) + "_" + k }

  lemma {:induction false} KeyShape(p: char, i: nat, k: string)
    ensures var s, m := Key(p, i, k), |Print(i)|;
      && |s| == m + 2 + |k| && s[0] == p && s[1..m + 1] == Print(i) && s[m + 1] == '_' && s[m + 2..] == k
      && forall x :: 1 <= x <= m ==> s[x] != '_'
  {
    hide Print;
    var s, m := Key(p, i, k), |Print(i)|;
    forall x | 1 <= x <= m ensures s[x] != '_' {
      assert s[x] == Print(i)[x - 1];
      assert Print(i)[x - 1] in Print(i);
    }
  }

  /** Keys of different places never collide. */
  lemma KeyInjective(p: char, i: nat, k: string, q: char, j: nat, l: string)
    requires Key(p, i, k) == Key(q, j, l)
    ensures p == q && i == j && k == l
  {
    hide Key, Print, Parse;
    KeyShape(p, i, k);
    KeyShape(q, j, l);
    assert |Print(i)| == |Print(j)|;
    ParsePrint(i);
    ParsePrint(j);
  }

  function FlatPart(prefix: char, i: nat, part: Part): Params {
    forall k, l | Key(prefix, i, k) == Key(prefix, i, l) ensures k == l { KeyInjective(prefix, i, k, prefix, i, l); }
    map k | k in part.params :: Key(prefix, i, k) := part.params[k]
  }

  lemma FlatPartHolds(prefix: char, i: nat, part: Part, k: string)
    requires k in part.params
    ensures Key(prefix, i, k) in FlatPart(prefix, i, part)
    ensures FlatPart(prefix, i, part)[Key(prefix, i, k)] == part.params[k]
  {
    var flat, key := FlatPart(prefix, i, part), Key(prefix, i, k);
    assert key in flat;
    var l :| l in part.params && Key(prefix, i, l) == key && flat[key] == part.params[l];
    KeyInjective(prefix, i, k, prefix, i, l);
  }

  function FlatParts(prefix: char, parts: seq<Part>): Params {
    if parts == [] then map[]
    else
      var n := |parts| - 1;
      FlatParts(prefix, parts[..n]) + FlatPart(prefix, n, parts[n])
  }

  /** The tunable vector of a genome. */
  function Parameters<R>(g: Genome<R>): Params { FlatParts('b', g.blocks) + FlatParts('f', g.filters) }

  /** One of the two filling loops of `parameters`. */
  method Fill(before: Params, prefix: char, parts: seq<Part>) returns (flat: Params)
    ensures flat == before + FlatParts(prefix, parts)
  {
    hide FlatPart;
    flat := before;
    for i := 0 to |parts|
      invariant flat == before + FlatParts(prefix, parts[..i])
    {
      assert parts[..i + 1][..i] == parts[..i];
      flat := flat + FlatPart(prefix, i, parts[i]);
    }
    assert parts[..|parts|] == parts;
  }

  method Flatten<R>(g: Genome<R>) returns (flat: Params)
    ensures flat == Parameters(g)
  {
    flat := Fill(map[], 'b', g.blocks);
    flat := Fill(flat, 'f', g.filters);
  }

  function Lookup(values: Params, key: string, default: real): real {
    if key in values then values[key] else default
  }

  function Override(prefix: char, i: nat, part: Part, values: Params): Part {
    part.(params := map k | k in part.params :: Lookup(values, Key(prefix, i, k), part.params[k]))
  }

  function OverrideAll(prefix: char, parts: seq<Part>, values: Params): (r: seq<Part>)
    ensures |r| == |parts|
  {
    seq(|parts|, i requires 0 <= i < |parts| => Override(prefix, i, parts[i], values))
  }

  /** `with_parameters`: same structure, parameters overridden by the vector. */
  function WithParameters<R>(g: Genome<R>, values: Params): Genome<R> {
    g.(blocks := OverrideAll('b', g.blocks, values), filters := OverrideAll('f', g.filters, values))
  }

  // ----- What the vector holds

  /** The place a key names, if any. */
  ghost predicate Names(prefix: char, parts: seq<Part>, key: string, i: nat, k: string) {
    i < |parts| && k in parts[i].params && key == Key(prefix, i, k)
  }

  lemma {:induction false} FlatPartsHolds(prefix: char, parts: seq<Part>, key: string)
    ensures key in FlatParts(prefix, parts) <==> exists i: nat, k :: Names(prefix, parts, key, i, k)
    ensures forall i: nat, k :: Names(prefix, parts, key, i, k) ==> FlatParts(prefix, parts)[key] == parts[i].params[k]
  {
    if parts != [] {
      var n := |parts| - 1;
      FlatPartsHolds(prefix, parts[..n], key);
      forall i: nat, k | Names(prefix, parts, key, i, k)
        ensures key in FlatParts(prefix, parts) && FlatParts(prefix, parts)[key] == parts[i].params[k]
      {
        if key in FlatPart(prefix, n, parts[n]) {
          var l :| l in parts[n].params && key == Key(prefix, n, l);
          KeyInjective(prefix, i, k, prefix, n, l);
          FlatPartHolds(prefix, n, parts[n], l);
        } else {
          if i == n { FlatPartHolds(prefix, n, parts[n], k); }
          assert Names(prefix, parts[..n], key, i, k);
        }
      }
      if key in FlatPart(prefix, n, parts[n]) {
        var l :| l in parts[n].params && key == Key(prefix, n, l);
        assert Names(prefix, parts, key, n, l);
      } else if key in FlatParts(prefix, parts[..n]) {
        var i: nat, k :| Names(prefix, parts[..n], key, i, k);
        assert Names(prefix, parts, key, i, k);
      }
    }
  }

  /** Every parameter of every block and filter is found under its own key, and nothing else is. */
  lemma ParametersHold<R>(g: Genome<R>, key: string)
    ensures key in Parameters(g) <==>
      (exists i: nat, k :: Names('b', g.blocks, key, i, k)) || (exists i: nat, k :: Names('f', g.filters, key, i, k))
    ensures forall i: nat, k :: Names('b', g.blocks, key, i, k) ==> Parameters(g)[key] == g.blocks[i].params[k]
    ensures forall i: nat, k :: Names('f', g.filters, key, i, k) ==> Parameters(g)[key] == g.filters[i].params[k]
  {
    FlatPartsHolds('b', g.blocks, key);
    FlatPartsHolds('f', g.filters, key);
    forall i: nat, k | Names('b', g.blocks, key, i, k) ensures key !in FlatParts('f', g.filters) {
      if key in FlatParts('f', g.filters) {
        var j: nat, l :| Names('f', g.filters, key, j, l);
        KeyInjective('b', i, k, 'f', j, l);
      }
    }
  }

  // ----- Laws of reading and writing

  /** Writing back what was read changes nothing. */
  lemma WriteOwnParameters<R>(g: Genome<R>)
    ensures WithParameters(g, Parameters(g)) == g
  {
    var flat := Parameters(g);
    forall i | 0 <= i < |g.blocks|
      ensures Override('b', i, g.blocks[i], flat) == g.blocks[i]
    {
      forall k | k in g.blocks[i].params
        ensures Lookup(flat, Key('b', i, k), g.blocks[i].params[k]) == g.blocks[i].params[k]
      {
        ParametersHold(g, Key('b', i, k));
        assert Names('b', g.blocks, Key('b', i, k), i, k);
      }
    }
    forall i | 0 <= i < |g.filters|
      ensures Override('f', i, g.filters[i], flat) == g.filters[i]
    {
      forall k | k in g.filters[i].params
        ensures Lookup(flat, Key('f', i, k), g.filters[i].params[k]) == g.filters[i].params[k]
      {
        ParametersHold(g, Key('f', i, k));
        assert Names('f', g.filters, Key('f', i, k), i, k);
      }
    }
  }

  lemma NamesKept(prefix: char, parts: seq<Part>, values: Params, key: string, i: nat, k: string)
    ensures Names(prefix, OverrideAll(prefix, parts, values), key, i, k) <==> Names(prefix, parts, key, i, k)
    ensures Names(prefix, parts, key, i, k) ==>
      OverrideAll(prefix, parts, values)[i].params[k] == Lookup(values, key, parts[i].params[k])
  {
  }

  /** Reading after a write returns the written values where the genome has such a parameter. */
  lemma ReadAfterWrite<R>(g: Genome<R>, values: Params, key: string)
    ensures key in Parameters(WithParameters(g, values)) <==> key in Parameters(g)
    ensures key in Parameters(g) ==>
      Parameters(WithParameters(g, values))[key] == Lookup(values, key, Parameters(g)[key])
  {
    var h := WithParameters(g, values);
    ParametersHold(g, key);
    ParametersHold(h, key);
    forall i: nat, k
      ensures Names('b', h.blocks, key, i, k) <==> Names('b', g.blocks, key, i, k)
      ensures Names('b', g.blocks, key, i, k) ==> h.blocks[i].params[k] == Lookup(values, key, g.blocks[i].params[k])
    {
      NamesKept('b', g.blocks, values, key, i, k);
    }
    forall i: nat, k
      ensures Names('f', h.filters, key, i, k) <==> Names('f', g.filters, key, i, k)
      ensures Names('f', g.filters, key, i, k) ==> h.filters[i].params[k] == Lookup(values, key, g.filters[i].params[k])
    {
      NamesKept('f', g.filters, values, key, i, k);
    }
  }

  /** Unknown keys are ignored. */
  lemma UnknownKeysIgnored<R>(g: Genome<R>, values: Params)
    ensures WithParameters(g, values) == WithParameters(g, map k | k in values && k in Parameters(g) :: values[k])
  {
    hide Key, FlatParts, FlatPart, Parameters;
    var known := map k | k in values && k in Parameters(g) :: values[k];
    forall i | 0 <= i < |g.blocks|
      ensures Override('b', i, g.blocks[i], values) == Override('b', i, g.blocks[i], known)
    {
      forall k | k in g.blocks[i].params
        ensures Key('b', i, k) in Parameters(g)
      {
        ParametersHold(g, Key('b', i, k));
        assert Names('b', g.blocks, Key('b', i, k), i, k);
      }
    }
    forall i | 0 <= i < |g.filters|
      ensures Override('f', i, g.filters[i], values) == Override('f', i, g.filters[i], known)
    {
      forall k | k in g.filters[i].params
        ensures Key('f', i, k) in Parameters(g)
      {
        ParametersHold(g, Key('f', i, k));
        assert Names('f', g.filters, Key('f', i, k), i, k);
      }
    }
  }

  /** Two writes in a row are one write of the merged vectors, the later winning. */
  lemma TwoWritesMerge<R>(g: Genome<R>, first: Params, second: Params)
    ensures WithParameters(WithParameters(g, first), second) == WithParameters(g, first + second)
  {
    var h := WithParameters(g, first);
    forall i | 0 <= i < |g.blocks|
      ensures Override('b', i, h.blocks[i], second) == Override('b', i, g.blocks[i], first + second)
    {
    }
    forall i | 0 <= i < |g.filters|
      ensures Override('f', i, h.filters[i], second) == Override('f', i, g.filters[i], first + second)
    {
    }
  }
}
