/** The MKCP importer: it resolves the package factors the parser found
    against the stock item names already in the database (exact, then prefix,
    then a capped edit-distance match) and upserts vendor groups, alternate
    units and item-group mappings. */
module MkcpImporter {
  import opened Wrappers
  import opened Text
  import opened OrderedDict
  import opened ItemNames
  import MkcpParser

  // ------------------------------------------------------------ edit distance

  function Min3(x: nat, y: nat, z: nat): (r: nat)
    ensures r <= x && r <= y && r <= z
    ensures r == x || r == y || r == z
  {
    if x <= y && x <= z then x else if y <= z then y else z
  }

  /** The edit distance of `a` and `b`: the fewest single-character
      insertions, deletions and substitutions that turn one into the other,
      defined on prefixes by the textbook recurrence. */
  function Lev(a: string, b: string): nat
    decreases |a| + |b|
  {
    if a == [] then |b|
    else if b == [] then |a|
    else Min3(Lev(a[..|a| - 1], b) + 1,
              Lev(a, b[..|b| - 1]) + 1,
              Lev(a[..|a| - 1], b[..|b| - 1]) + (if a[|a| - 1] == b[|b| - 1] then 0 else 1))
  }

  /** The distance does not depend on the order of its arguments. */
  lemma {:induction false} LevSymmetric(a: string, b: string)
    ensures Lev(a, b) == Lev(b, a)
    decreases |a| + |b|
  {
    if a != [] && b != [] {
      LevSymmetric(a[..|a| - 1], b);
      LevSymmetric(a, b[..|b| - 1]);
      LevSymmetric(a[..|a| - 1], b[..|b| - 1]);
    }
  }

  /** The distance is zero exactly for equal strings. */
  lemma {:induction false} LevZeroIff(a: string, b: string)
    ensures Lev(a, b) == 0 <==> a == b
    decreases |a| + |b|
  {
    if a != [] && b != [] {
      var a', b' := a[..|a| - 1], b[..|b| - 1];
      LevZeroIff(a', b');
      assert a == a' + [a[|a| - 1]];
      assert b == b' + [b[|b| - 1]];
      if a == b {
        assert a' == b';
      }
    }
  }

  /** The distance lies between the difference of the lengths and the
      greater length. */
  lemma {:induction false} LevBounds(a: string, b: string)
    ensures Lev(a, b) <= if |a| < |b| then |b| else |a|
    ensures |a| <= Lev(a, b) + |b| && |b| <= Lev(a, b) + |a|
    decreases |a| + |b|
  {
    if a != [] && b != [] {
      LevBounds(a[..|a| - 1], b);
      LevBounds(a, b[..|b| - 1]);
      LevBounds(a[..|a| - 1], b[..|b| - 1]);
    }
  }

  /** One cell of the table: the distance of two non-empty prefixes from the
      three neighbouring cells. */
  lemma LevCell(x: string, y: string, i: nat, j: nat)
    requires 1 <= i <= |x| && 1 <= j <= |y|
    ensures Lev(x[..i], y[..j]) == Min3(Lev(x[..i - 1], y[..j]) + 1,
                                        Lev(x[..i], y[..j - 1]) + 1,
                                        Lev(x[..i - 1], y[..j - 1]) + (if x[i - 1] == y[j - 1] then 0 else 1))
  {
    assert x[..i][..i - 1] == x[..i - 1];
    assert y[..j][..j - 1] == y[..j - 1];
  }

  /** One row of the table: entry `k` is the distance of `x[..i]` and
      `y[..k]`. */
  ghost predicate IsRow(x: string, y: string, i: nat, row: array<nat>)
    requires i <= |x|
    reads row
  {
    row.Length == |y| + 1 && forall k :: 0 <= k <= |y| ==> row[k] == Lev(x[..i], y[..k])
  }

  /** The inner loop of `_levenshtein`: row `i` from row `i - 1`. */
  method NextRow(x: string, y: string, i: nat, prev: array<nat>) returns (curr: array<nat>)
    requires 1 <= i <= |x| && IsRow(x, y, i - 1, prev)
    ensures fresh(curr) && IsRow(x, y, i, curr)
  {
    curr := new nat[|y| + 1];
    curr[0] := i;
    var j := 1;
    while j <= |y|
      invariant 1 <= j <= |y| + 1
      invariant forall k :: 0 <= k < j ==> curr[k] == Lev(x[..i], y[..k])
    {
      curr[j] := Min3(prev[j] + 1, curr[j - 1] + 1, prev[j - 1] + (if x[i - 1] == y[j - 1] then 0 else 1));
      LevCell(x, y, i, j);
      j := j + 1;
    }
  }

  /** Row 0 of the table: `0, 1, …, |y|`, the distances of the empty prefix. */
  method FirstRow(x: string, y: string) returns (prev: array<nat>)
    ensures fresh(prev) && IsRow(x, y, 0, prev)
  {
    prev := new nat[|y| + 1];
    var j := 0;
    while j <= |y|
      invariant 0 <= j <= |y| + 1
      invariant forall k :: 0 <= k < j ==> prev[k] == Lev(x[..0], y[..k])
    {
      prev[j] := j;
      j := j + 1;
    }
  }

  /** `_levenshtein`: the two-row table over the longer string, one fresh
      row per character. */
  method Levenshtein(a: string, b: string) returns (d: nat)
    ensures d == Lev(a, b)
  {
    if a == b {
      LevZeroIff(a, b);
      return 0;
    }
    if |a| == 0 {
      return |b|;
    }
    if |b| == 0 {
      return |a|;
    }
    var x, y := a, b;
    if |x| < |y| {
      x, y := b, a;
      LevSymmetric(a, b);
    }
    var prev := FirstRow(x, y);
    var i := 1;
    while i <= |x|
      invariant 1 <= i <= |x| + 1
      invariant IsRow(x, y, i - 1, prev)
    {
      prev := NextRow(x, y, i, prev);
      i := i + 1;
    }
    assert x[..|x|] == x && y[..|y|] == y;
    d := prev[|y|];
  }

  // ------------------------------------------------------------ fuzzy match

  /** `min(3, max(2, int(len * 0.10)))` for a name of `n` characters. The
      floating product never falls below the exact tenth, so its integer part
      is `n / 10`. */
  function Threshold(n: nat): (r: nat)
    ensures 2 <= r <= 3
    ensures r == 3 <==> n >= 30
  {
    var t := n / 10;
    if t < 2 then 2 else if t > 3 then 3 else t
  }

  /** A key the loop measures: non-empty, the same first character as `q`,
      and a length within `th` of `q`'s. */
  predicate Measured(q: string, th: nat, k: string)
    requires q != []
  {
    k != [] && k[0] == q[0] && |k| <= |q| + th && |q| <= |k| + th
  }

  /** The best key so far and its distance. */
  datatype Best = Best(key: Option<string>, dist: nat)

  /** Each key with its distance from `q`. */
  function Scored(q: string, keys: seq<string>): (r: seq<(string, nat)>)
    ensures |r| == |keys| && forall i :: 0 <= i < |keys| ==> r[i] == (keys[i], Lev(q, keys[i]))
  {
    seq(|keys|, i requires 0 <= i < |keys| => (keys[i], Lev(q, keys[i])))
  }

  function FuzzyStep(q: string, th: nat, b: Best, c: (string, nat)): Best
    requires q != []
  {
    if Measured(q, th, c.0) && c.1 < b.dist then Best(Some(c.0), c.1) else b
  }

  /** The scan of `_fuzzy_match` over the scored keys, starting from no key
      and distance `th + 1`. */
  function FuzzyRun(q: string, th: nat, cs: seq<(string, nat)>): (r: Best)
    requires q != []
    ensures r.key.Some? ==> (r.key.value, r.dist) in cs && Measured(q, th, r.key.value) && r.dist <= th
    ensures r.key.None? ==> r.dist == th + 1
    decreases |cs|
  {
    if cs == [] then Best(None, th + 1)
    else FuzzyStep(q, th, FuzzyRun(q, th, cs[..|cs| - 1]), cs[|cs| - 1])
  }

  /** `_fuzzy_match(q, alt)`: the key the scan settles on with its factor,
      or None. */
  function Fuzzy(q: string, alt: Dict<string, real>): Option<(string, real)> {
    if q == [] then None
    else
      var th := Threshold(|q|);
      var b := FuzzyRun(q, th, Scored(q, Keys(alt)));
      if b.key.Some? && b.dist <= th && b.key.value in Keys(alt) then Some((b.key.value, Get(alt, b.key.value).value)) else None
  }

  /** The scan ends with the smallest distance among the measured keys. */
  lemma {:induction false} FuzzyRunMin(q: string, th: nat, cs: seq<(string, nat)>)
    requires q != []
    ensures forall i :: 0 <= i < |cs| && Measured(q, th, cs[i].0) ==> FuzzyRun(q, th, cs).dist <= cs[i].1
    decreases |cs|
  {
    if cs != [] {
      var init := cs[..|cs| - 1];
      FuzzyRunMin(q, th, init);
      var b := FuzzyRun(q, th, init);
      var r := FuzzyRun(q, th, cs);
      assert r == FuzzyStep(q, th, b, cs[|cs| - 1]);
      forall i | 0 <= i < |cs| && Measured(q, th, cs[i].0)
        ensures r.dist <= cs[i].1
      {
        if i < |cs| - 1 {
          assert cs[i] == init[i];
        }
      }
    }
  }

  /** The scan keeps the first measured key at the smallest distance: the
      pair at position `j`, and no measured key before it is as near. */
  lemma {:induction false} FuzzyRunFirst(q: string, th: nat, cs: seq<(string, nat)>) returns (j: nat)
    requires q != []
    ensures var r := FuzzyRun(q, th, cs);
      r.key.Some? ==> (j < |cs| && cs[j] == (r.key.value, r.dist) &&
        forall i :: 0 <= i < j && Measured(q, th, cs[i].0) ==> r.dist < cs[i].1)
    decreases |cs|
  {
    j := 0;
    if cs != [] {
      var init := cs[..|cs| - 1];
      j := FuzzyRunFirst(q, th, init);
      FuzzyRunMin(q, th, init);
      var b := FuzzyRun(q, th, init);
      var r := FuzzyRun(q, th, cs);
      assert r == FuzzyStep(q, th, b, cs[|cs| - 1]);
      if r != b {
        j := |cs| - 1;
        forall i | 0 <= i < j && Measured(q, th, cs[i].0)
          ensures r.dist < cs[i].1
        {
          assert cs[i] == init[i];
        }
      } else if r.key.Some? {
        forall i | 0 <= i < j && Measured(q, th, cs[i].0)
          ensures r.dist < cs[i].1
        {
          assert cs[i] == init[i];
        }
      }
    }
  }

  /** The pair the scan chose names a key of `alt` at or before position `i`
      and carries that key's distance. */
  lemma ScoredPick(q: string, alt: Dict<string, real>, k: string, d: nat, i: nat)
    requires i < |alt| && (k, d) in Scored(q, Keys(alt))[..i + 1]
    ensures k in Keys(alt[..i + 1]) && k in Keys(alt) && d == Lev(q, k)
  {
    var j :| 0 <= j < i + 1 && Scored(q, Keys(alt))[..i + 1][j] == (k, d);
    assert alt[..i + 1][j].0 == k;
  }

  /** What `_fuzzy_match` returns: a key of `alt` with its own factor, the
      same first character as `q` and within the threshold; None exactly when
      no key with that first character is within the threshold. The length
      gate only skips keys the distance would reject anyway. */
  lemma FuzzyFound(q: string, alt: Dict<string, real>)
    ensures var r := Fuzzy(q, alt);
      && (r.Some? ==> q != [] && r.value.0 in Keys(alt) && Get(alt, r.value.0) == Some(r.value.1))
      && (r.Some? ==> r.value.0[0] == q[0] && Lev(q, r.value.0) <= Threshold(|q|))
      && (r.None? <==> q == [] || forall i :: 0 <= i < |alt| && alt[i].0 != [] && alt[i].0[0] == q[0] ==> Lev(q, alt[i].0) > Threshold(|q|))
  {
    if q != [] {
      var th := Threshold(|q|);
      var cs := Scored(q, Keys(alt));
      FuzzyRunMin(q, th, cs);
      var b := FuzzyRun(q, th, cs);
      if b.key.Some? {
        var j :| 0 <= j < |cs| && cs[j] == (b.key.value, b.dist);
        ScoredPick(q, alt, b.key.value, b.dist, j);
      }
      forall i | 0 <= i < |alt| && alt[i].0 != [] && alt[i].0[0] == q[0] && b.key.None?
        ensures Lev(q, alt[i].0) > th
      {
        assert cs[i] == (alt[i].0, Lev(q, alt[i].0));
        LevBounds(q, alt[i].0);
      }
    }
  }

  /** The key `_fuzzy_match` returns is the nearest to `q` among all keys with
      the same first character, and the earliest in dict order among the
      nearest. */
  lemma FuzzyNearest(q: string, alt: Dict<string, real>)
    ensures var r := Fuzzy(q, alt);
      && (r.Some? ==> forall i :: 0 <= i < |alt| && alt[i].0 != [] && alt[i].0[0] == q[0] ==>
            Lev(q, r.value.0) <= Lev(q, alt[i].0))
      && (r.Some? ==> forall i :: 0 <= i < |alt| && alt[i].0 != [] && alt[i].0[0] == q[0] && Lev(q, alt[i].0) == Lev(q, r.value.0) ==>
            r.value.0 in Keys(alt[..i + 1]))
  {
    var r := Fuzzy(q, alt);
    if r.Some? {
      var th := Threshold(|q|);
      var cs := Scored(q, Keys(alt));
      FuzzyRunMin(q, th, cs);
      var j := FuzzyRunFirst(q, th, cs);
      var b := FuzzyRun(q, th, cs);
      assert alt[j].0 == b.key.value;
      forall i | 0 <= i < |alt| && alt[i].0 != [] && alt[i].0[0] == q[0]
        ensures b.dist <= Lev(q, alt[i].0)
        ensures Lev(q, alt[i].0) == b.dist ==> b.key.value in Keys(alt[..i + 1])
      {
        assert cs[i] == (alt[i].0, Lev(q, alt[i].0));
        LevBounds(q, alt[i].0);
        if Lev(q, alt[i].0) == b.dist {
          assert j <= i;
          assert alt[..i + 1][j].0 == b.key.value;
        }
      }
    }
  }

  /** One iteration of the `_fuzzy_match` loop: a measured key nearer than
      the best so far replaces it. */
  method FuzzyVisit(q: string, th: nat, k: string, best: Best) returns (next: Best)
    requires q != []
    ensures next == FuzzyStep(q, th, best, (k, Lev(q, k)))
  {
    next := best;
    if k != [] && k[0] == q[0] && |k| <= |q| + th && |q| <= |k| + th {
      var dist := Levenshtein(q, k);
      if dist < best.dist {
        next := Best(Some(k), dist);
      }
    }
  }

  /** The loop of `_fuzzy_match`: the best key and distance over the keys in
      dict order. */
  method FuzzyScan(q: string, keys: seq<string>) returns (best: Best)
    requires q != []
    ensures best == FuzzyRun(q, Threshold(|q|), Scored(q, keys))
  {
    var th := Threshold(|q|);
    ghost var cs := Scored(q, keys);
    best := Best(None, th + 1);
    var i := 0;
    while i < |keys|
      invariant 0 <= i <= |keys|
      invariant best == FuzzyRun(q, th, cs[..i])
    {
      assert cs[..i + 1][..i] == cs[..i] && cs[i] == (keys[i], Lev(q, keys[i]));
      best := FuzzyVisit(q, th, keys[i], best);
      i := i + 1;
    }
    assert cs[..|keys|] == cs;
  }

  /** `_fuzzy_match`: one pass over the keys in dict order. */
  method FuzzyMatch(q: string, alt: Dict<string, real>) returns (r: Option<(string, real)>)
    ensures r == Fuzzy(q, alt)
  {
    if q == [] {
      return None;
    }
    var th := Threshold(|q|);
    var keys := Keys(alt);
    var best := FuzzyScan(q, keys);
    if best.key.Some? && best.dist <= th && best.key.value in keys {
      r := Some((best.key.value, Get(alt, best.key.value).value));
    } else {
      r := None;
    }
  }

  // ------------------------------------------------------------ factor map

  /** One name is a prefix of the other. */
  predicate Related(q: string, k: string) {
    StartsWith(q, k) || StartsWith(k, q)
  }

  /** The position of the first key, in dict order, related to `q`. */
  function PrefixIndex(q: string, alt: Dict<string, real>): (r: Option<nat>)
    ensures r.Some? ==> r.value < |alt| && Related(q, alt[r.value].0)
    ensures r.Some? ==> forall i :: 0 <= i < r.value ==> !Related(q, alt[i].0)
    ensures r.None? ==> forall i :: 0 <= i < |alt| ==> !Related(q, alt[i].0)
  {
    if alt == [] then None
    else if Related(q, alt[0].0) then Some(0)
    else match PrefixIndex(q, alt[1..])
      case Some(i) => Some(i + 1)
      case None => None
  }

  /** The factor `_build_factor_map` resolves for one database name: the
      exact normalised key, else the first related key, else the fuzzy
      match. */
  function MatchFactor(alt: Dict<string, real>, name: string): Option<real> {
    var q := Norm(name);
    if q in Keys(alt) then Get(alt, q)
    else match PrefixIndex(q, alt)
      case Some(i) => Some(alt[i].1)
      case None =>
        match Fuzzy(q, alt)
        case Some(p) => Some(p.1)
        case None => None
  }

  function FactorPair(alt: Dict<string, real>, name: string): Option<(string, real)> {
    match MatchFactor(alt, name)
    case Some(f) => Some((name, f))
    case None => None
  }

  function FactorPairs(alt: Dict<string, real>, names: seq<string>): (r: seq<Option<(string, real)>>)
    ensures |r| == |names| && forall i :: 0 <= i < |names| ==> r[i] == FactorPair(alt, names[i])
  {
    seq(|names|, i requires 0 <= i < |names| => FactorPair(alt, names[i]))
  }

  /** `_build_factor_map(alt, names)`. */
  function FactorMap(alt: Dict<string, real>, names: seq<string>): Dict<string, real> {
    PutPresent([], FactorPairs(alt, names))
  }

  /** A resolved factor is one of the factors in `alt`, and the exact key
      wins over every other rule. A name resolves to nothing exactly when no
      key is related to its normal form and no key with the same first
      character is within the fuzzy threshold. */
  lemma MatchFactorSpec(alt: Dict<string, real>, name: string)
    ensures var q, r := Norm(name), MatchFactor(alt, name);
      && (r.Some? ==> r.value in Values(alt))
      && (q in Keys(alt) ==> r == Get(alt, q))
      && (r.None? <==> forall i :: 0 <= i < |alt| ==>
            !Related(q, alt[i].0) && (q != [] && alt[i].0 != [] && alt[i].0[0] == q[0] ==> Lev(q, alt[i].0) > Threshold(|q|)))
  {
    var q := Norm(name);
    FuzzyFound(q, alt);
    if q in Keys(alt) {
      var i := IndexOf(alt, q).value;
      assert StartsWith(q, alt[i].0);
    } else if PrefixIndex(q, alt).None? && Fuzzy(q, alt).Some? {
      var k := Fuzzy(q, alt).value.0;
      var i :| 0 <= i < |alt| && alt[i].0 == k;
      assert Get(alt, k) == Some(alt[IndexOf(alt, k).value].1);
    }
  }

  /** The pairs name the listed names only, each with its resolved factor. */
  lemma FactorPairsLast(alt: Dict<string, real>, names: seq<string>, k: string)
    ensures LastValue(FactorPairs(alt, names), k) == if k in names then MatchFactor(alt, k) else None
  {
    var f := (n: string) => MatchFactor(alt, n);
    var ps := FactorPairs(alt, names);
    forall i | 0 <= i < |names|
      ensures ps[i] == PairsOf(f, names)[i]
    {
      assert ps[i] == FactorPair(alt, names[i]);
    }
    assert ps == PairsOf(f, names);
    PairsOfLast(f, names, k);
  }

  /** The factor map has each key once: exactly the names that resolve, each
      with its own factor. */
  lemma FactorMapSpec(alt: Dict<string, real>, names: seq<string>)
    ensures KeysUnique(FactorMap(alt, names))
    ensures forall k :: Get(FactorMap(alt, names), k) == if k in names then MatchFactor(alt, k) else None
  {
    PutPresentSpec([], FactorPairs(alt, names));
    forall k
      ensures Get(FactorMap(alt, names), k) == if k in names then MatchFactor(alt, k) else None
    {
      FactorPairsLast(alt, names, k);
    }
  }

  /** One name of `_build_factor_map`: the exact lookup, then the prefix
      loop with its early exit, then the fuzzy match. */
  method ResolveFactor(alt: Dict<string, real>, name: string) returns (found: Option<real>)
    ensures found == MatchFactor(alt, name)
  {
    var q := Norm(name);
    found := None;
    if q in Keys(alt) {
      found := Get(alt, q);
    } else {
      var j := 0;
      while j < |alt|
        invariant 0 <= j <= |alt|
        invariant found.None? && forall i :: 0 <= i < j ==> !Related(q, alt[i].0)
      {
        if StartsWith(q, alt[j].0) || StartsWith(alt[j].0, q) {
          found := Some(alt[j].1);
          assert PrefixIndex(q, alt) == Some(j);
          break;
        }
        j := j + 1;
      }
      if found.None? {
        var fuzzy := FuzzyMatch(q, alt);
        if fuzzy.Some? {
          found := Some(fuzzy.value.1);
        }
      }
    }
  }

  /** The factor map grows by one name's pair at a time. */
  lemma FactorMapStep(alt: Dict<string, real>, names: seq<string>, n: nat)
    requires n < |names|
    ensures PutPresent([], FactorPairs(alt, names)[..n + 1])
      == match MatchFactor(alt, names[n])
         case Some(f) => Put(PutPresent([], FactorPairs(alt, names)[..n]), names[n], f)
         case None => PutPresent([], FactorPairs(alt, names)[..n])
  {
    var ps := FactorPairs(alt, names);
    assert ps[..n + 1][..n] == ps[..n];
    assert ps[..n + 1][n] == FactorPair(alt, names[n]);
  }

  /** `_build_factor_map`: each name in turn, keeping those that resolve. */
  method BuildFactorMap(alt: Dict<string, real>, names: seq<string>) returns (factorMap: Dict<string, real>)
    ensures factorMap == FactorMap(alt, names)
  {
    factorMap := [];
    var n := 0;
    while n < |names|
      invariant 0 <= n <= |names|
      invariant factorMap == PutPresent([], FactorPairs(alt, names)[..n])
    {
      var found := ResolveFactor(alt, names[n]);
      FactorMapStep(alt, names, n);
      if found.Some? {
        factorMap := Put(factorMap, names[n], found.value);
      }
      n := n + 1;
    }
    assert FactorPairs(alt, names)[..|names|] == FactorPairs(alt, names);
  }

  /** Writing only absent pairs leaves the dict empty. */
  lemma {:induction false} NoPairs(ps: seq<Option<(string, real)>>)
    requires forall i :: 0 <= i < |ps| ==> ps[i].None?
    ensures PutPresent([], ps) == []
    decreases |ps|
  {
    if ps != [] {
      NoPairs(ps[..|ps| - 1]);
    }
  }

  /** The `if db_item_names and alt_units_normed` guard only saves work:
      without names or without keys no name resolves. */
  lemma FactorMapGuard(alt: Dict<string, real>, names: seq<string>)
    ensures names == [] || alt == [] ==> FactorMap(alt, names) == []
  {
    if alt == [] {
      forall i | 0 <= i < |names|
        ensures FactorPairs(alt, names)[i] == None
      {
        MatchFactorSpec(alt, names[i]);
      }
      NoPairs(FactorPairs(alt, names));
    }
  }

  // ------------------------------------------------------------ what is stored

  /** `all_to_store`: every key of `alt` with its factor, then every
      resolved database name with its factor. */
  function AllToStore(alt: Dict<string, real>, factorMap: Dict<string, real>): Dict<string, real> {
    Update(Update([], alt), factorMap)
  }

  /** What `import_mkcp` stores as alternate units: the keys of `alt` and
      the resolved names, each once; a resolved name takes its resolved
      factor, any other key its factor from `alt`; every stored factor is one
      of `alt`'s. */
  lemma StoredFactors(alt: Dict<string, real>, names: seq<string>)
    requires KeysUnique(alt)
    ensures var s := AllToStore(alt, FactorMap(alt, names));
      && KeysUnique(s)
      && (forall k :: k in Keys(s) <==> k in Keys(alt) || (k in names && MatchFactor(alt, k).Some?))
      && (forall k :: Get(s, k) == if k in names && MatchFactor(alt, k).Some? then MatchFactor(alt, k) else Get(alt, k))
      && (forall i :: 0 <= i < |s| ==> s[i].1 in Values(alt))
  {
    var fm := FactorMap(alt, names);
    FactorMapSpec(alt, names);
    UpdateSpec([], alt);
    var a := Update([], alt);
    assert forall k :: Get(a, k) == Get(alt, k);
    UpdateSpec(a, fm);
    var s := AllToStore(alt, fm);
    forall i | 0 <= i < |s|
      ensures s[i].1 in Values(alt)
    {
      GetAt(s, i);
      var k := s[i].0;
      if k in names && MatchFactor(alt, k).Some? {
        MatchFactorSpec(alt, k);
      } else {
        var j := IndexOf(alt, k).value;
        assert alt[j].1 in Values(alt);
      }
    }
  }

  // ------------------------------------------------------------ tables

  /** An upsert loop's state: the rows by key and its two counters. */
  datatype Upserted<R> = Upserted(table: map<string, R>, added: nat, updated: nat)

  /** One upsert: an existing row is rewritten from itself and the item and
      counts as updated; a missing row is created from the item alone and
      counts as added. */
  function UpsertOne<T, R>(u: Upserted<R>, item: (string, T), row: (Option<R>, T) -> R): Upserted<R> {
    var k := item.0;
    if k in u.table then Upserted(u.table[k := row(Some(u.table[k]), item.1)], u.added, u.updated + 1)
    else Upserted(u.table[k := row(None, item.1)], u.added + 1, u.updated)
  }

  function UpsertAll<T, R>(u: Upserted<R>, items: seq<(string, T)>, row: (Option<R>, T) -> R): Upserted<R>
    decreases |items|
  {
    if items == [] then u else UpsertOne(UpsertAll(u, items[..|items| - 1], row), items[|items| - 1], row)
  }

  /** Upserting items with distinct keys: every item's key holds the row made
      from the item and the key's old row, every other row is untouched, each
      item counts once, as updated exactly when its key already had a row, and
      the table grows by the number added. */
  lemma {:induction false} UpsertAllSpec<T, R>(u: Upserted<R>, items: seq<(string, T)>, row: (Option<R>, T) -> R)
    requires KeysUnique(items)
    ensures var r := UpsertAll(u, items, row);
      && r.added + r.updated == u.added + u.updated + |items|
      && u.added <= r.added && |r.table.Keys| + u.added == |u.table.Keys| + r.added
      && (forall k :: k in r.table <==> k in u.table || k in Keys(items))
      && (forall i :: 0 <= i < |items| ==> (items[i].0 in r.table &&
            r.table[items[i].0] == row(if items[i].0 in u.table then Some(u.table[items[i].0]) else None, items[i].1)))
      && (forall k :: k in u.table && k !in Keys(items) ==> r.table[k] == u.table[k])
    decreases |items|
  {
    if items != [] {
      var init := items[..|items| - 1];
      var last := items[|items| - 1];
      UpsertAllSpec(u, init, row);
      var b := UpsertAll(u, init, row);
      assert Keys(items) == Keys(init) + [last.0];
      assert last.0 !in Keys(init) by {
        forall i | 0 <= i < |init|
          ensures init[i].0 != last.0
        {
          assert init[i] == items[i];
        }
      }
      assert (last.0 in b.table) == (last.0 in u.table);
      if last.0 !in b.table {
        assert b.table[last.0 := row(None, last.1)].Keys == b.table.Keys + {last.0};
      } else {
        assert b.table[last.0 := row(Some(b.table[last.0]), last.1)].Keys == b.table.Keys;
      }
      forall i | 0 <= i < |init|
        ensures items[i] == init[i]
      {
      }
    }
  }

  /** A vendor group row: `name` is its key. */
  datatype GroupRow = GroupRow(parent: Option<string>, baseUnit: string, guid: Option<string>, createdAt: int)

  /** An alternate unit row: `item_name` is its key. */
  datatype UnitRow = UnitRow(pkgFactor: real, pkgUnit: string, baseUnit: string, createdAt: int, updatedAt: int)

  /** An item-group mapping row: `item_name` is its key. */
  datatype MappingRow = MappingRow(groupName: string, createdAt: int, updatedAt: int)

  /** The vendor-group upsert: parent, base unit and guid from the parsed
      group; a new row is created at `now`. */
  function GroupUpsert(now: int): (Option<GroupRow>, MkcpParser.VendorGroup) -> GroupRow {
    (e: Option<GroupRow>, g: MkcpParser.VendorGroup) =>
      GroupRow(g.parent, g.baseUnit, g.guid, if e.Some? then e.value.createdAt else now)
  }

  /** The alternate-unit upsert: an existing row takes the factor and
      `updated_at = now`; a new row has the column defaults PKG and PCS. */
  function UnitUpsert(now: int): (Option<UnitRow>, real) -> UnitRow {
    (e: Option<UnitRow>, f: real) =>
      if e.Some? then e.value.(pkgFactor := f, updatedAt := now) else UnitRow(f, "PKG", "PCS", now, now)
  }

  /** The item-group upsert. */
  function MappingUpsert(now: int): (Option<MappingRow>, string) -> MappingRow {
    (e: Option<MappingRow>, g: string) =>
      if e.Some? then e.value.(groupName := g, updatedAt := now) else MappingRow(g, now, now)
  }

  /** The parsed groups keyed by name. */
  function GroupKeyed(gs: seq<MkcpParser.VendorGroup>): (r: seq<(string, MkcpParser.VendorGroup)>)
    ensures |r| == |gs| && forall i :: 0 <= i < |gs| ==> r[i] == (gs[i].name, gs[i])
  {
    seq(|gs|, i requires 0 <= i < |gs| => (gs[i].name, gs[i]))
  }

  /** After the alternate-unit upsert of `import_mkcp`: a resolved database
      name holds its resolved factor, any other key of `alt` its factor from
      `alt`, both stamped `now`; rows for other names are untouched; and each
      stored pair counts once, as added or updated. */
  lemma ImportedUnits(table: map<string, UnitRow>, alt: Dict<string, real>, names: seq<string>, now: int)
    requires KeysUnique(alt)
    ensures var store := AllToStore(alt, FactorMap(alt, names));
      var u := UpsertAll(Upserted(table, 0, 0), store, UnitUpsert(now));
      && u.added + u.updated == |store|
      && (forall n :: n in names && MatchFactor(alt, n).Some? ==>
            n in u.table && u.table[n].pkgFactor == MatchFactor(alt, n).value && u.table[n].updatedAt == now)
      && (forall k :: k in Keys(alt) && !(k in names && MatchFactor(alt, k).Some?) ==>
            k in u.table && Some(u.table[k].pkgFactor) == Get(alt, k) && u.table[k].updatedAt == now)
      && (forall k :: k in table && k !in Keys(alt) && !(k in names && MatchFactor(alt, k).Some?) ==> k in u.table && u.table[k] == table[k])
  {
    var store := AllToStore(alt, FactorMap(alt, names));
    StoredFactors(alt, names);
    UpsertAllSpec(Upserted(table, 0, 0), store, UnitUpsert(now));
    var u := UpsertAll(Upserted(table, 0, 0), store, UnitUpsert(now));
    forall k | k in Keys(store)
      ensures k in u.table && Some(u.table[k].pkgFactor) == Get(store, k) && u.table[k].updatedAt == now
    {
      var i := IndexOf(store, k).value;
      GetAt(store, i);
    }
  }

  /** The name fetch as intended: the non-empty stock item names, in order. */
  function DbItemNames(rows: seq<string>): (r: seq<string>)
    ensures forall n :: n in r <==> n in rows && n != []
    decreases |rows|
  {
    if rows == [] then []
    else (if rows[0] != [] then [rows[0]] else []) + DbItemNames(rows[1..])
  }

  /** The name fetch as written: a one-column `select` yields the names
      themselves, so `row[0]` is each name's first character (never falsy),
      and an empty name raises IndexError. */
  function FetchNamesAsWritten(rows: seq<string>): Option<seq<string>>
    decreases |rows|
  {
    if rows == [] then Some([])
    else if rows[0] == [] then None
    else match FetchNamesAsWritten(rows[1..])
      case None => None
      case Some(t) => Some([[rows[0][0]]] + t)
  }

  /** The fetch as written fails exactly when some name is empty, and
      otherwise gives one name per row: its first character. */
  lemma {:induction false} FetchNamesAsWrittenSpec(rows: seq<string>)
    ensures var r := FetchNamesAsWritten(rows);
      && (r.None? <==> exists i :: 0 <= i < |rows| && rows[i] == [])
      && (r.Some? ==> |r.value| == |rows| && forall i :: 0 <= i < |rows| ==> r.value[i] == [rows[i][0]])
    decreases |rows|
  {
    if rows != [] && rows[0] != [] {
      FetchNamesAsWrittenSpec(rows[1..]);
      assert forall i :: 1 <= i < |rows| ==> rows[i] == rows[1..][i - 1];
      if FetchNamesAsWritten(rows[1..]).None? {
        var i :| 0 <= i < |rows[1..]| && rows[1..][i] == [];
        assert rows[i + 1] == [];
      }
    }
  }


  /** With the intended fetch, every alternate unit `import_mkcp` stores is
      keyed by a key of the conversion data or by a stock item name. */
  lemma StoredNamesKnown(alt: Dict<string, real>, rows: seq<string>)
    requires KeysUnique(alt)
    ensures forall k :: k in Keys(AllToStore(alt, FactorMap(alt, DbItemNames(rows)))) ==> k in Keys(alt) || k in rows
  {
    StoredFactors(alt, DbItemNames(rows));
  }

  /** As written, the stock item `BELL CROWN MINI` is fetched as the name
      `B`, which the prefix rule resolves to the conversion key `BELL CROWN
      MINI`, so an alternate unit `B` is stored that is neither a stock item
      nor a conversion key. */
  lemma FetchAsWrittenStoresStrayName(k: string)
    requires k == "BELL CROWN MINI"
    ensures var alt := [(k, 300.0)];
      && FetchNamesAsWritten([k]) == Some(["B"])
      && "B" in Keys(AllToStore(alt, FactorMap(alt, ["B"])))
      && "B" !in Keys(alt) && "B" !in [k]
  {
    var alt := [(k, 300.0)];
    FetchSingle(k);
    assert [[k[0]]] == ["B"];
    MatchInitial(k);
    assert KeysUnique(alt);
    StoredFactors(alt, ["B"]);
  }

  /** One non-empty name is fetched as its first character. */
  lemma FetchSingle(k: string)
    requires k != []
    ensures FetchNamesAsWritten([k]) == Some([[k[0]]])
  {
    assert [k][1..] == [];
    assert FetchNamesAsWritten([k][1..]) == Some([]);
    assert [[k[0]]] + [] == [[k[0]]];
  }

  /** `B` resolves through the prefix rule to the one key it begins. */
  lemma MatchInitial(k: string)
    requires k == "BELL CROWN MINI"
    ensures MatchFactor([(k, 300.0)], "B") == Some(300.0) && Keys([(k, 300.0)]) == [k]
  {
    assert Normalized("B");
    NormFixed("B");
    assert StartsWith(k, "B");
  }


  /** The counts `import_mkcp` returns. */
  datatype ImportCounts = ImportCounts(
    groupsAdded: nat, groupsUpdated: nat,
    unitsAdded: nat, unitsUpdated: nat,
    itemGroupsAdded: nat, itemGroupsUpdated: nat,
    xlsxCount: nat, priceListCount: nat,
    unmatched: nat)

  /** The alternate units `import_mkcp` stores for the names fetched. */
  function Stored(alt: Dict<string, real>, names: seq<string>): Dict<string, real> {
    AllToStore(alt, FactorMap(alt, names))
  }

  /** `max(0, len(alt_units_normed) - len(factor_map))`. */
  function Unmatched(alt: Dict<string, real>, names: seq<string>): nat {
    if |alt| < |FactorMap(alt, names)| then 0 else |alt| - |FactorMap(alt, names)|
  }

  /** `row[0]` on an empty stock item name raises IndexError. */
  datatype ImportError = EmptyStockItemName

  /** The three tables the importer writes, and the stock item names it
      reads. */
  class MkcpTables {
    var vendorGroups: map<string, GroupRow>
    var altUnits: map<string, UnitRow>
    var itemGroups: map<string, MappingRow>
    var stockItemNames: seq<string>

    constructor (groups: map<string, GroupRow>, units: map<string, UnitRow>, mappings: map<string, MappingRow>, names: seq<string>)
      ensures vendorGroups == groups && altUnits == units && itemGroups == mappings && stockItemNames == names
    {
      vendorGroups, altUnits, itemGroups, stockItemNames := groups, units, mappings, names;
    }

    method UpsertGroups(gs: seq<MkcpParser.VendorGroup>, now: int) returns (added: nat, updated: nat)
      modifies this
      ensures Upserted(vendorGroups, added, updated) == UpsertAll(Upserted(old(vendorGroups), 0, 0), GroupKeyed(gs), GroupUpsert(now))
      ensures altUnits == old(altUnits) && itemGroups == old(itemGroups) && stockItemNames == old(stockItemNames)
    {
      var items := GroupKeyed(gs);
      added, updated := 0, 0;
      var i := 0;
      while i < |gs|
        invariant 0 <= i <= |gs|
        invariant Upserted(vendorGroups, added, updated) == UpsertAll(Upserted(old(vendorGroups), 0, 0), items[..i], GroupUpsert(now))
        invariant altUnits == old(altUnits) && itemGroups == old(itemGroups) && stockItemNames == old(stockItemNames)
      {
        var g := gs[i];
        assert items[..i + 1][..i] == items[..i] && items[i] == (g.name, g);
        if g.name in vendorGroups {
          vendorGroups := vendorGroups[g.name := GroupRow(g.parent, g.baseUnit, g.guid, vendorGroups[g.name].createdAt)];
          updated := updated + 1;
        } else {
          vendorGroups := vendorGroups[g.name := GroupRow(g.parent, g.baseUnit, g.guid, now)];
          added := added + 1;
        }
        i := i + 1;
      }
      assert items[..|gs|] == items;
    }

    method UpsertUnits(store: Dict<string, real>, now: int) returns (added: nat, updated: nat)
      modifies this
      ensures Upserted(altUnits, added, updated) == UpsertAll(Upserted(old(altUnits), 0, 0), store, UnitUpsert(now))
      ensures vendorGroups == old(vendorGroups) && itemGroups == old(itemGroups) && stockItemNames == old(stockItemNames)
    {
      added, updated := 0, 0;
      var i := 0;
      while i < |store|
        invariant 0 <= i <= |store|
        invariant Upserted(altUnits, added, updated) == UpsertAll(Upserted(old(altUnits), 0, 0), store[..i], UnitUpsert(now))
        invariant vendorGroups == old(vendorGroups) && itemGroups == old(itemGroups) && stockItemNames == old(stockItemNames)
      {
        var (name, factor) := store[i];
        assert store[..i + 1][..i] == store[..i];
        if name in altUnits {
          altUnits := altUnits[name := altUnits[name].(pkgFactor := factor, updatedAt := now)];
          updated := updated + 1;
        } else {
          altUnits := altUnits[name := UnitRow(factor, "PKG", "PCS", now, now)];
          added := added + 1;
        }
        i := i + 1;
      }
      assert store[..|store|] == store;
    }

    method UpsertMappings(mapping: Dict<string, string>, now: int) returns (added: nat, updated: nat)
      modifies this
      ensures Upserted(itemGroups, added, updated) == UpsertAll(Upserted(old(itemGroups), 0, 0), mapping, MappingUpsert(now))
      ensures vendorGroups == old(vendorGroups) && altUnits == old(altUnits) && stockItemNames == old(stockItemNames)
    {
      added, updated := 0, 0;
      var i := 0;
      while i < |mapping|
        invariant 0 <= i <= |mapping|
        invariant Upserted(itemGroups, added, updated) == UpsertAll(Upserted(old(itemGroups), 0, 0), mapping[..i], MappingUpsert(now))
        invariant vendorGroups == old(vendorGroups) && altUnits == old(altUnits) && stockItemNames == old(stockItemNames)
      {
        var (name, group) := mapping[i];
        assert mapping[..i + 1][..i] == mapping[..i];
        if name in itemGroups {
          itemGroups := itemGroups[name := itemGroups[name].(groupName := group, updatedAt := now)];
          updated := updated + 1;
        } else {
          itemGroups := itemGroups[name := MappingRow(group, now, now)];
          added := added + 1;
        }
        i := i + 1;
      }
      assert mapping[..|mapping|] == mapping;
    }

    /** The alternate-unit and item-group phases of `import_mkcp` for the
        names fetched, after the vendor-group phase counted `ga` and `gu`:
        the factor map (skipped without names or keys), the stored factors,
        both upserts and the unmatched count. */
    method ImportFactors(parsed: MkcpParser.MkcpData, names: seq<string>, now: int, ga: nat, gu: nat)
      returns (counts: ImportCounts)
      modifies this
      ensures var u := UpsertAll(Upserted(old(altUnits), 0, 0), Stored(parsed.altUnits, names), UnitUpsert(now));
        var m := UpsertAll(Upserted(old(itemGroups), 0, 0), parsed.itemGroups, MappingUpsert(now));
        && altUnits == u.table && itemGroups == m.table
        && counts == ImportCounts(ga, gu, u.added, u.updated, m.added, m.updated, parsed.xlsxCount,
                                  parsed.priceListCount, Unmatched(parsed.altUnits, names))
      ensures vendorGroups == old(vendorGroups) && stockItemNames == old(stockItemNames)
    {
      var factorMap: Dict<string, real> := [];
      if names != [] && parsed.altUnits != [] {
        factorMap := BuildFactorMap(parsed.altUnits, names);
      } else {
        FactorMapGuard(parsed.altUnits, names);
      }
      var store := AllToStore(parsed.altUnits, factorMap);
      var diff := |parsed.altUnits| - |factorMap|;
      var ua, uu := UpsertUnits(store, now);
      var ma, mu := UpsertMappings(parsed.itemGroups, now);
      counts := ImportCounts(ga, gu, ua, uu, ma, mu, parsed.xlsxCount, parsed.priceListCount,
                             if diff < 0 then 0 else diff);
    }

    /** `import_mkcp` on what `parse_mkcp_files` returned, with `now` the
        clock reading it stamps rows with. The vendor groups are committed
        first; an empty stock item name then fails the import and leaves the
        other two tables as they were. */
    method ImportMkcp(parsed: MkcpParser.MkcpData, now: int) returns (result: Result<ImportCounts, ImportError>)
      modifies this
      ensures var g := UpsertAll(Upserted(old(vendorGroups), 0, 0), GroupKeyed(parsed.groups), GroupUpsert(now));
        vendorGroups == g.table && stockItemNames == old(stockItemNames)
      ensures FetchNamesAsWritten(old(stockItemNames)).None? ==>
        result == Err(EmptyStockItemName) && altUnits == old(altUnits) && itemGroups == old(itemGroups)
      ensures FetchNamesAsWritten(old(stockItemNames)).Some? ==>
        var names := FetchNamesAsWritten(old(stockItemNames)).value;
        var g := UpsertAll(Upserted(old(vendorGroups), 0, 0), GroupKeyed(parsed.groups), GroupUpsert(now));
        var u := UpsertAll(Upserted(old(altUnits), 0, 0), Stored(parsed.altUnits, names), UnitUpsert(now));
        var m := UpsertAll(Upserted(old(itemGroups), 0, 0), parsed.itemGroups, MappingUpsert(now));
        && altUnits == u.table && itemGroups == m.table
        && result == Ok(ImportCounts(g.added, g.updated, u.added, u.updated, m.added, m.updated,
                                     parsed.xlsxCount, parsed.priceListCount, Unmatched(parsed.altUnits, names)))
    {
      var ga, gu := UpsertGroups(parsed.groups, now);
      var fetched := FetchNamesAsWritten(stockItemNames);
      if fetched.None? {
        return Err(EmptyStockItemName);
      }
      var counts := ImportFactors(parsed, fetched.value, now, ga, gu);
      result := Ok(counts);
    }
  }
}
