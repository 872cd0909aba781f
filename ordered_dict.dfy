/** Python's `dict` as the MKCP modules use it: pairs in insertion order, each key
    once. Order matters there, because later lookups take "the first key in dict
    order" that satisfies a test. */
module OrderedDict {
  import opened Wrappers

  type Dict<K, V> = seq<(K, V)>

  function Keys<K, V>(d: Dict<K, V>): (r: seq<K>)
    ensures |r| == |d| && forall i :: 0 <= i < |d| ==> r[i] == d[i].0
  {
    seq(|d|, i requires 0 <= i < |d| => d[i].0)
  }

  function Values<K, V>(d: Dict<K, V>): (r: seq<V>)
    ensures |r| == |d| && forall i :: 0 <= i < |d| ==> r[i] == d[i].1
  {
    seq(|d|, i requires 0 <= i < |d| => d[i].1)
  }

  predicate KeysUnique<K(==), V>(d: Dict<K, V>) {
    forall i, j :: 0 <= i < j < |d| ==> d[i].0 != d[j].0
  }

  /** The position of key `k`. */
  function IndexOf<K(==), V>(d: Dict<K, V>, k: K): (r: Option<nat>)
    ensures r.Some? ==> r.value < |d| && d[r.value].0 == k && forall i :: 0 <= i < r.value ==> d[i].0 != k
    ensures r.None? <==> k !in Keys(d)
  {
    if d == [] then None
    else if d[0].0 == k then Some(0)
    else match IndexOf(d[1..], k)
      case Some(i) => Some(i + 1)
      case None => None
  }

  /** `d.get(k)`. */
  function Get<K(==), V>(d: Dict<K, V>, k: K): (r: Option<V>)
    ensures r.Some? <==> k in Keys(d)
  {
    match IndexOf(d, k)
    case Some(i) => Some(d[i].1)
    case None => None
  }

  lemma GetAt<K, V>(d: Dict<K, V>, i: nat)
    requires KeysUnique(d) && i < |d|
    ensures Get(d, d[i].0) == Some(d[i].1)
  {
  }

  /** `d[k] = v`: an existing key keeps its place and takes the new value, a new
      key goes to the end. */
  function Put<K(==), V>(d: Dict<K, V>, k: K, v: V): Dict<K, V> {
    match IndexOf(d, k)
    case Some(i) => d[i := (k, v)]
    case None => d + [(k, v)]
  }

  lemma PutSpec<K, V>(d: Dict<K, V>, k: K, v: V)
    requires KeysUnique(d)
    ensures KeysUnique(Put(d, k, v))
    ensures Get(Put(d, k, v), k) == Some(v)
    ensures forall k' :: k' != k ==> Get(Put(d, k, v), k') == Get(d, k')
    ensures k in Keys(d) ==> Keys(Put(d, k, v)) == Keys(d)
    ensures k !in Keys(d) ==> Keys(Put(d, k, v)) == Keys(d) + [k]
  {
    var r := Put(d, k, v);
    forall k' | k' != k
      ensures Get(r, k') == Get(d, k')
    {
      match IndexOf(d, k')
      case Some(i) =>
        GetAt(r, i);
      case None =>
        assert k' !in Keys(r);
    }
    match IndexOf(d, k)
    case Some(i) =>
      GetAt(r, i);
    case None =>
      GetAt(r, |d|);
  }

  /** A property every key and every value of `d` has survives `d[k] = v` when
      `k` and `v` have it too. */
  lemma PutKeeps<K, V>(d: Dict<K, V>, k: K, v: V, keyOk: K -> bool, valueOk: V -> bool)
    requires KeysUnique(d) && keyOk(k) && valueOk(v)
    requires forall i :: 0 <= i < |d| ==> keyOk(d[i].0) && valueOk(d[i].1)
    ensures KeysUnique(Put(d, k, v))
    ensures forall i :: 0 <= i < |Put(d, k, v)| ==> keyOk(Put(d, k, v)[i].0) && valueOk(Put(d, k, v)[i].1)
  {
    PutSpec(d, k, v);
  }

  /** `d.update(e)`: the pairs of `e` are put in order. */
  function Update<K(==), V>(d: Dict<K, V>, e: Dict<K, V>): Dict<K, V>
    decreases |e|
  {
    if e == [] then d else Put(Update(d, e[..|e| - 1]), e[|e| - 1].0, e[|e| - 1].1)
  }

  /** After `d.update(e)` every key of `e` has its value from `e`, every other key
      keeps its value from `d`, and the keys of `d` come first in their old order. */
  lemma {:induction false} UpdateSpec<K, V>(d: Dict<K, V>, e: Dict<K, V>)
    requires KeysUnique(d) && KeysUnique(e)
    ensures KeysUnique(Update(d, e))
    ensures forall k :: Get(Update(d, e), k) == if k in Keys(e) then Get(e, k) else Get(d, k)
    ensures |Keys(d)| <= |Keys(Update(d, e))| && Keys(Update(d, e))[..|d|] == Keys(d)
    ensures forall k :: k in Keys(Update(d, e)) <==> k in Keys(d) || k in Keys(e)
    decreases |e|
  {
    if e != [] {
      var e' := e[..|e| - 1];
      var last := e[|e| - 1];
      UpdateSpec(d, e');
      var u := Update(d, e');
      PutSpec(u, last.0, last.1);
      forall k
        ensures Get(e, k) == if k == last.0 then Some(last.1) else Get(e', k)
        ensures k in Keys(e) <==> k == last.0 || k in Keys(e')
      {
        GetAt(e, |e| - 1);
        assert Keys(e) == Keys(e') + [last.0];
        if k != last.0 {
          match IndexOf(e', k)
          case Some(i) =>
            GetAt(e, i);
          case None =>
        }
      }
      if last.0 !in Keys(u) {
        assert Keys(u + [last]) == Keys(u) + [last.0];
      }
    }
  }

  /** A loop that writes `d[k] = v` for the items that yield a pair and skips
      the others. */
  function PutPresent<K(==), V>(d: Dict<K, V>, ps: seq<Option<(K, V)>>): Dict<K, V>
    decreases |ps|
  {
    if ps == [] then d
    else
      var before := PutPresent(d, ps[..|ps| - 1]);
      match ps[|ps| - 1]
      case Some(p) => Put(before, p.0, p.1)
      case None => before
  }

  /** The value of the last pair with key `k`. */
  function LastValue<K(==), V>(ps: seq<Option<(K, V)>>, k: K): Option<V>
    decreases |ps|
  {
    if ps == [] then None
    else if ps[|ps| - 1].Some? && ps[|ps| - 1].value.0 == k then Some(ps[|ps| - 1].value.1)
    else LastValue(ps[..|ps| - 1], k)
  }

  /** The last pair written for a key wins; a key no pair names keeps its old
      value; the result has each key once. */
  lemma {:induction false} PutPresentSpec<K, V>(d: Dict<K, V>, ps: seq<Option<(K, V)>>)
    requires KeysUnique(d)
    ensures KeysUnique(PutPresent(d, ps))
    ensures forall k :: Get(PutPresent(d, ps), k) == if LastValue(ps, k).Some? then LastValue(ps, k) else Get(d, k)
    decreases |ps|
  {
    if ps != [] {
      var init := ps[..|ps| - 1];
      PutPresentSpec(d, init);
      match ps[|ps| - 1]
      case Some(p) => PutSpec(PutPresent(d, init), p.0, p.1);
      case None =>
    }
  }

  /** A property every key and value of `d` and of every pair has holds of
      every key and value of the result. */
  lemma {:induction false} PutPresentKeeps<K, V>(d: Dict<K, V>, ps: seq<Option<(K, V)>>, keyOk: K -> bool, valueOk: V -> bool)
    requires KeysUnique(d) && forall i :: 0 <= i < |d| ==> keyOk(d[i].0) && valueOk(d[i].1)
    requires forall i :: 0 <= i < |ps| && ps[i].Some? ==> keyOk(ps[i].value.0) && valueOk(ps[i].value.1)
    ensures KeysUnique(PutPresent(d, ps))
    ensures forall i :: 0 <= i < |PutPresent(d, ps)| ==> keyOk(PutPresent(d, ps)[i].0) && valueOk(PutPresent(d, ps)[i].1)
    decreases |ps|
  {
    if ps != [] {
      var init := ps[..|ps| - 1];
      PutPresentKeeps(d, init, keyOk, valueOk);
      match ps[|ps| - 1]
      case Some(p) => PutKeeps(PutPresent(d, init), p.0, p.1, keyOk, valueOk);
      case None =>
    }
  }

  /** The value found is that of the last pair with the key: its index is
      returned, and no later pair has the key. */
  lemma {:induction false} LastValueAt<K, V>(ps: seq<Option<(K, V)>>, k: K) returns (j: nat)
    requires LastValue(ps, k).Some?
    ensures j < |ps| && ps[j] == Some((k, LastValue(ps, k).value))
    ensures forall i :: j < i < |ps| ==> ps[i].None? || ps[i].value.0 != k
    decreases |ps|
  {
    var last := ps[|ps| - 1];
    if last.Some? && last.value.0 == k {
      j := |ps| - 1;
    } else {
      j := LastValueAt(ps[..|ps| - 1], k);
    }
  }

  /** No value is found exactly when no pair has the key. */
  lemma {:induction false} LastValueNone<K, V>(ps: seq<Option<(K, V)>>, k: K)
    ensures LastValue(ps, k).None? <==> forall i :: 0 <= i < |ps| ==> ps[i].None? || ps[i].value.0 != k
    decreases |ps|
  {
    if ps != [] {
      LastValueNone(ps[..|ps| - 1], k);
    }
  }

  /** The pairs a key-to-optional-value function gives over a list of keys:
      a key with a value gives its pair, one without gives nothing. */
  function PairsOf<K, V>(f: K -> Option<V>, ks: seq<K>): (r: seq<Option<(K, V)>>)
    ensures |r| == |ks|
    ensures forall i :: 0 <= i < |ks| ==> r[i] == if f(ks[i]).Some? then Some((ks[i], f(ks[i]).value)) else None
  {
    seq(|ks|, i requires 0 <= i < |ks| => if f(ks[i]).Some? then Some((ks[i], f(ks[i]).value)) else None)
  }

  /** Over such pairs the last value of a key is its own value when it is
      listed, and nothing otherwise. */
  lemma {:induction false} PairsOfLast<K, V>(f: K -> Option<V>, ks: seq<K>, k: K)
    ensures LastValue(PairsOf(f, ks), k) == if k in ks then f(k) else None
    decreases |ks|
  {
    var ps := PairsOf(f, ks);
    if ks != [] {
      var init := ks[..|ks| - 1];
      assert ps[..|ps| - 1] == PairsOf(f, init);
      PairsOfLast(f, init, k);
      assert ks == init + [ks[|ks| - 1]];
    }
  }

  /** Writing one more optional pair: a present pair is put, an absent one
      changes nothing. */
  lemma PutPresentSnoc<K, V>(d: Dict<K, V>, ps: seq<Option<(K, V)>>, i: nat)
    requires i < |ps|
    ensures ps[i].Some? ==> PutPresent(d, ps[..i + 1]) == Put(PutPresent(d, ps[..i]), ps[i].value.0, ps[i].value.1)
    ensures ps[i].None? ==> PutPresent(d, ps[..i + 1]) == PutPresent(d, ps[..i])
  {
    assert ps[..i + 1][..i] == ps[..i];
  }

  /** Merging `e` over `d` into an empty dict: each key once, the keys of
      both, and `e` wins wherever both have a key. */
  lemma MergeOver<K, V>(d: Dict<K, V>, e: Dict<K, V>)
    requires KeysUnique(d) && KeysUnique(e)
    ensures KeysUnique(Update(Update([], d), e))
    ensures forall k :: k in Keys(Update(Update([], d), e)) <==> k in Keys(e) || k in Keys(d)
    ensures forall k :: Get(Update(Update([], d), e), k) == if k in Keys(e) then Get(e, k) else Get(d, k)
  {
    UpdateSpec([], d);
    UpdateSpec(Update([], d), e);
  }
}
