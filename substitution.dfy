/** A regular-expression substitution as `re.sub` performs it: the text is
    scanned left to right, the step at each position either copies what it
    consumes or puts something else in its place, and the pieces are joined.
    The step is a parameter, so the facts here hold for every pattern. */
module Substitution {
  /** What one step consumes (`len` characters), the text it leaves in their
      place and what it reports as removed. */
  datatype Step<D> = Step(len: nat, kept: string, dropped: seq<D>)

  /** `f` scans `s`: it is defined at every position, consumes at least one
      character and no more than remain, and a step that removes nothing
      copies what it consumes. */
  ghost predicate Scans<D>(f: nat --> Step<D>, s: string) {
    forall i :: 0 <= i < |s| ==>
      f.requires(i) && 1 <= f(i).len && i + f(i).len <= |s|
      && (f(i).dropped == [] ==> f(i).kept == s[i..i + f(i).len])
  }

  /** The text the substitution produces from position `i` on. */
  function Kept<D>(f: nat --> Step<D>, s: string, i: nat): string
    requires Scans(f, s) && i <= |s|
    decreases |s| - i
  {
    if i == |s| then [] else f(i).kept + Kept(f, s, i + f(i).len)
  }

  /** What the same scan removes, in order. */
  function Dropped<D>(f: nat --> Step<D>, s: string, i: nat): seq<D>
    requires Scans(f, s) && i <= |s|
    decreases |s| - i
  {
    if i == |s| then [] else f(i).dropped + Dropped(f, s, i + f(i).len)
  }

  /** The scan from `i` is the step at `i` followed by the scan after it. */
  lemma KeptStep<D>(f: nat --> Step<D>, s: string, i: nat)
    requires Scans(f, s) && i < |s|
    ensures Kept(f, s, i) == f(i).kept + Kept(f, s, i + f(i).len)
    ensures Dropped(f, s, i) == f(i).dropped + Dropped(f, s, i + f(i).len)
  {
  }

  /** A scan that removes nothing copies its text. */
  lemma {:induction false} Copies<D>(f: nat --> Step<D>, s: string, i: nat)
    requires Scans(f, s) && i <= |s|
    requires Dropped(f, s, i) == []
    ensures Kept(f, s, i) == s[i..]
    decreases |s| - i
  {
    if i < |s| {
      var j := i + f(i).len;
      KeptStep(f, s, i);
      assert f(i).dropped == [] && Dropped(f, s, j) == [];
      Copies(f, s, j);
      assert s[i..] == s[i..j] + s[j..];
    }
  }

  /** Whatever holds of everything a single step removes holds of everything
      the scan removes. */
  lemma {:induction false} DroppedSatisfy<D>(f: nat --> Step<D>, s: string, i: nat, P: D -> bool)
    requires Scans(f, s) && i <= |s|
    requires forall j, k :: i <= j < |s| && 0 <= k < |f(j).dropped| ==> P(f(j).dropped[k])
    ensures forall k :: 0 <= k < |Dropped(f, s, i)| ==> P(Dropped(f, s, i)[k])
    decreases |s| - i
  {
    if i < |s| {
      var j := i + f(i).len;
      KeptStep(f, s, i);
      DroppedSatisfy(f, s, j, P);
      var d, rest := f(i).dropped, Dropped(f, s, j);
      forall k | 0 <= k < |d + rest|
        ensures P((d + rest)[k])
      {
        if k < |d| {
          assert (d + rest)[k] == f(i).dropped[k];
        } else {
          assert (d + rest)[k] == rest[k - |d|];
        }
      }
    }
  }

  lemma AppendAssoc<T>(a: seq<T>, b: seq<T>, c: seq<T>)
    ensures (a + b) + c == a + (b + c)
  {
  }

  /** The substitution loop: each step's kept text is appended to the output
      and what it removes to the list of removals. */
  method Substitute<D>(f: nat --> Step<D>, s: string) returns (kept: string, dropped: seq<D>)
    requires Scans(f, s)
    ensures kept == Kept(f, s, 0) && dropped == Dropped(f, s, 0)
  {
    kept, dropped := [], [];
    var i := 0;
    while i < |s|
      invariant 0 <= i <= |s|
      invariant Kept(f, s, 0) == kept + Kept(f, s, i)
      invariant Dropped(f, s, 0) == dropped + Dropped(f, s, i)
      decreases |s| - i
    {
      var step := f(i);
      KeptStep(f, s, i);
      AppendAssoc(kept, step.kept, Kept(f, s, i + step.len));
      AppendAssoc(dropped, step.dropped, Dropped(f, s, i + step.len));
      kept := kept + step.kept;
      dropped := dropped + step.dropped;
      i := i + step.len;
    }
  }
}
