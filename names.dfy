/** Item-name normalisation shared by the MKCP modules: whitespace runs collapsed
    to one space, upper case, and the trailing package-size suffix such as
    `( 300 PCS )` that the price list and the conversion sheet append to names. */
module ItemNames {
  import opened Wrappers
  import opened Text

  /** Every whitespace character is a plain space and no two are adjacent. */
  predicate Collapsed(s: string) {
    forall i :: 0 <= i < |s| && IsSpace(s[i]) ==> s[i] == ' ' && (i + 1 < |s| ==> !IsSpace(s[i + 1]))
  }

  /** `re.sub(r"\s+", " ", s)`: each maximal run of whitespace becomes one space. */
  function Collapse(s: string): (r: string)
    ensures s == [] <==> r == []
    ensures s != [] ==> (IsSpace(r[0]) <==> IsSpace(s[0]))
    ensures s != [] ==> (IsSpace(r[|r| - 1]) <==> IsSpace(s[|s| - 1]))
    ensures Collapsed(r)
    decreases |s|
  {
    if s == [] then []
    else if IsSpace(s[0]) then
      var rest := LStrip(s[1..]);
      assert rest != [] ==> rest[|rest| - 1] == s[|s| - 1];
      " " + Collapse(rest)
    else [s[0]] + Collapse(s[1..])
  }

  lemma {:induction false} CollapseFixed(s: string)
    requires Collapsed(s)
    ensures Collapse(s) == s
    decreases |s|
  {
    if s != [] {
      assert Collapsed(s[1..]);
      CollapseFixed(s[1..]);
      if IsSpace(s[0]) {
        assert s[1..] == [] || !IsSpace(s[1..][0]);
      }
    }
  }

  /** `_norm`: stripped, whitespace runs collapsed to one space, upper case. */
  function Norm(name: string): string {
    Upper(Collapse(Strip(name)))
  }

  /** The names `Norm` produces: already upper case, no surrounding whitespace,
      and single spaces inside. */
  predicate Normalized(s: string) {
    Collapsed(s) && Upper(s) == s && (s == [] || (!IsSpace(s[0]) && !IsSpace(s[|s| - 1])))
  }

  lemma UpperKeepsSpaces(s: string)
    ensures forall i :: 0 <= i < |s| ==> (IsSpace(Upper(s)[i]) <==> IsSpace(s[i]))
    ensures forall i :: 0 <= i < |s| && s[i] == ' ' ==> Upper(s)[i] == ' '
    ensures Upper(Upper(s)) == Upper(s)
  {
  }

  lemma NormShape(name: string)
    ensures Normalized(Norm(name))
  {
    var c := Collapse(Strip(name));
    UpperKeepsSpaces(c);
  }

  /** A name that is not blank normalises to a name that is not empty. */
  lemma NormNonEmpty(name: string)
    requires name != [] && !IsSpace(name[0])
    ensures Norm(name) != []
  {
  }

  lemma NormFixed(s: string)
    requires Normalized(s)
    ensures Norm(s) == s
  {
    StripFixed(s);
    CollapseFixed(s);
  }

  /** Normalising twice is normalising once, so normalised keys can be compared
      with normalised queries directly. */
  lemma NormIdempotent(name: string)
    ensures Norm(Norm(name)) == Norm(name)
  {
    NormShape(name);
    NormFixed(Norm(name));
  }

  // --------------------------------------------------- package-size suffix

  /** The unit words the suffix may carry, matched in any case. */
  const Units: set<string> := {"PCS", "PKG", "PC", "NOS", "SET", "PAIR", "ROLL", "MTR", "KG", "BOX"}

  /** The length of the match of `\d+(?:\.\d+)?` at the start of `s`, 0 when
      there is none; both runs are greedy and backtracking gains nothing, since
      what follows a number in the suffix is never a digit. */
  function NumberLen(s: string): (n: nat)
    ensures n <= |s|
    ensures n > 0 ==> IsDigit(s[0])
  {
    var k := LeadingDigits(s);
    if k == 0 then 0
    else if k < |s| && s[k] == '.' && LeadingDigits(s[k + 1..]) > 0 then k + 1 + LeadingDigits(s[k + 1..])
    else k
  }

  /** What the parentheses of a suffix hold: `\s*\d+(?:\.\d+)?\s*(?:UNIT)?\s*`. */
  predicate SizeText(m: string)
    decreases |m|
  {
    if m != [] && IsSpace(m[0]) then SizeText(m[1..])
    else SizeBody(m)
  }

  /** The pattern after its leading `\s*`. */
  predicate SizeBody(a: string) {
    var n := NumberLen(a);
    n > 0 && (Strip(a[n..]) == [] || Upper(Strip(a[n..])) in Units)
  }

  /** The leading whitespace skipped is the whitespace `lstrip` drops. */
  lemma {:induction false} SizeTextStripped(m: string)
    ensures SizeText(m) <==> SizeBody(LStrip(m))
    decreases |m|
  {
    if m != [] && IsSpace(m[0]) {
      SizeTextStripped(m[1..]);
    }
  }

  /** The number written inside a suffix's parentheses. */
  function SizeNumber(m: string): string {
    var a := LStrip(m);
    a[..NumberLen(a)]
  }

  /** The index of the last `c` in `s`. */
  function LastIndex(s: string, c: char): (r: Option<nat>)
    ensures r.Some? ==> r.value < |s| && s[r.value] == c && forall k :: r.value < k < |s| ==> s[k] != c
    ensures r.None? ==> forall k :: 0 <= k < |s| ==> s[k] != c
  {
    if s == [] then None
    else if s[|s| - 1] == c then Some(|s| - 1)
    else LastIndex(s[..|s| - 1], c)
  }

  /** Where the suffix `\(SIZE\)\s*$` opens. The text after its `(` can hold no
      other `(`, so the only candidate is the last `(` before the final `)`. */
  function SuffixOpen(s: string): (r: Option<nat>)
    ensures r.Some? ==> r.value + 1 < |RStrip(s)| && s[r.value] == '('
  {
    var t := RStrip(s);
    if t == [] || t[|t| - 1] != ')' then None
    else match LastIndex(t[..|t| - 1], '(')
      case None => None
      case Some(q) => if SizeText(t[q + 1..|t| - 1]) then Some(q) else None
  }

  lemma {:induction false} LastIndexAfter(x: string, c: char, y: string)
    requires x != [] && x[|x| - 1] == c
    requires forall k :: 0 <= k < |y| ==> y[k] != c
    ensures LastIndex(x + y, c) == Some(|x| - 1)
    decreases |y|
  {
    if y != [] {
      assert (x + y)[..|x + y| - 1] == x + y[..|y| - 1];
      LastIndexAfter(x, c, y[..|y| - 1]);
    } else {
      assert x + y == x;
    }
  }

  lemma ClosedText(p: string)
    ensures var t := RStrip(p + ")"); t == p + ")" && t[..|t| - 1] == p
  {
    var s := p + ")";
    assert s[|s| - 1] == ')';
    assert s[..|s| - 1] == p;
  }

  /** On text that ends with `)`, the search starts at the last `(`. */
  lemma SuffixOpenClosed(p: string, q: nat)
    requires LastIndex(p, '(') == Some(q)
    ensures SuffixOpen(p + ")") == if SizeText(p[q + 1..]) then Some(q) else None
  {
    var s := p + ")";
    ClosedText(p);
    SuffixOpenAt(s, q);
    assert s[q + 1..|s| - 1] == p[q + 1..];
  }

  /** On text without trailing whitespace that ends with `)`, the suffix
      opens at the last `(` before it when a size text follows. */
  lemma SuffixOpenAt(s: string, q: nat)
    requires RStrip(s) == s && s != [] && s[|s| - 1] == ')'
    requires LastIndex(s[..|s| - 1], '(') == Some(q)
    ensures SuffixOpen(s) == if SizeText(s[q + 1..|s| - 1]) then Some(q) else None
  {
    var t := RStrip(s);
    assert t[|t| - 1] == ')';
    assert LastIndex(t[..|t| - 1], '(') == Some(q);
    var m := t[q + 1..|t| - 1];
    assert m == s[q + 1..|s| - 1];
    if SizeText(m) {
      assert SuffixOpen(s) == Some(q);
    } else {
      assert SuffixOpen(s) == None;
    }
  }

  /** A name followed by ` (`, a size text without `(` and `)`: the suffix
      opens at that parenthesis. */
  lemma SuffixOpenOf(a: string, m: string)
    requires forall k :: 0 <= k < |m| ==> m[k] != '('
    requires SizeText(m)
    ensures SuffixOpen(a + " (" + m + ")") == Some(|a| + 1)
  {
    var p := a + " (" + m;
    LastIndexAfter(a + " (", '(', m);
    SuffixOpenClosed(p, |a| + 1);
    assert p[|a| + 2..] == m;
  }

  lemma RStripSpace(x: string)
    requires x != [] && !IsSpace(x[|x| - 1])
    ensures RStrip(x + " ") == x
  {
    assert (x + " ")[..|x|] == x;
  }

  lemma SuffixedPrefix(a: string, m: string)
    ensures (a + " (" + m + ")")[..|a| + 1] == a + " "
  {
  }
}
