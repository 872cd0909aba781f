/** The package-conversion sheet, the most trusted source of package factors
    (items per package). Its data rows alternate: a name row whose first cell is
    a positive serial number and whose second cell is the item name, then a
    conversion row whose third cell holds the factor. */
module PkgConverter {
  import opened Wrappers
  import opened Text
  import opened OrderedDict
  import opened ItemNames

  /** `_PKG_SUFFIX_RE.sub("", s)`: a trailing `( number [unit] )` suffix is
      removed together with the whitespace in front of it. */
  function WithoutSuffix(s: string): (r: string)
    ensures SuffixOpen(s).None? ==> r == s
    ensures SuffixOpen(s).Some? ==> r == RStrip(s[..SuffixOpen(s).value])
  {
    match SuffixOpen(s)
    case Some(q) => RStrip(s[..q])
    case None => s
  }

  /** `_clean_name`: suffix removed, whitespace collapsed, upper case. */
  function CleanName(raw: string): string {
    Norm(WithoutSuffix(Strip(raw)))
  }

  /** A cleaned name is in the normal form of `_norm`. */
  lemma CleanNameNormalized(raw: string)
    ensures Normalized(CleanName(raw))
  {
    NormShape(WithoutSuffix(Strip(raw)));
  }

  /** A name without a suffix is cleaned to its `_norm`. */
  lemma CleanNameWithoutSuffix(raw: string)
    requires SuffixOpen(Strip(raw)).None?
    ensures CleanName(raw) == Norm(raw)
  {
    StripIdempotent(raw);
  }

  /** A name followed by a size suffix such as `( 300 PCS )` is cleaned to the
      `_norm` of the name alone. */
  lemma CleanNameOfSuffixed(a: string, m: string)
    requires a != [] && !IsSpace(a[0]) && !IsSpace(a[|a| - 1])
    requires forall k :: 0 <= k < |m| ==> m[k] != '('
    requires SizeText(m)
    ensures CleanName(a + " (" + m + ")") == Norm(a)
  {
    SuffixedStripped(a, m);
    SuffixRemoved(a, m);
    CleanNameOf(a + " (" + m + ")", a);
  }

  lemma CleanNameOf(s: string, a: string)
    requires Strip(s) == s && WithoutSuffix(s) == a
    ensures CleanName(s) == Norm(a)
  {
  }

  /** A suffixed name that starts with a non-space is its own `strip()`. */
  lemma SuffixedStripped(a: string, m: string)
    requires a != [] && !IsSpace(a[0])
    ensures Strip(a + " (" + m + ")") == a + " (" + m + ")"
  {
    var s := a + " (" + m + ")";
    assert s[0] == a[0] && s[|s| - 1] == ')';
    StripFixed(s);
  }

  /** Removing the suffix leaves the name in front of it. */
  lemma SuffixRemoved(a: string, m: string)
    requires a != [] && !IsSpace(a[|a| - 1])
    requires forall k :: 0 <= k < |m| ==> m[k] != '('
    requires SizeText(m)
    ensures WithoutSuffix(a + " (" + m + ")") == a
  {
    SuffixOpenOf(a, m);
    SuffixedPrefix(a, m);
    RStripSpace(a);
  }

  /** A cell as read with `values_only=True`: empty (`None`), or a value whose
      `str()` is `text`. */
  datatype Cell = Blank | Filled(text: string)

  type Row = seq<Cell>

  /** `float(str(c).replace(",", "").strip())`, None when that raises. */
  function CellNumber(c: Cell): Option<real> {
    match c
    case Blank => None
    case Filled(t) => PyFloat(Without(t, ','))
  }

  /** A name row: the serial-number cell parses to a number above zero. */
  predicate IsNameRow(a: Cell) {
    CellNumber(a).Some? && CellNumber(a).value > 0.0
  }

  /** The pending name a name row sets: the cleaned name, or none when the
      name cell is blank or reads `particulars` or `none` in any case. */
  function NameOf(b: Cell): Option<string> {
    var raw := CellText(b);
    if raw != [] && !IsPlaceholder(raw) then Some(CleanName(raw)) else None
  }

  /** `str(c).strip() if c is not None else ""`. */
  function CellText(c: Cell): string {
    match c
    case Blank => ""
    case Filled(t) => Strip(t)
  }

  /** The header words that can sit in the name column instead of a name. */
  predicate IsPlaceholder(raw: string) {
    Lower(raw) == "particulars" || Lower(raw) == "none"
  }

  /** The state of the scan: the name waiting for its conversion row, and the
      factors found so far. */
  datatype Sheet = Sheet(pending: Option<string>, factors: Dict<string, real>)

  /** One row of the scan. A pending name counts only when non-empty, as in
      Python's `if pending_name`. */
  function Step(s: Sheet, row: Row): Sheet {
    if |row| < 3 then s
    else if IsNameRow(row[0]) then Sheet(NameOf(row[1]), s.factors)
    else if s.pending.Some? && s.pending.value != [] && row[2].Filled? then
      var f := CellNumber(row[2]);
      Sheet(None, if f.Some? && f.value > 0.0 then Put(s.factors, s.pending.value, f.value) else s.factors)
    else s
  }

  /** The scan over the data rows (the sheet from its second row on). */
  function Run(rows: seq<Row>): Sheet {
    if rows == [] then Sheet(None, []) else Step(Run(rows[..|rows| - 1]), rows[|rows| - 1])
  }

  /** `parse_pkg_conversion_xlsx` once the sheet has been chosen: the rows are
      scanned with the pending name carried from each name row to the
      conversion row after it. */
  method ParsePkgConversion(rows: seq<Row>) returns (factors: Dict<string, real>)
    ensures factors == Run(rows).factors
  {
    factors := [];
    var pending: Option<string> := None;
    var i := 0;
    while i < |rows|
      invariant 0 <= i <= |rows|
      invariant Sheet(pending, factors) == Run(rows[..i])
    {
      assert rows[..i + 1][..i] == rows[..i];
      var row := rows[i];
      if |row| >= 3 {
        if IsNameRow(row[0]) {
          pending := NameOf(row[1]);
        } else if pending.Some? && pending.value != [] && row[2].Filled? {
          var f := CellNumber(row[2]);
          if f.Some? && f.value > 0.0 {
            factors := Put(factors, pending.value, f.value);
          }
          pending := None;
        }
      }
      i := i + 1;
    }
    assert rows[..i] == rows;
  }

  /** What every key of the result is: a non-empty name in `_norm`'s normal
      form, as every `_clean_name` result is. */
  predicate GoodKey(k: string) {
    k != [] && Normalized(k)
  }

  predicate Positive(v: real) {
    v > 0.0
  }

  predicate GoodFactors(d: Dict<string, real>) {
    KeysUnique(d) && forall i :: 0 <= i < |d| ==> GoodKey(d[i].0) && Positive(d[i].1)
  }

  lemma NameOfNormalized(b: Cell)
    ensures NameOf(b).Some? ==> Normalized(NameOf(b).value)
  {
    if NameOf(b).Some? {
      assert NameOf(b).value == CleanName(CellText(b));
      CleanNameNormalized(CellText(b));
    }
  }

  lemma StepKeepsGood(s: Sheet, row: Row)
    requires GoodFactors(s.factors) && (s.pending.Some? ==> Normalized(s.pending.value))
    ensures GoodFactors(Step(s, row).factors)
    ensures Step(s, row).pending.Some? ==> Normalized(Step(s, row).pending.value)
  {
    if |row| >= 3 && !IsNameRow(row[0]) && s.pending.Some? && s.pending.value != [] && row[2].Filled? {
      var f := CellNumber(row[2]);
      if f.Some? && f.value > 0.0 {
        PutKeeps(s.factors, s.pending.value, f.value, GoodKey, Positive);
      }
    } else if |row| >= 3 && IsNameRow(row[0]) {
      NameOfNormalized(row[1]);
    }
  }

  /** Every stored factor is above zero, every key is a non-empty name in the
      normal form of `_norm` (`_clean_name` ends with that normalisation), and no
      key is stored twice. */
  lemma {:induction false} RunIsGood(rows: seq<Row>)
    ensures GoodFactors(Run(rows).factors)
    ensures Run(rows).pending.Some? ==> Normalized(Run(rows).pending.value)
  {
    if rows != [] {
      RunIsGood(rows[..|rows| - 1]);
      StepKeepsGood(Run(rows[..|rows| - 1]), rows[|rows| - 1]);
    }
  }

  /** The rules of the pending name: a short row changes nothing; a name row
      sets it (or clears it) and keeps the factors; a conversion row whose
      factor cell is empty leaves the state alone; a conversion row that meets
      a pending name consumes it, stored factor or not. */
  lemma PendingRules(s: Sheet, row: Row)
    ensures |row| < 3 ==> Step(s, row) == s
    ensures |row| >= 3 && IsNameRow(row[0]) ==> Step(s, row) == Sheet(NameOf(row[1]), s.factors)
    ensures |row| >= 3 && !IsNameRow(row[0]) && row[2].Blank? ==> Step(s, row) == s
    ensures |row| >= 3 && !IsNameRow(row[0]) && s.pending.Some? && s.pending.value != [] && row[2].Filled? ==>
      Step(s, row).pending.None?
    ensures (|row| >= 3 && !IsNameRow(row[0]) && s.pending.Some? && s.pending.value != [] && row[2].Filled?
      && !(CellNumber(row[2]).Some? && CellNumber(row[2]).value > 0.0)) ==> Step(s, row).factors == s.factors
  {
  }

  lemma RunTwo(rows: seq<Row>, first: Row, second: Row)
    ensures Run(rows + [first, second]) == Step(Step(Run(rows), first), second)
  {
    var all := rows + [first, second];
    assert all[..|all| - 1] == rows + [first];
    assert (rows + [first])[..|rows|] == rows;
  }

  /** A name row followed by a conversion row with a positive factor stores that
      factor under the cleaned name, replacing whatever an earlier pair stored
      there and leaving every other name as it was. */
  lemma PairStores(rows: seq<Row>, nameRow: Row, convRow: Row)
    requires |nameRow| >= 3 && IsNameRow(nameRow[0]) && NameOf(nameRow[1]).Some? && NameOf(nameRow[1]).value != []
    requires |convRow| >= 3 && !IsNameRow(convRow[0]) && CellNumber(convRow[2]).Some? && CellNumber(convRow[2]).value > 0.0
    ensures var after := Run(rows + [nameRow, convRow]);
      && Get(after.factors, NameOf(nameRow[1]).value) == Some(CellNumber(convRow[2]).value)
      && (forall k :: k != NameOf(nameRow[1]).value ==> Get(after.factors, k) == Get(Run(rows).factors, k))
      && after.pending.None?
  {
    RunTwo(rows, nameRow, convRow);
    RunIsGood(rows);
    var k, f := NameOf(nameRow[1]).value, CellNumber(convRow[2]).value;
    var s1 := Step(Run(rows), nameRow);
    assert s1 == Sheet(Some(k), Run(rows).factors);
    assert Step(s1, convRow) == Sheet(None, Put(Run(rows).factors, k, f));
    PutSpec(Run(rows).factors, k, f);
  }
}
