/** The parser for the MKCP exports: stock groups, the price list (a secondary
    source of package factors), the item-to-group mapping, and the merge with
    the package-conversion sheet, which wins wherever both give a factor. */
module MkcpParser {
  import opened Wrappers
  import opened Text
  import opened XmlTree
  import opened OrderedDict
  import opened ItemNames
  import opened Substitution
  import PkgConverter
  import Sanitizer

  // ------------------------------------------------------ illegal characters

  /** The code points a reference may name and survive: tab, line feed,
      carriage return and everything from U+0020 on. */
  predicate KeptCode(code: nat) {
    code == 0x09 || code == 0x0A || code == 0x0D || code >= 0x20
  }

  /** The two substitutions, run one after the other: `&#(\d+);` and
      `&#x([0-9A-Fa-f]+);` (a lower-case `x` only). */
  datatype RefKind = Decimal | Hex

  /** The reference of the given kind that starts at `i`, if any. */
  function RefAt(s: string, i: nat, kind: RefKind): (r: Option<Sanitizer.CharRef>)
    requires i <= |s|
    ensures r.Some? ==> 4 <= r.value.len && i + r.value.len <= |s|
  {
    if i + 2 < |s| && s[i] == '&' && s[i + 1] == '#' then
      match kind
      case Decimal => Sanitizer.DecRefAt(s, i + 2)
      case Hex => if s[i + 2] == 'x' then Sanitizer.HexRefAt(s, i + 3) else None
    else None
  }

  /** One step of the substitution at `i`: a reference to a kept code is copied
      whole, one to any other code is deleted (and its code reported), and a
      character that starts no reference is copied. */
  function ScanAt(s: string, i: nat, kind: RefKind): (p: Step<nat>)
    requires i < |s|
    ensures 1 <= p.len && i + p.len <= |s|
    ensures p.dropped == [] ==> p.kept == s[i..i + p.len]
    ensures p.dropped != [] ==> p.kept == [] && |p.dropped| == 1 && 4 <= p.len && !KeptCode(p.dropped[0])
  {
    match RefAt(s, i, kind)
    case Some(ref) =>
      if KeptCode(ref.codePoint) then Step(ref.len, s[i..i + ref.len], [])
      else Step(ref.len, [], [ref.codePoint])
    case None => Step(1, [s[i]], [])
  }

  /** Every step over `s` that deletes shortens the text by at least four
      characters, and deletes only codes that are not kept. */
  ghost predicate Shrinks(f: nat --> Step<nat>, s: string) {
    forall i :: 0 <= i < |s| ==>
      && f.requires(i)
      && |f(i).kept| + 4 * |f(i).dropped| <= f(i).len
      && (forall k :: 0 <= k < |f(i).dropped| ==> !KeptCode(f(i).dropped[k]))
  }

  /** The substitution of the given kind as a scan of `s`. */
  function RefPass(s: string, kind: RefKind): (f: nat --> Step<nat>)
    ensures Scans(f, s) && Shrinks(f, s)
  {
    (i: nat) requires i < |s| => ScanAt(s, i, kind)
  }

  /** One substitution over the whole text: the text kept. */
  function PassText(s: string, kind: RefKind): string {
    Kept(RefPass(s, kind), s, 0)
  }

  /** The codes of the references the same substitution deletes, in order. */
  function PassDropped(s: string, kind: RefKind): seq<nat> {
    Dropped(RefPass(s, kind), s, 0)
  }

  /** Every deletion shortens the text by at least four characters. */
  lemma {:induction false} PassLength(f: nat --> Step<nat>, s: string, i: nat)
    requires Scans(f, s) && Shrinks(f, s) && i <= |s|
    ensures |Kept(f, s, i)| + 4 * |Dropped(f, s, i)| <= |s| - i
    decreases |s| - i
  {
    if i < |s| {
      var p := f(i);
      var kept, dropped := Kept(f, s, i + p.len), Dropped(f, s, i + p.len);
      KeptStep(f, s, i);
      PassLength(f, s, i + p.len);
      assert |Kept(f, s, i)| == |p.kept| + |kept|;
      assert |Dropped(f, s, i)| == |p.dropped| + |dropped|;
    }
  }

  /** One substitution leaves the text as it is exactly when it deletes no
      reference, and every reference it deletes names a code below U+0020 other
      than tab, line feed and carriage return. */
  lemma PassIdentity(s: string, kind: RefKind)
    ensures PassText(s, kind) == s <==> PassDropped(s, kind) == []
    ensures forall k :: 0 <= k < |PassDropped(s, kind)| ==> !KeptCode(PassDropped(s, kind)[k])
  {
    var f := RefPass(s, kind);
    PassLength(f, s, 0);
    if PassDropped(s, kind) == [] {
      Copies(f, s, 0);
    }
    DroppedSatisfy(f, s, 0, (c: nat) => !KeptCode(c));
  }

  /** `_RAW_CTRL_RE`: U+0000 to U+0008, U+000B, U+000C, U+000E to U+001F and
      U+007F. */
  predicate IsRawControl(c: char) {
    c <= '\U{08}' || c == '\U{0B}' || c == '\U{0C}' || ('\U{0E}' <= c <= '\U{1F}') || c == '\U{7F}'
  }

  /** `_RAW_CTRL_RE.sub("", s)`. */
  function WithoutControls(s: string): (r: string)
    ensures forall k :: 0 <= k < |r| ==> !IsRawControl(r[k])
    ensures |r| <= |s|
  {
    if s == [] then []
    else WithoutControls(s[..|s| - 1]) + (if IsRawControl(s[|s| - 1]) then [] else [s[|s| - 1]])
  }

  /** Text without raw control characters passes unchanged. */
  lemma {:induction false} WithoutControlsClean(s: string)
    requires forall k :: 0 <= k < |s| ==> !IsRawControl(s[k])
    ensures WithoutControls(s) == s
  {
    if s != [] {
      WithoutControlsClean(s[..|s| - 1]);
    }
  }

  /** The raw-character class of this parser is the sanitiser's class without
      the byte-order mark. */
  lemma RawClassVersusSanitizer(c: char)
    ensures IsRawControl(c) <==> Sanitizer.IsInvalidXmlChar(c) && c != Sanitizer.Bom
  {
  }

  /** `_strip_invalid_xml`: decimal references, then hexadecimal references,
      then raw control characters. */
  function StripInvalidXml(content: string): string {
    WithoutControls(PassText(PassText(content, Decimal), Hex))
  }

  /** The result holds no raw control character, and text holding neither a
      deletable reference of either kind nor a raw control character is left
      as it is. */
  lemma StripInvalidXmlSpec(content: string)
    ensures forall k :: 0 <= k < |StripInvalidXml(content)| ==> !IsRawControl(StripInvalidXml(content)[k])
    ensures (PassDropped(content, Decimal) == [] && PassDropped(content, Hex) == []
             && forall k :: 0 <= k < |content| ==> !IsRawControl(content[k]))
            ==> StripInvalidXml(content) == content
  {
    PassIdentity(content, Decimal);
    if PassDropped(content, Decimal) == [] {
      PassIdentity(content, Hex);
      if PassDropped(content, Hex) == [] && forall k :: 0 <= k < |content| ==> !IsRawControl(content[k]) {
        WithoutControlsClean(content);
      }
    }
  }

  // ------------------------------------------------------ XML declaration

  /** `s.index(pat, i)` without the error: the first occurrence of `pat` at or
      after `i`. */
  function IndexFrom(s: string, pat: string, i: nat): (r: Option<nat>)
    requires i <= |s|
    ensures r.Some? ==> i <= r.value && r.value + |pat| <= |s| && s[r.value..r.value + |pat|] == pat
    ensures r.Some? ==> forall k :: i <= k < r.value ==> !StartsWith(s[k..], pat)
    ensures r.None? ==> forall k :: i <= k <= |s| ==> !StartsWith(s[k..], pat)
    decreases |s| - i
  {
    if StartsWith(s[i..], pat) then Some(i)
    else if i == |s| then None
    else IndexFrom(s, pat, i + 1)
  }

  /** The declaration step of `parse_utf16_xml`: when the left-trimmed text
      starts with `<?xml`, everything up to and including the first `?>` is
      dropped along with the whitespace after it; without a `?>` the
      `str.index` call raises, modelled as None. */
  function DropDeclaration(content: string): (r: Option<string>)
    ensures !StartsWith(LStrip(content), "<?xml") ==> r == Some(content)
    ensures StartsWith(LStrip(content), "<?xml") ==>
      (r.None? <==> forall k :: 0 <= k <= |content| ==> !StartsWith(content[k..], "?>"))
  {
    if StartsWith(LStrip(content), "<?xml") then
      match IndexFrom(content, "?>", 0)
      case Some(e) =>
        assert content[e..][..2] == content[e..e + 2];
        Some(LStrip(content[e + 2..]))
      case None => None
    else Some(content)
  }

  lemma LStripSpaces(w: string, b: string)
    requires AllSpace(w) && b != [] && !IsSpace(b[0])
    ensures LStrip(w + b) == b
    decreases |w|
  {
    if w != [] {
      assert (w + b)[1..] == w[1..] + b;
      LStripSpaces(w[1..], b);
    }
  }

  /** In `<?xml x?>` with no `?` inside `x`, the first `?>` is the closing one. */
  lemma {:induction false} DeclarationEnd(d: string, b: string, x: string)
    requires d == "<?xml" + x + "?>"
    requires forall k :: 0 <= k < |x| ==> x[k] != '?'
    ensures IndexFrom(d + b, "?>", 0) == Some(|x| + 5)
  {
    var s := d + b;
    var e := |x| + 5;
    assert s[e..e + 2] == "?>";
    forall k | 0 <= k < e
      ensures !StartsWith(s[k..], "?>")
    {
      assert s[..5] == "<?xml";
      if k == 1 {
        assert s[k + 1] == "<?xml"[2];
      } else if k < 5 {
        assert s[k] == "<?xml"[k];
      } else {
        assert s[k] == x[k - 5];
      }
    }
    IndexFromFirst(s, "?>", 0, e);
  }

  lemma {:induction false} IndexFromFirst(s: string, pat: string, i: nat, e: nat)
    requires i <= e && e + |pat| <= |s| && s[e..e + |pat|] == pat
    requires forall k :: i <= k < e ==> !StartsWith(s[k..], pat)
    ensures IndexFrom(s, pat, i) == Some(e)
    decreases e - i
  {
    if i < e {
      IndexFromFirst(s, pat, i + 1, e);
    } else {
      assert s[i..][..|pat|] == pat;
    }
  }

  /** A document that opens, after any whitespace, with a declaration
      `<?xml x?>` (no `?` inside `x`) keeps only what follows the declaration,
      left-trimmed. */
  lemma DeclarationDropped(w: string, x: string, b: string)
    requires AllSpace(w)
    requires forall k :: 0 <= k < |x| ==> x[k] != '?'
    ensures DropDeclaration(w + ("<?xml" + x + "?>") + b) == Some(LStrip(b))
  {
    var d := "<?xml" + x + "?>";
    var content := w + d + b;
    assert (d + b)[..5] == "<?xml";
    assert content == w + (d + b);
    DeclarationOpens(w, d + b);
    DeclarationEnd(d, b, x);
    DeclarationEndShifted(w, d, b, |x| + 5);
    assert content[|w| + |x| + 7..] == b;
  }

  /** Past the leading whitespace such a document opens with `<?xml`. */
  lemma DeclarationOpens(w: string, t: string)
    requires AllSpace(w) && |t| >= 5 && t[..5] == "<?xml"
    ensures StartsWith(LStrip(w + t), "<?xml")
  {
    assert t[0] == t[..5][0] == '<';
    LStripSpaces(w, t);
  }

  lemma DeclarationEndShifted(w: string, d: string, b: string, e: nat)
    requires IndexFrom(d + b, "?>", 0) == Some(e)
    requires forall k :: 0 <= k < |w| ==> w[k] != '?'
    ensures IndexFrom(w + d + b, "?>", 0) == Some(|w| + e)
  {
    var s := w + d + b;
    assert s[|w|..] == d + b;
    assert s[|w| + e..|w| + e + 2] == (d + b)[e..e + 2];
    forall k | 0 <= k < |w| + e
      ensures !StartsWith(s[k..], "?>")
    {
      if k >= |w| {
        assert s[k..] == (d + b)[k - |w|..];
      } else {
        assert s[k] == w[k];
      }
    }
    IndexFromFirst(s, "?>", 0, |w| + e);
  }

  /** The text `parse_utf16_xml` hands to the XML parser, once decoded: the
      declaration dropped, then the illegal characters stripped; None when the
      declaration has no end and the function raises. */
  function PrepareXml(content: string): (r: Option<string>)
    ensures r.Some? ==> forall k :: 0 <= k < |r.value| ==> !IsRawControl(r.value[k])
  {
    match DropDeclaration(content)
    case Some(t) =>
      StripInvalidXmlSpec(t);
      Some(StripInvalidXml(t))
    case None => None
  }

  // ------------------------------------------------------------ stock groups

  /** A `VendorGroup` record as `parse_stock_groups` builds it. */
  datatype VendorGroup = VendorGroup(name: string, parent: Option<string>, baseUnit: string, guid: Option<string>)

  /** The stripped NAME attribute of an element, "" when absent. */
  function NameAttr(el: Node): (r: string)
    ensures r == [] || (!IsSpace(r[0]) && !IsSpace(r[|r| - 1]))
  {
    Strip(AttrOrEmpty(el, "NAME"))
  }

  /** The record of one STOCKGROUP element: empty PARENT and GUID read as none,
      and the base unit defaults to `PCS`. */
  function GroupOf(el: Node): VendorGroup {
    GroupFrom(NameAttr(el), Txt(el, "PARENT"), Txt(el, "BASEUNITS"), Txt(el, "GUID"))
  }

  /** The record built from the name and the three child texts. */
  function GroupFrom(name: string, parent: string, baseUnits: string, guid: string): (g: VendorGroup)
    ensures g.name == name
    ensures g.baseUnit != [] && (baseUnits == [] ==> g.baseUnit == "PCS") && (baseUnits != [] ==> g.baseUnit == baseUnits)
    ensures g.parent.Some? <==> parent != []
    ensures g.guid.Some? <==> guid != []
  {
    VendorGroup(name, NonEmpty(parent), Or(baseUnits, "PCS"), NonEmpty(guid))
  }

  /** The name is the stripped NAME attribute and the base unit is never
      empty, `PCS` when BASEUNITS is blank. */
  lemma GroupOfFields(el: Node)
    ensures GroupOf(el).name == NameAttr(el)
    ensures GroupOf(el).baseUnit != []
    ensures Txt(el, "BASEUNITS") == [] ==> GroupOf(el).baseUnit == "PCS"
  {
    var n, p, b, g := NameAttr(el), Txt(el, "PARENT"), Txt(el, "BASEUNITS"), Txt(el, "GUID");
    assert GroupOf(el) == GroupFrom(n, p, b, g);
  }

  /** PARENT and GUID are present exactly when their text is not blank. */
  lemma GroupOfOptional(el: Node)
    ensures GroupOf(el).parent.Some? <==> Txt(el, "PARENT") != []
    ensures GroupOf(el).guid.Some? <==> Txt(el, "GUID") != []
  {
    var n, p, b, g := NameAttr(el), Txt(el, "PARENT"), Txt(el, "BASEUNITS"), Txt(el, "GUID");
    assert GroupOf(el) == GroupFrom(n, p, b, g);
  }

  /** The record every element would give, in document order. */
  function Candidates(els: seq<Node>): (r: seq<VendorGroup>)
    ensures |r| == |els| && forall i :: 0 <= i < |els| ==> r[i] == GroupOf(els[i])
  {
    seq(|els|, i requires 0 <= i < |els| => GroupOf(els[i]))
  }

  datatype GroupScan = GroupScan(groups: seq<VendorGroup>, seen: set<string>)

  /** One element of the loop of `parse_stock_groups`: a blank name or a name
      already seen is skipped. */
  function GroupStep(s: GroupScan, g: VendorGroup): GroupScan {
    if g.name == [] || g.name in s.seen then s
    else GroupScan(s.groups + [g], s.seen + {g.name})
  }

  function GroupRun(gs: seq<VendorGroup>): GroupScan {
    if gs == [] then GroupScan([], {}) else GroupStep(GroupRun(gs[..|gs| - 1]), gs[|gs| - 1])
  }

  /** The loop over the elements in document order. */
  function StockGroupsRun(els: seq<Node>): GroupScan {
    GroupRun(Candidates(els))
  }

  /** `parse_stock_groups` over `root.iter("STOCKGROUP")`, the elements in
      document order. */
  method ParseStockGroups(els: seq<Node>) returns (groups: seq<VendorGroup>)
    ensures groups == StockGroupsRun(els).groups
  {
    groups := [];
    var seen: set<string> := {};
    var i := 0;
    while i < |els|
      invariant 0 <= i <= |els|
      invariant GroupScan(groups, seen) == GroupRun(Candidates(els)[..i])
    {
      assert Candidates(els)[..i + 1][..i] == Candidates(els)[..i];
      ghost var before := GroupScan(groups, seen);
      var el := els[i];
      var name := NameAttr(el);
      if name != [] && name !in seen {
        seen := seen + {name};
        groups := groups + [GroupOf(el)];
      }
      assert GroupScan(groups, seen) == GroupStep(before, Candidates(els)[i]);
      i := i + 1;
    }
    assert Candidates(els)[..i] == Candidates(els);
  }

  function GroupNames(groups: seq<VendorGroup>): (r: seq<string>)
    ensures |r| == |groups| && forall i :: 0 <= i < |groups| ==> r[i] == groups[i].name
  {
    seq(|groups|, i requires 0 <= i < |groups| => groups[i].name)
  }

  /** Whether `gs[k]` is the first record carrying its name. */
  predicate FirstWithName(gs: seq<VendorGroup>, k: nat)
    requires k < |gs|
  {
    forall j :: 0 <= j < k ==> gs[j].name != gs[k].name
  }

  /** The `seen` set holds exactly the names already output. */
  lemma {:induction false} GroupRunSeen(gs: seq<VendorGroup>)
    ensures forall n :: n in GroupRun(gs).seen <==> n in GroupNames(GroupRun(gs).groups)
  {
    if gs != [] {
      GroupRunSeen(gs[..|gs| - 1]);
      var s := GroupRun(gs[..|gs| - 1]);
      var g := gs[|gs| - 1];
      if !(g.name == [] || g.name in s.seen) {
        assert GroupNames(s.groups + [g]) == GroupNames(s.groups) + [g.name];
      }
    }
  }

  /** The output names are distinct and non-blank, and they are exactly the
      non-blank input names. */
  lemma {:induction false} GroupRunSpec(gs: seq<VendorGroup>)
    ensures var r := GroupRun(gs);
      && (forall i, j :: 0 <= i < j < |r.groups| ==> r.groups[i].name != r.groups[j].name)
      && (forall i :: 0 <= i < |r.groups| ==> r.groups[i].name != [])
      && (forall n :: n in GroupNames(r.groups) <==> n != [] && n in GroupNames(gs))
  {
    if gs != [] {
      var init := gs[..|gs| - 1];
      var g := gs[|gs| - 1];
      GroupRunSpec(init);
      GroupRunSeen(init);
      var s := GroupRun(init);
      var r := GroupRun(gs);
      assert GroupNames(gs) == GroupNames(init) + [g.name];
      assert forall n :: n in GroupNames(gs) <==> n in GroupNames(init) || n == g.name;
      if !(g.name == [] || g.name in s.seen) {
        assert r.groups == s.groups + [g];
        assert GroupNames(r.groups) == GroupNames(s.groups) + [g.name];
        forall i | 0 <= i < |s.groups|
          ensures s.groups[i].name != g.name
        {
          assert GroupNames(s.groups)[i] == s.groups[i].name;
        }
      } else {
        assert r == s;
      }
    }
  }

  /** The first record carrying a name is the one kept. */
  lemma {:induction false} GroupRunFirst(gs: seq<VendorGroup>)
    ensures forall k :: 0 <= k < |gs| && gs[k].name != [] && FirstWithName(gs, k) ==> gs[k] in GroupRun(gs).groups
  {
    if gs != [] {
      var init := gs[..|gs| - 1];
      GroupRunFirst(init);
      GroupRunSeen(init);
      GroupRunSpec(init);
      forall k | 0 <= k < |gs| && gs[k].name != [] && FirstWithName(gs, k)
        ensures gs[k] in GroupRun(gs).groups
      {
        if k < |init| {
          assert init[k] == gs[k];
          assert FirstWithName(init, k);
        } else {
          var g, st := gs[k], GroupRun(init);
          assert forall j :: 0 <= j < |init| ==> GroupNames(init)[j] != g.name;
          assert g.name !in GroupNames(init);
          assert g.name !in st.seen;
          assert GroupRun(gs) == GroupScan(st.groups + [g], st.seen + {g.name});
          assert GroupRun(gs).groups[|st.groups|] == g;
        }
      }
    }
  }

  lemma CandidateNames(els: seq<Node>)
    ensures forall k :: 0 <= k < |els| ==> GroupNames(Candidates(els))[k] == NameAttr(els[k])
  {
    forall k | 0 <= k < |els|
      ensures GroupNames(Candidates(els))[k] == NameAttr(els[k])
    {
      GroupOfFields(els[k]);
    }
  }

  /** On the elements themselves: the output names are distinct, non-blank,
      and each record has a non-empty base unit. */
  lemma StockGroupsDistinct(els: seq<Node>)
    ensures var r := StockGroupsRun(els);
      && (forall i, j :: 0 <= i < j < |r.groups| ==> r.groups[i].name != r.groups[j].name)
      && (forall i :: 0 <= i < |r.groups| ==> r.groups[i].name != [] && r.groups[i].baseUnit != [])
  {
    var gs := Candidates(els);
    assert StockGroupsRun(els) == GroupRun(gs);
    GroupRunSpec(gs);
    forall k | 0 <= k < |gs|
      ensures gs[k].baseUnit != []
    {
      GroupOfFields(els[k]);
    }
    GroupRunMembers(gs);
  }

  /** The output names are exactly the non-blank NAME attributes. */
  lemma StockGroupsNames(els: seq<Node>)
    ensures forall n :: n in GroupNames(StockGroupsRun(els).groups) <==>
      n != [] && exists k :: 0 <= k < |els| && NameAttr(els[k]) == n
  {
    var gs := Candidates(els);
    assert StockGroupsRun(els) == GroupRun(gs);
    GroupRunSpec(gs);
    CandidateNames(els);
    forall n
      ensures n in GroupNames(gs) <==> exists k :: 0 <= k < |els| && NameAttr(els[k]) == n
    {
      if n in GroupNames(gs) {
        var k :| 0 <= k < |gs| && GroupNames(gs)[k] == n;
      }
      if exists k :: 0 <= k < |els| && NameAttr(els[k]) == n {
        var k :| 0 <= k < |els| && NameAttr(els[k]) == n;
        assert GroupNames(gs)[k] == n;
      }
    }
  }

  /** The record of each name comes from the first element carrying it. */
  lemma StockGroupsFirst(els: seq<Node>, k: nat)
    requires k < |els| && NameAttr(els[k]) != []
    requires forall j :: 0 <= j < k ==> NameAttr(els[j]) != NameAttr(els[k])
    ensures GroupOf(els[k]) in StockGroupsRun(els).groups
  {
    var gs := Candidates(els);
    assert StockGroupsRun(els) == GroupRun(gs);
    GroupRunFirst(gs);
    CandidateNames(els);
    assert GroupNames(gs)[k] == gs[k].name;
    assert FirstWithName(gs, k) by {
      forall j | 0 <= j < k
        ensures gs[j].name != gs[k].name
      {
        assert GroupNames(gs)[j] == gs[j].name;
      }
    }
  }

  /** Every output record is one of the inputs, so a base unit that no input
      lacks no output lacks. */
  lemma {:induction false} GroupRunMembers(gs: seq<VendorGroup>)
    ensures forall i :: 0 <= i < |GroupRun(gs).groups| ==> GroupRun(gs).groups[i] in gs
    ensures (forall k :: 0 <= k < |gs| ==> gs[k].baseUnit != []) ==>
      forall i :: 0 <= i < |GroupRun(gs).groups| ==> GroupRun(gs).groups[i].baseUnit != []
  {
    if gs != [] {
      GroupRunMembers(gs[..|gs| - 1]);
    }
  }

  // ------------------------------------------------------------ name suffix

  /** The two groups of `_PKG_FACTOR_RE` on a name. */
  datatype NameParts = NameParts(clean: string, nameFactor: Option<real>)

  /** Where `_PKG_FACTOR_RE.match` ends its lazy first group and finds the
      `(` of the suffix. The suffix can only open at the position `SuffixOpen`
      finds; the lazy group then stops at the first position from which only
      whitespace is left before the `(`, but takes at least one character, and
      `.` crosses no line feed. */
  function FactorMatch(raw: string): (r: Option<(nat, nat)>)
    ensures r.Some? ==> 1 <= r.value.0 <= r.value.1 && r.value.1 + 1 < |RStrip(raw)| && raw[r.value.1] == '('
  {
    match SuffixOpen(raw)
    case None => None
    case Some(q) =>
      var g := if |RStrip(raw[..q])| >= 1 then |RStrip(raw[..q])| else 1;
      if g <= q && forall k :: 0 <= k < g ==> raw[k] != '\n' then Some((g, q)) else None
  }

  /** The clean name and the factor the name carries (lines 173-182). The
      number group matches `\d+(\.\d+)?`, on which `float()` is the unsigned
      decimal parse. */
  function NameSplit(raw: string): (r: NameParts)
    ensures FactorMatch(raw).None? ==> r == NameParts(raw, None)
  {
    match FactorMatch(raw)
    case Some((g, q)) =>
      var t := RStrip(raw);
      NameParts(Strip(raw[..g]), ParseUnsigned(SizeNumber(t[q + 1..|t| - 1])))
    case None => NameParts(raw, None)
  }

  /** `BELL CROWN MINI ( 300 PCS )` and every name of that shape split into the
      name and the number in the parentheses. */
  lemma NameSplitOfSuffixed(a: string, m: string)
    requires a != [] && !IsSpace(a[0]) && !IsSpace(a[|a| - 1])
    requires forall k :: 0 <= k < |a| ==> a[k] != '\n'
    requires forall k :: 0 <= k < |m| ==> m[k] != '('
    requires SizeText(m)
    ensures NameSplit(a + " (" + m + ")") == NameParts(a, ParseUnsigned(SizeNumber(m)))
  {
    var s := a + " (" + m + ")";
    SuffixOpenOf(a, m);
    SuffixedParts(a, m);
    RStripSpace(a);
    assert RStrip(s[..|a| + 1]) == a;
    forall k | 0 <= k < |a|
      ensures s[k] != '\n'
    {
      assert s[k] == s[..|a|][k];
    }
    assert FactorMatch(s) == Some((|a|, |a| + 1));
    StripFixed(a);
  }

  lemma SuffixedParts(a: string, m: string)
    ensures var s := a + " (" + m + ")";
      && s[..|a|] == a && s[..|a| + 1] == a + " "
      && RStrip(s) == s && s[|a| + 2..|s| - 1] == m
  {
    var s := a + " (" + m + ")";
    ClosedText(a + " (" + m);
    assert s == (a + " (" + m) + ")";
    assert s[..|a|] == a;
  }

  // ------------------------------------------------------------- price list

  /** What the loop over the FULLPRICELIST.LIST entries of an item needs from
      one entry: its DATE text, and its factor when it is a `kona` level (in any
      case) with a RATE whose part before `/` parses to a number above zero. */
  datatype PriceEntry = PriceEntry(date: string, factor: Option<real>)

  function KonaFactor(pl: Node): (f: Option<real>)
    ensures f.Some? ==> f.value > 0.0
  {
    var rate := Txt(pl, "RATE");
    if Lower(Txt(pl, "PRICELEVEL")) != "kona" || rate == [] then None
    else
      var f := PyFloat(Strip(BeforeFirst(rate, '/')));
      if f.Some? && f.value > 0.0 then f else None
  }

  function PriceEntries(pls: seq<Node>): (r: seq<PriceEntry>)
    ensures |r| == |pls| && forall i :: 0 <= i < |pls| ==> r[i] == PriceEntry(Txt(pls[i], "DATE"), KonaFactor(pls[i]))
  {
    seq(|pls|, i requires 0 <= i < |pls| => PriceEntry(Txt(pls[i], "DATE"), KonaFactor(pls[i])))
  }

  /** `latest_date` and `kona_factor`. */
  datatype KonaState = KonaState(latest: string, factor: Option<real>)

  /** A Kona entry replaces the current one when no date has been kept yet or
      its date is not smaller. */
  function KonaStep(s: KonaState, e: PriceEntry): KonaState {
    if e.factor.Some? && (s.latest == [] || LexLe(s.latest, e.date)) then KonaState(e.date, e.factor) else s
  }

  function KonaRun(es: seq<PriceEntry>): KonaState {
    if es == [] then KonaState([], None) else KonaStep(KonaRun(es[..|es| - 1]), es[|es| - 1])
  }

  /** One price-list entry of the inner loop of `parse_price_list`. */
  method KonaUpdate(latestDate: string, konaFactor: Option<real>, pl: Node) returns (date: string, factor: Option<real>)
    ensures KonaState(date, factor) == KonaStep(KonaState(latestDate, konaFactor), PriceEntry(Txt(pl, "DATE"), KonaFactor(pl)))
  {
    date, factor := latestDate, konaFactor;
    var dateStr := Txt(pl, "DATE");
    var f := KonaFactor(pl);
    if f.Some? && (latestDate == [] || LexLe(latestDate, dateStr)) {
      date := dateStr;
      factor := f;
    }
  }

  /** The inner loop of `parse_price_list`. */
  method LatestKona(pls: seq<Node>) returns (konaFactor: Option<real>)
    ensures konaFactor == KonaRun(PriceEntries(pls)).factor
  {
    konaFactor := None;
    var latestDate: string := [];
    var i := 0;
    while i < |pls|
      invariant 0 <= i <= |pls|
      invariant KonaState(latestDate, konaFactor) == KonaRun(PriceEntries(pls)[..i])
    {
      assert PriceEntries(pls)[..i + 1][..i] == PriceEntries(pls)[..i];
      assert PriceEntries(pls)[..i + 1][i] == PriceEntry(Txt(pls[i], "DATE"), KonaFactor(pls[i]));
      latestDate, konaFactor := KonaUpdate(latestDate, konaFactor, pls[i]);
      i := i + 1;
    }
    assert PriceEntries(pls)[..i] == PriceEntries(pls);
  }

  /** The entry kept is a Kona entry whose date is the greatest, the last of
      those with that date; there is none exactly when no entry is a Kona
      entry. */
  lemma {:induction false} KonaRunSpec(es: seq<PriceEntry>) returns (j: nat)
    ensures KonaRun(es).factor.None? <==> forall k :: 0 <= k < |es| ==> es[k].factor.None?
    ensures KonaRun(es).factor.None? ==> KonaRun(es).latest == []
    ensures KonaRun(es).factor.Some? ==>
      && j < |es| && KonaRun(es).factor == es[j].factor && KonaRun(es).latest == es[j].date
      && (forall k :: 0 <= k < |es| && es[k].factor.Some? ==> LexLe(es[k].date, es[j].date))
      && (forall k :: j < k < |es| && es[k].factor.Some? ==> es[k].date != es[j].date)
  {
    if es == [] {
      return 0;
    }
    var init := es[..|es| - 1];
    var e := es[|es| - 1];
    var j0 := KonaRunSpec(init);
    var s := KonaRun(init);
    assert forall k :: 0 <= k < |init| ==> es[k] == init[k];
    if e.factor.Some? && (s.latest == [] || LexLe(s.latest, e.date)) {
      j := |es| - 1;
      forall k | 0 <= k < |es| && es[k].factor.Some?
        ensures LexLe(es[k].date, e.date)
      {
        if k == |es| - 1 {
          LexLeTotal(e.date, e.date);
        } else if s.latest == [] {
          assert s.factor.Some?;
          assert LexLe(es[k].date, []);
          assert es[k].date == [];
        } else {
          LexLeTrans(es[k].date, s.latest, e.date);
        }
      }
    } else {
      j := j0;
      if e.factor.Some? {
        LexLeTotal(s.latest, e.date);
        assert s.factor.Some?;
      }
    }
  }

  /** The factor the Kona entries give, else the factor the name carries. */
  function ChosenFactor(item: Node, parts: NameParts): Option<real> {
    var kona := KonaRun(PriceEntries(FindAll(item, "FULLPRICELIST.LIST"))).factor;
    if kona.Some? then kona else parts.nameFactor
  }

  /** What one STOCKITEM contributes to the price-list map: the `_norm` of its
      clean name and its factor, when the name is not blank and the factor is
      above zero. */
  function PriceItem(item: Node): Option<(string, real)> {
    var raw := NameAttr(item);
    if raw == [] then None
    else
      var parts := NameSplit(raw);
      if parts.clean == [] then None
      else
        var f := ChosenFactor(item, parts);
        if f.Some? && f.value > 0.0 then Some((Norm(parts.clean), f.value)) else None
  }

  function PriceItems(items: seq<Node>): (r: seq<Option<(string, real)>>)
    ensures |r| == |items| && forall i :: 0 <= i < |items| ==> r[i] == PriceItem(items[i])
  {
    seq(|items|, i requires 0 <= i < |items| => PriceItem(items[i]))
  }

  /** `parse_price_list`, as a function of the STOCKITEM elements. */
  function PriceList(items: seq<Node>): Dict<string, real> {
    PutPresent([], PriceItems(items))
  }

  /** The body of the `parse_price_list` loop for one STOCKITEM: blank names
      and names without a clean part are skipped, the Kona factor beats the
      name's factor, and only a factor above zero is kept. */
  method PriceItemOf(item: Node) returns (entry: Option<(string, real)>)
    ensures entry == PriceItem(item)
  {
    entry := None;
    var rawName := NameAttr(item);
    if rawName != [] {
      var parts := NameSplit(rawName);
      if parts.clean != [] {
        var konaFactor := LatestKona(FindAll(item, "FULLPRICELIST.LIST"));
        var factor := if konaFactor.Some? then konaFactor else parts.nameFactor;
        assert factor == ChosenFactor(item, parts);
        if factor.Some? && factor.value > 0.0 {
          entry := Some((Norm(parts.clean), factor.value));
        }
      }
    }
  }

  /** `parse_price_list` over `root.iter("STOCKITEM")`. */
  method ParsePriceList(items: seq<Node>) returns (altUnits: Dict<string, real>)
    ensures altUnits == PriceList(items)
  {
    altUnits := [];
    var i := 0;
    while i < |items|
      invariant 0 <= i <= |items|
      invariant altUnits == PutPresent([], PriceItems(items)[..i])
    {
      var entry := PriceItemOf(items[i]);
      PutPresentSnoc([], PriceItems(items), i);
      if entry.Some? {
        altUnits := Put(altUnits, entry.value.0, entry.value.1);
      }
      i := i + 1;
    }
    assert PriceItems(items)[..i] == PriceItems(items);
  }

  /** A Kona factor, when an item has one, beats the factor in its name. */
  lemma KonaBeatsName(item: Node)
    requires NameAttr(item) != [] && NameSplit(NameAttr(item)).clean != []
    requires KonaRun(PriceEntries(FindAll(item, "FULLPRICELIST.LIST"))).factor.Some?
    ensures PriceItem(item) == Some((Norm(NameSplit(NameAttr(item)).clean),
                                     KonaRun(PriceEntries(FindAll(item, "FULLPRICELIST.LIST"))).factor.value))
  {
    var parts := NameSplit(NameAttr(item));
    var pls := FindAll(item, "FULLPRICELIST.LIST");
    KonaPositive(pls);
    assert ChosenFactor(item, parts) == KonaRun(PriceEntries(pls)).factor;
  }

  /** The factor kept, when there is one, is above zero. */
  lemma KonaPositive(pls: seq<Node>)
    ensures KonaRun(PriceEntries(pls)).factor.Some? ==> KonaRun(PriceEntries(pls)).factor.value > 0.0
  {
    var j := KonaRunSpec(PriceEntries(pls));
  }

  lemma PriceItemGood(item: Node)
    ensures PriceItem(item).Some? ==> PkgConverter.GoodKey(PriceItem(item).value.0) && PriceItem(item).value.1 > 0.0
  {
    if PriceItem(item).Some? {
      var clean := NameSplit(NameAttr(item)).clean;
      assert PriceItem(item).value.0 == Norm(clean);
      NormShape(clean);
      NormNonEmpty(clean);
    }
  }

  /** Every stored factor is above zero, every key is a non-empty `_norm`
      result, and no key is stored twice. */
  lemma PriceListGood(items: seq<Node>)
    ensures PkgConverter.GoodFactors(PriceList(items))
  {
    var ps := PriceItems(items);
    forall i | 0 <= i < |ps| && ps[i].Some?
      ensures PkgConverter.GoodKey(ps[i].value.0) && PkgConverter.Positive(ps[i].value.1)
    {
      PriceItemGood(items[i]);
    }
    PutPresentKeeps([], ps, PkgConverter.GoodKey, PkgConverter.Positive);
  }

  /** The factor stored under a key is the one of the last item whose name
      normalises to it. */
  lemma PriceListLastWins(items: seq<Node>)
    ensures forall k :: Get(PriceList(items), k) == LastValue(PriceItems(items), k)
  {
    PutPresentSpec([], PriceItems(items));
  }

  // ------------------------------------------------------------ item groups

  /** The index of the first `c` in `s`. */
  function FirstIndex(s: string, c: char): (r: Option<nat>)
    ensures r.Some? ==> r.value < |s| && s[r.value] == c && forall k :: 0 <= k < r.value ==> s[k] != c
    ensures r.None? ==> forall k :: 0 <= k < |s| ==> s[k] != c
  {
    if s == [] then None
    else if s[0] == c then Some(0)
    else match FirstIndex(s[1..], c)
      case Some(i) => Some(i + 1)
      case None => None
  }

  /** Where the leftmost match of `_PARENT_SUFFIX_RE` finds its `(`. The match
      must end at the last `)` of the text (only whitespace may follow), and
      `.*?` crosses no line feed, so the `(` is the first one after the last
      line feed before that `)`. */
  function ParentOpen(s: string): (r: Option<nat>)
    ensures r.Some? ==> r.value < |s| && s[r.value] == '('
  {
    var t := RStrip(s);
    if t == [] || t[|t| - 1] != ')' then None
    else
      var u := t[..|t| - 1];
      var b: nat := match LastIndex(u, '\n') case Some(n) => n + 1 case None => 0;
      match FirstIndex(u[b..], '(')
      case Some(i) => Some(b + i)
      case None => None
  }

  /** `_PARENT_SUFFIX_RE.sub("", raw_group).strip()`: the match takes the
      whitespace before the `(` with it. */
  function ParentGroup(raw: string): (r: string)
    ensures r == [] || (!IsSpace(r[0]) && !IsSpace(r[|r| - 1]))
    ensures ParentOpen(raw).None? ==> r == Strip(raw)
  {
    match ParentOpen(raw)
    case Some(p) => Strip(RStrip(raw[..p]))
    case None => Strip(raw)
  }

  /** `BICYCLE ( 87120010 )` and every PARENT text of that shape give the name
      in front of the parentheses, whatever they hold on one line. */
  lemma ParentGroupOfSuffixed(a: string, x: string)
    requires a != [] && !IsSpace(a[0]) && !IsSpace(a[|a| - 1])
    requires forall k :: 0 <= k < |a| ==> a[k] != '(' && a[k] != '\n'
    requires forall k :: 0 <= k < |x| ==> x[k] != '\n'
    ensures ParentGroup(a + " (" + x + ")") == a
  {
    var s := a + " (" + x + ")";
    var u := a + " (" + x;
    SuffixedParts(a, x);
    assert s[..|s| - 1] == u;
    assert forall k :: 0 <= k < |u| ==> u[k] != '\n' by {
      forall k | 0 <= k < |u|
        ensures u[k] != '\n'
      {
        if k < |a| {
          assert u[k] == s[..|a|][k];
        } else if k >= |a| + 2 {
          assert u[k] == s[|a| + 2..|s| - 1][k - |a| - 2];
        }
      }
    }
    assert LastIndex(u, '\n') == None;
    assert u[0..] == u;
    forall k | 0 <= k < |a|
      ensures u[k] != '('
    {
      assert u[k] == s[..|a|][k];
    }
    assert u[|a| + 1] == '(';
    assert FirstIndex(u, '(') == Some(|a| + 1);
    assert ParentOpen(s) == Some(|a| + 1);
    RStripSpace(a);
    StripFixed(a);
  }

  /** What one STOCKITEM contributes to the item-to-group map: its name and its
      group, when both are not blank. */
  function GroupItem(item: Node): Option<(string, string)> {
    var name := NameAttr(item);
    var rawGroup := Txt(item, "PARENT");
    if name == [] || rawGroup == [] then None
    else
      var group := ParentGroup(rawGroup);
      if group != [] then Some((name, group)) else None
  }

  /** Neither the name nor the group of an entry is blank. */
  lemma GroupItemNonBlank(item: Node)
    ensures GroupItem(item).Some? ==> NonBlank(GroupItem(item).value.0) && NonBlank(GroupItem(item).value.1)
  {
  }

  /** Not empty and without surrounding whitespace. */
  predicate NonBlank(s: string) {
    s != [] && !IsSpace(s[0]) && !IsSpace(s[|s| - 1])
  }

  function GroupItems(items: seq<Node>): (r: seq<Option<(string, string)>>)
    ensures |r| == |items| && forall i :: 0 <= i < |items| ==> r[i] == GroupItem(items[i])
  {
    seq(|items|, i requires 0 <= i < |items| => GroupItem(items[i]))
  }

  /** `parse_item_groups`, as a function of the STOCKITEM elements. */
  function ItemGroups(items: seq<Node>): Dict<string, string> {
    PutPresent([], GroupItems(items))
  }

  /** The body of the `parse_item_groups` loop for one STOCKITEM. */
  method GroupItemOf(item: Node) returns (entry: Option<(string, string)>)
    ensures entry == GroupItem(item)
  {
    entry := None;
    var name := NameAttr(item);
    if name != [] {
      var rawGroup := Txt(item, "PARENT");
      if rawGroup != [] {
        var group := ParentGroup(rawGroup);
        if group != [] {
          entry := Some((name, group));
        }
      }
    }
  }

  /** `parse_item_groups` over `root.iter("STOCKITEM")`. */
  method ParseItemGroups(items: seq<Node>) returns (mapping: Dict<string, string>)
    ensures mapping == ItemGroups(items)
  {
    mapping := [];
    var i := 0;
    while i < |items|
      invariant 0 <= i <= |items|
      invariant mapping == PutPresent([], GroupItems(items)[..i])
    {
      var entry := GroupItemOf(items[i]);
      PutPresentSnoc([], GroupItems(items), i);
      if entry.Some? {
        mapping := Put(mapping, entry.value.0, entry.value.1);
      }
      i := i + 1;
    }
    assert GroupItems(items)[..i] == GroupItems(items);
  }

  /** Names and groups in the map are never blank, each name appears once, and
      a name keeps the group of the last item carrying it. */
  lemma ItemGroupsSpec(items: seq<Node>)
    ensures KeysUnique(ItemGroups(items))
    ensures forall i :: 0 <= i < |ItemGroups(items)| ==> NonBlank(ItemGroups(items)[i].0) && NonBlank(ItemGroups(items)[i].1)
    ensures forall k :: Get(ItemGroups(items), k) == LastValue(GroupItems(items), k)
  {
    forall i | 0 <= i < |items|
      ensures GroupItem(items[i]).Some? ==> NonBlank(GroupItem(items[i]).value.0) && NonBlank(GroupItem(items[i]).value.1)
    {
      GroupItemNonBlank(items[i]);
    }
    PutPresentKeeps([], GroupItems(items), NonBlank, NonBlank);
    PutPresentSpec([], GroupItems(items));
  }

  // ------------------------------------------------------------ entry point

  /** One of the XML exports: absent, or present with its decoded text and
      the tree the XML parser builds from the prepared text (None when it
      raises). */
  datatype XmlFile = Missing | Present(text: string, tree: Option<Node>)

  /** The root `parse_utf16_xml` returns, None when the file is absent or an
      exception is raised on the way (the caller logs it and goes on). */
  function FileRoot(f: XmlFile): Option<Node> {
    match f
    case Missing => None
    case Present(text, tree) => if PrepareXml(text).Some? then tree else None
  }

  /** The result of `parse_mkcp_files`; `source_counts` becomes the two
      counts. */
  datatype MkcpData = MkcpData(
    groups: seq<VendorGroup>,
    altUnits: Dict<string, real>,
    itemGroups: Dict<string, string>,
    xlsxCount: nat,
    priceListCount: nat)

  /** The factors of the conversion sheet: none when it is absent or
      unreadable. */
  function XlsxUnits(xlsx: Option<seq<PkgConverter.Row>>): Dict<string, real> {
    match xlsx
    case Some(rows) => PkgConverter.Run(rows).factors
    case None => []
  }

  function PriceUnits(f: XmlFile): Dict<string, real> {
    match FileRoot(f)
    case Some(root) => PriceList(Iter(root, "STOCKITEM"))
    case None => []
  }

  /** `parse_mkcp_files`: the conversion sheet first, then the price list,
      merged so that the sheet wins; then the stock groups and the item
      groups. */
  method ParseMkcpFiles(xlsx: Option<seq<PkgConverter.Row>>, priceList: XmlFile, stockGroups: XmlFile, stockItems: XmlFile)
    returns (r: MkcpData)
    ensures r.altUnits == Update(Update([], PriceUnits(priceList)), XlsxUnits(xlsx))
    ensures r.xlsxCount == |XlsxUnits(xlsx)| && r.priceListCount == |PriceUnits(priceList)|
    ensures r.groups == match FileRoot(stockGroups) case Some(root) => StockGroupsRun(Iter(root, "STOCKGROUP")).groups case None => []
    ensures r.itemGroups == match FileRoot(stockItems) case Some(root) => ItemGroups(Iter(root, "STOCKITEM")) case None => []
  {
    var xlsxUnits: Dict<string, real> := [];
    if xlsx.Some? {
      xlsxUnits := PkgConverter.ParsePkgConversion(xlsx.value);
    }
    var priceListUnits: Dict<string, real> := [];
    var root := FileRoot(priceList);
    if root.Some? {
      priceListUnits := ParsePriceList(Iter(root.value, "STOCKITEM"));
    }
    var merged: Dict<string, real> := [];
    merged := Update(merged, priceListUnits);
    merged := Update(merged, xlsxUnits);
    var groups: seq<VendorGroup> := [];
    root := FileRoot(stockGroups);
    if root.Some? {
      groups := ParseStockGroups(Iter(root.value, "STOCKGROUP"));
    }
    var itemGroups: Dict<string, string> := [];
    root := FileRoot(stockItems);
    if root.Some? {
      itemGroups := ParseItemGroups(Iter(root.value, "STOCKITEM"));
    }
    r := MkcpData(groups, merged, itemGroups, |xlsxUnits|, |priceListUnits|);
  }

  /** The merged map holds every key of both sources, each once; a key the
      conversion sheet has takes the sheet's factor, any other key the price
      list's. */
  lemma MergeSpec(xlsx: Option<seq<PkgConverter.Row>>, priceList: XmlFile)
    ensures var x, p := XlsxUnits(xlsx), PriceUnits(priceList);
      var merged := Update(Update([], p), x);
      && KeysUnique(merged)
      && (forall k :: k in Keys(merged) <==> k in Keys(x) || k in Keys(p))
      && (forall k :: Get(merged, k) == if k in Keys(x) then Get(x, k) else Get(p, k))
  {
    var x, p := XlsxUnits(xlsx), PriceUnits(priceList);
    if xlsx.Some? {
      PkgConverter.RunIsGood(xlsx.value);
    }
    if FileRoot(priceList).Some? {
      PriceListGood(Iter(FileRoot(priceList).value, "STOCKITEM"));
    }
    MergeOver(p, x);
  }
}
