/** The XML sanitiser run on every Tally export before parsing: it picks a
    decoding from the byte-order mark, removes character references and raw
    characters that XML 1.0 forbids, and rewrites the declared encoding. */
module Sanitizer {
  import opened Wrappers
  import opened Text
  import opened Substitution

  type byte = x: int | 0 <= x < 256

  const Bom: char := '\U{FEFF}'

  /** The codecs `_fix_encoding` can settle on; `Utf8Replaced` is its last
      resort, a UTF-8 decode that replaces undecodable bytes. */
  datatype Encoding = Utf16Le | Utf16Be | Utf8Sig | Utf8 | Utf16 | Windows1252 | Latin1 | Utf8Replaced

  /** What the sanitiser reports besides the cleaned text. */
  datatype Warning =
    | BackupFailed
    | ReEncoded(from: Encoding)
    | RemovedControlChars(count: nat, offsets: seq<nat>)
    | RemovedCharRefs(count: nat, refs: seq<string>)

  // ------------------------------------------------- raw control characters

  /** The characters deleted from the decoded text: U+0000 to U+0008, U+000B,
      U+000C, U+000E to U+001F, U+007F and the byte-order mark U+FEFF. */
  predicate IsInvalidXmlChar(c: char) {
    c <= '\U{08}' || c == '\U{0B}' || c == '\U{0C}' || ('\U{0E}' <= c <= '\U{1F}')
    || c == '\U{7F}' || c == Bom
  }

  /** The text with every invalid character deleted and the rest kept in order
      (`_INVALID_XML_CHAR_RE.sub("", text)`). */
  function Filtered(s: string): string {
    if s == [] then []
    else Filtered(s[..|s| - 1]) + (if IsInvalidXmlChar(s[|s| - 1]) then [] else [s[|s| - 1]])
  }

  /** The positions of the invalid characters, in increasing order (`m.start()`
      of every `finditer` match). */
  function InvalidPositions(s: string): seq<nat> {
    if s == [] then []
    else InvalidPositions(s[..|s| - 1]) + (if IsInvalidXmlChar(s[|s| - 1]) then [|s| - 1] else [])
  }

  predicate NoInvalidChars(s: string) {
    forall i :: 0 <= i < |s| ==> !IsInvalidXmlChar(s[i])
  }

  /** The positions listed are exactly those of the invalid characters, each once
      and in increasing order. */
  lemma {:induction false} InvalidPositionsExact(s: string)
    ensures forall k: int :: k in InvalidPositions(s) <==> 0 <= k < |s| && IsInvalidXmlChar(s[k])
    ensures forall i, j :: 0 <= i < j < |InvalidPositions(s)| ==> InvalidPositions(s)[i] < InvalidPositions(s)[j]
  {
    if s != [] {
      var t := s[..|s| - 1];
      InvalidPositionsExact(t);
      var p := InvalidPositions(t);
      assert forall k :: 0 <= k < |t| ==> t[k] == s[k];
      assert forall i :: 0 <= i < |p| ==> p[i] in p;
    }
  }

  lemma {:induction false} FilteredIsClean(s: string)
    ensures NoInvalidChars(Filtered(s))
  {
    if s != [] {
      FilteredIsClean(s[..|s| - 1]);
    }
  }

  lemma {:induction false} FilteredLength(s: string)
    ensures |Filtered(s)| == |s| - |InvalidPositions(s)|
  {
    if s != [] {
      FilteredLength(s[..|s| - 1]);
    }
  }

  lemma {:induction false} FilteredCounts(s: string)
    ensures forall c :: multiset(Filtered(s))[c] == if IsInvalidXmlChar(c) then 0 else multiset(s)[c]
  {
    if s != [] {
      var t := s[..|s| - 1];
      FilteredCounts(t);
      assert s == t + [s[|s| - 1]];
    }
  }

  /** Filtering deletes exactly the invalid characters: none remains, every
      other character occurs as often as in the input, and the length drops by
      the number of positions reported. */
  lemma FilteredDeletesExactly(s: string)
    ensures NoInvalidChars(Filtered(s))
    ensures forall c :: multiset(Filtered(s))[c] == if IsInvalidXmlChar(c) then 0 else multiset(s)[c]
    ensures |Filtered(s)| == |s| - |InvalidPositions(s)|
  {
    FilteredIsClean(s);
    FilteredCounts(s);
    FilteredLength(s);
  }

  /** Tab, line feed and carriage return always survive. */
  lemma KeepsWhitespaceControls(s: string)
    ensures multiset(Filtered(s))['\t'] == multiset(s)['\t']
    ensures multiset(Filtered(s))['\n'] == multiset(s)['\n']
    ensures multiset(Filtered(s))['\r'] == multiset(s)['\r']
  {
    FilteredDeletesExactly(s);
  }

  /** Filtering is the identity exactly when there is nothing to delete. */
  lemma {:induction false} FilteredIdentity(s: string)
    ensures Filtered(s) == s <==> NoInvalidChars(s)
  {
    FilteredDeletesExactly(s);
    InvalidPositionsExact(s);
    if !NoInvalidChars(s) {
      var k :| 0 <= k < |s| && IsInvalidXmlChar(s[k]);
      assert k in InvalidPositions(s);
    } else {
      FilteredOfClean(s);
    }
  }

  lemma {:induction false} FilteredOfClean(s: string)
    requires NoInvalidChars(s)
    ensures Filtered(s) == s
  {
    if s != [] {
      FilteredOfClean(s[..|s| - 1]);
    }
  }

  /** Filtering twice is filtering once. */
  lemma FilteredIdempotent(s: string)
    ensures Filtered(Filtered(s)) == Filtered(s)
  {
    FilteredDeletesExactly(s);
    FilteredOfClean(Filtered(s));
  }

  function Min(a: nat, b: nat): nat {
    if a < b then a else b
  }

  /** The `finditer` pass of `_strip_invalid_chars`: the offsets of the
      invalid characters, collected left to right. */
  method CollectInvalidPositions(text: string) returns (positions: seq<nat>)
    ensures positions == InvalidPositions(text)
  {
    positions := [];
    var i := 0;
    while i < |text|
      invariant 0 <= i <= |text|
      invariant positions == InvalidPositions(text[..i])
    {
      assert text[..i + 1][..i] == text[..i];
      if IsInvalidXmlChar(text[i]) {
        positions := positions + [i];
      }
      i := i + 1;
    }
    assert text[..i] == text;
  }

  /** No position is reported exactly when the text is clean, which is
      exactly when filtering changes nothing. */
  lemma NoPositionsIffClean(text: string)
    ensures InvalidPositions(text) == [] <==> NoInvalidChars(text)
    ensures NoInvalidChars(text) <==> Filtered(text) == text
  {
    FilteredIdentity(text);
    InvalidPositionsExact(text);
    if !NoInvalidChars(text) {
      var k :| 0 <= k < |text| && IsInvalidXmlChar(text[k]);
      assert k in InvalidPositions(text);
    }
  }

  /** `_strip_invalid_chars`: the positions of the invalid characters are
      collected, one warning carrying their number and the first 20 positions is
      issued when there are any, and the characters are deleted. */
  method StripInvalidChars(text: string) returns (clean: string, warnings: seq<Warning>)
    ensures clean == Filtered(text) && NoInvalidChars(clean)
    ensures warnings == [] <==> NoInvalidChars(text)
    ensures warnings == [] <==> clean == text
    ensures warnings != [] ==>
      var p := InvalidPositions(text);
      warnings == [RemovedControlChars(|p|, p[..Min(20, |p|)])]
  {
    var positions := CollectInvalidPositions(text);
    warnings := [];
    if positions != [] {
      warnings := warnings + [RemovedControlChars(|positions|, positions[..Min(20, |positions|)])];
    }
    clean := Filtered(text);
    FilteredIsClean(text);
    NoPositionsIffClean(text);
  }

  // ------------------------------------------------- character references

  /** `is_valid_xml_char`: the Char production of XML 1.0 (section 2.2). */
  predicate IsValidXmlChar(cp: int) {
    cp == 0x9 || cp == 0xA || cp == 0xD || (0x20 <= cp <= 0xD7FF)
    || (0xE000 <= cp <= 0xFFFD) || (0x10000 <= cp <= 0x10FFFF)
  }

  /** How the raw-character class relates to the Char production: it deletes every
      control character the production forbids, plus U+007F and U+FEFF, which the
      production allows; the only characters outside the production that it lets
      through are U+FFFE and U+FFFF. */
  lemma RawClassVersusCharProduction(c: char)
    ensures IsInvalidXmlChar(c) ==> !IsValidXmlChar(c as int) || c == '\U{7F}' || c == Bom
    ensures !IsValidXmlChar(c as int) ==> IsInvalidXmlChar(c) || c == '\U{FFFE}' || c == '\U{FFFF}'
  {
  }

  predicate IsHexDigit(c: char) {
    IsDigit(c) || 'a' <= c <= 'f' || 'A' <= c <= 'F'
  }

  /** The value of a hexadecimal digit (callers only apply it to hex digits). */
  function HexDigitValue(c: char): nat {
    if IsDigit(c) then DigitValue(c)
    else if 'a' <= c <= 'f' then c as int - 'a' as int + 10
    else if 'A' <= c <= 'F' then c as int - 'A' as int + 10
    else 0
  }

  /** `int(s[lo:hi], base)` for a run of digits (decimal digits have the same
      value in base 10 and base 16). */
  function RunValue(s: string, lo: nat, hi: nat, base: nat): nat
    requires lo <= hi <= |s|
    decreases hi
  {
    if hi == lo then 0 else RunValue(s, lo, hi - 1, base) * base + HexDigitValue(s[hi - 1])
  }

  lemma {:induction false} RunValueAgree(s: string, a: nat, t: string, b: nat, k: nat, base: nat)
    requires a + k <= |s| && b + k <= |t| && t[b..b + k] == s[a..a + k]
    ensures RunValue(t, b, b + k, base) == RunValue(s, a, a + k, base)
    decreases k
  {
    if k > 0 {
      assert t[b + k - 1] == t[b..b + k][k - 1];
      assert s[a + k - 1] == s[a..a + k][k - 1];
      assert t[b..b + k - 1] == t[b..b + k][..k - 1];
      assert s[a..a + k - 1] == s[a..a + k][..k - 1];
      RunValueAgree(s, a, t, b, k - 1, base);
    }
  }

  /** Length of the run of hexadecimal digits starting at `j`. */
  function HexRun(s: string, j: nat): (k: nat)
    requires j <= |s|
    ensures j + k <= |s|
    ensures j + k < |s| ==> !IsHexDigit(s[j + k])
    decreases |s| - j
  {
    if j < |s| && IsHexDigit(s[j]) then 1 + HexRun(s, j + 1) else 0
  }

  /** Length of the run of decimal digits starting at `j`. */
  function DecRun(s: string, j: nat): (k: nat)
    requires j <= |s|
    ensures j + k <= |s|
    ensures j + k < |s| ==> !IsDigit(s[j + k])
    decreases |s| - j
  {
    if j < |s| && IsDigit(s[j]) then 1 + DecRun(s, j + 1) else 0
  }

  /** A character reference found in the text: its length and its code point. */
  datatype CharRef = CharRef(len: nat, codePoint: nat)

  /** The match of `&#(?:x([0-9a-fA-F]+)|([0-9]+));` at position `i`; the pattern
      is case-insensitive, so `&#X` is a hexadecimal reference too. */
  function RefAt(s: string, i: nat): (r: Option<CharRef>)
    requires i <= |s|
    ensures r.Some? ==> 4 <= r.value.len && i + r.value.len <= |s|
  {
    if i + 2 < |s| && s[i] == '&' && s[i + 1] == '#' then
      if s[i + 2] == 'x' || s[i + 2] == 'X' then HexRefAt(s, i + 3) else DecRefAt(s, i + 2)
    else None
  }

  /** The hexadecimal alternative, its digits starting at `j`. */
  function HexRefAt(s: string, j: nat): (r: Option<CharRef>)
    requires 3 <= j <= |s|
    ensures r.Some? ==> 4 <= r.value.len && j - 3 + r.value.len <= |s|
  {
    var k := HexRun(s, j);
    if k > 0 && j + k < |s| && s[j + k] == ';' then Some(CharRef(4 + k, RunValue(s, j, j + k, 16))) else None
  }

  /** The decimal alternative, its digits starting at `j`. */
  function DecRefAt(s: string, j: nat): (r: Option<CharRef>)
    requires 2 <= j <= |s|
    ensures r.Some? ==> 4 <= r.value.len && j - 2 + r.value.len <= |s|
  {
    var k := DecRun(s, j);
    if k > 0 && j + k < |s| && s[j + k] == ';' then Some(CharRef(3 + k, RunValue(s, j, j + k, 10))) else None
  }

  lemma {:induction false} HexRunAgree(s: string, a: nat, t: string, b: nat, k: nat)
    requires a <= |s| && b <= |t| && k == HexRun(s, a) && a + k < |s| && b + k < |t|
    requires t[b..b + k + 1] == s[a..a + k + 1]
    ensures HexRun(t, b) == k
    decreases k
  {
    assert t[b] == t[b..b + k + 1][0];
    if k > 0 {
      assert t[b + 1..b + k + 1] == t[b..b + k + 1][1..];
      assert s[a + 1..a + k + 1] == s[a..a + k + 1][1..];
      HexRunAgree(s, a + 1, t, b + 1, k - 1);
    }
  }

  lemma {:induction false} DecRunAgree(s: string, a: nat, t: string, b: nat, k: nat)
    requires a <= |s| && b <= |t| && k == DecRun(s, a) && a + k < |s| && b + k < |t|
    requires t[b..b + k + 1] == s[a..a + k + 1]
    ensures DecRun(t, b) == k
    decreases k
  {
    assert t[b] == t[b..b + k + 1][0];
    if k > 0 {
      assert t[b + 1..b + k + 1] == t[b..b + k + 1][1..];
      assert s[a + 1..a + k + 1] == s[a..a + k + 1][1..];
      DecRunAgree(s, a + 1, t, b + 1, k - 1);
    }
  }

  lemma RefAtSliceHex(s: string, i: nat, n: nat)
    requires i <= |s| && RefAt(s, i).Some? && n == RefAt(s, i).value.len
    requires s[i + 2] == 'x' || s[i + 2] == 'X'
    ensures RefAt(s[i..i + n], 0) == RefAt(s, i)
  {
    var t := s[i..i + n];
    assert t[..3] == s[i..i + 3];
    assert t[3..n] == s[i + 3..i + n];
    HexRunAgree(s, i + 3, t, 3, n - 4);
    assert t[3..n - 1] == t[3..n][..n - 4] && s[i + 3..i + n - 1] == s[i + 3..i + n][..n - 4];
    RunValueAgree(s, i + 3, t, 3, n - 4, 16);
  }

  lemma RefAtSliceDec(s: string, i: nat, n: nat)
    requires i <= |s| && RefAt(s, i).Some? && n == RefAt(s, i).value.len
    requires !(s[i + 2] == 'x' || s[i + 2] == 'X')
    ensures RefAt(s[i..i + n], 0) == RefAt(s, i)
  {
    var t := s[i..i + n];
    assert t[..3] == s[i..i + 3];
    assert t[2..n] == s[i + 2..i + n];
    DecRunAgree(s, i + 2, t, 2, n - 3);
    assert t[2..n - 1] == t[2..n][..n - 3] && s[i + 2..i + n - 1] == s[i + 2..i + n][..n - 3];
    RunValueAgree(s, i + 2, t, 2, n - 3, 10);
  }

  /** A reference depends only on its own characters. */
  lemma RefAtSlice(s: string, i: nat)
    requires i <= |s| && RefAt(s, i).Some?
    ensures RefAt(s[i..i + RefAt(s, i).value.len], 0) == RefAt(s, i)
  {
    if s[i + 2] == 'x' || s[i + 2] == 'X' {
      RefAtSliceHex(s, i, RefAt(s, i).value.len);
    } else {
      RefAtSliceDec(s, i, RefAt(s, i).value.len);
    }
  }

  function TotalLength(ss: seq<string>): nat {
    if ss == [] then 0 else |ss[0]| + TotalLength(ss[1..])
  }

  /** A reference to a code point outside the Char production is deleted, any
      other reference is kept whole, and a character that starts no reference is
      copied; what is deleted is reported as the reference's own text. */
  function ScanAt(s: string, i: nat): (p: Step<string>)
    requires i < |s|
    ensures 1 <= p.len && i + p.len <= |s|
    ensures p.dropped == [] ==> p.kept == s[i..i + p.len]
    ensures |p.kept| + TotalLength(p.dropped) == p.len
  {
    match RefAt(s, i)
    case Some(ref) =>
      if IsValidXmlChar(ref.codePoint) then Step(ref.len, s[i..i + ref.len], [])
      else Step(ref.len, [], [s[i..i + ref.len]])
    case None => Step(1, [s[i]], [])
  }

  /** Every step over `s` accounts for what it consumes: kept and deleted
      text together are exactly as long. */
  ghost predicate Accounts(f: nat --> Step<string>, s: string) {
    forall i :: 0 <= i < |s| ==> f.requires(i) && |f(i).kept| + TotalLength(f(i).dropped) == f(i).len
  }

  /** `_INVALID_CHAR_REF_RE` with its `replace_ref` callback, as a scan of `s`. */
  function RefScan(s: string): (f: nat --> Step<string>)
    ensures Scans(f, s) && Accounts(f, s)
    ensures forall i :: 0 <= i < |s| ==> f.requires(i) && f(i) == ScanAt(s, i)
  {
    (i: nat) requires i < |s| => ScanAt(s, i)
  }

  /** `_INVALID_CHAR_REF_RE.sub(replace_ref, text)`. */
  function StripRefs(s: string): string {
    Kept(RefScan(s), s, 0)
  }

  /** The references the same substitution deletes, in order (`invalid_refs`). */
  function RemovedRefs(s: string): seq<string> {
    Dropped(RefScan(s), s, 0)
  }

  lemma {:induction false} TotalLengthAppend(a: seq<string>, b: seq<string>)
    ensures TotalLength(a + b) == TotalLength(a) + TotalLength(b)
  {
    if a != [] {
      TotalLengthAppend(a[1..], b);
      assert a + b != [] && (a + b)[0] == a[0];
      assert (a + b)[1..] == a[1..] + b;
    } else {
      assert a + b == b;
    }
  }

  /** Nothing but the removed references is lost: the kept text and the removed
      references together are as long as the scanned text. */
  lemma {:induction false} StripAccounting(f: nat --> Step<string>, s: string, i: nat)
    requires Scans(f, s) && Accounts(f, s) && i <= |s|
    ensures |Kept(f, s, i)| + TotalLength(Dropped(f, s, i)) == |s| - i
    decreases |s| - i
  {
    if i < |s| {
      var p := f(i);
      var kept, removed := Kept(f, s, i + p.len), Dropped(f, s, i + p.len);
      KeptStep(f, s, i);
      StripAccounting(f, s, i + p.len);
      TotalLengthAppend(p.dropped, removed);
      assert |Kept(f, s, i)| == |p.kept| + |kept|;
      assert TotalLength(Dropped(f, s, i)) == TotalLength(p.dropped) + TotalLength(removed);
    }
  }

  predicate IsInvalidRef(x: string) {
    RefAt(x, 0).Some? && RefAt(x, 0).value.len == |x| && !IsValidXmlChar(RefAt(x, 0).value.codePoint)
  }

  /** A single step deletes only a whole reference to a code point outside
      the Char production. */
  lemma ScanAtDropsInvalid(s: string, i: nat)
    requires i < |s|
    ensures forall k :: 0 <= k < |ScanAt(s, i).dropped| ==> IsInvalidRef(ScanAt(s, i).dropped[k])
  {
    if RefAt(s, i).Some? {
      RefAtSlice(s, i);
    }
  }

  /** Each removed string is a whole reference to a code point outside the Char
      production. */
  lemma RemovedAreInvalid(s: string)
    ensures forall k :: 0 <= k < |RemovedRefs(s)| ==> IsInvalidRef(RemovedRefs(s)[k])
  {
    var f := RefScan(s);
    forall j, k | 0 <= j < |s| && 0 <= k < |f(j).dropped|
      ensures IsInvalidRef(f(j).dropped[k])
    {
      ScanAtDropsInvalid(s, j);
    }
    DroppedSatisfy(f, s, 0, IsInvalidRef);
  }

  /** The text is left as it is exactly when no reference is removed. */
  lemma StripRefsIdentity(s: string)
    ensures StripRefs(s) == s <==> RemovedRefs(s) == []
  {
    var f := RefScan(s);
    StripAccounting(f, s, 0);
    if RemovedRefs(s) == [] {
      Copies(f, s, 0);
    } else {
      var x := RemovedRefs(s)[0];
      RemovedAreInvalid(s);
      assert RemovedRefs(s) == [x] + RemovedRefs(s)[1..];
      TotalLengthAppend([x], RemovedRefs(s)[1..]);
      assert TotalLength(RemovedRefs(s)) >= |x| > 0;
    }
  }

  /** In `&&#1;#1;` the only reference is `&#1;` at offset 1. */
  lemma JoinedRefs()
    ensures RefAt("&&#1;#1;", 0) == None && RefAt("&&#1;#1;", 1) == Some(CharRef(4, 1))
    ensures RefAt("&&#1;#1;", 5) == None && RefAt("&&#1;#1;", 6) == None && RefAt("&&#1;#1;", 7) == None
  {
    var s := "&&#1;#1;";
    assert DecRun(s, 4) == 0 && DecRun(s, 3) == 1;
    assert RunValue(s, 3, 4, 10) == 1;
  }

  /** `&#1;` is one reference to U+0001. */
  lemma SingleRef()
    ensures RefAt("&#1;", 0) == Some(CharRef(4, 1))
  {
    var t := "&#1;";
    assert DecRun(t, 3) == 0 && DecRun(t, 2) == 1;
    assert RunValue(t, 2, 3, 10) == 1;
  }

  /** The steps over `&&#1;#1;`: `&`, then the reference `&#1;` deleted,
      then `#`, `1` and `;` copied. */
  lemma JoinedSteps(s: string)
    requires s == "&&#1;#1;"
    ensures ScanAt(s, 0) == Step(1, "&", [])
    ensures ScanAt(s, 1) == Step(4, [], ["&#1;"])
    ensures ScanAt(s, 5) == Step(1, "#", [])
    ensures ScanAt(s, 6) == Step(1, "1", [])
    ensures ScanAt(s, 7) == Step(1, ";", [])
  {
    JoinedRefs();
    assert s[1..5] == "&#1;";
  }

  /** The whole scan of `&&#1;#1;`. */
  lemma JoinedScan(s: string)
    requires s == "&&#1;#1;"
    ensures StripRefs(s) == ['&', '#', '1', ';']
  {
    var f := RefScan(s);
    JoinedSteps(s);
    assert f(7) == Step(1, ";", []) && f(6) == Step(1, "1", []) && f(5) == Step(1, "#", []);
    assert f(1) == Step(4, [], ["&#1;"]) && f(0) == Step(1, "&", []);
    KeptStep(f, s, 7);
    var k7 := Kept(f, s, 7);
    assert k7 == [';'];
    KeptStep(f, s, 6);
    var k6 := Kept(f, s, 6);
    assert k6 == ['1'] + k7;
    KeptStep(f, s, 5);
    var k5 := Kept(f, s, 5);
    assert k5 == ['#'] + k6;
    KeptStep(f, s, 1);
    assert Kept(f, s, 1) == k5;
    KeptStep(f, s, 0);
  }

  /** One pass can leave an invalid reference behind: deleting `&#1;` from
      `&&#1;#1;` joins its neighbours into a new `&#1;`. */
  lemma SinglePassLeavesJoinedReference()
    ensures StripRefs("&&#1;#1;") == "&#1;"
    ensures IsInvalidRef("&#1;")
  {
    JoinedScan("&&#1;#1;");
    SingleRef();
  }

  /** The substitution with its `replace_ref` callback: the kept pieces are
      copied and the deleted references collected in order. */
  method ScanCharRefs(text: string) returns (clean: string, invalid: seq<string>)
    ensures clean == StripRefs(text) && invalid == RemovedRefs(text)
  {
    clean, invalid := Substitute(RefScan(text), text);
  }

  /** `_strip_invalid_char_refs`: invalid references are deleted, valid ones and
      all other text kept, and one warning with the number of deleted references
      and the first ten of them is issued when there are any. */
  method StripInvalidCharRefs(text: string) returns (clean: string, warnings: seq<Warning>)
    ensures clean == StripRefs(text)
    ensures warnings == [] <==> clean == text
    ensures warnings != [] ==>
      var r := RemovedRefs(text);
      warnings == [RemovedCharRefs(|r|, r[..Min(10, |r|)])]
  {
    var invalid;
    clean, invalid := ScanCharRefs(text);
    warnings := [];
    if invalid != [] {
      warnings := warnings + [RemovedCharRefs(|invalid|, invalid[..Min(10, |invalid|)])];
    }
    StripRefsIdentity(text);
  }

  // ------------------------------------------------------ the XML declaration

  /** The ASCII text `lit`, given in lower case, occurs at `i` when case is
      ignored (the IGNORECASE patterns on bytes fold ASCII letters only). */
  predicate HasAt(s: string, i: nat, lit: string) {
    i + |lit| <= |s| && Lower(s[i..i + |lit|]) == lit
  }

  predicate IsQuote(c: char) {
    c == '"' || c == '\''
  }

  /** Length of the run of characters other than quotes starting at `j`. */
  function NonQuoteRun(s: string, j: nat): (k: nat)
    requires j <= |s|
    ensures j + k <= |s|
    ensures j + k < |s| ==> IsQuote(s[j + k])
    decreases |s| - j
  {
    if j < |s| && !IsQuote(s[j]) then 1 + NonQuoteRun(s, j + 1) else 0
  }

  /** `encoding=["'][^"']+["']` matched at `e`: the index just past its closing
      quote. */
  function EncodingAttrAt(s: string, e: nat): (r: Option<nat>)
    requires e <= |s|
    ensures r.Some? ==> e + 12 <= r.value <= |s| && HasAt(s, e, "encoding=")
  {
    if HasAt(s, e, "encoding=") && e + 9 < |s| && IsQuote(s[e + 9]) then
      var k := NonQuoteRun(s, e + 10);
      if k > 0 && e + 10 + k < |s| then Some(e + 11 + k) else None
    else None
  }

  /** The first `?` at or after `j`, or `|s|` when there is none. */
  function NextQuestion(s: string, j: nat): (f: nat)
    requires j <= |s|
    ensures j <= f <= |s|
    ensures f < |s| ==> s[f] == '?'
    decreases |s| - j
  {
    if j == |s| || s[j] == '?' then j else NextQuestion(s, j + 1)
  }

  /** `[^?]*\?>` after index `q`: the end of the declaration. */
  function DeclTail(s: string, q: nat): (r: Option<nat>)
    requires q <= |s|
    ensures r.Some? ==> q + 2 <= r.value <= |s| && s[r.value - 2] == '?' && s[r.value - 1] == '>'
  {
    var g := NextQuestion(s, q);
    if g + 1 < |s| && s[g + 1] == '>' then Some(g + 2) else None
  }

  /** Where `_XML_DECL_RE` matched: the declaration's start, the position of the
      `encoding=` it matched and the end of the match. */
  datatype DeclSpan = DeclSpan(start: nat, attr: nat, end: nat)

  /** The backtracking of `[^?]*encoding=`: the positions `e` in `[lo, hi)` are
      tried from the last one back; the first whose attribute and tail match
      gives the match. */
  function TryEncodings(s: string, lo: nat, hi: nat): (r: Option<(nat, nat)>)
    requires lo <= hi <= |s|
    ensures r.Some? ==> (lo <= r.value.0 < hi && EncodingAttrAt(s, r.value.0).Some?
                         && DeclTail(s, EncodingAttrAt(s, r.value.0).value) == Some(r.value.1))
    decreases hi - lo
  {
    if hi == lo then None
    else match EncodingAttrAt(s, hi - 1)
      case Some(q) =>
        (match DeclTail(s, q)
         case Some(end) => Some((hi - 1, end))
         case None => TryEncodings(s, lo, hi - 1))
      case None => TryEncodings(s, lo, hi - 1)
  }

  /** `_XML_DECL_RE` matched at `p`: `<?xml`, then `encoding=` before the first
      `?`, its quoted value and `?>`. */
  function DeclAt(s: string, p: nat): (r: Option<DeclSpan>)
    requires p <= |s|
    ensures r.Some? ==> (r.value.start == p && HasAt(s, p, "<?xml") && p + 5 <= r.value.attr <= |s|
                         && EncodingAttrAt(s, r.value.attr).Some?
                         && DeclTail(s, EncodingAttrAt(s, r.value.attr).value) == Some(r.value.end))
  {
    if HasAt(s, p, "<?xml") then
      var f := NextQuestion(s, p + 5);
      if f >= p + 14 then
        match TryEncodings(s, p + 5, f - 8)
        case Some((e, end)) => Some(DeclSpan(p, e, end))
        case None => None
      else None
    else None
  }

  /** The leftmost match at or after `p` (`count=1`). */
  function FindDecl(s: string, p: nat): (r: Option<DeclSpan>)
    requires p <= |s|
    ensures r.Some? ==> (p <= r.value.start && HasAt(s, r.value.start, "<?xml")
                         && r.value.start + 5 <= r.value.attr <= |s| && EncodingAttrAt(s, r.value.attr).Some?
                         && DeclTail(s, EncodingAttrAt(s, r.value.attr).value) == Some(r.value.end))
    decreases |s| - p
  {
    match DeclAt(s, p)
    case Some(d) => Some(d)
    case None => if p == |s| then None else FindDecl(s, p + 1)
  }

  const Utf8Attr: string := "encoding=\"utf-8\""

  /** `replace_decl` from index `i` of the matched declaration: each match of
      `encoding=["'][^"']+["']`, left to right, becomes `encoding="utf-8"`. */
  function RewriteFrom(d: string, i: nat): string
    requires i <= |d|
    decreases |d| - i
  {
    if i == |d| then []
    else match EncodingAttrAt(d, i)
      case Some(q) => Utf8Attr + RewriteFrom(d, q)
      case None => [d[i]] + RewriteFrom(d, i + 1)
  }

  /** `_fix_xml_declaration` on the text: the first declaration is rewritten and
      the text before and after it is kept. */
  function FixXmlDeclaration(s: string): (r: string)
    ensures FindDecl(s, 0).None? ==> r == s
    ensures FindDecl(s, 0).Some? ==>
      var m := FindDecl(s, 0).value;
      m.end <= |s| && StartsWith(r, s[..m.start]) && |s| - m.end <= |r| && r[|r| - (|s| - m.end)..] == s[m.end..]
  {
    match FindDecl(s, 0)
    case None => s
    case Some(m) =>
      assert m.start <= m.attr <= m.end <= |s|;
      s[..m.start] + RewriteFrom(s[m.start..m.end], 0) + s[m.end..]
  }

  lemma {:induction false} FindDeclNone(s: string, p: nat)
    requires p <= |s|
    requires forall k :: p <= k <= |s| ==> !HasAt(s, k, "<?xml")
    ensures FindDecl(s, p).None?
    decreases |s| - p
  {
    if p < |s| {
      FindDeclNone(s, p + 1);
    }
  }

  /** Text in which `<?xml` occurs nowhere (in any case) is returned as it is. */
  lemma FixWithoutDeclaration(s: string)
    requires forall k :: 0 <= k <= |s| ==> !HasAt(s, k, "<?xml")
    ensures FixXmlDeclaration(s) == s
  {
    FindDeclNone(s, 0);
  }

  /** A declaration without an `encoding=` attribute is not rewritten. */
  lemma {:induction false} RewriteWithoutAttribute(d: string, i: nat)
    requires i <= |d|
    requires forall j :: i <= j <= |d| ==> EncodingAttrAt(d, j).None?
    ensures RewriteFrom(d, i) == d[i..]
    decreases |d| - i
  {
    if i < |d| {
      RewriteWithoutAttribute(d, i + 1);
      assert d[i..] == [d[i]] + d[i + 1..];
    }
  }

  lemma {:induction false} NonQuoteRunAgree(s: string, a: nat, t: string, b: nat, k: nat)
    requires a <= |s| && b <= |t| && k == NonQuoteRun(s, a) && a + k < |s| && b + k < |t|
    requires t[b..b + k + 1] == s[a..a + k + 1]
    ensures NonQuoteRun(t, b) == k
    decreases k
  {
    assert t[b] == t[b..b + k + 1][0];
    if k > 0 {
      assert t[b + 1..b + k + 1] == t[b..b + k + 1][1..];
      assert s[a + 1..a + k + 1] == s[a..a + k + 1][1..];
      NonQuoteRunAgree(s, a + 1, t, b + 1, k - 1);
    }
  }

  /** An attribute match depends only on its own characters. */
  lemma EncodingAttrInSlice(s: string, lo: nat, hi: nat, e: nat)
    requires lo <= e <= hi <= |s| && EncodingAttrAt(s, e).Some? && EncodingAttrAt(s, e).value <= hi
    ensures EncodingAttrAt(s[lo..hi], e - lo) == Some(EncodingAttrAt(s, e).value - lo)
  {
    var q := EncodingAttrAt(s, e).value;
    var d := s[lo..hi];
    var k := NonQuoteRun(s, e + 10);
    assert q == e + 11 + k;
    assert forall j :: 0 <= j < hi - lo ==> d[j] == s[lo + j];
    assert d[e - lo..e - lo + 9] == s[e..e + 9];
    assert d[e - lo + 9] == s[e + 9];
    assert d[e - lo + 10..e - lo + 10 + k + 1] == s[e + 10..e + 10 + k + 1];
    NonQuoteRunAgree(s, e + 10, d, e - lo + 10, k);
  }

  lemma {:induction false} RewriteInserts(d: string, i: nat, j: nat)
    requires i <= j <= |d| && EncodingAttrAt(d, j).Some?
    ensures Contains(RewriteFrom(d, i), Utf8Attr)
    decreases |d| - i
  {
    if EncodingAttrAt(d, i).Some? {
      var r := RewriteFrom(d, i);
      assert r == Utf8Attr + RewriteFrom(d, EncodingAttrAt(d, i).value);
      assert r[..|Utf8Attr|] == Utf8Attr;
    } else {
      RewriteInserts(d, i + 1, j);
      var r := RewriteFrom(d, i);
      assert r[1..] == RewriteFrom(d, i + 1);
    }
  }

  /** When a declaration is found, the result declares `encoding="utf-8"`. */
  lemma FixDeclaresUtf8(s: string)
    requires FindDecl(s, 0).Some?
    ensures Contains(FixXmlDeclaration(s), Utf8Attr)
  {
    var m := FindDecl(s, 0).value;
    var q := EncodingAttrAt(s, m.attr).value;
    assert q + 2 <= m.end <= |s|;
    var d := s[m.start..m.end];
    EncodingAttrInSlice(s, m.start, m.end, m.attr);
    RewriteInserts(d, 0, m.attr - m.start);
    var x := RewriteFrom(d, 0);
    ContainsAppend(x, s[m.end..], Utf8Attr);
    ContainsPrepend(s[..m.start], x + s[m.end..], Utf8Attr);
    AppendAssoc(s[..m.start], x, s[m.end..]);
  }

  lemma {:induction false} RewriteKeepsValid(d: string, i: nat)
    requires i <= |d| && NoInvalidChars(d)
    ensures NoInvalidChars(RewriteFrom(d, i))
    decreases |d| - i
  {
    if i < |d| {
      match EncodingAttrAt(d, i)
      case Some(q) =>
        RewriteKeepsValid(d, q);
        NoInvalidCharsConcat(Utf8Attr, RewriteFrom(d, q));
      case None =>
        RewriteKeepsValid(d, i + 1);
        NoInvalidCharsConcat([d[i]], RewriteFrom(d, i + 1));
    }
  }

  lemma NoInvalidCharsConcat(a: string, b: string)
    requires NoInvalidChars(a) && NoInvalidChars(b)
    ensures NoInvalidChars(a + b)
  {
    assert forall i :: 0 <= i < |a + b| ==> (a + b)[i] == if i < |a| then a[i] else b[i - |a|];
  }

  /** Rewriting the declaration introduces no character the sanitiser deletes. */
  lemma FixKeepsValid(s: string)
    requires NoInvalidChars(s)
    ensures NoInvalidChars(FixXmlDeclaration(s))
  {
    match FindDecl(s, 0)
    case None =>
    case Some(m) =>
      var d := s[m.start..m.end];
      RewriteKeepsValid(d, 0);
      NoInvalidCharsConcat(s[..m.start], RewriteFrom(d, 0));
      NoInvalidCharsConcat(s[..m.start] + RewriteFrom(d, 0), s[m.end..]);
  }

  // ------------------------------------------------------------ the codec

  /** The text without one leading U+FEFF. */
  function DropBom(t: string): string {
    if t != [] && t[0] == Bom then t[1..] else t
  }

  /** The codecs tried, in order, when no UTF-16 byte-order mark decided. */
  const Candidates: seq<Encoding> := [Utf8Sig, Utf8, Utf16, Windows1252, Latin1]

  /** The index of the first codec in `cands` that decodes the bytes. */
  function FirstDecoding(decoded: Encoding -> Option<string>, cands: seq<Encoding>): (r: Option<nat>)
    ensures r.Some? ==> (r.value < |cands| && decoded(cands[r.value]).Some?
                         && forall j :: 0 <= j < r.value ==> decoded(cands[j]).None?)
    ensures r.None? ==> forall j :: 0 <= j < |cands| ==> decoded(cands[j]).None?
  {
    if cands == [] then None
    else if decoded(cands[0]).Some? then Some(0)
    else match FirstDecoding(decoded, cands[1..])
      case Some(i) => Some(i + 1)
      case None => None
  }

  predicate HasPrefix(raw: seq<byte>, b0: byte, b1: byte) {
    |raw| >= 2 && raw[0] == b0 && raw[1] == b1
  }

  /** `_fix_encoding`, with the codecs abstract: `decoded(enc)` is what
      `raw.decode(enc)` yields, None where the codec raises, and `replaced` is
      `raw.decode("utf-8", errors="replace")`. The UTF-16 branches drop up to two
      leading U+FEFF, the candidate loop one. The result is the text (whose UTF-8
      encoding the source returns) and the codec chosen. */
  function FixEncoding(raw: seq<byte>, decoded: Encoding -> Option<string>, replaced: string): (r: (string, Encoding))
    ensures HasPrefix(raw, 0xFF, 0xFE) && decoded(Utf16Le).Some? <==> r.1 == Utf16Le
    ensures HasPrefix(raw, 0xFE, 0xFF) && decoded(Utf16Be).Some? <==> r.1 == Utf16Be
    ensures r.1 == Utf8Replaced <==> r.0 == replaced && r.1 !in {Utf16Le, Utf16Be} && forall j :: 0 <= j < |Candidates| ==> decoded(Candidates[j]).None?
    ensures r.1 != Utf8Replaced ==>
              (decoded(r.1).Some? && |r.0| <= |decoded(r.1).value|
               && r.0 == decoded(r.1).value[|decoded(r.1).value| - |r.0|..]
               && |decoded(r.1).value| - |r.0| <= (if r.1 in {Utf16Le, Utf16Be} then 2 else 1)
               && forall k :: 0 <= k < |decoded(r.1).value| - |r.0| ==> decoded(r.1).value[k] == Bom)
  {
    if HasPrefix(raw, 0xFF, 0xFE) && decoded(Utf16Le).Some? then
      (DropBom(DropBom(decoded(Utf16Le).value)), Utf16Le)
    else if !HasPrefix(raw, 0xFF, 0xFE) && HasPrefix(raw, 0xFE, 0xFF) && decoded(Utf16Be).Some? then
      (DropBom(DropBom(decoded(Utf16Be).value)), Utf16Be)
    else match FirstDecoding(decoded, Candidates)
      case Some(i) => (DropBom(decoded(Candidates[i]).value), Candidates[i])
      case None => (replaced, Utf8Replaced)
  }

  /** The condition guarding the re-encoding warning as written:
      `detected_enc != "utf-8"`. */
  predicate ReEncodeWarningAsWritten(enc: Encoding) {
    enc != Utf8
  }

  /** Every codec other than the UTF-8 one that is tried first ("utf-8-sig")
      means the bytes were re-encoded. Under the condition as written, any bytes
      that decode as UTF-8 also decode as "utf-8-sig", which comes first in the
      candidate list, so "utf-8" is never chosen and the warning is issued for
      every input. */
  lemma AsWrittenAlwaysWarns(raw: seq<byte>, decoded: Encoding -> Option<string>, replaced: string)
    requires decoded(Utf8).Some? ==> decoded(Utf8Sig).Some?
    ensures ReEncodeWarningAsWritten(FixEncoding(raw, decoded, replaced).1)
  {
    assert Candidates[0] == Utf8Sig && Candidates[1] == Utf8;
  }

  /** The corrected condition: no warning when the bytes already were UTF-8,
      with or without a signature. */
  predicate ReEncodeWarning(enc: Encoding) {
    enc != Utf8 && enc != Utf8Sig
  }

  /** With the corrected condition, bytes without a UTF-16 byte-order mark that
      decode as UTF-8 draw no re-encoding warning, while a UTF-16 input does. */
  lemma CorrectedWarning(raw: seq<byte>, decoded: Encoding -> Option<string>, replaced: string)
    ensures !HasPrefix(raw, 0xFF, 0xFE) && !HasPrefix(raw, 0xFE, 0xFF) && decoded(Utf8Sig).Some?
            ==> !ReEncodeWarning(FixEncoding(raw, decoded, replaced).1)
    ensures HasPrefix(raw, 0xFF, 0xFE) && decoded(Utf16Le).Some? ==> ReEncodeWarning(FixEncoding(raw, decoded, replaced).1)
  {
    assert Candidates[0] == Utf8Sig;
  }

  // -------------------------------------------------------------- the pipeline

  /** Steps 4 to 6 of `sanitize_xml` on the decoded text: references, then raw
      characters are removed, then the declaration is rewritten; the warnings
      of the two removals are passed on in that order. */
  method CleanDecodedText(decodedText: string) returns (clean: string, warnings: seq<Warning>)
    ensures clean == FixXmlDeclaration(Filtered(StripRefs(decodedText)))
    ensures NoInvalidChars(clean)
    ensures forall w :: w in warnings ==> w.RemovedCharRefs? || w.RemovedControlChars?
    ensures warnings == [] <==> StripRefs(decodedText) == decodedText && NoInvalidChars(decodedText)
  {
    var text, refWarnings := StripInvalidCharRefs(decodedText);
    var afterRefs := text;
    var charWarnings;
    text, charWarnings := StripInvalidChars(text);
    warnings := refWarnings + charWarnings;
    FixKeepsValid(text);
    clean := FixXmlDeclaration(text);
    if refWarnings == [] && charWarnings == [] {
      assert NoInvalidChars(afterRefs);
    }
  }

  /** `sanitize_xml` below the large-file threshold: an optional failed-backup
      warning, the codec choice and its warning (under the corrected condition),
      then the cleaning steps. `backupFailed` stands for the file-system write of
      the backup copy. The result holds no character of the deleted class, no
      U+FEFF in particular. */
  method SanitizeXml(raw: seq<byte>, decoded: Encoding -> Option<string>, replaced: string, backupFailed: bool)
    returns (clean: string, warnings: seq<Warning>)
    ensures var (t, enc) := FixEncoding(raw, decoded, replaced);
      clean == FixXmlDeclaration(Filtered(StripRefs(t)))
      && (BackupFailed in warnings <==> backupFailed)
      && (ReEncoded(enc) in warnings <==> ReEncodeWarning(enc))
      && (warnings == [] <==> !backupFailed && !ReEncodeWarning(enc) && StripRefs(t) == t && NoInvalidChars(t))
    ensures NoInvalidChars(clean) && Bom !in clean
  {
    warnings := [];
    if backupFailed {
      warnings := warnings + [BackupFailed];
    }
    var fixedText := FixEncoding(raw, decoded, replaced);
    var text, enc := fixedText.0, fixedText.1;
    if ReEncodeWarning(enc) {
      warnings := warnings + [ReEncoded(enc)];
    }
    var cleanWarnings;
    clean, cleanWarnings := CleanDecodedText(text);
    warnings := warnings + cleanWarnings;
    assert forall k :: 0 <= k < |clean| ==> clean[k] != Bom;
  }
}
