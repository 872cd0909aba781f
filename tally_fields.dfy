/** The field readers of the Tally parser: dates, yes/no flags, quantities such
    as `10 PC`, rates such as `1066.96/PC`, and the tables that normalise voucher
    types, ledger groups and units. */
module TallyFields {
  import opened Wrappers
  import opened Text
  import opened Dates

  // --------------------------------------------------------------------- dates

  /** The formats tried in order. */
  const DateFormats: seq<seq<Directive>> := [CompactFormat, IsoFormat, DashFormat, SlashFormat]

  function FirstFormat(s: string, fmts: seq<seq<Directive>>): (r: Option<Date>)
    ensures r.Some? ==> Valid(r.value)
    ensures r.Some? ==> exists k :: 0 <= k < |fmts| && Strptime(s, fmts[k]) == r
  {
    if fmts == [] then None
    else match Strptime(s, fmts[0])
      case Some(d) => Some(d)
      case None =>
        var r := FirstFormat(s, fmts[1..]);
        assert r.Some? ==> exists k :: 0 <= k < |fmts| && Strptime(s, fmts[k]) == r by {
          if r.Some? {
            var k :| 0 <= k < |fmts[1..]| && Strptime(s, fmts[1..][k]) == r;
            assert fmts[k + 1] == fmts[1..][k];
          }
        }
        r
  }

  /** `_date`: the stripped text read by the first format that accepts it, or
      None when none does. */
  function ParseDate(raw: string): (r: Option<Date>)
    ensures r.Some? ==> Valid(r.value)
  {
    FirstFormat(Strip(raw), DateFormats)
  }

  /** Surrounding whitespace never changes the date read. */
  lemma ParseDateIgnoresPadding(raw: string)
    ensures ParseDate(raw) == ParseDate(Strip(raw))
  {
    StripIdempotent(raw);
  }

  lemma DigitsUnstripped(s: string)
    requires s != [] && IsDigit(s[0]) && IsDigit(s[|s| - 1])
    ensures Strip(s) == s
  {
    DigitNotSpace(s[0]);
    DigitNotSpace(s[|s| - 1]);
    StripFixed(s);
  }

  lemma FirstFormatHead(s: string, fmts: seq<seq<Directive>>)
    requires fmts != [] && Strptime(s, fmts[0]).Some?
    ensures FirstFormat(s, fmts) == Strptime(s, fmts[0])
  {
  }

  lemma FirstFormatTail(s: string, fmts: seq<seq<Directive>>)
    requires fmts != [] && Strptime(s, fmts[0]).None?
    ensures FirstFormat(s, fmts) == FirstFormat(s, fmts[1..])
  {
  }

  /** `YYYYMMDD` reads back as the date it spells. */
  lemma ParseDateCompact(d: Date)
    requires Valid(d)
    ensures ParseDate(Compact(d)) == Some(d)
  {
    var s := Compact(d);
    assert Strip(s) == s by {
      RenderingEdges(d);
      DigitsUnstripped(s);
    }
    assert Strptime(s, CompactFormat) == Some(d) by {
      CompactRoundTrip(d);
    }
    FirstFormatHead(s, DateFormats);
  }

  /** `YYYY-MM-DD` reads back as the date it spells; the compact format, tried
      first, rejects it. */
  lemma ParseDateIso(d: Date)
    requires Valid(d)
    ensures ParseDate(Iso(d)) == Some(d)
  {
    var s := Iso(d);
    assert Strip(s) == s by {
      RenderingEdges(d);
      DigitsUnstripped(s);
    }
    assert Strptime(s, CompactFormat) == None by {
      IsoNotCompact(d);
    }
    assert Strptime(s, IsoFormat) == Some(d) by {
      IsoRoundTrip(d);
    }
    FirstFormatTail(s, DateFormats);
    FirstFormatHead(s, DateFormats[1..]);
  }

  /** `DD-MM-YYYY` reads back as the date it spells; both year-first formats
      reject it. */
  lemma ParseDateDayFirst(d: Date)
    requires Valid(d)
    ensures ParseDate(DayFirst(d)) == Some(d)
  {
    var s := DayFirst(d);
    assert Strip(s) == s by {
      RenderingEdges(d);
      DigitsUnstripped(s);
    }
    assert Strptime(s, CompactFormat) == None && Strptime(s, IsoFormat) == None by {
      DayFirstNotYearFirst(d);
    }
    assert Strptime(s, DashFormat) == Some(d) by {
      DayFirstRoundTrip(d);
    }
    FirstFormatTail(s, DateFormats);
    FirstFormatTail(s, DateFormats[1..]);
    assert DateFormats[1..][1..] == [DashFormat, SlashFormat];
    FirstFormatHead(s, DateFormats[1..][1..]);
  }

  // --------------------------------------------------------------------- flags

  /** `_bool`: the text reads as true when it is YES, TRUE or 1 in any case. */
  predicate Truthy(v: string) {
    var u := Upper(v);
    u == "YES" || u == "TRUE" || u == "1"
  }

  /** `_bool` ignores letter case, and the only texts it accepts are `1` and
      three- or four-letter words (yes and true in any case). */
  lemma TruthyMeans(v: string)
    ensures Truthy(Upper(v)) == Truthy(v) && Truthy(Lower(v)) == Truthy(v)
    ensures Truthy(v) ==> v == "1" || ((|v| == 3 || |v| == 4) && forall i :: 0 <= i < |v| ==> IsAsciiLetter(v[i]))
    ensures Truthy("Yes") && Truthy("true") && !Truthy("No") && !Truthy("")
  {
    UpperIdempotent(v);
    assert Upper(Lower(v)) == Upper(v) by {
      forall i | 0 <= i < |v|
        ensures Upper(Lower(v))[i] == Upper(v)[i]
      {
      }
    }
    var u := Upper(v);
    if Truthy(v) {
      forall i | 0 <= i < |v|
        ensures u[i] == UpperChar(v[i])
      {
      }
      if u == "1" {
        assert v[0] == '1';
        assert v == "1";
      } else {
        forall i | 0 <= i < |v|
          ensures IsAsciiLetter(v[i])
        {
          assert 'A' <= u[i] <= 'Z';
        }
      }
    }
    assert Upper("Yes") == "YES";
    assert Upper("true") == "TRUE";
    assert Upper("No") == "NO";
  }

  // ---------------------------------------------------------------- quantities

  /** Length of the run of `\s` characters from position i. */
  function SpaceRun(s: string, i: nat): (k: nat)
    requires i <= |s|
    ensures i + k <= |s| && AllSpace(s[i..i + k])
    ensures i + k < |s| ==> !IsSpace(s[i + k])
    decreases |s| - i
  {
    if i < |s| && IsSpace(s[i]) then
      var k := 1 + SpaceRun(s, i + 1);
      assert s[i..i + k] == [s[i]] + s[i + 1..i + k];
      k
    else 0
  }

  predicate IsNumberChar(c: char) {
    IsDigit(c) || c == '.' || c == ','
  }

  /** Length of the run of `[\d.,]` characters from position i. */
  function NumberRun(s: string, i: nat): (k: nat)
    requires i <= |s|
    ensures i + k <= |s|
    ensures forall j :: i <= j < i + k ==> IsNumberChar(s[j])
    ensures i + k < |s| ==> !IsNumberChar(s[i + k])
    decreases |s| - i
  {
    if i < |s| && IsNumberChar(s[i]) then 1 + NumberRun(s, i + 1) else 0
  }

  /** Position of the first newline at or after i, or |s|. */
  function LineEnd(s: string, i: nat): (p: nat)
    requires i <= |s|
    ensures i <= p <= |s|
    ensures forall j :: i <= j < p ==> s[j] != '\n'
    ensures p < |s| ==> s[p] == '\n'
    decreases |s| - i
  {
    if i == |s| || s[i] == '\n' then i else LineEnd(s, i + 1)
  }

  /** The two groups of `^([+-]?\s*[\d.,]+)\s*([A-Za-z].*)?\s*$`. */
  datatype QtyMatch = QtyMatch(number: string, unit: Option<string>)

  /** The match of the quantity pattern. Every part is greedy and no shorter
      choice could let a later part succeed, so the first attempt decides: a
      sign, blanks, the digit run, blanks, then either the end or a letter
      starting a unit that runs to the end of the line, after which only
      whitespace may remain. */
  function MatchQty(s: string): (r: Option<QtyMatch>)
    ensures r.Some? ==> |r.value.number| > 0
    ensures r.Some? && r.value.unit.Some? ==>
      (r.value.unit.value != [] && IsAsciiLetter(r.value.unit.value[0]))
  {
    var i0 := if |s| > 0 && (s[0] == '+' || s[0] == '-') then 1 else 0;
    var i1 := i0 + SpaceRun(s, i0);
    var k := NumberRun(s, i1);
    var i2 := i1 + k;
    var i3 := i2 + SpaceRun(s, i2);
    if k == 0 then None
    else if i3 == |s| then Some(QtyMatch(s[..i2], None))
    else if !IsAsciiLetter(s[i3]) then None
    else
      var p := LineEnd(s, i3);
      if AllSpace(s[p..]) then Some(QtyMatch(s[..i2], Some(s[i3..p]))) else None
  }

  /** `_parse_qty`: the number and the unit of a quantity, or neither when the
      text is blank or not a quantity. */
  function ParseQty(raw: string): (r: (Option<real>, Option<string>))
    ensures Strip(raw) == [] ==> r == (None, None)
    ensures r.0.None? ==> r.1.None?
    ensures r.1.Some? ==> r.1.value != [] && !IsSpace(r.1.value[0]) && !IsSpace(r.1.value[|r.1.value| - 1])
  {
    var s := Strip(raw);
    if s == [] then (None, None)
    else match MatchQty(s)
      case None => (None, None)
      case Some(m) =>
        var num := Without(Without(m.number, ','), ' ');
        var u := Strip(m.unit.GetOr(""));
        match PyFloat(num)
        case Some(v) => (Some(v), if u == [] then None else Some(u))
        case None => (None, None)
  }

  lemma WithoutAbsent(s: string, c: char)
    requires forall i :: 0 <= i < |s| ==> s[i] != c
    ensures Without(s, c) == s
    decreases |s|
  {
    if s != [] {
      WithoutAbsent(s[1..], c);
      assert s == [s[0]] + s[1..];
    }
  }

  lemma {:induction false} NumberRunDigits(s: string, i: nat, n: nat)
    requires i + n <= |s| && AllDigits(s[i..i + n])
    requires i + n < |s| ==> !IsNumberChar(s[i + n])
    ensures NumberRun(s, i) == n
    decreases n
  {
    if n > 0 {
      assert s[i] == s[i..i + n][0];
      assert s[i + 1..i + n] == s[i..i + n][1..];
      NumberRunDigits(s, i + 1, n - 1);
    }
  }

  /** A unit: starts with a letter, stays on one line and carries no surrounding
      whitespace (`PC`, `KGS`, `Box of 10`). */
  predicate UnitText(u: string) {
    u != [] && IsAsciiLetter(u[0]) && !IsSpace(u[|u| - 1])
    && forall i :: 0 <= i < |u| ==> u[i] != '\n'
  }

  /** Text that starts and ends with a non-blank is its own `strip()`. */
  lemma Unpadded(s: string, first: char, last: char)
    requires s != [] && s[0] == first && s[|s| - 1] == last
    requires !IsSpace(first) && !IsSpace(last)
    ensures Strip(s) == s
  {
    StripFixed(s);
  }

  /** Digits, one blank and a unit match with the digits as the number and
      the unit as the second group. */
  lemma MatchQtyNumberUnit(s: string, w: nat)
    requires 0 < w && w + 1 < |s| && AllDigits(s[..w]) && s[w] == ' ' && UnitText(s[w + 1..])
    ensures MatchQty(s) == Some(QtyMatch(s[..w], Some(s[w + 1..])))
  {
    assert s[0] == s[..w][0];
    assert s[0..w] == s[..w];
    NumberRunDigits(s, 0, w);
    DigitNotSpace(s[0]);
    assert SpaceRun(s, 0) == 0;
    assert s[w + 1] == s[w + 1..][0];
    LetterNotSpace(s[w + 1]);
    assert SpaceRun(s, w + 1) == 0;
    assert SpaceRun(s, w) == 1;
    forall j | w + 1 <= j < |s|
      ensures s[j] != '\n'
    {
      assert s[j] == s[w + 1..][j - w - 1];
    }
    assert LineEnd(s, w + 1) == |s|;
    assert s[w + 1..|s|] == s[w + 1..];
  }

  /** Only digits: the whole text is the number and there is no unit. */
  lemma MatchQtyNumber(s: string)
    requires s != [] && AllDigits(s)
    ensures MatchQty(s) == Some(QtyMatch(s, None))
  {
    assert s[0..|s|] == s && s[..|s|] == s;
    NumberRunDigits(s, 0, |s|);
    DigitNotSpace(s[0]);
    assert SpaceRun(s, 0) == 0;
  }

  /** How `_parse_qty` assembles its result from a match on unpadded text. */
  lemma ParseQtyOfMatch(raw: string, number: string, unit: Option<string>, v: real)
    requires raw != [] && Strip(raw) == raw
    requires MatchQty(raw) == Some(QtyMatch(number, unit))
    requires PyFloat(Without(Without(number, ','), ' ')) == Some(v)
    requires unit.Some? ==> unit.value != [] && Strip(unit.value) == unit.value
    ensures ParseQty(raw) == (Some(v), unit)
  {
  }

  lemma NumeralFloat(n: nat)
    ensures PyFloat(Without(Without(Numeral(n), ','), ' ')) == Some(n as real)
  {
    WithoutAbsent(Numeral(n), ',');
    WithoutAbsent(Numeral(n), ' ');
    DigitsUnstripped(Numeral(n));
    NumeralParses(n);
  }

  lemma ParseQtyNumberUnit(s: string, w: nat, v: real)
    requires 0 < w && w + 1 < |s| && AllDigits(s[..w]) && s[w] == ' ' && UnitText(s[w + 1..])
    requires PyFloat(Without(Without(s[..w], ','), ' ')) == Some(v)
    ensures ParseQty(s) == (Some(v), Some(s[w + 1..]))
  {
    NumberUnitStripped(s, w);
    MatchQtyNumberUnit(s, w);
    ParseQtyOfMatch(s, s[..w], Some(s[w + 1..]), v);
  }

  /** Digits, one blank and a unit: the text and the unit are their own
      `strip()`. */
  lemma NumberUnitStripped(s: string, w: nat)
    requires 0 < w && w + 1 < |s| && AllDigits(s[..w]) && UnitText(s[w + 1..])
    ensures s != [] && Strip(s) == s
    ensures s[w + 1..] != [] && Strip(s[w + 1..]) == s[w + 1..]
  {
    var d, u := s[..w], s[w + 1..];
    assert d[0] == s[0];
    assert u[|u| - 1] == s[|s| - 1];
    DigitNotSpace(d[0]);
    Unpadded(s, s[0], s[|s| - 1]);
    LetterNotSpace(u[0]);
    Unpadded(u, u[0], u[|u| - 1]);
  }

  /** A whole number followed by a blank and a unit reads back as that number
      and unit (`10 PC` gives 10 and `PC`). */
  lemma ParseQtyRoundTrip(n: nat, u: string)
    requires UnitText(u)
    ensures ParseQty(Numeral(n) + " " + u) == (Some(n as real), Some(u))
  {
    NumeralFloat(n);
    ParseQtyDigitsUnit(Numeral(n), u, n as real);
  }

  /** Digits, a blank and a unit read back as the digits' value and the unit. */
  lemma ParseQtyDigitsUnit(d: string, u: string, v: real)
    requires d != [] && AllDigits(d) && UnitText(u)
    requires PyFloat(Without(Without(d, ','), ' ')) == Some(v)
    ensures ParseQty(d + " " + u) == (Some(v), Some(u))
  {
    var s := d + " " + u;
    var w := |d|;
    assert s[..w] == d && s[w + 1..] == u && s[w] == ' ';
    ParseQtyNumberUnit(s, w, v);
  }

  /** A bare whole number reads back with no unit. */
  lemma ParseQtyBareNumber(n: nat)
    ensures ParseQty(Numeral(n)) == (Some(n as real), None)
  {
    DigitsUnstripped(Numeral(n));
    MatchQtyNumber(Numeral(n));
    NumeralFloat(n);
    ParseQtyOfMatch(Numeral(n), Numeral(n), None, n as real);
  }

  // --------------------------------------------------------------------- rates

  /** `_parse_rate`: the number before the first `/`, thousands separators
      dropped; None for blank or unreadable text. */
  function ParseRate(raw: string): (r: Option<real>)
    ensures Strip(raw) == [] ==> r.None?
  {
    var s := Strip(raw);
    if s == [] then None
    else
      var head := if '/' in s then Strip(BeforeFirst(s, '/')) else s;
      PyFloat(Without(head, ','))
  }

  /** Stripping text that starts with a non-blank keeps every character up to
      any later non-blank. */
  lemma StripKeepsHead(s: string, w: nat)
    requires w < |s| && !IsSpace(s[0]) && !IsSpace(s[w])
    ensures w < |Strip(s)| && Strip(s)[..w + 1] == s[..w + 1]
  {
    assert LStrip(s) == s;
  }

  /** When the stripped text has its first `/` at w, the rate is read from the
      text before it. */
  lemma ParseRateAtSlash(raw: string, w: nat)
    requires w < |Strip(raw)| && Strip(raw)[w] == '/'
    requires forall i :: 0 <= i < w ==> Strip(raw)[i] != '/'
    ensures ParseRate(raw) == PyFloat(Without(Strip(Strip(raw)[..w]), ','))
  {
    var s := Strip(raw);
    assert s[w] == '/';
    BeforeFirstAt(s, '/', w);
  }

  lemma RateTextHead(n: nat, u: string)
    ensures var t := Strip(Numeral(n) + "/" + u);
      |Numeral(n)| < |t| && t[..|Numeral(n)| + 1] == Numeral(n) + "/"
  {
    var s := Numeral(n) + "/" + u;
    var w := |Numeral(n)|;
    assert s[..w + 1] == Numeral(n) + "/";
    assert s[0] == Numeral(n)[0] && s[w] == '/';
    DigitNotSpace(s[0]);
    StripKeepsHead(s, w);
  }

  lemma DigitsThenSlash(t: string, num: string)
    requires AllDigits(num) && |num| < |t| && t[..|num| + 1] == num + "/"
    ensures t[|num|] == '/' && t[..|num|] == num
    ensures forall i :: 0 <= i < |num| ==> t[i] != '/'
  {
    var w := |num|;
    assert t[w] == t[..w + 1][w];
    assert t[..w] == t[..w + 1][..w];
    assert forall i :: 0 <= i < w ==> t[i] == t[..w + 1][i];
  }

  lemma NumeralRate(n: nat)
    ensures PyFloat(Without(Strip(Numeral(n)), ',')) == Some(n as real)
  {
    DigitsUnstripped(Numeral(n));
    WithoutAbsent(Numeral(n), ',');
    NumeralParses(n);
  }

  /** A rate written as a whole number and a per-unit suffix (`910/PC`) reads as
      the number, whatever the suffix. */
  lemma ParseRateRoundTrip(n: nat, u: string)
    ensures ParseRate(Numeral(n) + "/" + u) == Some(n as real)
  {
    var s := Numeral(n) + "/" + u;
    RateTextHead(n, u);
    DigitsThenSlash(Strip(s), Numeral(n));
    ParseRateAtSlash(s, |Numeral(n)|);
    NumeralRate(n);
  }

  lemma BeforeFirstAt(s: string, c: char, w: nat)
    requires w < |s| && s[w] == c && forall i :: 0 <= i < w ==> s[i] != c
    ensures BeforeFirst(s, c) == s[..w]
  {
    var r := BeforeFirst(s, c);
    assert r == s[..|r|];
    assert forall i :: 0 <= i < |r| ==> s[i] == r[i];
  }

  /** A bare whole number is its own rate. */
  lemma ParseRateBareNumber(n: nat)
    ensures ParseRate(Numeral(n)) == Some(n as real)
  {
    var s := Numeral(n);
    DigitsUnstripped(s);
    assert '/' !in s by {
      assert forall i :: 0 <= i < |s| ==> IsDigit(s[i]);
    }
    WithoutAbsent(s, ',');
    NumeralParses(n);
  }

  // ------------------------------------------------------------- voucher types

  /** Upper-cased Tally voucher type names and their canonical spelling. */
  const VoucherTypeMap: map<string, string> := map[
    "SALES" := "Sales", "PURCHASE" := "Purchase", "RECEIPT" := "Receipt",
    "PAYMENT" := "Payment", "JOURNAL" := "Journal", "CONTRA" := "Contra",
    "DEBIT NOTE" := "Debit Note", "CREDIT NOTE" := "Credit Note",
    "DEBITNOTE" := "Debit Note", "CREDITNOTE" := "Credit Note",
    "SALES ORDER" := "Sales Order", "PURCHASE ORDER" := "Purchase Order",
    "DELIVERY NOTE" := "Delivery Note", "RECEIPT NOTE" := "Receipt Note",
    "REJECTION IN" := "Rejection In", "REJECTION OUT" := "Rejection Out",
    "STOCK JOURNAL" := "Stock Journal", "PAYROLL" := "Payroll",
    "MEMORANDUM" := "Memorandum"]

  /** `_normalize_voucher_type`: the canonical name of a known type in any case,
      an unknown type unchanged, and "Unknown" for an empty one. */
  function NormalizeVoucherType(raw: string): (r: string)
    ensures raw == [] ==> r == "Unknown"
    ensures raw != [] && Upper(raw) !in VoucherTypeMap ==> r == raw
    ensures raw != [] && Upper(raw) in VoucherTypeMap ==> r in VoucherTypeMap.Values
  {
    if raw == [] then "Unknown"
    else if Upper(raw) in VoucherTypeMap then VoucherTypeMap[Upper(raw)]
    else raw
  }

  lemma UpperIdempotent(s: string)
    ensures Upper(Upper(s)) == Upper(s)
  {
  }

  /** A canonical name, upper-cased, is a key of the table that maps back to it;
      the names are checked a few at a time. */
  predicate FixedName(c: string) {
    Upper(c) in VoucherTypeMap && VoucherTypeMap[Upper(c)] == c
  }

  lemma FixedNamesA(c: string)
    requires c == "Sales" || c == "Purchase" || c == "Receipt" || c == "Payment"
    ensures FixedName(c)
  {
    if c == "Sales" {
      assert Upper(c) == "SALES";
    } else if c == "Purchase" {
      assert Upper(c) == "PURCHASE";
    } else if c == "Receipt" {
      assert Upper(c) == "RECEIPT";
    } else {
      assert Upper(c) == "PAYMENT";
    }
  }

  lemma FixedNamesB(c: string)
    requires c == "Journal" || c == "Contra" || c == "Debit Note" || c == "Credit Note"
    ensures FixedName(c)
  {
    if c == "Journal" {
      assert Upper(c) == "JOURNAL";
    } else if c == "Contra" {
      assert Upper(c) == "CONTRA";
    } else if c == "Debit Note" {
      assert Upper(c) == "DEBIT NOTE";
    } else {
      assert Upper(c) == "CREDIT NOTE";
    }
  }

  lemma FixedNamesC(c: string)
    requires c == "Sales Order" || c == "Purchase Order" || c == "Delivery Note" || c == "Receipt Note"
    ensures FixedName(c)
  {
    if c == "Sales Order" {
      assert Upper(c) == "SALES ORDER";
    } else if c == "Purchase Order" {
      assert Upper(c) == "PURCHASE ORDER";
    } else if c == "Delivery Note" {
      assert Upper(c) == "DELIVERY NOTE";
    } else {
      assert Upper(c) == "RECEIPT NOTE";
    }
  }

  lemma FixedNamesD(c: string)
    requires c == "Rejection In" || c == "Rejection Out" || c == "Stock Journal"
    ensures FixedName(c)
  {
    if c == "Rejection In" {
      assert Upper(c) == "REJECTION IN";
    } else if c == "Rejection Out" {
      assert Upper(c) == "REJECTION OUT";
    } else {
      assert Upper(c) == "STOCK JOURNAL";
    }
  }

  lemma FixedNamesE(c: string)
    requires c == "Payroll" || c == "Memorandum"
    ensures FixedName(c)
  {
    if c == "Payroll" {
      assert Upper(c) == "PAYROLL";
    } else {
      assert Upper(c) == "MEMORANDUM";
    }
  }

  /** Every value of the table is a fixed name. */
  lemma CanonicalNamesAreFixed(k: string)
    requires k in VoucherTypeMap
    ensures FixedName(VoucherTypeMap[k])
  {
    var c := VoucherTypeMap[k];
    if k == "SALES" || k == "PURCHASE" || k == "RECEIPT" || k == "PAYMENT" {
      FixedNamesA(c);
    } else if k == "JOURNAL" || k == "CONTRA" || k == "DEBIT NOTE" || k == "CREDIT NOTE" || k == "DEBITNOTE" || k == "CREDITNOTE" {
      FixedNamesB(c);
    } else if k == "SALES ORDER" || k == "PURCHASE ORDER" || k == "DELIVERY NOTE" || k == "RECEIPT NOTE" {
      FixedNamesC(c);
    } else if k == "REJECTION IN" || k == "REJECTION OUT" || k == "STOCK JOURNAL" {
      FixedNamesD(c);
    } else {
      FixedNamesE(c);
    }
  }

  /** Normalising a voucher type twice gives the same name as once. */
  lemma NormalizeVoucherTypeIdempotent(raw: string)
    ensures NormalizeVoucherType(NormalizeVoucherType(raw)) == NormalizeVoucherType(raw)
  {
    if raw == [] {
      assert Upper("Unknown") == "UNKNOWN";
    } else if Upper(raw) in VoucherTypeMap {
      CanonicalNamesAreFixed(Upper(raw));
    }
  }

  /** Two spellings that differ only in letter case name the same known type. */
  lemma NormalizeVoucherTypeIgnoresCase(a: string, b: string)
    requires Upper(a) == Upper(b) && Upper(a) in VoucherTypeMap
    ensures NormalizeVoucherType(a) == NormalizeVoucherType(b)
  {
    assert |a| == |Upper(a)| > 0 && |b| == |Upper(b)| > 0 by {
      assert "" !in VoucherTypeMap;
    }
  }

  // -------------------------------------------------------------- ledger types

  datatype LedgerType = Debtor | Creditor | Bank | Cash | Tax | Sales | Purchase | Capital
                      | Expense | Income | Other

  /** `_infer_ledger_type`: the first keyword rule that the lower-cased parent
      group contains decides. */
  function InferLedgerType(parentGroup: string): (r: LedgerType)
    ensures r == Other <==>
      forall w :: w in LedgerKeywords ==> !Contains(Lower(parentGroup), w)
  {
    var pg := Lower(parentGroup);
    if Contains(pg, "debtor") then Debtor
    else if Contains(pg, "creditor") then Creditor
    else if Contains(pg, "bank") then Bank
    else if Contains(pg, "cash") then Cash
    else if Contains(pg, "tax") || Contains(pg, "duties") || Contains(pg, "gst") then Tax
    else if Contains(pg, "sales") then Sales
    else if Contains(pg, "purchase") then Purchase
    else if Contains(pg, "capital") || Contains(pg, "equity") then Capital
    else if Contains(pg, "expense") then Expense
    else if Contains(pg, "income") then Income
    else Other
  }

  const LedgerKeywords: set<string> := {"debtor", "creditor", "bank", "cash", "tax", "duties",
    "gst", "sales", "purchase", "capital", "equity", "expense", "income"}

  lemma LowerUpper(s: string)
    ensures Lower(Upper(s)) == Lower(s)
  {
  }

  /** The rules ignore letter case: a group and its upper-cased spelling get the
      same type. */
  lemma InferLedgerTypeIgnoresCase(parentGroup: string)
    ensures InferLedgerType(Upper(parentGroup)) == InferLedgerType(parentGroup)
  {
    LowerUpper(parentGroup);
  }

  /** A debtor group stays a debtor group whatever surrounds it. */
  lemma DebtorGroupsAreDebtors(pre: string, post: string)
    ensures InferLedgerType(pre + "debtor" + post) == Debtor
  {
    var s := pre + "debtor" + post;
    assert Lower(s) == Lower(pre) + "debtor" + Lower(post);
    assert Contains("debtor", "debtor") by {
      assert "debtor"[..6] == "debtor";
    }
    ContainsAppend("debtor", Lower(post), "debtor");
    ContainsPrepend(Lower(pre), "debtor" + Lower(post), "debtor");
    assert Lower(pre) + ("debtor" + Lower(post)) == Lower(s);
  }

  // --------------------------------------------------------------------- units

  /** Upper-cased unit abbreviations and their canonical form. */
  const UnitMap: map<string, string> := map[
    "PC" := "PCS", "NOS" := "PCS", "NO" := "PCS", "UNIT" := "PCS", "U" := "PCS",
    "KGS" := "KG", "MTR" := "MTR", "MTRS" := "MTR", "M" := "MTR"]

  /** `_norm_unit`: the stripped, upper-cased unit, mapped to its canonical form
      where the table knows it. */
  function NormUnit(raw: string): (r: string)
    ensures var u := Upper(Strip(raw)); u in UnitMap ==> r == UnitMap[u]
    ensures var u := Upper(Strip(raw)); u !in UnitMap ==> r == u
  {
    var u := Upper(Strip(raw));
    if u in UnitMap then UnitMap[u] else u
  }

  lemma UpperKeepsStripped(s: string)
    requires s == [] || (!IsSpace(s[0]) && !IsSpace(s[|s| - 1]))
    ensures Strip(Upper(s)) == Upper(s)
  {
    var u := Upper(s);
    if s != [] {
      assert u[0] == UpperChar(s[0]) && u[|u| - 1] == UpperChar(s[|s| - 1]);
    }
    StripFixed(u);
  }

  /** A unit that is already stripped and upper case and is not a table key
      normalises to itself. */
  lemma UnlistedUnitFixed(c: string)
    requires c == [] || (!IsSpace(c[0]) && !IsSpace(c[|c| - 1]))
    requires Upper(c) == c && c !in UnitMap
    ensures NormUnit(c) == c
  {
    StripFixed(c);
  }

  /** The canonical units are their own normal form. */
  lemma CanonicalUnitFixed(c: string)
    requires c == "PCS" || c == "KG" || c == "MTR"
    ensures NormUnit(c) == c
  {
    if c == "PCS" {
      assert Upper(c) == c;
      UnlistedUnitFixed(c);
    } else if c == "KG" {
      assert Upper(c) == c;
      UnlistedUnitFixed(c);
    } else {
      StripFixed(c);
      assert Upper(c) == c;
    }
  }

  /** Normalising a unit twice gives the same unit as once. */
  lemma NormUnitIdempotent(raw: string)
    ensures NormUnit(NormUnit(raw)) == NormUnit(raw)
  {
    var u := Upper(Strip(raw));
    if u in UnitMap {
      MappedUnitFixed(u);
    } else {
      UnmappedUnitFixed(Strip(raw));
    }
  }

  /** A unit the table maps is sent to a canonical unit, which it keeps. */
  lemma MappedUnitFixed(u: string)
    requires u in UnitMap
    ensures NormUnit(UnitMap[u]) == UnitMap[u]
  {
    CanonicalUnitFixed(UnitMap[u]);
  }

  /** A stripped unit the table does not know normalises to its upper case,
      which it keeps. */
  lemma UnmappedUnitFixed(s: string)
    requires s == [] || (!IsSpace(s[0]) && !IsSpace(s[|s| - 1]))
    requires Upper(s) !in UnitMap
    ensures NormUnit(Upper(s)) == Upper(s)
  {
    UpperKeepsStripped(s);
    UpperIdempotent(s);
  }
}
