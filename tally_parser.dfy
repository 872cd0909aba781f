/** The Tally parser proper: masters and vouchers read from the already-built
    element tree of a sanitised export, the voucher lines in their fixed order,
    the amount fallback, the deduplication key and the file type. */
module TallyParser {
  import opened Wrappers
  import opened Text
  import opened Dates
  import opened XmlTree
  import opened TallyFields

  /** `el.get(name) or fallback`. */
  function AttrOr(n: Node, name: string, fallback: string): string {
    Or(AttrOrEmpty(n, name), fallback)
  }

  function Abs(x: real): real {
    if x < 0.0 then -x else x
  }

  /** `float(s.replace(",", ""))`, with `default` where `float` raises. */
  function AmountOr(s: string, default: real): real {
    PyFloat(Without(s, ',')).GetOr(default)
  }

  // ------------------------------------------------------------------ masters

  datatype Company = Company(name: Option<string>, gstin: Option<string>, address: Option<string>,
                             state: Option<string>, pincode: Option<string>, email: Option<string>,
                             phone: Option<string>)

  /** `parse_company`: every field is the first non-empty of its fallbacks. */
  function ParseCompany(el: Node): Company {
    Company(Some(AttrOr(el, "NAME", Or(Txt(el, "NAME"), Txt(el, "BASICCOMPANYNAME")))),
            Some(Or(Txt(el, "GSTIN"), Txt(el, "GSTREGISTRATIONNUMBER"))),
            Some(Or(Txt(el, "ADDRESS"), Txt(el, "BASICCOMPANYFORMALNAME"))),
            Some(Or(Txt(el, "BASICCOMPANYSTATE"), Txt(el, "STATENAME"))),
            Some(Txt(el, "PINCODE")), Some(Txt(el, "EMAIL")), Some(Txt(el, "PHONE")))
  }

  datatype Ledger = Ledger(name: string, parentGroup: string, mailingName: string, gstin: string,
                           pan: string, email: string, phone: string, address: string,
                           state: string, pincode: string, openingBalance: real,
                           ledgerType: LedgerType)

  /** `parse_ledger`: the ledger type is inferred from the parent group and the
      opening balance is the number of a quantity-shaped text, 0 when there is
      none. */
  function ParseLedger(el: Node): (r: Ledger)
    ensures r.ledgerType == InferLedgerType(Txt(el, "PARENT"))
    ensures Txt(el, "OPENINGBALANCE") == [] ==> r.openingBalance == 0.0
  {
    var parent := Txt(el, "PARENT");
    var openingRaw := Txt(el, "OPENINGBALANCE");
    Ledger(AttrOr(el, "NAME", Txt(el, "NAME")), parent, Txt(el, "MAILINGNAME"),
           Or(Txt(el, "PARTYGSTIN"), Txt(el, "GSTIN")), Txt(el, "INCOMETAXNUMBER"),
           Txt(el, "EMAIL"), Txt(el, "LEDPHONE"), Txt(el, "ADDRESS"), Txt(el, "STATENAME"),
           Txt(el, "PINCODE"), ParseQty(openingRaw).0.GetOr(0.0), InferLedgerType(parent))
  }

  datatype Unit = Unit(name: string, symbol: string, formalName: string, isSimpleUnit: bool)

  /** `parse_unit`: a unit is simple unless an ISSIMPLEUNIT child says otherwise. */
  function ParseUnit(el: Node): (r: Unit)
    ensures Find(el, "ISSIMPLEUNIT").None? ==> r.isSimpleUnit
  {
    var name := AttrOr(el, "NAME", Txt(el, "NAME"));
    Unit(name, Or(Txt(el, "ORIGINALNAME"), name), Txt(el, "FORMALNAME"),
         if Find(el, "ISSIMPLEUNIT").Some? then Truthy(Txt(el, "ISSIMPLEUNIT")) else true)
  }

  datatype StockItem = StockItem(name: string, unitName: string, baseUnits: string, category: string,
                                 gstApplicable: bool, hsnCode: string, gstRate: Option<real>,
                                 standardRate: Option<real>, openingBalance: real, openingValue: real)

  /** `parse_stock_item`: the base unit is the normalised BASEUNITS (or UNITS)
      text and PCS when both are blank; the opening value is taken without its
      sign. */
  function ParseStockItem(el: Node): (r: StockItem)
    ensures r.unitName == r.baseUnits
    ensures Or(Txt(el, "BASEUNITS"), Txt(el, "UNITS")) == [] ==> r.baseUnits == "PCS"
    ensures Or(Txt(el, "BASEUNITS"), Txt(el, "UNITS")) != [] ==> r.baseUnits == NormUnit(Or(Txt(el, "BASEUNITS"), Txt(el, "UNITS")))
    ensures r.openingValue >= 0.0
    ensures Txt(el, "OPENINGBALANCE") == [] ==> r.openingBalance == 0.0
  {
    var rawUnit := Or(Txt(el, "BASEUNITS"), Txt(el, "UNITS"));
    var unit := if rawUnit != [] then NormUnit(rawUnit) else "PCS";
    var openingValueRaw := Txt(el, "OPENINGVALUE");
    StockItem(AttrOr(el, "NAME", Txt(el, "NAME")), unit, unit, Txt(el, "CATEGORY"),
              Truthy(Txt(el, "GSTAPPLICABLE")) || Upper(Txt(el, "ISGSTAPPLICABLE")) == "YES",
              Or(Txt(el, "HSNCODE"), Txt(el, "HSN")),
              PyFloat(Or(Txt(el, "TAXRATE"), Txt(el, "GSTRATE"))),
              ParseRate(Txt(el, "STANDARDRATE")),
              ParseQty(Txt(el, "OPENINGBALANCE")).0.GetOr(0.0),
              Abs(AmountOr(openingValueRaw, 0.0)))
  }

  // ------------------------------------------------------------ voucher lines

  datatype Line = Line(ledgerName: string, amount: real, isTaxLine: bool, taxHead: Option<string>,
                       taxRate: Option<real>, stockItemName: Option<string>, quantity: Option<real>,
                       unit: Option<string>, rate: Option<real>, discount: Option<real>,
                       gstinOfParty: Option<string>, order: nat)

  /** The words that mark a tax line (`_TAX_HEADS`). */
  const TaxHeads: seq<string> := ["cgst", "sgst", "igst", "cess", "tax", "gst", "tds", "tcs"]

  /** Some word of `words` occurs in `s`. */
  predicate ContainsAny(s: string, words: seq<string>) {
    words != [] && (Contains(s, words[0]) || ContainsAny(s, words[1..]))
  }

  /** `any(t in s.lower() for t in _TAX_HEADS)`. */
  predicate MentionsTaxHead(s: string) {
    ContainsAny(Lower(s), TaxHeads)
  }

  /** A ledger entry as a financial line: amounts keep their sign (0 when
      unreadable); the line is a tax line when its name or TAXTYPE mentions a
      tax head, and then the tax head defaults to the ledger name. */
  function LedgerLine(entry: Node, order: nat): (l: Line)
    ensures l.stockItemName.None? && l.order == order
    ensures l.isTaxLine <==> MentionsTaxHead(l.ledgerName) || MentionsTaxHead(Txt(entry, "TAXTYPE"))
    ensures l.taxHead.None? <==> !l.isTaxLine && Txt(entry, "TAXTYPE") == []
  {
    var name := Txt(entry, "LEDGERNAME");
    var taxType := Txt(entry, "TAXTYPE");
    var isTax := MentionsTaxHead(name) || MentionsTaxHead(taxType);
    Line(name, AmountOr(Txt(entry, "AMOUNT"), 0.0), isTax,
         if taxType != [] then Some(taxType) else if isTax then Some(name) else None,
         PyFloat(Txt(entry, "TAXRATE")), None, None, None, None, None,
         NonEmpty(Txt(entry, "GSTREGNO")), order)
  }

  predicate Named(entry: Node) {
    Txt(entry, "STOCKITEMNAME") != []
  }

  /** An inventory entry as a stock line: the amount is taken without its sign,
      the quantity and unit come from ACTUALQTY (else BILLEDQTY), an explicit
      UNIT overriding the unit of the quantity text. */
  function InventoryLine(entry: Node, order: nat): (l: Line)
    ensures l.stockItemName == Some(Txt(entry, "STOCKITEMNAME")) && l.ledgerName == Txt(entry, "STOCKITEMNAME")
    ensures l.amount >= 0.0 && !l.isTaxLine && l.order == order
  {
    var item := Txt(entry, "STOCKITEMNAME");
    var amount := match PyFloat(Without(Txt(entry, "AMOUNT"), ',')) case Some(a) => Abs(a) case None => 0.0;
    var qty := ParseQty(Or(Txt(entry, "ACTUALQTY"), Txt(entry, "BILLEDQTY")));
    var unitTag := Txt(entry, "UNIT");
    Line(item, amount, false, None, None, Some(item), qty.0,
         if unitTag != [] then Some(unitTag) else qty.1,
         ParseRate(Txt(entry, "RATE")), PyFloat(Txt(entry, "DISCOUNT")), None, order)
  }

  const LedgerContainers: seq<string> := ["ALLLEDGERENTRIES.LIST", "LEDGERENTRIES.LIST"]
  const InventoryContainers: seq<string> := ["ALLINVENTORYENTRIES.LIST", "INVENTORYENTRIES.LIST"]

  /** The children under each container tag in turn. */
  function EntriesIn(v: Node, tags: seq<string>): seq<Node> {
    if tags == [] then [] else EntriesIn(v, tags[..|tags| - 1]) + FindAll(v, tags[|tags| - 1])
  }

  /** The entries that `keep` accepts, in order. */
  function Kept(es: seq<Node>, keep: Node -> bool): (r: seq<Node>)
    ensures forall i :: 0 <= i < |r| ==> keep(r[i])
  {
    if es == [] then []
    else Kept(es[..|es| - 1], keep) + (if keep(es[|es| - 1]) then [es[|es| - 1]] else [])
  }

  /** `f` applied to each element and its position counted from `start`. */
  function Numbered(es: seq<Node>, start: nat, f: (Node, nat) -> Line): (r: seq<Line>)
    ensures |r| == |es|
  {
    seq(|es|, i requires 0 <= i < |es| => f(es[i], start + i))
  }

  lemma NumberedAt(es: seq<Node>, start: nat, f: (Node, nat) -> Line, i: nat)
    requires i < |es|
    ensures Numbered(es, start, f)[i] == f(es[i], start + i)
  {
  }

  /** Numbering a concatenation numbers the second part after the first. */
  lemma NumberedAppend(a: seq<Node>, b: seq<Node>, start: nat, f: (Node, nat) -> Line)
    ensures Numbered(a + b, start, f) == Numbered(a, start, f) + Numbered(b, start + |a|, f)
  {
    var l, r := Numbered(a + b, start, f), Numbered(a, start, f) + Numbered(b, start + |a|, f);
    forall i | 0 <= i < |l| ensures l[i] == r[i] {
      if i >= |a| { assert (a + b)[i] == b[i - |a|]; }
    }
  }

  /** Filtering distributes over concatenation. */
  lemma {:induction false} KeptAppend(a: seq<Node>, b: seq<Node>, keep: Node -> bool)
    ensures Kept(a + b, keep) == Kept(a, keep) + Kept(b, keep)
    decreases |b|
  {
    if b != [] {
      var b' := b[..|b| - 1];
      assert (a + b)[..|a + b| - 1] == a + b';
      KeptAppend(a, b', keep);
    } else {
      assert a + b == a;
    }
  }

  /** The lines `_parse_ledger_entries` produces: first one financial line per
      ledger entry, then one stock line per inventory entry that names an item,
      numbered 0, 1, 2, ... across both. */
  function VoucherLines(v: Node): (r: seq<Line>)
    ensures |r| == |EntriesIn(v, LedgerContainers)| + |Kept(EntriesIn(v, InventoryContainers), Named)|
  {
    var led := EntriesIn(v, LedgerContainers);
    Numbered(led, 0, LedgerLine) + Numbered(Kept(EntriesIn(v, InventoryContainers), Named), |led|, InventoryLine)
  }

  /** The shape of the lines: `order` runs 0, 1, 2, ... without gaps; every
      financial line comes before every stock line; stock lines name an item,
      are not tax lines and carry no negative amount; and a financial line is a
      tax line exactly when its ledger name or its TAXTYPE mentions a tax head. */
  lemma VoucherLinesShape(v: Node)
    ensures var r := VoucherLines(v);
      (forall i :: 0 <= i < |r| ==> r[i].order == i)
      && (forall i, j :: 0 <= i < j < |r| && r[i].stockItemName.Some? ==> r[j].stockItemName.Some?)
      && (forall i :: 0 <= i < |r| && r[i].stockItemName.Some? ==>
            r[i].amount >= 0.0 && !r[i].isTaxLine && r[i].stockItemName.value != [])
  {
    var led := EntriesIn(v, LedgerContainers);
    var inv := Kept(EntriesIn(v, InventoryContainers), Named);
    var r := VoucherLines(v);
    forall i | 0 <= i < |r|
      ensures r[i].order == i
      ensures r[i].stockItemName.Some? <==> i >= |led|
      ensures r[i].stockItemName.Some? ==> r[i].amount >= 0.0 && !r[i].isTaxLine && r[i].stockItemName.value != []
    {
      if i < |led| {
        NumberedAt(led, 0, LedgerLine, i);
      } else {
        NumberedAt(inv, |led|, InventoryLine, i - |led|);
      }
    }
  }

  lemma VoucherLinesTax(v: Node, i: nat)
    requires i < |VoucherLines(v)| && VoucherLines(v)[i].stockItemName.None?
    ensures var e := EntriesIn(v, LedgerContainers)[i];
      VoucherLines(v)[i] == LedgerLine(e, i)
      && (VoucherLines(v)[i].isTaxLine <==> MentionsTaxHead(Txt(e, "LEDGERNAME")) || MentionsTaxHead(Txt(e, "TAXTYPE")))
  {
    var led := EntriesIn(v, LedgerContainers);
    var inv := Kept(EntriesIn(v, InventoryContainers), Named);
    if i < |led| {
      NumberedAt(led, 0, LedgerLine, i);
    } else {
      NumberedAt(inv, |led|, InventoryLine, i - |led|);
    }
  }

  lemma EntriesInStep(v: Node, tags: seq<string>, c: nat)
    requires c < |tags|
    ensures EntriesIn(v, tags[..c + 1]) == EntriesIn(v, tags[..c]) + FindAll(v, tags[c])
  {
    assert tags[..c + 1][..c] == tags[..c];
  }

  /** The inner loop over the entries of one inventory container: entries
      that `keep` rejects are skipped and the counter only advances on the
      entries that are kept. */
  method NumberKept(entries: seq<Node>, start: nat, keep: Node -> bool, line: (Node, nat) -> Line)
    returns (lines: seq<Line>)
    ensures lines == Numbered(Kept(entries, keep), start, line)
  {
    lines := [];
    var order := start;
    var j := 0;
    while j < |entries|
      invariant 0 <= j <= |entries|
      invariant lines == Numbered(Kept(entries[..j], keep), start, line)
      invariant order == start + |lines|
    {
      KeptStep(entries, j, keep);
      if keep(entries[j]) {
        NumberedAppend(Kept(entries[..j], keep), [entries[j]], start, line);
        lines := lines + [line(entries[j], order)];
        order := order + 1;
      }
      j := j + 1;
    }
    assert entries[..j] == entries;
  }

  /** The two passes over the containers, numbering every entry (kept by
      `keep`) of the containers `tags` in turn, from `start`. */
  method NumberContainers(v: Node, tags: seq<string>, start: nat, keep: Node -> bool, line: (Node, nat) -> Line)
    returns (lines: seq<Line>)
    ensures lines == Numbered(Kept(EntriesIn(v, tags), keep), start, line)
  {
    lines := [];
    var order := start;
    var c := 0;
    while c < |tags|
      invariant 0 <= c <= |tags|
      invariant lines == Numbered(Kept(EntriesIn(v, tags[..c]), keep), start, line)
      invariant order == start + |lines|
    {
      var entries := FindAll(v, tags[c]);
      var chunk := NumberKept(entries, order, keep, line);
      KeptAppend(EntriesIn(v, tags[..c]), entries, keep);
      NumberedAppend(Kept(EntriesIn(v, tags[..c]), keep), Kept(entries, keep), start, line);
      EntriesInStep(v, tags, c);
      lines := lines + chunk;
      order := order + |chunk|;
      c := c + 1;
    }
    assert tags[..c] == tags;
  }

  /** `_parse_ledger_entries`: two passes over the container tags, appending
      one line per entry with a running `order` counter and skipping inventory
      entries without a stock item name. */
  method ParseLedgerEntries(v: Node) returns (lines: seq<Line>)
    ensures lines == VoucherLines(v)
  {
    var financial := NumberContainers(v, LedgerContainers, 0, Everything, LedgerLine);
    KeptEverything(EntriesIn(v, LedgerContainers));
    var stock := NumberContainers(v, InventoryContainers, |financial|, Named, InventoryLine);
    lines := financial + stock;
  }

  lemma KeptStep(entries: seq<Node>, j: nat, keep: Node -> bool)
    requires j < |entries|
    ensures Kept(entries[..j + 1], keep) == Kept(entries[..j], keep) + (if keep(entries[j]) then [entries[j]] else [])
  {
    assert entries[..j + 1][..j] == entries[..j];
  }

  predicate Everything(entry: Node) {
    true
  }

  lemma {:induction false} KeptEverything(es: seq<Node>)
    ensures Kept(es, Everything) == es
  {
    if es != [] {
      KeptEverything(es[..|es| - 1]);
      assert es[..|es| - 1] + [es[|es| - 1]] == es;
    }
  }

  // ------------------------------------------------------------------ voucher

  function SumPositive(ls: seq<Line>): (r: real)
    ensures r >= 0.0
  {
    if ls == [] then 0.0
    else SumPositive(ls[..|ls| - 1]) + (if ls[|ls| - 1].amount > 0.0 then ls[|ls| - 1].amount else 0.0)
  }

  function SumNegative(ls: seq<Line>): (r: real)
    ensures r <= 0.0
  {
    if ls == [] then 0.0
    else SumNegative(ls[..|ls| - 1]) + (if ls[|ls| - 1].amount < 0.0 then ls[|ls| - 1].amount else 0.0)
  }

  function SumAmounts(ls: seq<Line>): real {
    if ls == [] then 0.0 else SumAmounts(ls[..|ls| - 1]) + ls[|ls| - 1].amount
  }

  /** The voucher amount: the stated total, or, when that is 0 and there are
      lines, the larger of the debit side and the credit side. */
  function VoucherAmount(stated: real, ls: seq<Line>): real {
    if stated == 0.0 && ls != [] then
      var debit := SumPositive(ls);
      var credit := Abs(SumNegative(ls));
      if debit > credit then debit else credit
    else stated
  }

  lemma {:induction false} SidesBoundEachLine(ls: seq<Line>)
    ensures forall i :: 0 <= i < |ls| ==> -SumNegative(ls) >= -ls[i].amount && SumPositive(ls) >= ls[i].amount
  {
    if ls != [] {
      SidesBoundEachLine(ls[..|ls| - 1]);
      assert forall i :: 0 <= i < |ls| - 1 ==> ls[..|ls| - 1][i] == ls[i];
    }
  }

  lemma {:induction false} SidesAddUp(ls: seq<Line>)
    ensures SumAmounts(ls) == SumPositive(ls) + SumNegative(ls)
  {
    if ls != [] {
      SidesAddUp(ls[..|ls| - 1]);
    }
  }

  /** The fallback amount is never below the size of any single line, and is
      never negative. */
  lemma FallbackCoversEveryLine(ls: seq<Line>)
    requires ls != []
    ensures var a := VoucherAmount(0.0, ls);
      a >= 0.0 && forall i :: 0 <= i < |ls| ==> a >= Abs(ls[i].amount)
  {
    SidesBoundEachLine(ls);
  }

  /** For a balanced voucher (the line amounts sum to 0) both sides agree and
      the fallback amount is the debit side. */
  lemma BalancedFallback(ls: seq<Line>)
    requires ls != [] && SumAmounts(ls) == 0.0
    ensures VoucherAmount(0.0, ls) == SumPositive(ls) == -SumNegative(ls)
  {
    SidesAddUp(ls);
  }

  /** `type|number|company|raw date`. */
  function DedupKey(voucherType: string, number: string, company: string, dateRaw: string): string {
    voucherType + "|" + number + "|" + company + "|" + dateRaw
  }

  predicate NoBar(s: string) {
    forall i :: 0 <= i < |s| ==> s[i] != '|'
  }

  /** The position of the first `|` in `s`, or `|s|` when there is none. */
  function FirstBar(s: string): (r: nat)
    ensures r <= |s|
  {
    if s == [] then 0 else if s[0] == '|' then 0 else 1 + FirstBar(s[1..])
  }

  lemma {:induction false} FirstBarAfter(a: string, x: string)
    requires NoBar(a)
    ensures FirstBar(a + "|" + x) == |a|
  {
    if a != [] {
      assert (a + "|" + x)[1..] == a[1..] + "|" + x;
      FirstBarAfter(a[1..], x);
    }
  }

  lemma SplitAtBar(a: string, x: string, b: string, y: string)
    requires NoBar(a) && NoBar(b) && a + "|" + x == b + "|" + y
    ensures a == b && x == y
  {
    FirstBarAfter(a, x);
    FirstBarAfter(b, y);
    var s := a + "|" + x;
    assert a == s[..|a|] && b == (b + "|" + y)[..|b|];
    assert x == s[|a| + 1..] && y == (b + "|" + y)[|b| + 1..];
  }

  /** When no part contains `|`, the key determines its four parts: two
      vouchers share a key exactly when they agree on type, number, company and
      raw date. */
  lemma DedupKeyInjective(t1: string, n1: string, c1: string, d1: string,
                          t2: string, n2: string, c2: string, d2: string)
    requires NoBar(t1) && NoBar(n1) && NoBar(c1) && NoBar(t2) && NoBar(n2) && NoBar(c2)
    ensures DedupKey(t1, n1, c1, d1) == DedupKey(t2, n2, c2, d2) <==> t1 == t2 && n1 == n2 && c1 == c2 && d1 == d2
  {
    if DedupKey(t1, n1, c1, d1) == DedupKey(t2, n2, c2, d2) {
      assert t1 + "|" + (n1 + "|" + c1 + "|" + d1) == DedupKey(t1, n1, c1, d1);
      assert t2 + "|" + (n2 + "|" + c2 + "|" + d2) == DedupKey(t2, n2, c2, d2);
      SplitAtBar(t1, n1 + "|" + c1 + "|" + d1, t2, n2 + "|" + c2 + "|" + d2);
      assert n1 + "|" + (c1 + "|" + d1) == n1 + "|" + c1 + "|" + d1;
      assert n2 + "|" + (c2 + "|" + d2) == n2 + "|" + c2 + "|" + d2;
      SplitAtBar(n1, c1 + "|" + d1, n2, c2 + "|" + d2);
      SplitAtBar(c1, d1, c2, d2);
    }
  }

  datatype Voucher = Voucher(voucherNumber: string, voucherType: string, voucherDate: Option<Date>,
                             partyName: Option<string>, partyLedger: Option<string>, amount: real,
                             narration: string, irn: Option<string>, ackNo: Option<string>,
                             ackDate: Option<string>, gstin: string, placeOfSupply: string,
                             billingCity: string, referenceNumber: string, dueDate: Option<Date>,
                             isCancelled: bool, dedupKey: string, lines: seq<Line>)

  /** `parse_voucher`: the fields of a VOUCHER element with their fallbacks. The
      date is read only from non-empty text; an empty IRN reads as absent; the
      key joins the normalised type, the number, the company hint and the raw
      date text; the lines are those of `_parse_ledger_entries`. */
  /** VOUCHERTOTAL, else AMOUNT, as a float; zero when neither parses. */
  function StatedAmount(el: Node): real {
    AmountOr(Or(Txt(el, "VOUCHERTOTAL"), Txt(el, "AMOUNT")), 0.0)
  }

  function ParseVoucher(el: Node): (v: Voucher)
    ensures v.lines == VoucherLines(el)
    ensures v.amount == VoucherAmount(StatedAmount(el), v.lines)
    ensures var number := AttrOr(el, "VOUCHERNUMBER", Txt(el, "VOUCHERNUMBER"));
      v.voucherNumber == number
      && v.dedupKey == DedupKey(v.voucherType, number, Txt(el, "CMPNAME"), AttrOr(el, "DATE", Txt(el, "DATE")))
    ensures v.voucherType == NormalizeVoucherType(AttrOr(el, "VOUCHERTYPENAME", Txt(el, "VOUCHERTYPENAME")))
    ensures v.irn.Some? ==> v.irn.value != []
  {
    var number := AttrOr(el, "VOUCHERNUMBER", Txt(el, "VOUCHERNUMBER"));
    var vtype := NormalizeVoucherType(AttrOr(el, "VOUCHERTYPENAME", Txt(el, "VOUCHERTYPENAME")));
    var dateRaw := AttrOr(el, "DATE", Txt(el, "DATE"));
    var partyName := if Txt(el, "PARTYNAME") != [] then Some(Txt(el, "PARTYNAME")) else
                     Attr(el, "PARTYNAME");
    var partyLedger := if Txt(el, "PARTYLEDGERNAME") != [] then Some(Txt(el, "PARTYLEDGERNAME")) else partyName;
    var dueRaw := Or(Txt(el, "DUEDATE"), Txt(el, "BILLDATE"));
    var lines := VoucherLines(el);
    Voucher(number, vtype, if dateRaw != [] then ParseDate(dateRaw) else None,
            partyName, partyLedger,
            VoucherAmount(StatedAmount(el), lines),
            Txt(el, "NARRATION"), NonEmpty(Txt(el, "IRN")), NonEmpty(Txt(el, "IRNACKNO")),
            NonEmpty(Txt(el, "IRNACKDATE")),
            Or(Txt(el, "GSTREGISTRATIONNUMBER"), Or(Txt(el, "GSTNO"), Txt(el, "CMPGSTIN"))),
            Or(Txt(el, "PLACEOFSUPPLY"), Txt(el, "DESTINATIONSTATE")),
            Or(Txt(el, "BILLTOPLACE"), Txt(el, "SHIPCITY")),
            Or(Txt(el, "REFERENCE"), Txt(el, "REFNO")),
            if dueRaw != [] then ParseDate(dueRaw) else None,
            Upper(AttrOrEmpty(el, "ISCANCELLED")) in {"YES", "TRUE"} || Truthy(Txt(el, "ISCANCELLED")),
            DedupKey(vtype, number, Txt(el, "CMPNAME"), dateRaw), lines)
  }

  /** The voucher and due dates are calendar dates when present, and a voucher
      whose DATE is empty (as attribute and as child) has no date. */
  lemma ParseVoucherDates(el: Node)
    ensures var v := ParseVoucher(el);
      (v.voucherDate.Some? ==> Valid(v.voucherDate.value))
      && (v.dueDate.Some? ==> Valid(v.dueDate.value))
      && (AttrOr(el, "DATE", Txt(el, "DATE")) == [] ==> v.voucherDate.None?)
  {
  }

  /** The voucher amount is the stated VOUCHERTOTAL (else AMOUNT) when that is
      non-zero; otherwise, for a voucher with lines, it covers every line. */
  lemma ParseVoucherAmount(el: Node)
    ensures var v := ParseVoucher(el);
      (StatedAmount(el) != 0.0 || v.lines == [] ==> v.amount == StatedAmount(el))
      && (StatedAmount(el) == 0.0 && v.lines != [] ==>
            v.amount >= 0.0 && forall i :: 0 <= i < |v.lines| ==> v.amount >= Abs(v.lines[i].amount))
  {
    var ls := ParseVoucher(el).lines;
    if StatedAmount(el) == 0.0 && ls != [] {
      FallbackCoversEveryLine(ls);
    }
  }

  // ---------------------------------------------------------------- documents

  datatype FileType = UnknownType | MasterFile | TransactionFile | MixedFile

  /** `[parse(e) for e in els]`. */
  function ParseAll<T>(els: seq<Node>, parse: Node -> T): (r: seq<T>)
    ensures |r| == |els|
  {
    seq(|els|, i requires 0 <= i < |els| => parse(els[i]))
  }

  /** The file type `_set_file_type` leaves: mixed with masters and vouchers,
      master or transaction with one kind only, `current` with neither. */
  function Classify(hasMasters: bool, hasVouchers: bool, current: FileType): FileType {
    if hasMasters && hasVouchers then MixedFile
    else if hasMasters then MasterFile
    else if hasVouchers then TransactionFile
    else current
  }

  /** Starting from an unknown type, the type names exactly what is present. */
  lemma ClassifyFresh(hasMasters: bool, hasVouchers: bool)
    ensures var t := Classify(hasMasters, hasVouchers, UnknownType);
      (t == MixedFile <==> hasMasters && hasVouchers)
      && (t == MasterFile <==> hasMasters && !hasVouchers)
      && (t == TransactionFile <==> !hasMasters && hasVouchers)
      && (t == UnknownType <==> !hasMasters && !hasVouchers)
  {
  }

  /** The elements each message contributes under a tag, parsed, in document order. */
  function Collect<T>(msgs: seq<Node>, tag: string, parse: Node -> T): seq<T> {
    if msgs == [] then []
    else Collect(msgs[..|msgs| - 1], tag, parse) + ParseAll(FindAll(msgs[|msgs| - 1], tag), parse)
  }

  lemma AppendAssoc<T>(a: seq<T>, b: seq<T>, c: seq<T>)
    ensures (a + b) + c == a + (b + c)
  {
  }

  lemma EmptyAppend<T>(a: seq<T>)
    ensures [] + a == a
  {
  }

  lemma CollectStep<T>(msgs: seq<Node>, k: nat, tag: string, parse: Node -> T)
    requires k < |msgs|
    ensures Collect(msgs[..k + 1], tag, parse) == Collect(msgs[..k], tag, parse) + ParseAll(FindAll(msgs[k], tag), parse)
  {
    assert msgs[..k + 1][..k] == msgs[..k];
  }

  lemma LastCompanyStep(msgs: seq<Node>, k: nat, current: Option<Company>)
    requires k < |msgs|
    ensures var els := CompanyElements(msgs[k]);
      LastCompany(msgs[..k + 1], current)
      == if els != [] then Some(ParseCompany(els[|els| - 1])) else LastCompany(msgs[..k], current)
  {
    assert msgs[..k + 1][..k] == msgs[..k];
  }

  /** The COMPANY elements a message yields: its direct COMPANY children
      followed by every COMPANY below it (the direct ones twice). */
  function CompanyElements(msg: Node): seq<Node> {
    FindAll(msg, "COMPANY") + Descendants(msg, "COMPANY")
  }

  /** The company after the messages: each COMPANY element overwrites the
      previous one, so the last one seen wins. */
  function LastCompany(msgs: seq<Node>, current: Option<Company>): Option<Company> {
    if msgs == [] then current
    else
      var els := CompanyElements(msgs[|msgs| - 1]);
      if els != [] then Some(ParseCompany(els[|els| - 1])) else LastCompany(msgs[..|msgs| - 1], current)
  }

  /** What a document yields: its company and, in document order, the
      ledgers, units, stock items and vouchers of all its messages. */
  datatype Contents = Contents(company: Option<Company>, ledgers: seq<Ledger>, units: seq<Unit>,
                               stockItems: seq<StockItem>, vouchers: seq<Voucher>)

  function DocumentContents(root: Node): Contents {
    var msgs := Messages(root);
    Contents(DocumentCompany(root), Collect(msgs, "LEDGER", ParseLedger), Collect(msgs, "UNIT", ParseUnit),
             Collect(msgs, "STOCKITEM", ParseStockItem), Collect(msgs, "VOUCHER", ParseVoucher))
  }

  /** The parse result `parse_xml_file` fills in place. */
  class ParseResult {
    var company: Option<Company>
    var ledgers: seq<Ledger>
    var units: seq<Unit>
    var stockItems: seq<StockItem>
    var vouchers: seq<Voucher>
    var fileType: FileType

    predicate HasMasters()
      reads this`ledgers, this`units, this`stockItems, this`company
    {
      ledgers != [] || units != [] || stockItems != [] || company.Some?
    }

    constructor ()
      ensures company.None? && ledgers == [] && units == [] && stockItems == [] && vouchers == []
      ensures fileType == UnknownType
    {
      company := None;
      ledgers := [];
      units := [];
      stockItems := [];
      vouchers := [];
      fileType := UnknownType;
    }

    /** The parsed contents, without the file type. */
    function Snapshot(): Contents
      reads this`company, this`ledgers, this`units, this`stockItems, this`vouchers
    {
      Contents.Contents(company, ledgers, units, stockItems, vouchers)
    }

    /** The body of the loop of `_process_tally_messages` for one message: the
        last COMPANY element it yields replaces the company, and its ledgers,
        units, stock items and vouchers are appended in document order. */
    method ProcessMessage(msg: Node)
      modifies this
      ensures var els := CompanyElements(msg);
        company == if els != [] then Some(ParseCompany(els[|els| - 1])) else old(company)
      ensures ledgers == old(ledgers) + ParseAll(FindAll(msg, "LEDGER"), ParseLedger)
      ensures units == old(units) + ParseAll(FindAll(msg, "UNIT"), ParseUnit)
      ensures stockItems == old(stockItems) + ParseAll(FindAll(msg, "STOCKITEM"), ParseStockItem)
      ensures vouchers == old(vouchers) + ParseAll(FindAll(msg, "VOUCHER"), ParseVoucher)
      ensures fileType == old(fileType)
    {
      var companies := CompanyElements(msg);
      if companies != [] {
        company := Some(ParseCompany(companies[|companies| - 1]));
      }
      ledgers := ledgers + ParseAll(FindAll(msg, "LEDGER"), ParseLedger);
      units := units + ParseAll(FindAll(msg, "UNIT"), ParseUnit);
      stockItems := stockItems + ParseAll(FindAll(msg, "STOCKITEM"), ParseStockItem);
      vouchers := vouchers + ParseAll(FindAll(msg, "VOUCHER"), ParseVoucher);
    }

    /** `_process_tally_messages`: every message, in order, contributes its
        companies, ledgers, units, stock items and vouchers. */
    method ProcessTallyMessages(msgs: seq<Node>)
      modifies this
      ensures company == LastCompany(msgs, old(company))
      ensures ledgers == old(ledgers) + Collect(msgs, "LEDGER", ParseLedger)
      ensures units == old(units) + Collect(msgs, "UNIT", ParseUnit)
      ensures stockItems == old(stockItems) + Collect(msgs, "STOCKITEM", ParseStockItem)
      ensures vouchers == old(vouchers) + Collect(msgs, "VOUCHER", ParseVoucher)
      ensures fileType == old(fileType)
    {
      var k := 0;
      while k < |msgs|
        invariant 0 <= k <= |msgs|
        invariant company == LastCompany(msgs[..k], old(company))
        invariant ledgers == old(ledgers) + Collect(msgs[..k], "LEDGER", ParseLedger)
        invariant units == old(units) + Collect(msgs[..k], "UNIT", ParseUnit)
        invariant stockItems == old(stockItems) + Collect(msgs[..k], "STOCKITEM", ParseStockItem)
        invariant vouchers == old(vouchers) + Collect(msgs[..k], "VOUCHER", ParseVoucher)
        invariant fileType == old(fileType)
      {
        LastCompanyStep(msgs, k, old(company));
        CollectStep(msgs, k, "LEDGER", ParseLedger);
        CollectStep(msgs, k, "UNIT", ParseUnit);
        CollectStep(msgs, k, "STOCKITEM", ParseStockItem);
        CollectStep(msgs, k, "VOUCHER", ParseVoucher);
        ProcessMessage(msgs[k]);
        AppendAssoc(old(ledgers), Collect(msgs[..k], "LEDGER", ParseLedger), ParseAll(FindAll(msgs[k], "LEDGER"), ParseLedger));
        AppendAssoc(old(units), Collect(msgs[..k], "UNIT", ParseUnit), ParseAll(FindAll(msgs[k], "UNIT"), ParseUnit));
        AppendAssoc(old(stockItems), Collect(msgs[..k], "STOCKITEM", ParseStockItem), ParseAll(FindAll(msgs[k], "STOCKITEM"), ParseStockItem));
        AppendAssoc(old(vouchers), Collect(msgs[..k], "VOUCHER", ParseVoucher), ParseAll(FindAll(msgs[k], "VOUCHER"), ParseVoucher));
        k := k + 1;
      }
      assert msgs[..k] == msgs;
    }

    /** `_set_file_type`: mixed when there are masters and vouchers, master or
        transaction when there is only one kind, unchanged when there is none. */
    method SetFileType()
      modifies this`fileType
      ensures fileType == Classify(HasMasters(), vouchers != [], old(fileType))
    {
      var hasMasters := HasMasters();
      var hasTxns := vouchers != [];
      if hasMasters && hasTxns {
        fileType := MixedFile;
      } else if hasMasters {
        fileType := MasterFile;
      } else if hasTxns {
        fileType := TransactionFile;
      }
    }
  }

  /** The stripped text of the first element among `els` whose text is not
      blank. */
  function FirstText(els: seq<Node>): (r: Option<string>)
    ensures r.Some? ==> r.value != []
  {
    if els == [] then None
    else if Strip(TextOf(els[0])) != [] then Some(Strip(TextOf(els[0])))
    else FirstText(els[1..])
  }

  /** The messages of a document: every TALLYMESSAGE below the root, or the
      root itself when there is none. */
  function Messages(root: Node): (r: seq<Node>)
    ensures r != []
  {
    var found := Descendants(root, "TALLYMESSAGE");
    if found != [] then found else [root]
  }

  /** The company of a document: the last COMPANY element of its messages, or
      else a company named by the first non-blank SVCURRENTCOMPANY, with the
      first non-blank CMPGSTIN as its GSTIN. */
  function DocumentCompany(root: Node): (r: Option<Company>)
    ensures LastCompany(Messages(root), None).Some? ==> r == LastCompany(Messages(root), None)
    ensures r.None? <==> LastCompany(Messages(root), None).None? && FirstText(Descendants(root, "SVCURRENTCOMPANY")).None?
  {
    match LastCompany(Messages(root), None)
    case Some(c) => Some(c)
    case None =>
      match FirstText(Descendants(root, "SVCURRENTCOMPANY"))
      case Some(n) => Some(Company(Some(n), FirstText(Descendants(root, "CMPGSTIN")), None, None, None, None, None))
      case None => None
  }

  /** `_parse_xml_dom` after the parse: the messages are processed into a
      fresh result and a document without a COMPANY element takes its company
      from SVCURRENTCOMPANY. */
  method ReadDocument(root: Node) returns (res: ParseResult)
    ensures fresh(res)
    ensures res.Snapshot() == DocumentContents(root) && res.fileType == UnknownType
  {
    var svcCompanyName := FirstText(Descendants(root, "SVCURRENTCOMPANY"));
    var svcGstin := FirstText(Descendants(root, "CMPGSTIN"));
    var msgs := Descendants(root, "TALLYMESSAGE");
    if msgs == [] {
      msgs := [root];
    }
    res := new ParseResult();
    res.ProcessTallyMessages(msgs);
    assert res.ledgers == Collect(msgs, "LEDGER", ParseLedger) by { EmptyAppend(Collect(msgs, "LEDGER", ParseLedger)); }
    assert res.units == Collect(msgs, "UNIT", ParseUnit) by { EmptyAppend(Collect(msgs, "UNIT", ParseUnit)); }
    assert res.stockItems == Collect(msgs, "STOCKITEM", ParseStockItem) by { EmptyAppend(Collect(msgs, "STOCKITEM", ParseStockItem)); }
    assert res.vouchers == Collect(msgs, "VOUCHER", ParseVoucher) by { EmptyAppend(Collect(msgs, "VOUCHER", ParseVoucher)); }
    if res.company.None? && svcCompanyName.Some? {
      res.company := Some(Company(svcCompanyName, svcGstin, None, None, None, None, None));
    }
  }

  /** `parse_xml_file` on the in-memory path. The document is given already
      parsed; `Err` stands for the parse error, which is raised as a
      `ValueError`. */
  method ParseXmlFile(doc: Result<Node, string>) returns (r: Result<ParseResult, string>)
    ensures doc.Err? <==> r.Err?
    ensures r.Ok? ==> fresh(r.value)
    ensures r.Ok? ==> r.value.Snapshot() == DocumentContents(doc.value)
    ensures r.Ok? ==> r.value.fileType == Classify(r.value.HasMasters(), r.value.vouchers != [], UnknownType)
  {
    if doc.Err? {
      return Err("XML parse error: " + doc.error);
    }
    var res := ReadDocument(doc.value);
    res.SetFileType();
    r := Ok(res);
  }
}
