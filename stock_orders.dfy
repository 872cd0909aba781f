/** The order-mode endpoints: per item, the current closing stock, the average
    monthly outward, a non-negative reorder suggestion rounded up to whole
    packages, with master overrides taking precedence over the imported
    package factor, group and unit; the monthly stock history of one item;
    and the GST compliance flags on recent vouchers. */
module StockOrders {
  import opened Wrappers
  import opened Text
  import opened Dates
  import opened TallyParser
  import opened OrderedDict
  import opened StockLedger
  import Importer
  import MkcpImporter
  import MasterOverrides

  /** The group reported for an item without one. */
  const DefaultGroup := "Togo Cycles"

  /** The base unit reported for an item without one. */
  const DefaultUnit := "PCS"

  // ---------------------------------------------------------------------
  // Totals over all history (`_compute_closing_maps`)

  /** `inward_map.get(name, 0.0)`: all purchased quantity of the item. */
  function Inward(ps: seq<Posting>, name: string): real {
    if name == "" then 0.0 else Qty(ps, name, Purchase, Always)
  }

  /** `outward_map.get(name, 0.0)`: all sold quantity of the item. */
  function Outward(ps: seq<Posting>, name: string): real {
    if name == "" then 0.0 else Qty(ps, name, Sales, Always)
  }

  /** `unit_map.get(name)`: the largest unit on the item's purchase lines,
      kept only when non-empty. */
  function PurchaseUnit(ps: seq<Posting>, name: string): Option<string> {
    var m := MaxUnit(ps, name, Purchase, Always);
    if name != "" && m.Some? && m.value != "" then m else None
  }

  /** The purchase unit is the greatest unit on a purchase line of the item;
      it is absent exactly when no such line carries a non-empty unit. */
  lemma PurchaseUnitSpec(ps: seq<Posting>, name: string)
    ensures var u := PurchaseUnit(ps, name);
      && (u.Some? ==> u.value != "" && exists i :: 0 <= i < |ps| && Counts(ps[i], name, Purchase, Always) && ps[i].unit == u)
      && (u.Some? ==> forall i :: 0 <= i < |ps| && Counts(ps[i], name, Purchase, Always) && ps[i].unit.Some?
                                  ==> LexLe(ps[i].unit.value, u.value))
      && (u.None? <==> name == "" || forall i :: 0 <= i < |ps| && Counts(ps[i], name, Purchase, Always)
                                                 ==> ps[i].unit.None? || ps[i].unit.value == "")
  {
    var u := PurchaseUnit(ps, name);
    if u.Some? {
      var w := MaxUnitWitness(ps, name, Purchase, Always);
      forall i | 0 <= i < |ps| && Counts(ps[i], name, Purchase, Always) && ps[i].unit.Some?
        ensures LexLe(ps[i].unit.value, u.value)
      {
        MaxUnitUpper(ps, name, Purchase, Always, i);
      }
    } else if name != "" {
      forall i | 0 <= i < |ps| && Counts(ps[i], name, Purchase, Always)
        ensures ps[i].unit.None? || ps[i].unit.value == ""
      {
        if ps[i].unit.Some? {
          MaxUnitUpper(ps, name, Purchase, Always, i);
          var m := MaxUnit(ps, name, Purchase, Always).value;
          assert m == "";
          assert LexLe(ps[i].unit.value, m);
        }
      }
    }
  }

  /** `_compute_avg_outward_map`: the quantity sold since `lookback` months
      before today, spread over `max(lookback, 1)` months. */
  function AvgOutward(ps: seq<Posting>, name: string, today: Date, lookback: int): (r: real)
    ensures lookback >= 1 && name != "" ==> r * (lookback as real) == Qty(ps, name, Sales, Since(MonthsBefore(today, lookback)))
    ensures lookback < 1 && name != "" ==> r == Qty(ps, name, Sales, Since(MonthsBefore(today, lookback)))
    ensures name == "" ==> r == 0.0
  {
    if name == "" then 0.0
    else Qty(ps, name, Sales, Since(MonthsBefore(today, lookback))) / (if lookback > 1 then lookback else 1) as real
  }

  /** `math.ceil`: the least integer not below x. */
  function Ceil(x: real): (r: int)
    ensures x <= r as real < x + 1.0
  {
    -((-x).Floor)
  }

  // ---------------------------------------------------------------------
  // One row of the order list (`list_order_items`)

  /** What the order list reads from the database and the overrides file:
      joined voucher lines, stock items in table order, the alternate-unit
      and item-group tables keyed by item name, the master overrides, and the
      current date. */
  datatype OrderInputs = OrderInputs(
    postings: seq<Posting>, items: seq<StockItem>,
    altUnits: map<string, MkcpImporter.UnitRow>, itemGroups: map<string, MkcpImporter.MappingRow>,
    overrides: map<string, MasterOverrides.Override>, today: Date)

  /** `{si.name: si.opening_balance for si in items}` as written pairs. */
  function OpeningPairs(items: seq<StockItem>): seq<Option<(string, real)>> {
    seq(|items|, i requires 0 <= i < |items| => Some((items[i].name, items[i].openingBalance)))
  }

  /** The opening of the last stock item with the name, or 0. */
  function Opening(items: seq<StockItem>, name: string): real {
    LastValue(OpeningPairs(items), name).GetOr(0.0)
  }

  function OverrideOf(inp: OrderInputs, name: string): MasterOverrides.Override {
    if name in inp.overrides then inp.overrides[name] else MasterOverrides.Empty
  }

  /** The item's group: a non-empty override group, else its non-empty
      mapped group, else none. */
  function ItemGroup(inp: OrderInputs, name: string): (r: Option<string>)
    ensures r.Some? ==> r.value != ""
  {
    var ov := OverrideOf(inp, name);
    if ov.group.Some? && ov.group.value != "" then ov.group
    else if name in inp.itemGroups && inp.itemGroups[name].groupName != "" then Some(inp.itemGroups[name].groupName)
    else None
  }

  /** The package factor: the override's whenever it has one, else the
      alternate unit's, else none. */
  function Factor(inp: OrderInputs, name: string): Option<real> {
    var ov := OverrideOf(inp, name);
    if ov.pkgFactor.Some? then ov.pkgFactor
    else if name in inp.altUnits then Some(inp.altUnits[name].pkgFactor)
    else None
  }

  /** The group filter as written: skip the item when a filter is given, the
      item's group differs from it, and it is not the case that the filter
      is the default group and the item has none. */
  predicate Kept(filter: Option<string>, g: Option<string>) {
    !(filter.Some? && filter.value != "" && g != filter && (filter.value != DefaultGroup || g.Some?))
  }

  /** The filter keeps an item exactly when there is no filter, the item's
      group is the filter, or the filter is the default group and the item
      has no group. */
  lemma KeptIff(filter: Option<string>, g: Option<string>)
    ensures Kept(filter, g) <==>
      filter.None? || filter.value == "" || g == filter || (filter.value == DefaultGroup && g.None?)
  {
  }

  datatype OrderItem = OrderItem(
    name: string, group: string, baseUnit: string, pkgFactor: Option<real>,
    closingBase: real, closingPkg: Option<real>, suggestionPkg: Option<int>,
    suggestionBase: real, avgOutward: real)

  /** The row of one item. Rounding to 2 or 3 decimals is not modelled. */
  function OrderItemOf(inp: OrderInputs, name: string, monthsCover: int, lookback: int): OrderItem {
    var ov := OverrideOf(inp, name);
    var g := ItemGroup(inp, name);
    var closing := Opening(inp.items, name) + Inward(inp.postings, name) - Outward(inp.postings, name);
    var factor := Factor(inp, name);
    var usable := factor.Some? && factor.value != 0.0 && factor.value > 0.0;
    var avg := AvgOutward(inp.postings, name, inp.today, lookback);
    var target := avg * monthsCover as real;
    var sugg := if target - closing > 0.0 then target - closing else 0.0;
    OrderItem(
      name,
      if g.Some? then g.value else DefaultGroup,
      if ov.baseUnit.Some? && ov.baseUnit.value != "" then ov.baseUnit.value
      else PurchaseUnit(inp.postings, name).GetOr(DefaultUnit),
      factor, closing,
      if usable then Some(closing / factor.value) else None,
      if usable then Some(Ceil(sugg / factor.value)) else None,
      sugg, avg)
  }

  /** The reorder arithmetic of one row:
      - closing = opening (0 without a stock item) + purchases - sales;
      - the suggestion is the shortfall against `months_cover` months of
        average outward, and never negative;
      - package figures exist exactly when the factor is positive; the
        package suggestion is the fewest whole packages covering the base
        suggestion;
      - the average outward is the lookback average of the item's sales;
      - the override package factor, group and base unit win over the
        imported ones (the mapped group, the purchase unit), and the
        defaults fill in an absent group or unit. */
  lemma OrderItemSpec(inp: OrderInputs, name: string, monthsCover: int, lookback: int)
    ensures var r := OrderItemOf(inp, name, monthsCover, lookback);
      var ov := OverrideOf(inp, name);
      && r.name == name
      && r.closingBase == Opening(inp.items, name) + Inward(inp.postings, name) - Outward(inp.postings, name)
      && r.suggestionBase >= 0.0
      && r.suggestionBase >= r.avgOutward * monthsCover as real - r.closingBase
      && (r.suggestionBase == 0.0 || r.suggestionBase == r.avgOutward * monthsCover as real - r.closingBase)
      && (r.closingPkg.Some? <==> r.pkgFactor.Some? && r.pkgFactor.value > 0.0)
      && (r.suggestionPkg.Some? <==> r.pkgFactor.Some? && r.pkgFactor.value > 0.0)
      && (r.closingPkg.Some? ==> r.closingPkg.value * r.pkgFactor.value == r.closingBase)
      && (r.suggestionPkg.Some? ==>
            r.suggestionPkg.value as real * r.pkgFactor.value >= r.suggestionBase
            && (r.suggestionPkg.value - 1) as real * r.pkgFactor.value < r.suggestionBase)
      && (ov.pkgFactor.Some? ==> r.pkgFactor == ov.pkgFactor)
      && (ov.pkgFactor.None? ==> r.pkgFactor == if name in inp.altUnits then Some(inp.altUnits[name].pkgFactor) else None)
      && r.avgOutward == AvgOutward(inp.postings, name, inp.today, lookback)
      && (ov.group.Some? && ov.group.value != "" ==> r.group == ov.group.value)
      && (ItemGroup(inp, name).Some? ==> r.group == ItemGroup(inp, name).value)
      && (ItemGroup(inp, name).None? <==> r.group == DefaultGroup && ItemGroup(inp, name) != Some(DefaultGroup))
      && (ov.baseUnit.Some? && ov.baseUnit.value != "" ==> r.baseUnit == ov.baseUnit.value)
      && (!(ov.baseUnit.Some? && ov.baseUnit.value != "") && PurchaseUnit(inp.postings, name).None? ==> r.baseUnit == DefaultUnit)
      && (!(ov.baseUnit.Some? && ov.baseUnit.value != "") && PurchaseUnit(inp.postings, name).Some? ==>
            r.baseUnit == PurchaseUnit(inp.postings, name).value)
      && r.baseUnit != "" && r.group != ""
  {
    var r := OrderItemOf(inp, name, monthsCover, lookback);
    if r.suggestionPkg.Some? {
      var f := r.pkgFactor.value;
      var q := r.suggestionBase / f;
      var c := r.suggestionPkg.value as real;
      assert q <= c < q + 1.0;
      assert q * f == r.suggestionBase;
      ScaleOrder(q, c, f);
      ScaleOrder(c - 1.0, q, f);
      assert (r.suggestionPkg.value - 1) as real == c - 1.0;
      assert (c - 1.0) * f < r.suggestionBase;
      assert (r.suggestionPkg.value - 1) as real * r.pkgFactor.value < r.suggestionBase;
    }
    if r.closingPkg.Some? {
      assert r.closingPkg.value * r.pkgFactor.value == r.closingBase;
    }
  }

  /** Multiplying by a positive factor keeps the order of two reals. */
  lemma ScaleOrder(a: real, b: real, f: real)
    requires f > 0.0
    ensures a <= b ==> a * f <= b * f
    ensures a < b ==> a * f < b * f
  {
    assert (b - a) * f == b * f - a * f;
  }

  /** The order list: each name of the sorted union of master and line names
      that the group filter keeps, with its row. */
  function OrderItems(inp: OrderInputs, names: seq<string>, monthsCover: int, lookback: int, filter: Option<string>)
    : seq<OrderItem>
  {
    if names == [] then []
    else
      var name := names[|names| - 1];
      OrderItems(inp, names[..|names| - 1], monthsCover, lookback, filter)
        + (if Kept(filter, ItemGroup(inp, name)) then [OrderItemOf(inp, name, monthsCover, lookback)] else [])
  }

  /** Every listed row is the row of one of the names whose group the filter
      keeps, and there are no more rows than names. */
  lemma {:induction false} OrderItemsSound(inp: OrderInputs, names: seq<string>, monthsCover: int, lookback: int, filter: Option<string>)
    ensures var rs := OrderItems(inp, names, monthsCover, lookback, filter);
      && |rs| <= |names|
      && forall k :: 0 <= k < |rs| ==>
           rs[k] == OrderItemOf(inp, rs[k].name, monthsCover, lookback)
           && rs[k].name in names && Kept(filter, ItemGroup(inp, rs[k].name))
  {
    if names != [] {
      var init := names[..|names| - 1];
      var last := names[|names| - 1];
      OrderItemsSound(inp, init, monthsCover, lookback, filter);
      var before := OrderItems(inp, init, monthsCover, lookback, filter);
      var rs := OrderItems(inp, names, monthsCover, lookback, filter);
      assert names == init + [last];
      forall k | 0 <= k < |rs|
        ensures rs[k] == OrderItemOf(inp, rs[k].name, monthsCover, lookback)
             && rs[k].name in names && Kept(filter, ItemGroup(inp, rs[k].name))
      {
        if k < |before| {
          assert rs[k] == before[k];
          assert before[k].name in init;
        }
      }
    }
  }

  /** Conversely, every name whose group the filter keeps is listed: the
      index of its row is returned. */
  lemma {:induction false} OrderItemsComplete(inp: OrderInputs, names: seq<string>, monthsCover: int, lookback: int,
                                              filter: Option<string>, name: string)
    returns (k: nat)
    requires name in names && Kept(filter, ItemGroup(inp, name))
    ensures var rs := OrderItems(inp, names, monthsCover, lookback, filter);
      k < |rs| && rs[k].name == name
  {
    var init := names[..|names| - 1];
    var last := names[|names| - 1];
    assert names == init + [last];
    if name == last {
      k := |OrderItems(inp, init, monthsCover, lookback, filter)|;
    } else {
      k := OrderItemsComplete(inp, init, monthsCover, lookback, filter, name);
    }
  }

  /** `list_order_items` over the names in order. */
  method ListOrderItems(inp: OrderInputs, names: seq<string>, monthsCover: int, lookback: int, filter: Option<string>)
    returns (results: seq<OrderItem>)
    ensures results == OrderItems(inp, names, monthsCover, lookback, filter)
  {
    results := [];
    for i := 0 to |names|
      invariant results == OrderItems(inp, names[..i], monthsCover, lookback, filter)
    {
      assert names[..i + 1][..i] == names[..i];
      var name := names[i];
      var itemGroup := ItemGroup(inp, name);
      if !Kept(filter, itemGroup) {
        continue;
      }
      results := results + [OrderItemOf(inp, name, monthsCover, lookback)];
    }
    assert names[..|names|] == names;
  }

  // ---------------------------------------------------------------------
  // Monthly history of one item (`item_history`)

  /** `item_history`: from the first of the month `months` months before
      today, while that month has begun, one row per month whose opening is
      the running balance and whose closing adds the month's purchases and
      subtracts its sales; the balance starts at the opening of the first
      stock item with the name, or 0. */
  method ItemHistory(ps: seq<Posting>, items: seq<StockItem>, name: string, today: Date, months: int)
    returns (rows: seq<MonthRow>)
    requires Valid(today)
    ensures var si := FirstNamed(items, name);
      rows == MonthRows(ps, name, if si.Some? then si.value.openingBalance else 0.0,
                        StartMonth(today, months), if months >= 0 then months + 1 else 0)
  {
    var si := FirstNamed(items, name);
    var opening := if si.Some? then si.value.openingBalance else 0.0;
    var k0 := StartMonth(today, months);
    var k := k0;
    var currentMonth := MonthStart(k);
    var running := opening;
    rows := [];
    while LessEq(currentMonth, today)
      invariant k0 <= k && currentMonth == MonthStart(k)
      invariant months >= 0 ==> k <= MonthIndex(today) + 1
      invariant months < 0 ==> k == k0
      invariant rows == MonthRows(ps, name, opening, k0, k - k0)
      invariant running == Balance(ps, name, opening, k0, k - k0)
      decreases MonthIndex(today) - k
    {
      MonthStartNotAfter(k, today);
      var window := Window(Some(currentMonth), Some(MonthEnd(k)));
      assert window == MonthWindow(k0 + (k - k0));
      var inward := Qty(ps, name, Purchase, window);
      var outward := Qty(ps, name, Sales, window);
      var openingThis := running;
      running := running + inward - outward;
      MonthRowsStep(ps, name, opening, k0, k - k0);
      rows := rows + [MonthRow(k, openingThis, inward, outward, running)];
      k := k + 1;
      currentMonth := MonthStart(k);
    }
    MonthStartNotAfter(k, today);
  }

  // ---------------------------------------------------------------------
  // GST compliance (`gst_compliance_check`)

  datatype Issue = MissingNumber | MissingParty | NonPositiveAmount | NoHsn

  datatype ComplianceIssue = ComplianceIssue(
    voucherId: nat, voucherNumber: string, voucherType: string, voucherDate: Option<Date>,
    partyName: Option<string>, issues: seq<Issue>)

  /** The type condition: the requested type, compared upper-cased, or else
      sales and purchases. */
  predicate TypeSelected(voucherType: string, requested: Option<string>) {
    if requested.Some? && requested.value != "" then Upper(voucherType) == Upper(requested.value)
    else Upper(voucherType) == Sales || Upper(voucherType) == Purchase
  }

  /** The ids the query returns: of `ranked` (the voucher ids in descending
      date order, as the database sorts them), the non-cancelled ones of a
      selected type, at most `limit` of them. */
  function Candidates(vs: seq<Importer.VoucherRow>, ranked: seq<nat>, requested: Option<string>, limit: nat)
    : (r: seq<nat>)
    ensures |r| <= limit
    ensures forall k :: 0 <= k < |r| ==> 1 <= r[k] <= |vs|
  {
    if ranked == [] || limit == 0 then []
    else
      var id := ranked[0];
      if Selected(vs, requested, id)
      then [id] + Candidates(vs, ranked[1..], requested, limit - 1)
      else Candidates(vs, ranked[1..], requested, limit)
  }

  /** The query's condition on one id: a stored, non-cancelled voucher of a
      selected type. */
  predicate Selected(vs: seq<Importer.VoucherRow>, requested: Option<string>, id: nat) {
    1 <= id <= |vs| && !vs[id - 1].fields.isCancelled && TypeSelected(vs[id - 1].fields.voucherType, requested)
  }

  /** Every candidate is a ranked id of a stored, non-cancelled voucher of a
      selected type. */
  lemma {:induction false} CandidatesSound(vs: seq<Importer.VoucherRow>, ranked: seq<nat>, requested: Option<string>, limit: nat)
    ensures forall id :: id in Candidates(vs, ranked, requested, limit) ==>
      && id in ranked && 1 <= id <= |vs|
      && !vs[id - 1].fields.isCancelled
      && TypeSelected(vs[id - 1].fields.voucherType, requested)
    decreases |ranked|
  {
    if ranked != [] && limit != 0 {
      var lim := if Selected(vs, requested, ranked[0]) then limit - 1 else limit;
      CandidatesSound(vs, ranked[1..], requested, lim);
      forall id | id in Candidates(vs, ranked, requested, limit)
        ensures id in ranked && Selected(vs, requested, id)
      {
        if id != ranked[0] {
          assert id in Candidates(vs, ranked[1..], requested, lim);
          assert id in ranked[1..];
        }
      }
    }
  }

  /** When fewer than `limit` candidates are returned, every ranked id the
      condition selects is among them: the limit alone cuts the list. */
  lemma {:induction false} CandidatesComplete(vs: seq<Importer.VoucherRow>, ranked: seq<nat>, requested: Option<string>, limit: nat)
    ensures var r := Candidates(vs, ranked, requested, limit);
      |r| < limit ==> forall id :: id in ranked && Selected(vs, requested, id) ==> id in r
    decreases |ranked|
  {
    var r := Candidates(vs, ranked, requested, limit);
    if ranked != [] && limit != 0 && |r| < limit {
      var id := ranked[0];
      var lim := if Selected(vs, requested, id) then limit - 1 else limit;
      var rest := Candidates(vs, ranked[1..], requested, lim);
      CandidatesComplete(vs, ranked[1..], requested, lim);
      assert r == if Selected(vs, requested, id) then [id] + rest else rest;
      assert |rest| < lim;
      forall x | x in ranked && Selected(vs, requested, x)
        ensures x in r
      {
        if x != id {
          assert x in ranked[1..];
          assert x in rest;
        }
      }
    }
  }

  /** The first five lines of the voucher that name a stock item. */
  function ItemLines(ls: seq<Importer.LineRow>, id: nat): (r: seq<Line>)
    ensures |r| <= 5
    ensures forall k :: 0 <= k < |r| ==> r[k].stockItemName.Some?
  {
    var withItem := Filtered(Importer.LinesOf(ls, id));
    if |withItem| > 5 then withItem[..5] else withItem
  }

  function Filtered(lines: seq<Line>): (r: seq<Line>)
    ensures forall k :: 0 <= k < |r| ==> r[k].stockItemName.Some?
  {
    if lines == [] then []
    else Filtered(lines[..|lines| - 1]) + (if lines[|lines| - 1].stockItemName.Some? then [lines[|lines| - 1]] else [])
  }

  /** The line's item, looked up by name, has a non-empty HSN code. */
  predicate LineHasHsn(items: seq<StockItem>, l: Line) {
    l.stockItemName.Some? && FirstNamed(items, l.stockItemName.value).Some?
    && FirstNamed(items, l.stockItemName.value).value.hsnCode != ""
  }

  /** The search for a line whose item has an HSN code, stopping at the
      first one. */
  method AnyHsn(items: seq<StockItem>, lines: seq<Line>) returns (hasHsn: bool)
    ensures hasHsn <==> exists k :: 0 <= k < |lines| && LineHasHsn(items, lines[k])
  {
    hasHsn := false;
    for i := 0 to |lines|
      invariant !hasHsn && forall k :: 0 <= k < i ==> !LineHasHsn(items, lines[k])
    {
      var si := if lines[i].stockItemName.Some? then FirstNamed(items, lines[i].stockItemName.value) else None;
      if si.Some? && si.value.hsnCode != "" {
        hasHsn := true;
        return;
      }
    }
  }

  /** The issues raised by four flags, in the order they are checked. */
  function Flagged(blankNumber: bool, blankParty: bool, nonPositive: bool, noHsn: bool): seq<Issue> {
    Raise(Raise(Raise(Raise([], blankNumber, MissingNumber), blankParty, MissingParty), nonPositive, NonPositiveAmount),
          noHsn, NoHsn)
  }

  /** The issues so far, with `issue` appended when `flag` is set. */
  function Raise(issues: seq<Issue>, flag: bool, issue: Issue): seq<Issue> {
    if flag then issues + [issue] else issues
  }

  lemma FlaggedSpec(blankNumber: bool, blankParty: bool, nonPositive: bool, noHsn: bool)
    ensures var found := Flagged(blankNumber, blankParty, nonPositive, noHsn);
      && (MissingNumber in found <==> blankNumber) && (MissingParty in found <==> blankParty)
      && (NonPositiveAmount in found <==> nonPositive) && (NoHsn in found <==> noHsn)
      && |found| <= 4
  {
    var a := Raise([], blankNumber, MissingNumber);
    var b := Raise(a, blankParty, MissingParty);
    var c := Raise(b, nonPositive, NonPositiveAmount);
    var d := Raise(c, noHsn, NoHsn);
    assert MissingNumber in a <==> blankNumber;
    assert MissingNumber in b <==> blankNumber;
    assert (MissingNumber in c <==> blankNumber) && (MissingParty in c <==> blankParty);
    assert NonPositiveAmount !in b;
    assert NoHsn !in c;
  }

  /** The voucher has item lines and none of their items has an HSN code. */
  predicate HsnMissing(lines: seq<Line>, items: seq<StockItem>) {
    lines != [] && !(exists k :: 0 <= k < |lines| && LineHasHsn(items, lines[k]))
  }

  /** The issues of one voucher, in the order they are checked. */
  function Issues(v: Voucher, lines: seq<Line>, items: seq<StockItem>): seq<Issue> {
    Flagged(Strip(v.voucherNumber) == "", Strip(v.partyName.GetOr("")) == "", v.amount <= 0.0, HsnMissing(lines, items))
  }

  /** Each flag is raised exactly on its condition: a blank number, a blank
      or absent party, an amount that is zero or negative, and item lines none
      of whose items has an HSN code. */
  lemma IssuesSpec(v: Voucher, lines: seq<Line>, items: seq<StockItem>)
    ensures var found := Issues(v, lines, items);
      && (MissingNumber in found <==> Strip(v.voucherNumber) == "")
      && (MissingParty in found <==> v.partyName.None? || Strip(v.partyName.value) == "")
      && (NonPositiveAmount in found <==> v.amount <= 0.0)
      && (NoHsn in found <==> lines != [] && forall k :: 0 <= k < |lines| ==> !LineHasHsn(items, lines[k]))
      && |found| <= 4
  {
    var blankNumber := Strip(v.voucherNumber) == "";
    var party := v.partyName.GetOr("");
    var blankParty := Strip(party) == "";
    if v.partyName.None? {
      StripFixed(party);
    }
    assert Issues(v, lines, items) == Flagged(blankNumber, blankParty, v.amount <= 0.0, HsnMissing(lines, items));
    FlaggedSpec(blankNumber, blankParty, v.amount <= 0.0, HsnMissing(lines, items));
  }

  function IssueOf(vs: seq<Importer.VoucherRow>, ls: seq<Importer.LineRow>, items: seq<StockItem>, id: nat): ComplianceIssue
    requires 1 <= id <= |vs|
  {
    var v := vs[id - 1].fields;
    ComplianceIssue(id, v.voucherNumber, v.voucherType, v.voucherDate, v.partyName, Issues(v, ItemLines(ls, id), items))
  }

  /** The entry for one candidate id; an id naming no voucher, which the
      query never yields, gets no issue. */
  function EntryOf(vs: seq<Importer.VoucherRow>, ls: seq<Importer.LineRow>, items: seq<StockItem>, id: nat)
    : (e: ComplianceIssue)
    ensures e.voucherId == id
    ensures 1 <= id <= |vs| ==> e == IssueOf(vs, ls, items, id)
    ensures !(1 <= id <= |vs|) ==> e.issues == []
  {
    if 1 <= id <= |vs| then IssueOf(vs, ls, items, id) else ComplianceIssue(id, "", "", None, None, [])
  }

  /** The entries with at least one issue, in order. */
  function WithIssues(es: seq<ComplianceIssue>): seq<ComplianceIssue> {
    if es == [] then []
    else WithIssues(es[..|es| - 1]) + (if es[|es| - 1].issues != [] then [es[|es| - 1]] else [])
  }

  lemma {:induction false} WithIssuesSound(es: seq<ComplianceIssue>)
    ensures var rs := WithIssues(es);
      |rs| <= |es| && forall k :: 0 <= k < |rs| ==> rs[k] in es && rs[k].issues != []
  {
    if es != [] {
      var init := es[..|es| - 1];
      WithIssuesSound(init);
      var rs := WithIssues(es);
      forall k | 0 <= k < |rs|
        ensures rs[k] in es && rs[k].issues != []
      {
        if k < |WithIssues(init)| {
          assert rs[k] == WithIssues(init)[k];
          assert rs[k] in init;
        }
      }
    }
  }

  lemma {:induction false} WithIssuesComplete(es: seq<ComplianceIssue>, j: nat) returns (k: nat)
    requires j < |es| && es[j].issues != []
    ensures k < |WithIssues(es)| && WithIssues(es)[k] == es[j]
  {
    var init := es[..|es| - 1];
    if j == |es| - 1 {
      k := |WithIssues(init)|;
    } else {
      k := WithIssuesComplete(init, j);
    }
  }

  function Entries(vs: seq<Importer.VoucherRow>, ls: seq<Importer.LineRow>, items: seq<StockItem>, ids: seq<nat>)
    : (es: seq<ComplianceIssue>)
    ensures |es| == |ids| && forall j :: 0 <= j < |ids| ==> es[j] == EntryOf(vs, ls, items, ids[j])
  {
    seq(|ids|, j requires 0 <= j < |ids| => EntryOf(vs, ls, items, ids[j]))
  }

  /** The report over the candidate ids, in order: those with an issue. */
  function Report(vs: seq<Importer.VoucherRow>, ls: seq<Importer.LineRow>, items: seq<StockItem>, ids: seq<nat>)
    : seq<ComplianceIssue>
  {
    WithIssues(Entries(vs, ls, items, ids))
  }

  /** Every entry of the report is the entry of a candidate voucher that has
      an issue. */
  lemma ReportSound(vs: seq<Importer.VoucherRow>, ls: seq<Importer.LineRow>, items: seq<StockItem>, ids: seq<nat>)
    ensures var rs := Report(vs, ls, items, ids);
      && |rs| <= |ids|
      && forall k :: 0 <= k < |rs| ==> 1 <= rs[k].voucherId <= |vs| && rs[k].voucherId in ids
                                       && rs[k] == IssueOf(vs, ls, items, rs[k].voucherId) && rs[k].issues != []
  {
    var es := Entries(vs, ls, items, ids);
    WithIssuesSound(es);
    var rs := Report(vs, ls, items, ids);
    forall k | 0 <= k < |rs|
      ensures 1 <= rs[k].voucherId <= |vs| && rs[k].voucherId in ids
           && rs[k] == IssueOf(vs, ls, items, rs[k].voucherId) && rs[k].issues != []
    {
      var j :| 0 <= j < |es| && es[j] == rs[k];
      assert rs[k] == EntryOf(vs, ls, items, ids[j]);
    }
  }

  /** Conversely, every candidate voucher with an issue is reported: the
      index of its entry is returned. */
  lemma ReportComplete(vs: seq<Importer.VoucherRow>, ls: seq<Importer.LineRow>, items: seq<StockItem>,
                       ids: seq<nat>, id: nat)
    returns (k: nat)
    requires id in ids && 1 <= id <= |vs| && IssueOf(vs, ls, items, id).issues != []
    ensures var rs := Report(vs, ls, items, ids);
      k < |rs| && rs[k].voucherId == id
  {
    var es := Entries(vs, ls, items, ids);
    var j :| 0 <= j < |ids| && ids[j] == id;
    k := WithIssuesComplete(es, j);
  }

  /** The checks on one voucher, appending each issue found. */
  method VoucherIssues(v: Voucher, lines: seq<Line>, items: seq<StockItem>) returns (vIssues: seq<Issue>)
    ensures vIssues == Issues(v, lines, items)
  {
    var blankNumber := Strip(v.voucherNumber) == "";
    var blankParty := Strip(v.partyName.GetOr("")) == "";
    var nonPositive := v.amount <= 0.0;
    var noHsn := false;
    if lines != [] {
      var hasHsn := AnyHsn(items, lines);
      noHsn := !hasHsn;
    }
    vIssues := [];
    if blankNumber {
      vIssues := vIssues + [MissingNumber];
    }
    assert vIssues == Raise([], blankNumber, MissingNumber);
    ghost var raised := vIssues;
    if blankParty {
      vIssues := vIssues + [MissingParty];
    }
    assert vIssues == Raise(raised, blankParty, MissingParty);
    raised := vIssues;
    if nonPositive {
      vIssues := vIssues + [NonPositiveAmount];
    }
    assert vIssues == Raise(raised, nonPositive, NonPositiveAmount);
    raised := vIssues;
    if noHsn {
      vIssues := vIssues + [NoHsn];
    }
    assert vIssues == Raise(raised, noHsn, NoHsn);
    assert noHsn == HsnMissing(lines, items);
  }

  lemma ReportSnoc(vs: seq<Importer.VoucherRow>, ls: seq<Importer.LineRow>, items: seq<StockItem>, ids: seq<nat>, i: nat)
    requires i < |ids| && 1 <= ids[i] <= |vs|
    ensures Report(vs, ls, items, ids[..i + 1])
         == Report(vs, ls, items, ids[..i])
            + (if IssueOf(vs, ls, items, ids[i]).issues != [] then [IssueOf(vs, ls, items, ids[i])] else [])
  {
    var es := Entries(vs, ls, items, ids[..i + 1]);
    assert es[..i] == Entries(vs, ls, items, ids[..i]);
  }

  /** `gst_compliance_check`. */
  method GstComplianceCheck(vs: seq<Importer.VoucherRow>, ls: seq<Importer.LineRow>, items: seq<StockItem>,
                            ranked: seq<nat>, requested: Option<string>, limit: nat)
    returns (issues: seq<ComplianceIssue>)
    ensures issues == Report(vs, ls, items, Candidates(vs, ranked, requested, limit))
  {
    var ids := Candidates(vs, ranked, requested, limit);
    issues := [];
    for i := 0 to |ids|
      invariant issues == Report(vs, ls, items, ids[..i])
    {
      ReportSnoc(vs, ls, items, ids, i);
      var id := ids[i];
      var v := vs[id - 1].fields;
      var lines := ItemLines(ls, id);
      var vIssues := VoucherIssues(v, lines, items);
      if vIssues != [] {
        issues := issues + [ComplianceIssue(id, v.voucherNumber, v.voucherType, v.voucherDate, v.partyName, vIssues)];
      }
    }
    assert ids[..|ids|] == ids;
  }
}
