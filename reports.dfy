/** The dashboard endpoints: the page window of the voucher list, the KPI
    totals, the monthly inward/outward/closing of every stock item, and the
    receivable and payable aging buckets. */
module Reports {
  import opened Wrappers
  import opened Text
  import opened Dates
  import opened TallyParser
  import opened OrderedDict
  import opened StockLedger
  import Importer

  // ---------------------------------------------------------------------
  // The voucher list window (`list_vouchers`)

  /** `OFFSET (page - 1) * page_size LIMIT page_size` over the matching
      vouchers in their listed order. */
  function Page<T>(xs: seq<T>, page: int, size: int): (r: seq<T>)
    requires page >= 1 && size >= 1
    ensures |r| <= size
    ensures (page - 1) * size >= |xs| ==> r == []
    ensures forall k :: 0 <= k < |r| ==> (page - 1) * size + k < |xs| && r[k] == xs[(page - 1) * size + k]
  {
    var lo := if (page - 1) * size < |xs| then (page - 1) * size else |xs|;
    var hi := if lo + size < |xs| then lo + size else |xs|;
    xs[lo..hi]
  }

  /** The pages tile the list: element i is at position `i % size` of page
      `i / size + 1`, and each page before the last is full. */
  lemma PageAt<T>(xs: seq<T>, i: nat, size: int)
    requires i < |xs| && size >= 1
    ensures var p := Page(xs, i / size + 1, size);
      i % size < |p| && p[i % size] == xs[i]
    ensures (i / size + 1) * size <= |xs| ==> |Page(xs, i / size + 1, size)| == size
  {
    var q := i / size;
    assert q * size + i % size == i;
    assert (q + 1 - 1) * size == q * size;
    assert q * size <= i;
  }

  /** The list response: the number of matching vouchers and the page. */
  function VoucherList<T>(matching: seq<T>, page: int, size: int): (r: (nat, seq<T>))
    requires page >= 1 && size >= 1
    ensures r.0 == |matching| && |r.1| <= size
    ensures forall k :: 0 <= k < |r.1| ==> (page - 1) * size + k < |matching| && r.1[k] == matching[(page - 1) * size + k]
  {
    (|matching|, Page(matching, page, size))
  }

  // ---------------------------------------------------------------------
  // KPIs (`get_kpis`)

  /** The query parameters of the KPI endpoint. */
  datatype KpiFilter = KpiFilter(dateFrom: Option<Date>, dateTo: Option<Date>, companyId: Option<nat>)

  /** `if company_id:` filters on the company, so 0 like absence does not. */
  predicate CompanyOk(cid: Option<nat>, f: KpiFilter) {
    f.companyId.None? || f.companyId.value == 0 || cid == f.companyId
  }

  /** The conditions every KPI query shares: not cancelled, within the
      dates, and of the company. */
  predicate Selected(v: Importer.VoucherRow, f: KpiFilter) {
    !v.fields.isCancelled && InWindow(v.fields.voucherDate, Window(f.dateFrom, f.dateTo)) && CompanyOk(v.companyId, f)
  }

  /** `_sum(type)`: the amounts of the selected vouchers of the type. */
  function AmountSum(vs: seq<Importer.VoucherRow>, kind: string, f: KpiFilter): real {
    if vs == [] then 0.0
    else
      var v := vs[|vs| - 1];
      AmountSum(vs[..|vs| - 1], kind, f) + (if Selected(v, f) && Upper(v.fields.voucherType) == kind then v.fields.amount else 0.0)
  }

  /** The number of selected vouchers. */
  function Count(vs: seq<Importer.VoucherRow>, f: KpiFilter): nat {
    if vs == [] then 0
    else Count(vs[..|vs| - 1], f) + (if Selected(vs[|vs| - 1], f) then 1 else 0)
  }

  /** A tax line of a voucher of the type that is not cancelled and lies
      within the dates; `companyScoped` adds the company condition. */
  predicate TaxCounts(vs: seq<Importer.VoucherRow>, l: Importer.LineRow, kind: string, f: KpiFilter, companyScoped: bool) {
    && 1 <= l.voucherId <= |vs|
    && var v := vs[l.voucherId - 1];
    && l.line.isTaxLine && Upper(v.fields.voucherType) == kind && !v.fields.isCancelled
    && InWindow(v.fields.voucherDate, Window(f.dateFrom, f.dateTo))
    && (companyScoped ==> CompanyOk(v.companyId, f))
  }

  /** The sum of the amounts of the tax lines joined to their vouchers. */
  function TaxSum(vs: seq<Importer.VoucherRow>, ls: seq<Importer.LineRow>, kind: string, f: KpiFilter, companyScoped: bool): real {
    if ls == [] then 0.0
    else
      var l := ls[|ls| - 1];
      TaxSum(vs, ls[..|ls| - 1], kind, f, companyScoped) + (if TaxCounts(vs, l, kind, f, companyScoped) then l.line.amount else 0.0)
  }

  function Abs(x: real): real {
    if x < 0.0 then -x else x
  }

  function Max0(x: real): real {
    if x < 0.0 then 0.0 else x
  }

  datatype Kpis = Kpis(totalSales: real, totalPurchases: real, netRevenue: real, gstCollected: real,
                       gstPaid: real, receivables: real, payables: real, totalVouchers: nat)

  /** The KPI response over the vouchers and their lines; `companyScoped`
      says whether the GST sums honour the company filter as the other
      sums do. */
  function KpisWith(vs: seq<Importer.VoucherRow>, ls: seq<Importer.LineRow>, f: KpiFilter, companyScoped: bool): Kpis {
    var sales := AmountSum(vs, "SALES", f);
    var purchases := AmountSum(vs, "PURCHASE", f);
    Kpis(sales, purchases, sales - purchases,
         Abs(TaxSum(vs, ls, "SALES", f, companyScoped)), Abs(TaxSum(vs, ls, "PURCHASE", f, companyScoped)),
         Max0(sales - AmountSum(vs, "RECEIPT", f)), Max0(purchases - AmountSum(vs, "PAYMENT", f)),
         Count(vs, f))
  }

  /** `get_kpis` as written: the GST sums leave out the company condition. */
  function KpisAsWritten(vs: seq<Importer.VoucherRow>, ls: seq<Importer.LineRow>, f: KpiFilter): Kpis {
    KpisWith(vs, ls, f, false)
  }

  /** `get_kpis` with every sum scoped to the requested company. */
  function KpisOf(vs: seq<Importer.VoucherRow>, ls: seq<Importer.LineRow>, f: KpiFilter): Kpis {
    KpisWith(vs, ls, f, true)
  }

  /** Net revenue is sales less purchases; outstanding receivables are sales
      less receipts and payables purchases less payments, each clamped at
      zero; the GST figures are magnitudes. */
  lemma KpisClamps(vs: seq<Importer.VoucherRow>, ls: seq<Importer.LineRow>, f: KpiFilter)
    ensures var k := KpisOf(vs, ls, f);
      var receipts := AmountSum(vs, "RECEIPT", f);
      var payments := AmountSum(vs, "PAYMENT", f);
      && k.netRevenue == k.totalSales - k.totalPurchases
      && k.receivables >= 0.0 && k.receivables >= k.totalSales - receipts
      && (receipts <= k.totalSales ==> k.receivables == k.totalSales - receipts)
      && (receipts >= k.totalSales ==> k.receivables == 0.0)
      && k.payables >= 0.0 && k.payables >= k.totalPurchases - payments
      && (payments <= k.totalPurchases ==> k.payables == k.totalPurchases - payments)
      && (payments >= k.totalPurchases ==> k.payables == 0.0)
      && k.gstCollected >= 0.0 && k.gstPaid >= 0.0
  {
  }

  /** A voucher counts toward the sums only when it is selected. */
  lemma {:induction false} AmountSumOther(vs: seq<Importer.VoucherRow>, v: Importer.VoucherRow, kind: string, f: KpiFilter)
    requires !CompanyOk(v.companyId, f)
    ensures AmountSum(vs + [v], kind, f) == AmountSum(vs, kind, f)
    ensures Count(vs + [v], f) == Count(vs, f)
  {
    assert (vs + [v])[..|vs|] == vs;
  }

  /** The tax lines keep their vouchers when a voucher of another company is
      added, and that voucher's own lines do not count. */
  lemma {:induction false} TaxSumOther(vs: seq<Importer.VoucherRow>, v: Importer.VoucherRow, ls: seq<Importer.LineRow>,
                                       kind: string, f: KpiFilter)
    requires !CompanyOk(v.companyId, f)
    ensures TaxSum(vs + [v], ls, kind, f, true) == TaxSum(vs, ls, kind, f, true)
  {
    if ls != [] {
      TaxSumOther(vs, v, ls[..|ls| - 1], kind, f);
      var l := ls[|ls| - 1];
      if 1 <= l.voucherId <= |vs| {
        assert (vs + [v])[l.voucherId - 1] == vs[l.voucherId - 1];
      }
    }
  }

  /** With a company requested, every KPI depends only on that company's
      vouchers: storing a voucher of another company, with any lines, leaves
      the response as it was. */
  lemma KpisCompanyScoped(vs: seq<Importer.VoucherRow>, ls: seq<Importer.LineRow>, f: KpiFilter, v: Importer.VoucherRow)
    requires f.companyId.Some? && f.companyId.value != 0 && v.companyId != f.companyId
    ensures KpisOf(vs + [v], ls, f) == KpisOf(vs, ls, f)
  {
    AmountSumOther(vs, v, "SALES", f);
    AmountSumOther(vs, v, "PURCHASE", f);
    AmountSumOther(vs, v, "RECEIPT", f);
    AmountSumOther(vs, v, "PAYMENT", f);
    TaxSumOther(vs, v, ls, "SALES", f);
    TaxSumOther(vs, v, ls, "PURCHASE", f);
  }

  function SaleOf(company: nat, amount: real): Importer.VoucherRow {
    Importer.VoucherRow(Some(company), Voucher("1", "Sales", Some(Date(2024, 4, 1)), Some("Party"), None, amount, "",
                                               None, None, None, "", "", "", "", None, false, "", []))
  }

  function TaxLineOf(id: nat, amount: real): Importer.LineRow {
    Importer.LineRow(id, Line("Output IGST", amount, true, Some("igst"), None, None, None, None, None, None, None, 0))
  }

  /** As written, the GST collected for company 1 includes the tax on
      company 2's sale, and adding that sale changes it, while the sales
      total for company 1 stays that of its own sale. */
  lemma KpisAsWrittenLeaksGst()
    ensures var f := KpiFilter(None, None, Some(1));
      var one := [SaleOf(1, 100.0)];
      var both := one + [SaleOf(2, 200.0)];
      var ls := [TaxLineOf(1, 18.0), TaxLineOf(2, 36.0)];
      && KpisAsWritten(both, ls, f).totalSales == 100.0
      && KpisAsWritten(both, ls, f).gstCollected == 54.0
      && KpisAsWritten(one, ls, f).gstCollected == 18.0
      && KpisOf(both, ls, f).gstCollected == 18.0
  {
    var f := KpiFilter(None, None, Some(1));
    var one := [SaleOf(1, 100.0)];
    var both := one + [SaleOf(2, 200.0)];
    var ls := [TaxLineOf(1, 18.0), TaxLineOf(2, 36.0)];
    UpperSales();
    assert both[..1] == one;
    assert ls[..1] == [TaxLineOf(1, 18.0)];
    assert AmountSum(one, "SALES", f) == 100.0;
    assert AmountSum(both, "SALES", f) == 100.0;
    assert TaxCounts(both, ls[0], "SALES", f, false) && TaxCounts(both, ls[1], "SALES", f, false);
    assert TaxSum(both, ls[..1], "SALES", f, false) == 18.0;
    assert TaxSum(both, ls, "SALES", f, false) == 54.0;
    assert !TaxCounts(one, ls[1], "SALES", f, false);
    assert TaxSum(one, ls[..1], "SALES", f, false) == 18.0;
    assert TaxSum(one, ls, "SALES", f, false) == 18.0;
    assert !TaxCounts(both, ls[1], "SALES", f, true);
    assert TaxSum(both, ls[..1], "SALES", f, true) == 18.0;
    assert TaxSum(both, ls, "SALES", f, true) == 18.0;
  }

  lemma UpperSales()
    ensures Upper("Sales") == "SALES"
  {
  }

  // ---------------------------------------------------------------------
  // Monthly stock of one item (`_compute_item_monthly`)

  /** A unit that Python treats as true: present and non-empty. */
  predicate Truthy(u: Option<string>) {
    u.Some? && u.value != ""
  }

  /** The unit month k offers: the largest unit on its purchase lines when
      that is non-empty, else the largest on its sales lines when that is. */
  function MonthUnit(ps: seq<Posting>, item: string, k: int): (r: Option<string>)
    ensures r.Some? ==> r.value != ""
  {
    var inwardUnit := MaxUnit(ps, item, Purchase, MonthWindow(k));
    var outwardUnit := MaxUnit(ps, item, Sales, MonthWindow(k));
    if Truthy(inwardUnit) then inwardUnit else if Truthy(outwardUnit) then outwardUnit else None
  }

  /** The unit of the first of the n months from k0 that offers one. */
  function FirstUnit(ps: seq<Posting>, item: string, k0: int, n: nat): (r: Option<string>)
    ensures r.Some? ==> r.value != ""
  {
    if n == 0 then None
    else
      var u := FirstUnit(ps, item, k0, n - 1);
      if u.Some? then u else MonthUnit(ps, item, k0 + n - 1)
  }

  /** The reported unit is that of the earliest month offering one; the
      index of that month is returned. */
  lemma {:induction false} FirstUnitIsFirst(ps: seq<Posting>, item: string, k0: int, n: nat) returns (k: int)
    requires FirstUnit(ps, item, k0, n).Some?
    ensures k0 <= k < k0 + n && MonthUnit(ps, item, k) == FirstUnit(ps, item, k0, n)
    ensures forall m :: k0 <= m < k ==> MonthUnit(ps, item, m).None?
  {
    if FirstUnit(ps, item, k0, n - 1).Some? {
      k := FirstUnitIsFirst(ps, item, k0, n - 1);
    } else {
      FirstUnitNone(ps, item, k0, n - 1);
      k := k0 + n - 1;
    }
  }

  /** No unit is reported exactly when no month offers one. */
  lemma {:induction false} FirstUnitNone(ps: seq<Posting>, item: string, k0: int, n: nat)
    ensures FirstUnit(ps, item, k0, n).None? <==> forall m :: k0 <= m < k0 + n ==> MonthUnit(ps, item, m).None?
  {
    if n > 0 {
      FirstUnitNone(ps, item, k0, n - 1);
    }
  }

  /** A month's unit is the unit of one of that month's purchase lines of
      the item, or, when none of those has a non-empty unit, of one of its
      sales lines. */
  lemma MonthUnitFrom(ps: seq<Posting>, item: string, k: int) returns (i: nat)
    requires MonthUnit(ps, item, k).Some?
    ensures i < |ps| && ps[i].unit == MonthUnit(ps, item, k)
    ensures Counts(ps[i], item, Purchase, MonthWindow(k)) || Counts(ps[i], item, Sales, MonthWindow(k))
  {
    if Truthy(MaxUnit(ps, item, Purchase, MonthWindow(k))) {
      i := MaxUnitWitness(ps, item, Purchase, MonthWindow(k));
    } else {
      i := MaxUnitWitness(ps, item, Sales, MonthWindow(k));
    }
  }

  /** One month of `_compute_item_monthly`: the quantity bought and sold in
      month k, the row that moves the running balance by them, and the unit
      found so far, or else the unit this month offers. */
  method MonthStep(ps: seq<Posting>, item: string, k: int, running: real, unit: Option<string>)
    returns (row: MonthRow, balance: real, found: Option<string>)
    requires unit.Some? ==> unit.value != ""
    ensures var inward := Qty(ps, item, Purchase, MonthWindow(k));
      var outward := Qty(ps, item, Sales, MonthWindow(k));
      && balance == running + inward - outward
      && row == MonthRow(k, running, inward, outward, balance)
    ensures found == if unit.Some? then unit else MonthUnit(ps, item, k)
  {
    var window := Window(Some(MonthStart(k)), Some(MonthEnd(k)));
    found := unit;
    var inward := Qty(ps, item, Purchase, window);
    var inwardUnit := MaxUnit(ps, item, Purchase, window);
    if Truthy(inwardUnit) && !Truthy(found) {
      found := inwardUnit;
    }
    var outward := Qty(ps, item, Sales, window);
    var outwardUnit := MaxUnit(ps, item, Sales, window);
    if Truthy(outwardUnit) && !Truthy(found) {
      found := outwardUnit;
    }
    balance := running + inward - outward;
    row := MonthRow(k, running, inward, outward, balance);
  }

  /** The rows, running balance and unit after the first j months from k0. */
  predicate Walked(ps: seq<Posting>, item: string, opening: real, k0: int, j: nat,
                   rows: seq<MonthRow>, balance: real, unit: Option<string>) {
    && rows == MonthRows(ps, item, opening, k0, j)
    && balance == Balance(ps, item, opening, k0, j)
    && unit == FirstUnit(ps, item, k0, j)
  }

  /** Month k extends the history from k0 by its row, moves the balance by
      its inward and outward, and supplies the unit when none was found. */
  lemma MonthlyStep(ps: seq<Posting>, item: string, opening: real, k0: int, k: int,
                    rows: seq<MonthRow>, balance: real, unit: Option<string>,
                    row: MonthRow, balance': real, unit': Option<string>)
    requires k0 <= k && Walked(ps, item, opening, k0, k - k0, rows, balance, unit)
    requires var inward := Qty(ps, item, Purchase, MonthWindow(k));
      var outward := Qty(ps, item, Sales, MonthWindow(k));
      && balance' == balance + inward - outward
      && row == MonthRow(k, balance, inward, outward, balance')
    requires unit' == if unit.Some? then unit else MonthUnit(ps, item, k)
    ensures Walked(ps, item, opening, k0, k + 1 - k0, rows + [row], balance', unit')
  {
    var j := k - k0;
    assert k0 + j == k && k0 + (j + 1) - 1 == k && k + 1 - k0 == j + 1;
    MonthRowsStep(ps, item, opening, k0, j);
    assert unit' == FirstUnit(ps, item, k0, j + 1);
  }

  /** `_compute_item_monthly`: one row per month from the first of the month
      `months` months before today while that month has begun, the running
      balance starting at `opening`; it returns the rows, the final balance
      and the first unit found, purchases before sales within a month. */
  method ItemMonthly(ps: seq<Posting>, item: string, months: int, opening: real, today: Date)
    returns (rows: seq<MonthRow>, closing: real, unit: Option<string>)
    requires Valid(today)
    ensures var k0 := StartMonth(today, months);
      var n := if months >= 0 then months + 1 else 0;
      && rows == MonthRows(ps, item, opening, k0, n)
      && closing == Balance(ps, item, opening, k0, n)
      && unit == FirstUnit(ps, item, k0, n)
  {
    var k0 := StartMonth(today, months);
    var k := k0;
    var currentMonth := MonthStart(k);
    rows := [];
    var runningBalance := opening;
    unit := None;
    while LessEq(currentMonth, today)
      invariant k0 <= k && currentMonth == MonthStart(k)
      invariant months >= 0 ==> k <= MonthIndex(today) + 1
      invariant months < 0 ==> k == k0
      invariant Walked(ps, item, opening, k0, k - k0, rows, runningBalance, unit)
      decreases MonthIndex(today) - k
    {
      MonthStartNotAfter(k, today);
      var row, balance, found := MonthStep(ps, item, k, runningBalance, unit);
      MonthlyStep(ps, item, opening, k0, k, rows, runningBalance, unit, row, balance, found);
      rows, runningBalance, unit := rows + [row], balance, found;
      k := k + 1;
      currentMonth := MonthStart(k);
    }
    MonthsWalked(today, months, k);
    closing := runningBalance;
  }

  // ---------------------------------------------------------------------
  // Inventory of every item (`item_inventory`, `item_inventory_detail`)

  /** The pairs the opening lookup is built from: each stock item with a
      non-empty name gives its name and opening. */
  function OpeningEntries(items: seq<StockItem>): seq<Option<(string, real)>> {
    seq(|items|, i requires 0 <= i < |items| =>
      if items[i].name != "" then Some((items[i].name, items[i].openingBalance)) else None)
  }

  /** The pairs the unit lookup is built from: a stock item gives its name
      and unit only when both are non-empty. */
  function UnitEntries(items: seq<StockItem>): seq<Option<(string, string)>> {
    seq(|items|, i requires 0 <= i < |items| =>
      if items[i].name != "" && items[i].unitName != "" then Some((items[i].name, items[i].unitName)) else None)
  }

  /** The two lookups built over the stock items in table order: a later
      item with the same name overwrites the opening, and overwrites the
      unit only when it has one. */
  method MasterMaps(items: seq<StockItem>) returns (openingMap: map<string, real>, unitMap: map<string, string>)
    ensures forall name :: (name in openingMap <==> LastValue(OpeningEntries(items), name).Some?)
                           && (name in openingMap ==> openingMap[name] == LastValue(OpeningEntries(items), name).value)
    ensures forall name :: (name in unitMap <==> LastValue(UnitEntries(items), name).Some?)
                           && (name in unitMap ==> unitMap[name] == LastValue(UnitEntries(items), name).value)
  {
    ghost var openings := OpeningEntries(items);
    ghost var units := UnitEntries(items);
    openingMap := map[];
    unitMap := map[];
    for i := 0 to |items|
      invariant forall name :: (name in openingMap <==> LastValue(openings[..i], name).Some?)
                               && (name in openingMap ==> openingMap[name] == LastValue(openings[..i], name).value)
      invariant forall name :: (name in unitMap <==> LastValue(units[..i], name).Some?)
                               && (name in unitMap ==> unitMap[name] == LastValue(units[..i], name).value)
    {
      assert openings[..i + 1][..i] == openings[..i];
      assert units[..i + 1][..i] == units[..i];
      assert openings[..i + 1][i] == openings[i];
      assert units[..i + 1][i] == units[i];
      var si := items[i];
      if si.name != "" {
        openingMap := openingMap[si.name := si.openingBalance];
        if si.unitName != "" {
          unitMap := unitMap[si.name := si.unitName];
        }
      }
    }
    assert openings[..|items|] == openings;
    assert units[..|items|] == units;
  }

  /** The lookups hold, for a non-empty name, the opening of the last stock
      item with that name, and the unit of the last one with a unit; the
      index of that item is returned. */
  lemma OpeningOfLast(items: seq<StockItem>, name: string) returns (j: nat)
    requires LastValue(OpeningEntries(items), name).Some?
    ensures j < |items| && items[j].name == name && name != ""
    ensures LastValue(OpeningEntries(items), name).value == items[j].openingBalance
    ensures forall i :: j < i < |items| ==> items[i].name != name
  {
    var es := OpeningEntries(items);
    j := LastValueAt(es, name);
    forall i | j < i < |items|
      ensures items[i].name != name
    {
      assert es[i].None? || es[i].value.0 != name;
    }
  }

  /** Every month counts: the number of rows `months` gives. */
  function MonthCount(months: int): nat {
    if months >= 0 then months + 1 else 0
  }

  /** One item of the inventory report. */
  datatype ItemReport = ItemReport(name: string, unit: Option<string>, opening: real,
                                   monthly: seq<MonthRow>, closing: real)

  /** Some month of the history has stock coming in or going out. */
  predicate Moved(rows: seq<MonthRow>) {
    exists j :: 0 <= j < |rows| && (rows[j].inward > 0.0 || rows[j].outward > 0.0)
  }

  /** The report for one line item name: its opening from the lookup, its
      history, and its unit from the history or else from the lookup. */
  function InventoryItem(ps: seq<Posting>, items: seq<StockItem>, name: string, months: int, today: Date): ItemReport {
    var k0 := StartMonth(today, months);
    var n := MonthCount(months);
    var opening := LastValue(OpeningEntries(items), name).GetOr(0.0);
    var u := FirstUnit(ps, name, k0, n);
    ItemReport(name, if u.Some? then u else LastValue(UnitEntries(items), name), opening,
               MonthRows(ps, name, opening, k0, n), Balance(ps, name, opening, k0, n))
  }

  /** The inventory over the distinct line item names, in order: the
      non-empty ones whose history shows movement. */
  function Inventory(ps: seq<Posting>, items: seq<StockItem>, names: seq<string>, months: int, today: Date): seq<ItemReport> {
    if names == [] then []
    else
      var name := names[|names| - 1];
      var r := InventoryItem(ps, items, name, months, today);
      Inventory(ps, items, names[..|names| - 1], months, today) + (if name != "" && Moved(r.monthly) then [r] else [])
  }

  /** Stock of the item came in or went out in month k. */
  predicate MonthMoved(ps: seq<Posting>, item: string, k: int) {
    Qty(ps, item, Purchase, MonthWindow(k)) > 0.0 || Qty(ps, item, Sales, MonthWindow(k)) > 0.0
  }

  /** An item shows movement exactly when one of its months has a positive
      purchase or sales quantity. */
  lemma MovedIff(ps: seq<Posting>, item: string, opening: real, k0: int, n: nat)
    ensures Moved(MonthRows(ps, item, opening, k0, n)) <==> exists k :: k0 <= k < k0 + n && MonthMoved(ps, item, k)
  {
    var rows := MonthRows(ps, item, opening, k0, n);
    if Moved(rows) {
      var j :| 0 <= j < |rows| && (rows[j].inward > 0.0 || rows[j].outward > 0.0);
      RowMoved(ps, item, opening, k0, n, j);
    }
    if exists k :: k0 <= k < k0 + n && MonthMoved(ps, item, k) {
      var k :| k0 <= k < k0 + n && MonthMoved(ps, item, k);
      RowMoved(ps, item, opening, k0, n, k - k0);
    }
  }

  /** Row j of the history shows movement exactly when month k0 + j does. */
  lemma RowMoved(ps: seq<Posting>, item: string, opening: real, k0: int, n: nat, j: nat)
    requires j < n
    ensures var r := MonthRows(ps, item, opening, k0, n)[j];
      (r.inward > 0.0 || r.outward > 0.0) <==> MonthMoved(ps, item, k0 + j)
  {
    assert MonthRows(ps, item, opening, k0, n)[j] == RowAt(ps, item, opening, k0, j);
  }

  /** Every reported item is the report of a non-empty line item name with
      movement. */
  lemma {:induction false} InventorySound(ps: seq<Posting>, items: seq<StockItem>, names: seq<string>, months: int, today: Date)
    ensures var rs := Inventory(ps, items, names, months, today);
      && |rs| <= |names|
      && forall k :: 0 <= k < |rs| ==>
           rs[k] == InventoryItem(ps, items, rs[k].name, months, today)
           && rs[k].name in names && rs[k].name != "" && Moved(rs[k].monthly)
  {
    if names != [] {
      var init := names[..|names| - 1];
      InventorySound(ps, items, init, months, today);
      var before := Inventory(ps, items, init, months, today);
      var rs := Inventory(ps, items, names, months, today);
      assert names == init + [names[|names| - 1]];
      forall k | 0 <= k < |rs|
        ensures rs[k] == InventoryItem(ps, items, rs[k].name, months, today)
             && rs[k].name in names && rs[k].name != "" && Moved(rs[k].monthly)
      {
        if k < |before| {
          assert rs[k] == before[k];
          assert before[k].name in init;
        }
      }
    }
  }

  /** Every non-empty line item name with movement is reported; the index
      of its report is returned. */
  lemma {:induction false} InventoryComplete(ps: seq<Posting>, items: seq<StockItem>, names: seq<string>, months: int,
                                             today: Date, name: string) returns (k: nat)
    requires name in names && name != "" && Moved(InventoryItem(ps, items, name, months, today).monthly)
    ensures var rs := Inventory(ps, items, names, months, today);
      k < |rs| && rs[k].name == name
  {
    var init := names[..|names| - 1];
    assert names == init + [names[|names| - 1]];
    if name == names[|names| - 1] {
      k := |Inventory(ps, items, init, months, today)|;
    } else {
      k := InventoryComplete(ps, items, init, months, today, name);
    }
  }

  /** `item_inventory`: for each line item name, the history from the opening
      in the lookup, reported when some month shows movement. */
  method ItemInventory(ps: seq<Posting>, items: seq<StockItem>, names: seq<string>, months: int, today: Date)
    returns (results: seq<ItemReport>)
    requires Valid(today)
    ensures results == Inventory(ps, items, names, months, today)
  {
    var openingMap, unitMap := MasterMaps(items);
    results := [];
    for i := 0 to |names|
      invariant results == Inventory(ps, items, names[..i], months, today)
    {
      assert names[..i + 1][..i] == names[..i];
      var name := names[i];
      if name == "" {
        continue;
      }
      var opening := if name in openingMap then openingMap[name] else 0.0;
      var monthly, closing, unit := ItemMonthly(ps, name, months, opening, today);
      if !Truthy(unit) {
        unit := if name in unitMap then Some(unitMap[name]) else None;
      }
      if Moved(monthly) {
        results := results + [ItemReport(name, unit, opening, monthly, closing)];
      }
    }
    assert names[..|names|] == names;
  }

  /** `item_inventory_detail`: the history of one item from the opening of
      the first stock item with the name, or 0, reported whether or not it
      moved, with that stock item's unit when the history has none. */
  method ItemInventoryDetail(ps: seq<Posting>, items: seq<StockItem>, name: string, months: int, today: Date)
    returns (r: ItemReport)
    requires Valid(today)
    ensures var si := FirstNamed(items, name);
      var opening := if si.Some? then si.value.openingBalance else 0.0;
      var k0 := StartMonth(today, months);
      var u := FirstUnit(ps, name, k0, MonthCount(months));
      r == ItemReport(name, if u.Some? then u else if si.Some? then Some(si.value.unitName) else None, opening,
                      MonthRows(ps, name, opening, k0, MonthCount(months)), Balance(ps, name, opening, k0, MonthCount(months)))
  {
    var si := FirstNamed(items, name);
    var opening := if si.Some? then si.value.openingBalance else 0.0;
    var unitName := if si.Some? then Some(si.value.unitName) else None;
    var monthly, closing, unit := ItemMonthly(ps, name, months, opening, today);
    if !Truthy(unit) {
      unit := unitName;
    }
    r := ItemReport(name, unit, opening, monthly, closing);
  }

  // ---------------------------------------------------------------------
  // Aging (`aging_report`)

  const BucketLabels: seq<string> := ["0-30", "31-60", "61-90", "91+"]

  datatype AgingBucket = AgingBucket(bucket: string, amount: real)

  /** `due_dt or voucher_dt`. */
  function RefDate(v: Voucher): Option<Date> {
    if v.dueDate.Some? then v.dueDate else v.voucherDate
  }

  predicate RefOk(v: Voucher) {
    RefDate(v).Some? ==> Valid(RefDate(v).value)
  }

  /** Every row's due or voucher date, where it has one, is a calendar date. */
  predicate AllRefOk(rows: seq<Voucher>) {
    forall k :: 0 <= k < |rows| ==> RefOk(rows[k])
  }

  lemma AllRefOkPrefix(rows: seq<Voucher>, i: nat)
    requires i < |rows| && AllRefOk(rows)
    ensures AllRefOk(rows[..i]) && RefOk(rows[i])
  {
  }

  /** Days past the reference date, a date not yet reached counting as 0. */
  function DaysOverdue(today: Date, ref: Date): (r: nat)
    requires Valid(today) && Valid(ref)
    ensures LessEq(today, ref) ==> r == 0
    ensures !LessEq(today, ref) ==> r == DayNumber(today) - DayNumber(ref)
  {
    DayNumberOrder(today, ref);
    DayNumberOrder(ref, today);
    var days := DayNumber(today) - DayNumber(ref);
    if days <= 0 then 0 else days
  }

  /** The bucket of a number of days overdue, as an index into the labels. */
  function BucketOf(days: nat): (b: nat)
    ensures b < 4
    ensures b == 0 <==> days <= 30
    ensures b == 1 <==> 30 < days <= 60
    ensures b == 2 <==> 60 < days <= 90
    ensures b == 3 <==> 90 < days
  {
    if days <= 30 then 0 else if days <= 60 then 1 else if days <= 90 then 2 else 3
  }

  /** The rows the aging query returns: non-cancelled vouchers of the type
      with a positive amount. */
  function AgingRows(vs: seq<Importer.VoucherRow>, kind: string): (r: seq<Voucher>)
    ensures forall k :: 0 <= k < |r| ==> r[k].amount > 0.0
    ensures (forall i :: 0 <= i < |vs| ==> RefOk(vs[i].fields)) ==> AllRefOk(r)
  {
    if vs == [] then []
    else
      var v := vs[|vs| - 1].fields;
      AgingRows(vs[..|vs| - 1], kind)
        + (if Upper(v.voucherType) == kind && !v.isCancelled && v.amount > 0.0 then [v] else [])
  }

  /** The four bucket totals after the rows: a row with neither date is
      passed over, any other adds its amount to the bucket of its days
      overdue. */
  function Totals(rows: seq<Voucher>, today: Date): (t: seq<real>)
    requires Valid(today) && AllRefOk(rows)
    ensures |t| == 4
  {
    if rows == [] then [0.0, 0.0, 0.0, 0.0]
    else
      var t := Totals(rows[..|rows| - 1], today);
      var v := rows[|rows| - 1];
      if RefDate(v).None? then t
      else
        assert RefOk(rows[|rows| - 1]);
        var b := BucketOf(DaysOverdue(today, RefDate(v).value));
        t[b := t[b] + v.amount]
  }

  /** The amounts of the rows with a due or voucher date. */
  function DatedAmount(rows: seq<Voucher>): real {
    if rows == [] then 0.0
    else DatedAmount(rows[..|rows| - 1]) + (if RefDate(rows[|rows| - 1]).Some? then rows[|rows| - 1].amount else 0.0)
  }

  /** The buckets share out exactly the amounts of the dated rows, and with
      positive amounts no bucket is negative. */
  lemma {:induction false} TotalsSum(rows: seq<Voucher>, today: Date)
    requires Valid(today) && AllRefOk(rows)
    ensures var t := Totals(rows, today);
      t[0] + t[1] + t[2] + t[3] == DatedAmount(rows)
    ensures (forall k :: 0 <= k < |rows| ==> rows[k].amount > 0.0) ==> forall b :: 0 <= b < 4 ==> Totals(rows, today)[b] >= 0.0
  {
    if rows != [] {
      TotalsSum(rows[..|rows| - 1], today);
    }
  }

  /** `Totals` after one more row, in terms of the totals before it. */
  lemma TotalsSnoc(rows: seq<Voucher>, v: Voucher, today: Date)
    requires Valid(today) && RefOk(v) && AllRefOk(rows)
    ensures RefDate(v).None? ==> Totals(rows + [v], today) == Totals(rows, today)
    ensures RefDate(v).Some? ==>
      var b := BucketOf(DaysOverdue(today, RefDate(v).value));
      Totals(rows + [v], today) == Totals(rows, today)[b := Totals(rows, today)[b] + v.amount]
  {
    assert (rows + [v])[..|rows|] == rows;
  }

  /** One more row changes exactly one bucket, the one of its days overdue,
      by its amount; a row with neither date changes none. */
  lemma TotalsStep(rows: seq<Voucher>, v: Voucher, today: Date)
    requires Valid(today) && RefOk(v) && AllRefOk(rows)
    ensures var before := Totals(rows, today);
      var after := Totals(rows + [v], today);
      && (RefDate(v).None? ==> after == before)
      && (RefDate(v).Some? ==>
            var b := BucketOf(DaysOverdue(today, RefDate(v).value));
            after[b] == before[b] + v.amount && forall c :: 0 <= c < 4 && c != b ==> after[c] == before[c])
  {
    TotalsSnoc(rows, v, today);
  }

  /** One row of the aging loop: a row with neither date is passed over,
      any other adds its amount to the bucket of its days overdue. */
  method AgeRow(amounts: seq<real>, v: Voucher, today: Date) returns (next: seq<real>)
    requires Valid(today) && RefOk(v) && |amounts| == 4
    ensures RefDate(v).None? ==> next == amounts
    ensures RefDate(v).Some? ==>
      var b := BucketOf(DaysOverdue(today, RefDate(v).value));
      next == amounts[b := amounts[b] + v.amount]
  {
    var refDate := RefDate(v);
    if refDate.None? {
      return amounts;
    }
    var daysOverdue := DayNumber(today) - DayNumber(refDate.value);
    if daysOverdue <= 0 {
      daysOverdue := 0;
    }
    assert daysOverdue == DaysOverdue(today, refDate.value);
    var bucket: nat;
    if daysOverdue <= 30 {
      bucket := 0;
    } else if daysOverdue <= 60 {
      bucket := 1;
    } else if daysOverdue <= 90 {
      bucket := 2;
    } else {
      bucket := 3;
    }
    assert bucket == BucketOf(daysOverdue);
    next := amounts[bucket := amounts[bucket] + v.amount];
  }

  /** The aging of one voucher type: the four buckets in their fixed order
      with their totals. */
  method AgingForType(vs: seq<Importer.VoucherRow>, kind: string, today: Date) returns (buckets: seq<AgingBucket>)
    requires Valid(today) && forall i :: 0 <= i < |vs| ==> RefOk(vs[i].fields)
    ensures var t := Totals(AgingRows(vs, kind), today);
      |buckets| == 4 && forall b :: 0 <= b < 4 ==> buckets[b] == AgingBucket(BucketLabels[b], t[b])
  {
    var rows := AgingRows(vs, kind);
    var amounts := [0.0, 0.0, 0.0, 0.0];
    for i := 0 to |rows|
      invariant amounts == Totals(rows[..i], today)
    {
      assert rows[..i + 1] == rows[..i] + [rows[i]];
      AllRefOkPrefix(rows, i);
      TotalsSnoc(rows[..i], rows[i], today);
      amounts := AgeRow(amounts, rows[i], today);
    }
    assert rows[..|rows|] == rows;
    buckets := [AgingBucket("0-30", amounts[0]), AgingBucket("31-60", amounts[1]),
                AgingBucket("61-90", amounts[2]), AgingBucket("91+", amounts[3])];
  }

  /** `aging_report`: receivables from sales and payables from purchases. */
  method AgingReport(vs: seq<Importer.VoucherRow>, today: Date) returns (receivables: seq<AgingBucket>, payables: seq<AgingBucket>)
    requires Valid(today) && forall i :: 0 <= i < |vs| ==> RefOk(vs[i].fields)
    ensures var ts := Totals(AgingRows(vs, "SALES"), today);
      |receivables| == 4 && forall b :: 0 <= b < 4 ==> receivables[b] == AgingBucket(BucketLabels[b], ts[b])
    ensures var tp := Totals(AgingRows(vs, "PURCHASE"), today);
      |payables| == 4 && forall b :: 0 <= b < 4 ==> payables[b] == AgingBucket(BucketLabels[b], tp[b])
  {
    receivables := AgingForType(vs, "SALES", today);
    payables := AgingForType(vs, "PURCHASE", today);
  }
}
