/** The stock queries the report endpoints share: voucher lines joined with
    their vouchers, and the quantity sums and unit maxima the endpoints ask
    the database for, per item, voucher type and date window. Inward stock is
    what "PURCHASE" vouchers bring in and outward stock what "SALES" vouchers
    take out; cancelled vouchers never count. */
module StockLedger {
  import opened Wrappers
  import opened Text
  import opened Dates
  import opened TallyParser
  import Importer

  /** One row of `VoucherLine JOIN Voucher`: the line's item, quantity, unit,
      amount and tax flag next to its voucher's company, type, cancellation
      flag and date. */
  datatype Posting = Posting(
    companyId: Option<nat>, item: Option<string>, voucherType: string, cancelled: bool,
    date: Option<Date>, qty: Option<real>, unit: Option<string>, amount: real, isTaxLine: bool)

  function PostingOf(v: Importer.VoucherRow, l: Line): Posting {
    Posting(v.companyId, l.stockItemName, v.fields.voucherType, v.fields.isCancelled,
            v.fields.voucherDate, l.quantity, l.unit, l.amount, l.isTaxLine)
  }

  /** The inner join on `voucher_id == Voucher.id`; voucher ids are positions
      in the voucher table counted from 1. */
  function Join(vs: seq<Importer.VoucherRow>, ls: seq<Importer.LineRow>): seq<Posting> {
    if ls == [] then []
    else
      var l := ls[|ls| - 1];
      Join(vs, ls[..|ls| - 1]) + (if 1 <= l.voucherId <= |vs| then [PostingOf(vs[l.voucherId - 1], l.line)] else [])
  }

  /** A line whose voucher is missing drops out of the join. */
  lemma {:induction false} JoinShorter(vs: seq<Importer.VoucherRow>, ls: seq<Importer.LineRow>)
    ensures |Join(vs, ls)| <= |ls|
  {
    if ls != [] {
      JoinShorter(vs, ls[..|ls| - 1]);
    }
  }

  /** When every line names a stored voucher, the join has one row per
      line, in line order. */
  lemma {:induction false} JoinAll(vs: seq<Importer.VoucherRow>, ls: seq<Importer.LineRow>)
    requires forall i :: 0 <= i < |ls| ==> 1 <= ls[i].voucherId <= |vs|
    ensures |Join(vs, ls)| == |ls|
    ensures forall i :: 0 <= i < |ls| ==> Join(vs, ls)[i] == PostingOf(vs[ls[i].voucherId - 1], ls[i].line)
  {
    if ls != [] {
      var init := ls[..|ls| - 1];
      assert forall i :: 0 <= i < |init| ==> init[i] == ls[i];
      JoinAll(vs, init);
      var j := Join(vs, ls);
      assert j == Join(vs, init) + [PostingOf(vs[ls[|ls| - 1].voucherId - 1], ls[|ls| - 1].line)];
      forall i | 0 <= i < |ls|
        ensures j[i] == PostingOf(vs[ls[i].voucherId - 1], ls[i].line)
      {
        if i < |init| {
          assert j[i] == Join(vs, init)[i];
        }
      }
    }
  }

  const Purchase := "PURCHASE"
  const Sales := "SALES"

  /** The date conditions of a query: an optional lower and upper bound, both
      inclusive. A row without a date fails any bound, as SQL's NULL does. */
  datatype Window = Window(from: Option<Date>, to: Option<Date>)

  const Always := Window(None, None)

  function Since(d: Date): Window {
    Window(Some(d), None)
  }

  /** The month with index k, from its first to its last day. */
  function MonthWindow(k: int): Window {
    Window(Some(MonthStart(k)), Some(MonthEnd(k)))
  }

  /** The n months from index k0 on. */
  function Span(k0: int, n: nat): Window
    requires n >= 1
  {
    Window(Some(MonthStart(k0)), Some(MonthEnd(k0 + n - 1)))
  }

  predicate InWindow(d: Option<Date>, w: Window) {
    && (w.from.Some? ==> d.Some? && LessEq(w.from.value, d.value))
    && (w.to.Some? ==> d.Some? && LessEq(d.value, w.to.value))
  }

  /** The row is a line of `item` on a non-cancelled voucher whose upper-cased
      type is `kind`, dated within `w`. */
  predicate Counts(p: Posting, item: string, kind: string, w: Window) {
    p.item == Some(item) && Upper(p.voucherType) == kind && !p.cancelled && InWindow(p.date, w)
  }

  /** What a row adds to `SUM(quantity)`; a missing quantity adds nothing. */
  function Weight(p: Posting, item: string, kind: string, w: Window): real {
    if Counts(p, item, kind, w) then p.qty.GetOr(0.0) else 0.0
  }

  /** `SUM(quantity)` over the counting rows, with `or 0` turning the sum of
      no rows into zero. */
  function Qty(ps: seq<Posting>, item: string, kind: string, w: Window): real {
    if ps == [] then 0.0 else Qty(ps[..|ps| - 1], item, kind, w) + Weight(ps[|ps| - 1], item, kind, w)
  }

  /** Rows that do not count leave the sum alone. */
  lemma {:induction false} QtyNone(ps: seq<Posting>, item: string, kind: string, w: Window)
    requires forall i :: 0 <= i < |ps| ==> !Counts(ps[i], item, kind, w)
    ensures Qty(ps, item, kind, w) == 0.0
  {
    if ps != [] {
      QtyNone(ps[..|ps| - 1], item, kind, w);
    }
  }

  /** `MAX(unit)` over the counting rows with a unit. */
  function MaxUnit(ps: seq<Posting>, item: string, kind: string, w: Window): Option<string> {
    if ps == [] then None
    else
      var m := MaxUnit(ps[..|ps| - 1], item, kind, w);
      var p := ps[|ps| - 1];
      if Counts(p, item, kind, w) && p.unit.Some? && (m.None? || LexLe(m.value, p.unit.value)) then p.unit
      else m
  }

  /** The maximum is the unit of some counting row. */
  lemma {:induction false} MaxUnitWitness(ps: seq<Posting>, item: string, kind: string, w: Window) returns (i: nat)
    requires MaxUnit(ps, item, kind, w).Some?
    ensures i < |ps| && Counts(ps[i], item, kind, w) && ps[i].unit == MaxUnit(ps, item, kind, w)
  {
    var p := ps[|ps| - 1];
    if MaxUnit(ps, item, kind, w) == MaxUnit(ps[..|ps| - 1], item, kind, w) && MaxUnit(ps[..|ps| - 1], item, kind, w).Some? {
      i := MaxUnitWitness(ps[..|ps| - 1], item, kind, w);
    } else {
      i := |ps| - 1;
    }
  }

  /** No counting row has a larger unit, and there is a maximum as soon as
      some counting row has a unit. */
  lemma {:induction false} MaxUnitUpper(ps: seq<Posting>, item: string, kind: string, w: Window, j: nat)
    requires j < |ps| && Counts(ps[j], item, kind, w) && ps[j].unit.Some?
    ensures MaxUnit(ps, item, kind, w).Some? && LexLe(ps[j].unit.value, MaxUnit(ps, item, kind, w).value)
  {
    var init := ps[..|ps| - 1];
    var m := MaxUnit(init, item, kind, w);
    var p := ps[|ps| - 1];
    if j < |ps| - 1 {
      assert init[j] == ps[j];
      MaxUnitUpper(init, item, kind, w, j);
      if Counts(p, item, kind, w) && p.unit.Some? && LexLe(m.value, p.unit.value) {
        LexLeTrans(ps[j].unit.value, m.value, p.unit.value);
      }
    } else {
      if m.Some? && !LexLe(m.value, p.unit.value) {
        LexLeTotal(m.value, p.unit.value);
      } else {
        LexLeTotal(p.unit.value, p.unit.value);
      }
    }
  }

  /** Without any counting row that has a unit the maximum is absent. */
  lemma {:induction false} MaxUnitNone(ps: seq<Posting>, item: string, kind: string, w: Window)
    requires forall i :: 0 <= i < |ps| ==> !(Counts(ps[i], item, kind, w) && ps[i].unit.Some?)
    ensures MaxUnit(ps, item, kind, w).None?
  {
    if ps != [] {
      MaxUnitNone(ps[..|ps| - 1], item, kind, w);
    }
  }

  /** Dates stored in the database are real calendar dates. */
  predicate DatesValid(ps: seq<Posting>) {
    forall i :: 0 <= i < |ps| && ps[i].date.Some? ==> Valid(ps[i].date.value)
  }

  /** A valid date is on or after the first of month k0 exactly when its month
      index is at least k0, and on or before the last of month k1 exactly
      when its month index is at most k1. */
  lemma MonthBounds(d: Date, k0: int, k1: int)
    requires Valid(d)
    ensures LessEq(MonthStart(k0), d) <==> k0 <= MonthIndex(d)
    ensures LessEq(d, MonthEnd(k1)) <==> MonthIndex(d) <= k1
  {
  }

  /** Walking months: the first of month k is on or before a valid `today`
      exactly when k is at most today's month index. */
  lemma MonthStartNotAfter(k: int, today: Date)
    requires Valid(today)
    ensures LessEq(MonthStart(k), today) <==> k <= MonthIndex(today)
  {
    MonthBounds(today, k, k);
  }

  /** A walk from the first of the month `months` months before today that
      stops at the first month not yet begun has taken `months + 1` steps, or
      none when `months` is negative. */
  lemma MonthsWalked(today: Date, months: int, k: int)
    requires Valid(today)
    requires StartMonth(today, months) <= k && !LessEq(MonthStart(k), today)
    requires months >= 0 ==> k <= MonthIndex(today) + 1
    requires months < 0 ==> k == StartMonth(today, months)
    ensures k - StartMonth(today, months) == if months >= 0 then months + 1 else 0
  {
    MonthStartNotAfter(k, today);
  }

  /** The sum of the monthly sums over n months. */
  function MonthsQty(ps: seq<Posting>, item: string, kind: string, k0: int, n: nat): real {
    if n == 0 then 0.0 else MonthsQty(ps, item, kind, k0, n - 1) + Qty(ps, item, kind, MonthWindow(k0 + n - 1))
  }

  /** What one row adds to the monthly sums over n months. */
  function MonthsWeight(p: Posting, item: string, kind: string, k0: int, n: nat): real {
    if n == 0 then 0.0 else MonthsWeight(p, item, kind, k0, n - 1) + Weight(p, item, kind, MonthWindow(k0 + n - 1))
  }

  lemma {:induction false} MonthsQtySnoc(ps: seq<Posting>, item: string, kind: string, k0: int, n: nat)
    requires ps != []
    ensures MonthsQty(ps, item, kind, k0, n)
         == MonthsQty(ps[..|ps| - 1], item, kind, k0, n) + MonthsWeight(ps[|ps| - 1], item, kind, k0, n)
  {
    if n > 0 {
      MonthsQtySnoc(ps, item, kind, k0, n - 1);
    }
  }

  /** A dated row lands in at most one of the months: in the one its date
      falls in when that lies in the span. */
  lemma {:induction false} MonthsWeightSpan(p: Posting, item: string, kind: string, k0: int, n: nat)
    requires n >= 1 && (p.date.Some? ==> Valid(p.date.value))
    ensures MonthsWeight(p, item, kind, k0, n) == Weight(p, item, kind, Span(k0, n))
  {
    if n > 1 {
      MonthsWeightSpan(p, item, kind, k0, n - 1);
      if p.date.Some? {
        MonthBounds(p.date.value, k0, k0 + n - 2);
        MonthBounds(p.date.value, k0 + n - 1, k0 + n - 1);
        MonthBounds(p.date.value, k0, k0 + n - 1);
      }
    }
  }

  /** Summing month by month gives the sum over the whole span of months. */
  lemma {:induction false} MonthsCoverSpan(ps: seq<Posting>, item: string, kind: string, k0: int, n: nat)
    requires n >= 1 && DatesValid(ps)
    ensures MonthsQty(ps, item, kind, k0, n) == Qty(ps, item, kind, Span(k0, n))
  {
    if ps == [] {
      MonthsQtyEmpty(item, kind, k0, n);
    } else {
      var init := ps[..|ps| - 1];
      assert DatesValid(init) by {
        forall i | 0 <= i < |init| && init[i].date.Some?
          ensures Valid(init[i].date.value)
        {
          assert init[i] == ps[i];
        }
      }
      MonthsCoverSpan(init, item, kind, k0, n);
      MonthsQtySnoc(ps, item, kind, k0, n);
      MonthsWeightSpan(ps[|ps| - 1], item, kind, k0, n);
    }
  }

  lemma {:induction false} MonthsQtyEmpty(item: string, kind: string, k0: int, n: nat)
    ensures MonthsQty([], item, kind, k0, n) == 0.0
  {
    if n > 0 {
      MonthsQtyEmpty(item, kind, k0, n - 1);
    }
  }

  /** The running balance after the first j of the months from k0: the
      opening plus each month's inward minus its outward. */
  function Balance(ps: seq<Posting>, item: string, opening: real, k0: int, j: nat): real {
    if j == 0 then opening
    else Balance(ps, item, opening, k0, j - 1)
         + Qty(ps, item, Purchase, MonthWindow(k0 + j - 1)) - Qty(ps, item, Sales, MonthWindow(k0 + j - 1))
  }

  /** One month of an item's history; `month` is the month index the label
      `%Y-%m` names. */
  datatype MonthRow = MonthRow(month: int, opening: real, inward: real, outward: real, closing: real)

  function RowAt(ps: seq<Posting>, item: string, opening: real, k0: int, j: nat): MonthRow {
    MonthRow(k0 + j, Balance(ps, item, opening, k0, j), Qty(ps, item, Purchase, MonthWindow(k0 + j)),
             Qty(ps, item, Sales, MonthWindow(k0 + j)), Balance(ps, item, opening, k0, j + 1))
  }

  /** The history of n months from k0. */
  function MonthRows(ps: seq<Posting>, item: string, opening: real, k0: int, n: nat): (r: seq<MonthRow>)
    ensures |r| == n
  {
    seq(n, j requires 0 <= j < n => RowAt(ps, item, opening, k0, j))
  }

  /** A history one month longer is the shorter one and that month's row. */
  lemma MonthRowsSnoc(ps: seq<Posting>, item: string, opening: real, k0: int, n: nat)
    ensures MonthRows(ps, item, opening, k0, n + 1) == MonthRows(ps, item, opening, k0, n) + [RowAt(ps, item, opening, k0, n)]
  {
    var a := MonthRows(ps, item, opening, k0, n + 1);
    var b := MonthRows(ps, item, opening, k0, n) + [RowAt(ps, item, opening, k0, n)];
    assert forall j :: 0 <= j < n + 1 ==> a[j] == b[j];
  }

  /** One more month: its row opens at the balance so far and closes at the
      balance after it. */
  lemma MonthRowsStep(ps: seq<Posting>, item: string, opening: real, k0: int, n: nat)
    ensures var inward := Qty(ps, item, Purchase, MonthWindow(k0 + n));
      var outward := Qty(ps, item, Sales, MonthWindow(k0 + n));
      var b := Balance(ps, item, opening, k0, n);
      && Balance(ps, item, opening, k0, n + 1) == b + inward - outward
      && MonthRows(ps, item, opening, k0, n + 1)
         == MonthRows(ps, item, opening, k0, n) + [MonthRow(k0 + n, b, inward, outward, b + inward - outward)]
  {
    MonthRowsSnoc(ps, item, opening, k0, n);
  }

  /** The balance telescopes: after n months it is the opening plus all
      inward minus all outward of those months. */
  lemma {:induction false} BalanceTotal(ps: seq<Posting>, item: string, opening: real, k0: int, n: nat)
    ensures Balance(ps, item, opening, k0, n)
         == opening + MonthsQty(ps, item, Purchase, k0, n) - MonthsQty(ps, item, Sales, k0, n)
  {
    if n > 0 {
      BalanceTotal(ps, item, opening, k0, n - 1);
    }
  }

  /** A history of n months: consecutive months, the first opening at the
      given opening, each later one opening at the previous closing, every
      closing the opening plus inward minus outward, and the last closing the
      opening plus the inward minus the outward of the whole span. */
  lemma MonthRowsChain(ps: seq<Posting>, item: string, opening: real, k0: int, n: nat)
    requires DatesValid(ps)
    ensures var rows := MonthRows(ps, item, opening, k0, n);
      && (forall j :: 0 <= j < n ==> rows[j].month == k0 + j)
      && (n > 0 ==> rows[0].opening == opening)
      && (forall j :: 0 < j < n ==> rows[j].opening == rows[j - 1].closing)
      && (forall j :: 0 <= j < n ==> rows[j].closing == rows[j].opening + rows[j].inward - rows[j].outward)
      && (n > 0 ==> rows[n - 1].closing
                    == opening + Qty(ps, item, Purchase, Span(k0, n)) - Qty(ps, item, Sales, Span(k0, n)))
  {
    if n > 0 {
      BalanceTotal(ps, item, opening, k0, n);
      MonthsCoverSpan(ps, item, Purchase, k0, n);
      MonthsCoverSpan(ps, item, Sales, k0, n);
    }
  }

  /** `.first()` of the stock items with the name. */
  function FirstNamed(items: seq<StockItem>, name: string): (r: Option<StockItem>)
    ensures r.Some? ==> r.value in items && r.value.name == name
    ensures r.None? ==> forall i :: 0 <= i < |items| ==> items[i].name != name
  {
    if items == [] then None
    else if items[0].name == name then Some(items[0])
    else FirstNamed(items[1..], name)
  }

  /** The month index `months` months before today: the history starts on
      its first day. */
  function StartMonth(today: Date, months: int): int {
    MonthIndex(MonthsBefore(today, months))
  }
}
