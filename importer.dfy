/** The upsert layer of the importer: parsed companies, masters and vouchers
    written into the store, found again by their natural keys, and the import
    log of one file. The store's tables are sequences of rows; a row's id is
    its position plus one, as rows are never deleted (voucher lines aside). */
module Importer {
  import opened Wrappers
  import opened Dates
  import opened XmlTree
  import opened TallyParser
  import Sanitizer

  // -------------------------------------------------------------- lookups

  /** The index of the first row `p` accepts (`select ... .first()`). */
  function FirstWhere<T>(rows: seq<T>, p: T -> bool): (r: Option<nat>)
    ensures r.Some? ==> r.value < |rows| && p(rows[r.value])
    ensures r.Some? ==> forall j :: 0 <= j < r.value ==> !p(rows[j])
    ensures r.None? ==> forall j :: 0 <= j < |rows| ==> !p(rows[j])
  {
    if rows == [] then None
    else if p(rows[0]) then Some(0)
    else match FirstWhere(rows[1..], p)
      case Some(i) => Some(i + 1)
      case None => None
  }

  /** `v or old` for a field the update only overwrites with a truthy value. */
  function Truthier(stored: Option<string>, data: Option<string>): Option<string> {
    if data.Some? && data.value != [] then data else stored
  }

  /** `v if v is not None else old`. */
  function Newer<T>(stored: Option<T>, data: Option<T>): Option<T> {
    if data.Some? then data else stored
  }

  // ------------------------------------------------------------ companies

  /** The update of `_upsert_company`: each truthy field of `data` overwrites
      the stored one. */
  function MergeCompany(stored: Company, data: Company): Company {
    Company(Truthier(stored.name, data.name), Truthier(stored.gstin, data.gstin),
            Truthier(stored.address, data.address), Truthier(stored.state, data.state),
            Truthier(stored.pincode, data.pincode), Truthier(stored.email, data.email),
            Truthier(stored.phone, data.phone))
  }

  /** Merging the same data twice is merging it once, and data merged into a
      copy of itself is unchanged. */
  lemma MergeCompanyIdempotent(stored: Company, data: Company)
    ensures MergeCompany(MergeCompany(stored, data), data) == MergeCompany(stored, data)
    ensures MergeCompany(data, data) == data
  {
  }

  function CompanyIndex(rows: seq<Company>, name: string): Option<nat> {
    FirstWhere(rows, (c: Company) => c.name == Some(name))
  }

  /** `_upsert_company` on the company table: nothing without a name; the first
      company of that name updated in place; else a new company. The id is the
      row's position plus one. */
  function UpsertedCompanies(rows: seq<Company>, data: Company): (r: (seq<Company>, Option<nat>))
    ensures data.name.None? || data.name.value == [] ==> r == (rows, None)
    ensures r.1.Some? ==> 1 <= r.1.value <= |r.0| && r.0[r.1.value - 1].name == data.name
    ensures r.1.Some? && CompanyIndex(rows, data.name.value).None? ==> r.0 == rows + [data]
    ensures r.1.Some? && CompanyIndex(rows, data.name.value).Some? ==>
      var i := CompanyIndex(rows, data.name.value).value;
      r.0 == rows[i := MergeCompany(rows[i], data)] && r.1.value == i + 1
  {
    if data.name.None? || data.name.value == [] then (rows, None)
    else match CompanyIndex(rows, data.name.value)
      case Some(i) => (rows[i := MergeCompany(rows[i], data)], Some(i + 1))
      case None => (rows + [data], Some(|rows| + 1))
  }

  /** No two companies share a name. */
  predicate CompanyNamesUnique(rows: seq<Company>) {
    forall i, j :: 0 <= i < j < |rows| ==> rows[i].name != rows[j].name
  }

  lemma UpsertedCompaniesKeepNamesUnique(rows: seq<Company>, data: Company)
    requires CompanyNamesUnique(rows)
    ensures CompanyNamesUnique(UpsertedCompanies(rows, data).0)
  {
    if data.name.Some? && data.name.value != [] {
      var r := UpsertedCompanies(rows, data).0;
      var idx := CompanyIndex(rows, data.name.value);
      if idx.None? {
        forall i, j | 0 <= i < j < |r| ensures r[i].name != r[j].name {
          if j == |rows| {
            assert rows[i].name != Some(data.name.value);
          } else {
            assert r[i] == rows[i] && r[j] == rows[j];
          }
        }
      }
    }
  }

  // --------------------------------------------------------------- masters

  /** A stored master row: the company it belongs to and its fields. */
  datatype Owned<T> = Owned(companyId: Option<nat>, value: T)

  /** The first row of `rows` with that name in that company. */
  function RowIndex<T>(rows: seq<Owned<T>>, key: string, cid: Option<nat>, name: T -> string): Option<nat> {
    FirstWhere(rows, (r: Owned<T>) => name(r.value) == key && r.companyId == cid)
  }

  /** The upsert of a ledger, unit or stock item, keyed on (name, company):
      the first matching row becomes `merge(stored, data)`, or `data` is
      appended under the company. */
  function Upserted<T>(rows: seq<Owned<T>>, data: T, cid: Option<nat>, name: T -> string, merge: (T, T) -> T)
    : (r: seq<Owned<T>>)
  {
    match RowIndex(rows, name(data), cid, name)
    case Some(i) => rows[i := Owned(cid, merge(rows[i].value, data))]
    case None => rows + [Owned(cid, data)]
  }

  /** No two rows of one company share a name. */
  predicate KeysUnique<T>(rows: seq<Owned<T>>, name: T -> string) {
    forall i, j :: 0 <= i < j < |rows| ==>
      rows[i].companyId != rows[j].companyId || name(rows[i].value) != name(rows[j].value)
  }

  /** After the upsert the key is present exactly once more than nowhere: the
      table grows by one row exactly when the key was new, the row under the
      key holds the merged (or new) data, and every other row is unchanged. */
  lemma UpsertedFindsKey<T>(rows: seq<Owned<T>>, data: T, cid: Option<nat>, name: T -> string, merge: (T, T) -> T)
    requires forall a: T, b: T :: name(merge(a, b)) == name(b)
    ensures var r := Upserted(rows, data, cid, name, merge);
      var before := RowIndex(rows, name(data), cid, name);
      var after := RowIndex(r, name(data), cid, name);
      after.Some?
      && (before.None? <==> |r| == |rows| + 1)
      && (before.Some? ==> |r| == |rows| && after == before && r[after.value].value == merge(rows[before.value].value, data))
      && (before.None? ==> after == Some(|rows|) && r[|rows|] == Owned(cid, data))
      && forall i :: 0 <= i < |rows| && Some(i) != before ==> r[i] == rows[i]
  {
    var r := Upserted(rows, data, cid, name, merge);
    var before := RowIndex(rows, name(data), cid, name);
    var p := (x: Owned<T>) => name(x.value) == name(data) && x.companyId == cid;
    if before.Some? {
      assert name(merge(rows[before.value].value, data)) == name(data);
      assert p(r[before.value]);
      forall j | 0 <= j < before.value ensures !p(r[j]) {
        assert r[j] == rows[j];
      }
      FirstIsUnique(r, p, before.value);
    } else {
      assert p(r[|rows|]);
      forall j | 0 <= j < |rows| ensures !p(r[j]) {
        assert r[j] == rows[j];
      }
      FirstIsUnique(r, p, |rows|);
    }
  }

  /** An index that `p` accepts with no accepted index before it is the one
      `FirstWhere` finds. */
  lemma FirstIsUnique<T>(rows: seq<T>, p: T -> bool, i: nat)
    requires i < |rows| && p(rows[i]) && forall j :: 0 <= j < i ==> !p(rows[j])
    ensures FirstWhere(rows, p) == Some(i)
  {
  }

  /** The upsert never gives one company two rows of the same name. */
  lemma UpsertedKeepsKeysUnique<T>(rows: seq<Owned<T>>, data: T, cid: Option<nat>, name: T -> string, merge: (T, T) -> T)
    requires forall a: T, b: T :: name(merge(a, b)) == name(b)
    requires KeysUnique(rows, name)
    ensures KeysUnique(Upserted(rows, data, cid, name, merge), name)
  {
    var r := Upserted(rows, data, cid, name, merge);
    var idx := RowIndex(rows, name(data), cid, name);
    forall i, j | 0 <= i < j < |r|
      ensures r[i].companyId != r[j].companyId || name(r[i].value) != name(r[j].value)
    {
      if idx.Some? {
        var k := idx.value;
        assert name(merge(rows[k].value, data)) == name(data);
        assert name(r[k].value) == name(rows[k].value) && r[k].companyId == rows[k].companyId;
        assert name(r[i].value) == name(rows[i].value) && r[i].companyId == rows[i].companyId;
        assert name(r[j].value) == name(rows[j].value) && r[j].companyId == rows[j].companyId;
      } else if j == |rows| {
        assert !(name(rows[i].value) == name(data) && rows[i].companyId == cid);
      } else {
        assert r[i] == rows[i] && r[j] == rows[j];
      }
    }
  }

  function LedgerName(l: Ledger): string { l.name }
  function UnitName(u: Unit): string { u.name }
  function StockItemName(s: StockItem): string { s.name }

  /** Every field of a parsed ledger (and of a parsed unit) is set, so the
      update of `_upsert_ledger` and `_upsert_unit` overwrites all of them. */
  function ReplaceLedger(stored: Ledger, data: Ledger): Ledger { data }
  function ReplaceUnit(stored: Unit, data: Unit): Unit { data }

  /** The update of `_upsert_stock_item`: the GST rate and the standard rate,
      the two fields a parsed stock item may leave unset, keep their stored
      values when unset; every other field is overwritten. */
  function MergeStockItem(stored: StockItem, data: StockItem): (r: StockItem)
    ensures r.name == data.name
    ensures data.gstRate.None? ==> r.gstRate == stored.gstRate
    ensures data.standardRate.None? ==> r.standardRate == stored.standardRate
    ensures r.(gstRate := data.gstRate, standardRate := data.standardRate) == data
  {
    data.(gstRate := Newer(stored.gstRate, data.gstRate), standardRate := Newer(stored.standardRate, data.standardRate))
  }

  lemma MastersKeepNames()
    ensures forall a: Ledger, b: Ledger :: LedgerName(ReplaceLedger(a, b)) == LedgerName(b)
    ensures forall a: Unit, b: Unit :: UnitName(ReplaceUnit(a, b)) == UnitName(b)
    ensures forall a: StockItem, b: StockItem :: StockItemName(MergeStockItem(a, b)) == StockItemName(b)
  {
  }

  // -------------------------------------------------------------- vouchers

  /** A stored voucher: its company and its fields (its lines are rows of
      the line table). */
  datatype VoucherRow = VoucherRow(companyId: Option<nat>, fields: Voucher)

  /** A stored line: the id of its voucher and its fields. */
  datatype LineRow = LineRow(voucherId: nat, line: Line)

  /** The lookup of `_upsert_voucher`: by IRN when the voucher has one, else
      by deduplication key. */
  predicate Matches(row: VoucherRow, data: Voucher) {
    if data.irn.Some? then row.fields.irn == data.irn else row.fields.dedupKey == data.dedupKey
  }

  function VoucherIndex(rows: seq<VoucherRow>, data: Voucher): Option<nat> {
    FirstWhere(rows, (r: VoucherRow) => Matches(r, data))
  }

  /** The update of `_upsert_voucher` as written: every field the parsed
      voucher sets overwrites the stored one, the deduplication key
      included; its lines live in the line table. */
  function MergeVoucher(stored: Voucher, data: Voucher): (r: Voucher)
    ensures data.irn.Some? ==> r.irn == data.irn
    ensures data.irn.None? ==> r.irn == stored.irn
    ensures r.dedupKey == data.dedupKey
  {
    data.(voucherDate := Newer(stored.voucherDate, data.voucherDate),
          partyName := Newer(stored.partyName, data.partyName),
          partyLedger := Newer(stored.partyLedger, data.partyLedger),
          irn := Newer(stored.irn, data.irn),
          ackNo := Newer(stored.ackNo, data.ackNo),
          ackDate := Newer(stored.ackDate, data.ackDate),
          dueDate := Newer(stored.dueDate, data.dueDate),
          lines := [])
  }

  /** The update with the stored deduplication key kept: an update reached
      through the IRN no longer re-keys the row. */
  function MergeVoucherKeepingKey(stored: Voucher, data: Voucher): (r: Voucher)
    ensures r.dedupKey == stored.dedupKey
    ensures r == MergeVoucher(stored, data).(dedupKey := stored.dedupKey)
  {
    MergeVoucher(stored, data).(dedupKey := stored.dedupKey)
  }

  /** The fields of a parsed voucher as stored. */
  function Header(data: Voucher): Voucher {
    data.(lines := [])
  }

  /** `_upsert_voucher` on the voucher table with the given update: the new
      rows, the voucher's id and whether it was inserted. */
  function UpsertedVoucher(rows: seq<VoucherRow>, data: Voucher, cid: Option<nat>, merge: (Voucher, Voucher) -> Voucher)
    : (r: (seq<VoucherRow>, nat, bool))
  {
    match VoucherIndex(rows, data)
    case Some(i) => (rows[i := VoucherRow(cid, merge(rows[i].fields, data))], i + 1, false)
    case None => (rows + [VoucherRow(cid, Header(data))], |rows| + 1, true)
  }

  /** A voucher is inserted exactly when no stored voucher matches it; the id
      names the row that now holds it, every other row is unchanged, and on
      an update the unset fields keep their stored values. */
  lemma UpsertedVoucherShape(rows: seq<VoucherRow>, data: Voucher, cid: Option<nat>)
    ensures var (r, id, inserted) := UpsertedVoucher(rows, data, cid, MergeVoucherKeepingKey);
      (inserted <==> forall i :: 0 <= i < |rows| ==> !Matches(rows[i], data))
      && |r| == |rows| + (if inserted then 1 else 0)
      && 1 <= id <= |r| && Matches(r[id - 1], data) && r[id - 1].companyId == cid
      && (forall i :: 0 <= i < |rows| && i != id - 1 ==> r[i] == rows[i])
      && (inserted ==> r[id - 1].fields == Header(data))
      && (!inserted ==>
            var stored := rows[id - 1].fields;
            var now := r[id - 1].fields;
            (data.partyName.None? ==> now.partyName == stored.partyName)
            && (data.partyLedger.None? ==> now.partyLedger == stored.partyLedger)
            && (data.ackNo.None? ==> now.ackNo == stored.ackNo)
            && (data.ackDate.None? ==> now.ackDate == stored.ackDate)
            && (data.dueDate.None? ==> now.dueDate == stored.dueDate)
            && now.amount == data.amount && now.narration == data.narration)
  {
    var idx := VoucherIndex(rows, data);
    if idx.Some? {
      var i := idx.value;
      assert Matches(rows[i], data);
    }
  }

  /** The stored IRNs are distinct (the IRN column is unique). */
  predicate IrnsUnique(rows: seq<VoucherRow>) {
    forall i, j :: 0 <= i < j < |rows| && rows[i].fields.irn.Some? ==> rows[i].fields.irn != rows[j].fields.irn
  }

  /** The upsert never stores an IRN twice, so the unique IRN column never
      rejects it. */
  lemma UpsertedVoucherKeepsIrnsUnique(rows: seq<VoucherRow>, data: Voucher, cid: Option<nat>,
                                       merge: (Voucher, Voucher) -> Voucher)
    requires forall a: Voucher, b: Voucher :: merge(a, b).irn == Newer(a.irn, b.irn)
    requires IrnsUnique(rows)
    ensures IrnsUnique(UpsertedVoucher(rows, data, cid, merge).0)
  {
    var r := UpsertedVoucher(rows, data, cid, merge).0;
    var idx := VoucherIndex(rows, data);
    forall i, j | 0 <= i < j < |r| && r[i].fields.irn.Some? ensures r[i].fields.irn != r[j].fields.irn {
      if idx.Some? {
        var k := idx.value;
        assert merge(rows[k].fields, data).irn == Newer(rows[k].fields.irn, data.irn);
        assert r[k].fields.irn == rows[k].fields.irn;
        assert r[i].fields.irn == rows[i].fields.irn && r[j].fields.irn == rows[j].fields.irn;
      } else if j == |rows| {
        assert !Matches(rows[i], data);
      } else {
        assert r[i] == rows[i] && r[j] == rows[j];
      }
    }
  }

  lemma MergesKeepIrn()
    ensures forall a: Voucher, b: Voucher :: MergeVoucher(a, b).irn == Newer(a.irn, b.irn)
    ensures forall a: Voucher, b: Voucher :: MergeVoucherKeepingKey(a, b).irn == Newer(a.irn, b.irn)
  {
  }

  // ----------------------------------------------------------------- lines

  /** The lines of the other vouchers. */
  function OtherLines(ls: seq<LineRow>, id: nat): (r: seq<LineRow>)
    ensures forall k :: 0 <= k < |r| ==> r[k].voucherId != id
  {
    if ls == [] then []
    else OtherLines(ls[..|ls| - 1], id) + (if ls[|ls| - 1].voucherId != id then [ls[|ls| - 1]] else [])
  }

  /** New lines attached to the voucher `id`. */
  function Attached(incoming: seq<Line>, id: nat): (r: seq<LineRow>)
    ensures |r| == |incoming|
  {
    seq(|incoming|, k requires 0 <= k < |incoming| => LineRow(id, incoming[k]))
  }

  /** The lines of one voucher, in stored order. */
  function LinesOf(ls: seq<LineRow>, id: nat): seq<Line> {
    if ls == [] then []
    else LinesOf(ls[..|ls| - 1], id) + (if ls[|ls| - 1].voucherId == id then [ls[|ls| - 1].line] else [])
  }

  /** The line table after `_upsert_voucher`: an empty line list leaves it
      alone; otherwise the voucher's lines are deleted and the new ones added. */
  function ReplacedLines(ls: seq<LineRow>, id: nat, incoming: seq<Line>): seq<LineRow> {
    if incoming == [] then ls else OtherLines(ls, id) + Attached(incoming, id)
  }

  lemma {:induction false} LinesOfAppend(a: seq<LineRow>, b: seq<LineRow>, id: nat)
    ensures LinesOf(a + b, id) == LinesOf(a, id) + LinesOf(b, id)
    decreases |b|
  {
    if b == [] {
      assert a + b == a;
    } else {
      assert (a + b)[..|a + b| - 1] == a + b[..|b| - 1];
      LinesOfAppend(a, b[..|b| - 1], id);
    }
  }

  lemma {:induction false} LinesOfOthers(ls: seq<LineRow>, id: nat, other: nat)
    ensures LinesOf(OtherLines(ls, id), id) == []
    ensures other != id ==> LinesOf(OtherLines(ls, id), other) == LinesOf(ls, other)
  {
    if ls != [] {
      var last := ls[|ls| - 1];
      LinesOfOthers(ls[..|ls| - 1], id, other);
      LinesOfAppend(OtherLines(ls[..|ls| - 1], id), if last.voucherId != id then [last] else [], id);
      LinesOfAppend(OtherLines(ls[..|ls| - 1], id), if last.voucherId != id then [last] else [], other);
      assert LinesOf([last], other) == if last.voucherId == other then [last.line] else [] by {
        assert [last][..0] == [];
      }
      assert LinesOf([last], id) == if last.voucherId == id then [last.line] else [] by {
        assert [last][..0] == [];
      }
    }
  }

  lemma {:induction false} LinesOfAttached(incoming: seq<Line>, id: nat, other: nat)
    ensures LinesOf(Attached(incoming, id), id) == incoming
    ensures other != id ==> LinesOf(Attached(incoming, id), other) == []
  {
    if incoming != [] {
      var n := |incoming| - 1;
      assert Attached(incoming, id)[..n] == Attached(incoming[..n], id);
      LinesOfAttached(incoming[..n], id, other);
      assert incoming[..n] + [incoming[n]] == incoming;
    }
  }

  /** The replacement of the lines: with new lines the voucher holds exactly
      them; with none its lines are kept; the other vouchers' lines are never
      touched. */
  lemma ReplacedLinesSpec(ls: seq<LineRow>, id: nat, incoming: seq<Line>, other: nat)
    ensures incoming != [] ==> LinesOf(ReplacedLines(ls, id, incoming), id) == incoming
    ensures incoming == [] ==> ReplacedLines(ls, id, incoming) == ls
    ensures other != id ==> LinesOf(ReplacedLines(ls, id, incoming), other) == LinesOf(ls, other)
  {
    if incoming != [] {
      LinesOfAppend(OtherLines(ls, id), Attached(incoming, id), id);
      LinesOfAppend(OtherLines(ls, id), Attached(incoming, id), other);
      LinesOfOthers(ls, id, other);
      LinesOfAttached(incoming, id, other);
    }
  }

  // ------------------------------------------------------------- re-import

  /** The voucher loop of `import_file` on the voucher table: undated vouchers
      are skipped, the others upserted in order. */
  function ImportedVouchers(rows: seq<VoucherRow>, batch: seq<Voucher>, cid: Option<nat>,
                            merge: (Voucher, Voucher) -> Voucher): seq<VoucherRow>
  {
    if batch == [] then rows
    else
      var prev := ImportedVouchers(rows, batch[..|batch| - 1], cid, merge);
      var data := batch[|batch| - 1];
      if data.voucherDate.None? then prev else UpsertedVoucher(prev, data, cid, merge).0
  }

  /** Some stored voucher matches `data`. */
  predicate Found(rows: seq<VoucherRow>, data: Voucher) {
    exists i :: 0 <= i < |rows| && Matches(rows[i], data)
  }

  /** `b` keeps the IRN and the deduplication key of every row of `a`, so
      everything found in `a` is found in `b`. */
  predicate KeysKept(a: seq<VoucherRow>, b: seq<VoucherRow>) {
    |a| <= |b|
    && forall i :: 0 <= i < |a| ==> b[i].fields.irn == a[i].fields.irn && b[i].fields.dedupKey == a[i].fields.dedupKey
  }

  lemma FoundKept(a: seq<VoucherRow>, b: seq<VoucherRow>, data: Voucher)
    requires KeysKept(a, b) && Found(a, data)
    ensures Found(b, data)
  {
    var i :| 0 <= i < |a| && Matches(a[i], data);
    assert Matches(b[i], data);
  }

  /** With the key-keeping update one upsert keeps every row's keys, finds the
      voucher afterwards, and adds no row when the voucher was already found. */
  lemma UpsertStep(rows: seq<VoucherRow>, data: Voucher, cid: Option<nat>)
    ensures var r := UpsertedVoucher(rows, data, cid, MergeVoucherKeepingKey).0;
      KeysKept(rows, r) && Found(r, data) && (Found(rows, data) ==> |r| == |rows|)
  {
    var idx := VoucherIndex(rows, data);
    var r := UpsertedVoucher(rows, data, cid, MergeVoucherKeepingKey).0;
    if idx.Some? {
      var k := idx.value;
      assert Matches(rows[k], data);
      assert r[k].fields.irn == rows[k].fields.irn;
      assert Matches(r[k], data);
    } else {
      assert Matches(r[|rows|], data);
      assert forall i :: 0 <= i < |rows| ==> !Matches(rows[i], data);
    }
  }

  lemma KeysKeptTrans(a: seq<VoucherRow>, b: seq<VoucherRow>, c: seq<VoucherRow>)
    requires KeysKept(a, b) && KeysKept(b, c)
    ensures KeysKept(a, c)
  {
  }

  /** One pass keeps the keys of the rows it started from, and afterwards
      every dated voucher of the batch is found. */
  lemma {:induction false} FirstPass(rows: seq<VoucherRow>, batch: seq<Voucher>, cid: Option<nat>)
    ensures var r := ImportedVouchers(rows, batch, cid, MergeVoucherKeepingKey);
      KeysKept(rows, r) && forall k :: 0 <= k < |batch| && batch[k].voucherDate.Some? ==> Found(r, batch[k])
  {
    if batch != [] {
      var n := |batch| - 1;
      var prev := ImportedVouchers(rows, batch[..n], cid, MergeVoucherKeepingKey);
      var r := ImportedVouchers(rows, batch, cid, MergeVoucherKeepingKey);
      FirstPass(rows, batch[..n], cid);
      if batch[n].voucherDate.Some? {
        UpsertStep(prev, batch[n], cid);
        KeysKeptTrans(rows, prev, r);
        forall k | 0 <= k < |batch| && batch[k].voucherDate.Some? ensures Found(r, batch[k]) {
          if k < n {
            assert batch[..n][k] == batch[k];
            FoundKept(prev, r, batch[k]);
          }
        }
      } else {
        forall k | 0 <= k < n && batch[k].voucherDate.Some? ensures Found(r, batch[k]) {
          assert batch[..n][k] == batch[k];
        }
      }
    }
  }

  /** A pass over vouchers that are all found already adds no row. */
  lemma {:induction false} SecondPass(rows: seq<VoucherRow>, batch: seq<Voucher>, cid: Option<nat>)
    requires forall k :: 0 <= k < |batch| && batch[k].voucherDate.Some? ==> Found(rows, batch[k])
    ensures var r := ImportedVouchers(rows, batch, cid, MergeVoucherKeepingKey);
      |r| == |rows| && KeysKept(rows, r)
  {
    if batch != [] {
      var n := |batch| - 1;
      var prev := ImportedVouchers(rows, batch[..n], cid, MergeVoucherKeepingKey);
      forall k | 0 <= k < n && batch[..n][k].voucherDate.Some? ensures Found(rows, batch[..n][k]) {
        assert batch[..n][k] == batch[k];
      }
      SecondPass(rows, batch[..n], cid);
      if batch[n].voucherDate.Some? {
        FoundKept(rows, prev, batch[n]);
        UpsertStep(prev, batch[n], cid);
        KeysKeptTrans(rows, prev, ImportedVouchers(rows, batch, cid, MergeVoucherKeepingKey));
      }
    }
  }

  /** Importing the same vouchers again adds no voucher: the re-import only
      updates. */
  lemma ReimportAddsNothing(rows: seq<VoucherRow>, batch: seq<Voucher>, cid: Option<nat>)
    ensures var once := ImportedVouchers(rows, batch, cid, MergeVoucherKeepingKey);
      |ImportedVouchers(once, batch, cid, MergeVoucherKeepingKey)| == |once|
  {
    FirstPass(rows, batch, cid);
    SecondPass(ImportedVouchers(rows, batch, cid, MergeVoucherKeepingKey), batch, cid);
  }

  /** A dated voucher with the given IRN and key, the rest fixed. */
  function Sample(irn: Option<string>, key: string): Voucher {
    Voucher("1", "Sales", Some(Date(2024, 4, 1)), None, None, 100.0, "", irn, None, None, "", "", "", "",
            None, false, key, [])
  }

  /** With the update as written, re-importing can insert: a stored voucher
      with IRN Y and key k is first matched by key from a voucher without IRN,
      then re-keyed to k2 through its IRN by the next voucher, so the second
      import finds nothing under k and inserts. */
  lemma ReimportAsWrittenInserts()
    ensures var rows := [VoucherRow(None, Sample(Some("Y"), "k"))];
      var batch := [Sample(None, "k"), Sample(Some("Y"), "k2")];
      var once := ImportedVouchers(rows, batch, None, MergeVoucher);
      |once| == 1 && |ImportedVouchers(once, batch, None, MergeVoucher)| == 2
  {
    var rows := [VoucherRow(None, Sample(Some("Y"), "k"))];
    var v, w := Sample(None, "k"), Sample(Some("Y"), "k2");
    var batch := [v, w];
    assert batch[..1] == [v] && [v][..0] == [];
    var s1 := UpsertedVoucher(rows, v, None, MergeVoucher).0;
    assert Matches(rows[0], v);
    assert VoucherIndex(rows, v) == Some(0);
    assert s1 == [VoucherRow(None, MergeVoucher(rows[0].fields, v))];
    assert s1[0].fields.irn == Some("Y") && s1[0].fields.dedupKey == "k";
    assert ImportedVouchers(rows, [v], None, MergeVoucher) == s1;
    var s2 := UpsertedVoucher(s1, w, None, MergeVoucher).0;
    assert Matches(s1[0], w);
    assert VoucherIndex(s1, w) == Some(0);
    assert s2[0].fields.dedupKey == "k2" && s2[0].fields.irn == Some("Y") && |s2| == 1;
    assert ImportedVouchers(rows, batch, None, MergeVoucher) == s2;
    assert !Matches(s2[0], v);
    assert VoucherIndex(s2, v) == None;
    var s3 := UpsertedVoucher(s2, v, None, MergeVoucher).0;
    assert |s3| == 2;
    assert ImportedVouchers(s2, [v], None, MergeVoucher) == s3;
    assert s3[0] == s2[0] && s3[1].fields == Header(v);
    assert Matches(s3[0], w);
    assert VoucherIndex(s3, w) == Some(0);
    assert ImportedVouchers(s2, batch, None, MergeVoucher) == UpsertedVoucher(s3, w, None, MergeVoucher).0;
  }

  // ---------------------------------------------------------------- batches

  /** The master loops of `import_file`: each parsed row upserted in turn. */
  function UpsertedAll<T>(rows: seq<Owned<T>>, batch: seq<T>, cid: Option<nat>, name: T -> string,
                          merge: (T, T) -> T): seq<Owned<T>>
  {
    if batch == [] then rows
    else Upserted(UpsertedAll(rows, batch[..|batch| - 1], cid, name, merge), batch[|batch| - 1], cid, name, merge)
  }

  lemma {:induction false} UpsertedAllKeepsKeysUnique<T>(rows: seq<Owned<T>>, batch: seq<T>, cid: Option<nat>,
                                                          name: T -> string, merge: (T, T) -> T)
    requires forall a: T, b: T :: name(merge(a, b)) == name(b)
    requires KeysUnique(rows, name)
    ensures KeysUnique(UpsertedAll(rows, batch, cid, name, merge), name)
  {
    if batch != [] {
      UpsertedAllKeepsKeysUnique(rows, batch[..|batch| - 1], cid, name, merge);
      UpsertedKeepsKeysUnique(UpsertedAll(rows, batch[..|batch| - 1], cid, name, merge), batch[|batch| - 1], cid, name, merge);
    }
  }

  /** The line table after the voucher loop. */
  function ImportedLines(rows: seq<VoucherRow>, ls: seq<LineRow>, batch: seq<Voucher>, cid: Option<nat>,
                         merge: (Voucher, Voucher) -> Voucher): seq<LineRow>
  {
    if batch == [] then ls
    else
      var n := |batch| - 1;
      var prev := ImportedLines(rows, ls, batch[..n], cid, merge);
      var data := batch[n];
      if data.voucherDate.None? then prev
      else ReplacedLines(prev, UpsertedVoucher(ImportedVouchers(rows, batch[..n], cid, merge), data, cid, merge).1, data.lines)
  }

  datatype ImportWarning = Sanitized(warning: Sanitizer.Warning) | SkippedUndated(voucherNumber: string)

  /** One warning per voucher without a date, in order. */
  function SkipWarnings(batch: seq<Voucher>): (r: seq<ImportWarning>)
    ensures |r| <= |batch|
    ensures r == [] <==> forall k :: 0 <= k < |batch| ==> batch[k].voucherDate.Some?
  {
    if batch == [] then []
    else
      var n := |batch| - 1;
      SkipWarnings(batch[..n]) + (if batch[n].voucherDate.None? then [SkippedUndated(batch[n].voucherNumber)] else [])
  }

  /** One more voucher of the batch: a voucher without a date changes
      nothing but the warnings, any other is upserted. */
  lemma ImportedVouchersStep(rows: seq<VoucherRow>, ls: seq<LineRow>, batch: seq<Voucher>, k: nat, cid: Option<nat>)
    requires k < |batch|
    ensures batch[k].voucherDate.None? ==>
      ImportedVouchers(rows, batch[..k + 1], cid, MergeVoucherKeepingKey) == ImportedVouchers(rows, batch[..k], cid, MergeVoucherKeepingKey)
      && ImportedLines(rows, ls, batch[..k + 1], cid, MergeVoucherKeepingKey) == ImportedLines(rows, ls, batch[..k], cid, MergeVoucherKeepingKey)
      && SkipWarnings(batch[..k + 1]) == SkipWarnings(batch[..k]) + [SkippedUndated(batch[k].voucherNumber)]
    ensures batch[k].voucherDate.Some? ==>
      ImportedVouchers(rows, batch[..k + 1], cid, MergeVoucherKeepingKey)
        == UpsertedVoucher(ImportedVouchers(rows, batch[..k], cid, MergeVoucherKeepingKey), batch[k], cid, MergeVoucherKeepingKey).0
      && ImportedLines(rows, ls, batch[..k + 1], cid, MergeVoucherKeepingKey)
        == ReplacedLines(ImportedLines(rows, ls, batch[..k], cid, MergeVoucherKeepingKey),
                         UpsertedVoucher(ImportedVouchers(rows, batch[..k], cid, MergeVoucherKeepingKey), batch[k], cid, MergeVoucherKeepingKey).1,
                         batch[k].lines)
      && SkipWarnings(batch[..k + 1]) == SkipWarnings(batch[..k])
  {
    assert batch[..k + 1][..k] == batch[..k];
    assert batch[..k + 1][k] == batch[k];
  }

  /** The store after the first `k` vouchers of the batch, with the
      warnings collected so far. */
  ghost predicate ImportedUpTo(rows: seq<VoucherRow>, ls: seq<LineRow>, batch: seq<Voucher>, k: nat, cid: Option<nat>,
                               vs: seq<VoucherRow>, lns: seq<LineRow>, skipped: seq<ImportWarning>)
    requires k <= |batch|
  {
    && vs == ImportedVouchers(rows, batch[..k], cid, MergeVoucherKeepingKey)
    && lns == ImportedLines(rows, ls, batch[..k], cid, MergeVoucherKeepingKey)
    && skipped == SkipWarnings(batch[..k])
  }

  /** Handling voucher `k` as the loop does moves the store on by one voucher. */
  lemma ImportStep(rows: seq<VoucherRow>, ls: seq<LineRow>, batch: seq<Voucher>, k: nat, cid: Option<nat>,
                   vs: seq<VoucherRow>, lns: seq<LineRow>, skipped: seq<ImportWarning>,
                   vs': seq<VoucherRow>, lns': seq<LineRow>, skipped': seq<ImportWarning>)
    requires k < |batch| && ImportedUpTo(rows, ls, batch, k, cid, vs, lns, skipped)
    requires batch[k].voucherDate.None? ==>
      vs' == vs && lns' == lns && skipped' == skipped + [SkippedUndated(batch[k].voucherNumber)]
    requires batch[k].voucherDate.Some? ==>
      vs' == UpsertedVoucher(vs, batch[k], cid, MergeVoucherKeepingKey).0
      && lns' == ReplacedLines(lns, UpsertedVoucher(vs, batch[k], cid, MergeVoucherKeepingKey).1, batch[k].lines)
      && skipped' == skipped
    ensures ImportedUpTo(rows, ls, batch, k + 1, cid, vs', lns', skipped')
  {
    ImportedVouchersStep(rows, ls, batch, k, cid);
  }

  // -------------------------------------------------------------- the log

  datatype Status = Success | Partial | Error

  datatype ImportLog = ImportLog(fileType: FileType, status: Status, vouchersProcessed: nat,
                                 vouchersInserted: nat, vouchersUpdated: nat, mastersProcessed: nat,
                                 errorMessage: Option<string>, warnings: Option<seq<ImportWarning>>)

  const MaxStoredWarnings: nat := 100

  /** `warnings[:100] if warnings else None`. */
  function StoredWarnings(ws: seq<ImportWarning>): (r: Option<seq<ImportWarning>>)
    ensures r.None? <==> ws == []
    ensures r.Some? ==> |r.value| == (if |ws| <= MaxStoredWarnings then |ws| else MaxStoredWarnings)
    ensures r.Some? ==> r.value == ws[..|r.value|]
  {
    if ws == [] then None
    else if |ws| <= MaxStoredWarnings then Some(ws)
    else Some(ws[..MaxStoredWarnings])
  }

  /** The text `sanitize_xml` hands to the parser. */
  function SanitizedText(raw: seq<Sanitizer.byte>, decoded: Sanitizer.Encoding -> Option<string>, replaced: string): string {
    var t := Sanitizer.FixEncoding(raw, decoded, replaced).0;
    Sanitizer.FixXmlDeclaration(Sanitizer.Filtered(Sanitizer.StripRefs(t)))
  }

  /** The sanitiser has nothing to report. */
  predicate SanitizedSilently(raw: seq<Sanitizer.byte>, decoded: Sanitizer.Encoding -> Option<string>, replaced: string,
                              backupFailed: bool)
  {
    var (t, enc) := Sanitizer.FixEncoding(raw, decoded, replaced);
    !backupFailed && !Sanitizer.ReEncodeWarning(enc) && Sanitizer.StripRefs(t) == t && Sanitizer.NoInvalidChars(t)
  }

  function Wrapped(ws: seq<Sanitizer.Warning>): (r: seq<ImportWarning>)
    ensures |r| == |ws|
  {
    seq(|ws|, k requires 0 <= k < |ws| => Sanitized(ws[k]))
  }

  // ------------------------------------------------------------- the store

  /** The database the importer writes. */
  class Store {
    var companies: seq<Company>
    var ledgers: seq<Owned<Ledger>>
    var units: seq<Owned<Unit>>
    var stockItems: seq<Owned<StockItem>>
    var vouchers: seq<VoucherRow>
    var lines: seq<LineRow>

    /** The keys the lookups use are unique: one company per name, one master
        per name and company, one voucher per IRN. */
    ghost predicate Valid()
      reads this
    {
      CompanyNamesUnique(companies) && KeysUnique(ledgers, LedgerName) && KeysUnique(units, UnitName)
      && KeysUnique(stockItems, StockItemName) && IrnsUnique(vouchers)
    }

    constructor ()
      ensures Valid()
      ensures companies == [] && ledgers == [] && units == [] && stockItems == [] && vouchers == [] && lines == []
    {
      companies, ledgers, units, stockItems, vouchers, lines := [], [], [], [], [], [];
    }

    /** `_upsert_company`. */
    method UpsertCompany(data: Company) returns (id: Option<nat>)
      modifies this`companies
      ensures (companies, id) == UpsertedCompanies(old(companies), data)
    {
      if data.name.None? || data.name.value == [] {
        return None;
      }
      var found := CompanyIndex(companies, data.name.value);
      if found.Some? {
        var i := found.value;
        companies := companies[i := MergeCompany(companies[i], data)];
        id := Some(i + 1);
      } else {
        companies := companies + [data];
        id := Some(|companies|);
      }
    }

    /** `_upsert_ledger`. */
    method UpsertLedger(data: Ledger, cid: Option<nat>)
      modifies this`ledgers
      ensures ledgers == Upserted(old(ledgers), data, cid, LedgerName, ReplaceLedger)
    {
      var found := RowIndex(ledgers, data.name, cid, LedgerName);
      if found.Some? {
        ledgers := ledgers[found.value := Owned(cid, data)];
      } else {
        ledgers := ledgers + [Owned(cid, data)];
      }
    }

    /** `_upsert_unit`. */
    method UpsertUnit(data: Unit, cid: Option<nat>)
      modifies this`units
      ensures units == Upserted(old(units), data, cid, UnitName, ReplaceUnit)
    {
      var found := RowIndex(units, data.name, cid, UnitName);
      if found.Some? {
        units := units[found.value := Owned(cid, data)];
      } else {
        units := units + [Owned(cid, data)];
      }
    }

    /** `_upsert_stock_item`. */
    method UpsertStockItem(data: StockItem, cid: Option<nat>)
      modifies this`stockItems
      ensures stockItems == Upserted(old(stockItems), data, cid, StockItemName, MergeStockItem)
    {
      var found := RowIndex(stockItems, data.name, cid, StockItemName);
      if found.Some? {
        var i := found.value;
        stockItems := stockItems[i := Owned(cid, MergeStockItem(stockItems[i].value, data))];
      } else {
        stockItems := stockItems + [Owned(cid, data)];
      }
    }

    /** `_upsert_voucher`: the voucher row is updated or inserted, then, when
        the parsed voucher has lines, its stored lines are deleted one by one
        and the new ones added. */
    method UpsertVoucher(data: Voucher, cid: Option<nat>) returns (id: nat, inserted: bool)
      modifies this`vouchers, this`lines
      ensures (vouchers, id, inserted) == UpsertedVoucher(old(vouchers), data, cid, MergeVoucherKeepingKey)
      ensures lines == ReplacedLines(old(lines), id, data.lines)
    {
      var found := VoucherIndex(vouchers, data);
      if found.Some? {
        var i := found.value;
        vouchers := vouchers[i := VoucherRow(cid, MergeVoucherKeepingKey(vouchers[i].fields, data))];
        id, inserted := i + 1, false;
      } else {
        vouchers := vouchers + [VoucherRow(cid, Header(data))];
        id, inserted := |vouchers|, true;
      }
      if data.lines != [] {
        var kept: seq<LineRow> := [];
        var k := 0;
        while k < |lines|
          invariant 0 <= k <= |lines|
          invariant kept == OtherLines(lines[..k], id)
        {
          assert lines[..k + 1][..k] == lines[..k];
          if lines[k].voucherId != id {
            kept := kept + [lines[k]];
          }
          k := k + 1;
        }
        assert lines[..k] == lines;
        var j := 0;
        while j < |data.lines|
          invariant 0 <= j <= |data.lines|
          invariant kept == OtherLines(lines, id) + Attached(data.lines[..j], id)
        {
          assert Attached(data.lines[..j + 1], id) == Attached(data.lines[..j], id) + [LineRow(id, data.lines[j])];
          kept := kept + [LineRow(id, data.lines[j])];
          j := j + 1;
        }
        assert data.lines[..j] == data.lines;
        lines := kept;
      }
    }

    /** The ledger loop of `import_file`. */
    method ImportLedgers(batch: seq<Ledger>, cid: Option<nat>)
      modifies this`ledgers
      ensures ledgers == UpsertedAll(old(ledgers), batch, cid, LedgerName, ReplaceLedger)
    {
      var k := 0;
      while k < |batch|
        invariant 0 <= k <= |batch|
        invariant ledgers == UpsertedAll(old(ledgers), batch[..k], cid, LedgerName, ReplaceLedger)
      {
        assert batch[..k + 1][..k] == batch[..k];
        UpsertLedger(batch[k], cid);
        k := k + 1;
      }
      assert batch[..k] == batch;
    }

    /** The unit loop of `import_file`. */
    method ImportUnits(batch: seq<Unit>, cid: Option<nat>)
      modifies this`units
      ensures units == UpsertedAll(old(units), batch, cid, UnitName, ReplaceUnit)
    {
      var k := 0;
      while k < |batch|
        invariant 0 <= k <= |batch|
        invariant units == UpsertedAll(old(units), batch[..k], cid, UnitName, ReplaceUnit)
      {
        assert batch[..k + 1][..k] == batch[..k];
        UpsertUnit(batch[k], cid);
        k := k + 1;
      }
      assert batch[..k] == batch;
    }

    /** The stock item loop of `import_file`. */
    method ImportStockItems(batch: seq<StockItem>, cid: Option<nat>)
      modifies this`stockItems
      ensures stockItems == UpsertedAll(old(stockItems), batch, cid, StockItemName, MergeStockItem)
    {
      var k := 0;
      while k < |batch|
        invariant 0 <= k <= |batch|
        invariant stockItems == UpsertedAll(old(stockItems), batch[..k], cid, StockItemName, MergeStockItem)
      {
        assert batch[..k + 1][..k] == batch[..k];
        UpsertStockItem(batch[k], cid);
        k := k + 1;
      }
      assert batch[..k] == batch;
    }

    /** One dated voucher of the voucher loop: upserted with its lines, the
        store growing by one row exactly when it is inserted. */
    method ImportDated(data: Voucher, cid: Option<nat>) returns (wasInserted: bool)
      modifies this`vouchers, this`lines
      ensures vouchers == UpsertedVoucher(old(vouchers), data, cid, MergeVoucherKeepingKey).0
      ensures lines == ReplacedLines(old(lines), UpsertedVoucher(old(vouchers), data, cid, MergeVoucherKeepingKey).1, data.lines)
      ensures wasInserted == UpsertedVoucher(old(vouchers), data, cid, MergeVoucherKeepingKey).2
      ensures |vouchers| == |old(vouchers)| + (if wasInserted then 1 else 0)
    {
      UpsertedVoucherShape(vouchers, data, cid);
      var _, ins := UpsertVoucher(data, cid);
      wasInserted := ins;
    }

    /** The voucher loop of `import_file`: every voucher is counted as
        processed; one without a date is skipped with a warning; the others
        count as inserted or updated. */
    method ImportVouchers(batch: seq<Voucher>, cid: Option<nat>)
      returns (inserted: nat, updated: nat, skipped: seq<ImportWarning>)
      modifies this`vouchers, this`lines
      ensures vouchers == ImportedVouchers(old(vouchers), batch, cid, MergeVoucherKeepingKey)
      ensures lines == ImportedLines(old(vouchers), old(lines), batch, cid, MergeVoucherKeepingKey)
      ensures skipped == SkipWarnings(batch)
      ensures inserted + updated + |skipped| == |batch|
      ensures |vouchers| == |old(vouchers)| + inserted
    {
      inserted, updated, skipped := 0, 0, [];
      var k := 0;
      while k < |batch|
        invariant 0 <= k <= |batch|
        invariant ImportedUpTo(old(vouchers), old(lines), batch, k, cid, vouchers, lines, skipped)
        invariant inserted + updated + |skipped| == k
        invariant |vouchers| == |old(vouchers)| + inserted
      {
        ghost var vs, lns, sk := vouchers, lines, skipped;
        var data := batch[k];
        if data.voucherDate.None? {
          skipped := skipped + [SkippedUndated(data.voucherNumber)];
        } else {
          var wasInserted := ImportDated(data, cid);
          if wasInserted {
            inserted := inserted + 1;
          } else {
            updated := updated + 1;
          }
        }
        ImportStep(old(vouchers), old(lines), batch, k, cid, vs, lns, sk, vouchers, lines, skipped);
        k := k + 1;
      }
      assert batch[..k] == batch;
    }
  
    /** The upsert part of `import_file` on parsed contents: the company, then
        the ledgers, units and stock items under its id, then the vouchers;
        the status is success exactly when no warning was collected. */
    method ImportParsed(c: Contents, fileType: FileType, warnings: seq<ImportWarning>) returns (log: ImportLog)
      requires Valid()
      modifies this
      ensures Valid()
      ensures var cid := CompanyId(old(companies), c.company);
        companies == (if c.company.Some? then UpsertedCompanies(old(companies), c.company.value).0 else old(companies))
        && ledgers == UpsertedAll(old(ledgers), c.ledgers, cid, LedgerName, ReplaceLedger)
        && units == UpsertedAll(old(units), c.units, cid, UnitName, ReplaceUnit)
        && stockItems == UpsertedAll(old(stockItems), c.stockItems, cid, StockItemName, MergeStockItem)
        && vouchers == ImportedVouchers(old(vouchers), c.vouchers, cid, MergeVoucherKeepingKey)
        && lines == ImportedLines(old(vouchers), old(lines), c.vouchers, cid, MergeVoucherKeepingKey)
      ensures log.fileType == fileType && log.errorMessage.None?
      ensures log.status == (if warnings + SkipWarnings(c.vouchers) == [] then Success else Partial)
      ensures log.warnings == StoredWarnings(warnings + SkipWarnings(c.vouchers))
      ensures log.vouchersProcessed == |c.vouchers|
      ensures log.vouchersInserted + log.vouchersUpdated + |SkipWarnings(c.vouchers)| == |c.vouchers|
      ensures log.vouchersInserted == |vouchers| - |old(vouchers)|
      ensures log.mastersProcessed == (if c.company.Some? then 1 else 0) + |c.ledgers| + |c.units| + |c.stockItems|
    {
      var cid, masters := ImportMasters(c);
      MergesKeepIrn();
      var inserted, updated, skipped := ImportVouchers(c.vouchers, cid);
      ImportedVouchersKeepIrnsUnique(old(vouchers), c.vouchers, cid);
      var all := warnings + skipped;
      log := ImportLog(fileType, if all == [] then Success else Partial, |c.vouchers|, inserted, updated, masters,
                       None, StoredWarnings(all));
    }

    /** The master part of `import_file`: the company, when there is one, then
        the ledgers, units and stock items under its id, each counted. */
    method ImportMasters(c: Contents) returns (cid: Option<nat>, masters: nat)
      requires CompanyNamesUnique(companies) && KeysUnique(ledgers, LedgerName) && KeysUnique(units, UnitName)
      requires KeysUnique(stockItems, StockItemName)
      modifies this`companies, this`ledgers, this`units, this`stockItems
      ensures CompanyNamesUnique(companies) && KeysUnique(ledgers, LedgerName) && KeysUnique(units, UnitName)
      ensures KeysUnique(stockItems, StockItemName)
      ensures cid == CompanyId(old(companies), c.company)
      ensures companies == (if c.company.Some? then UpsertedCompanies(old(companies), c.company.value).0 else old(companies))
      ensures ledgers == UpsertedAll(old(ledgers), c.ledgers, cid, LedgerName, ReplaceLedger)
      ensures units == UpsertedAll(old(units), c.units, cid, UnitName, ReplaceUnit)
      ensures stockItems == UpsertedAll(old(stockItems), c.stockItems, cid, StockItemName, MergeStockItem)
      ensures masters == (if c.company.Some? then 1 else 0) + |c.ledgers| + |c.units| + |c.stockItems|
    {
      masters := 0;
      cid := None;
      if c.company.Some? {
        cid := UpsertCompany(c.company.value);
        UpsertedCompaniesKeepNamesUnique(old(companies), c.company.value);
        masters := 1;
      }
      MastersKeepNames();
      ImportLedgers(c.ledgers, cid);
      UpsertedAllKeepsKeysUnique(old(ledgers), c.ledgers, cid, LedgerName, ReplaceLedger);
      ImportUnits(c.units, cid);
      UpsertedAllKeepsKeysUnique(old(units), c.units, cid, UnitName, ReplaceUnit);
      ImportStockItems(c.stockItems, cid);
      UpsertedAllKeepsKeysUnique(old(stockItems), c.stockItems, cid, StockItemName, MergeStockItem);
      masters := masters + |c.ledgers| + |c.units| + |c.stockItems|;
    }

    /** `import_file` on a file's bytes. The decodings of the bytes are given
        (see `Sanitizer.FixEncoding`), as is `fromString`, the XML parser the
        sanitised text goes to. A parse error gives an error log that keeps
        the sanitiser's warnings and leaves the store as it was. */
    method ImportFile(raw: seq<Sanitizer.byte>, decoded: Sanitizer.Encoding -> Option<string>, replaced: string,
                      backupFailed: bool, fromString: string -> Result<Node, string>) returns (log: ImportLog)
      requires Valid()
      modifies this
      ensures Valid()
      ensures var doc := fromString(SanitizedText(raw, decoded, replaced));
        (log.status == Error <==> doc.Err?)
        && (doc.Err? ==> log.errorMessage.Some? && log.fileType == UnknownType && log.vouchersProcessed == 0
                         && log.mastersProcessed == 0
                         && (log.warnings.None? <==> SanitizedSilently(raw, decoded, replaced, backupFailed)))
        && (doc.Ok? ==>
              var c := DocumentContents(doc.value);
              log.vouchersProcessed == |c.vouchers|
              && log.vouchersInserted + log.vouchersUpdated + |SkipWarnings(c.vouchers)| == |c.vouchers|
              && log.mastersProcessed == (if c.company.Some? then 1 else 0) + |c.ledgers| + |c.units| + |c.stockItems|
              && (log.status == Success <==> SanitizedSilently(raw, decoded, replaced, backupFailed) && SkipWarnings(c.vouchers) == [])
              && vouchers == ImportedVouchers(old(vouchers), c.vouchers, CompanyId(old(companies), c.company), MergeVoucherKeepingKey))
      ensures fromString(SanitizedText(raw, decoded, replaced)).Err? ==>
        companies == old(companies) && ledgers == old(ledgers) && units == old(units)
        && stockItems == old(stockItems) && vouchers == old(vouchers) && lines == old(lines)
    {
      var clean, sanWarnings := Sanitizer.SanitizeXml(raw, decoded, replaced, backupFailed);
      var warnings := Wrapped(sanWarnings);
      var parsed := ParseXmlFile(fromString(clean));
      if parsed.Err? {
        return ImportLog(UnknownType, Error, 0, 0, 0, 0, Some(parsed.error), StoredWarnings(warnings));
      }
      var res := parsed.value;
      var contents := res.Snapshot();
      log := ImportParsed(contents, res.fileType, warnings);
    }
  }

  /** The company id the import files masters and vouchers under. */
  function CompanyId(rows: seq<Company>, company: Option<Company>): Option<nat> {
    if company.Some? then UpsertedCompanies(rows, company.value).1 else None
  }

  lemma {:induction false} ImportedVouchersKeepIrnsUnique(rows: seq<VoucherRow>, batch: seq<Voucher>, cid: Option<nat>)
    requires IrnsUnique(rows)
    ensures IrnsUnique(ImportedVouchers(rows, batch, cid, MergeVoucherKeepingKey))
  {
    if batch != [] {
      var n := |batch| - 1;
      ImportedVouchersKeepIrnsUnique(rows, batch[..n], cid);
      MergesKeepIrn();
      UpsertedVoucherKeepsIrnsUnique(ImportedVouchers(rows, batch[..n], cid, MergeVoucherKeepingKey), batch[n], cid,
                                     MergeVoucherKeepingKey);
    }
  }
}
