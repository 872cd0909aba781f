/** Item rate overrides: a package rate and a unit rate per item that always
    win over the rates derived from the imported data, plus a rolling audit log
    of every saved change. The two JSON files are the fields of `RateStore`. */
module RateOverrides {
  import opened Wrappers

  datatype Field = PkgRate | UnitRate

  /** A saved override: both rates optional, and the time it was last saved. */
  datatype RateEntry = RateEntry(pkgRate: Option<real>, unitRate: Option<real>, lastModified: string) {
    function Get(f: Field): Option<real> {
      match f
      case PkgRate => pkgRate
      case UnitRate => unitRate
    }
  }

  /** The body of a save request. */
  datatype RateIn = RateIn(pkgRate: Option<real>, unitRate: Option<real>)

  /** One audit-log entry. */
  datatype Change = Change(item: string, field: Field, oldValue: Option<real>, newValue: real, timestamp: string)

  /** An advisory warning: `field` moved by the fraction `pct` of its old value. */
  datatype Warning = Warning(field: Field, pct: real)

  /** 422 for a negative rate (package rate checked first), 404 for deleting
      an item with no override. */
  datatype Error = NegativePkgRate | NegativeUnitRate | NotFound

  /** The log keeps at most this many entries. */
  const MaxLog: nat := 1000

  /** A save moving a rate by more than this fraction of its old value warns. */
  const ChangeThreshold: real := 0.30

  /** `get_effective_rate` and `get_effective_pkg_rate`: the saved rate when the
      item has one for that field, otherwise the rate from the imported data. */
  function EffectiveRate(overrides: map<string, RateEntry>, item: string, f: Field, tallyRate: Option<real>): (r: Option<real>)
    ensures item in overrides && overrides[item].Get(f).Some? ==> r == overrides[item].Get(f)
    ensures !(item in overrides && overrides[item].Get(f).Some?) ==> r == tallyRate
  {
    if item in overrides && overrides[item].Get(f).Some? then overrides[item].Get(f) else tallyRate
  }

  /** The rolling window: only the most recent `MaxLog` entries survive. */
  function Trim(log: seq<Change>): (r: seq<Change>)
    ensures |r| <= MaxLog
    ensures |log| <= MaxLog ==> r == log
    ensures |log| > MaxLog ==> |r| == MaxLog
    ensures r == log[|log| - |r|..]
  {
    if |log| > MaxLog then log[|log| - MaxLog..] else log
  }

  /** `_append_changelog`, called only when there are entries. */
  function AppendLog(log: seq<Change>, entries: seq<Change>): seq<Change> {
    if entries == [] then log else Trim(log + entries)
  }

  /** After appending at most `MaxLog` entries the log ends with exactly those
      entries, preceded by the most recent older ones. */
  lemma AppendLogKeepsNewest(log: seq<Change>, entries: seq<Change>)
    requires |log| <= MaxLog && |entries| <= MaxLog
    ensures var r := AppendLog(log, entries);
      && |r| <= MaxLog
      && |r| >= |entries|
      && r[|r| - |entries|..] == entries
      && r[..|r| - |entries|] == log[|log| - (|r| - |entries|)..]
  {
    var r := AppendLog(log, entries);
    if entries != [] {
      var all := log + entries;
      assert |r| == if |all| > MaxLog then MaxLog else |all|;
      assert r == all[|all| - |r|..];
      assert r[|r| - |entries|..] == all[|log|..];
      assert all[|log|..] == entries;
      assert r[..|r| - |entries|] == all[|all| - |r|..|log|];
    }
  }

  function Reversed(log: seq<Change>): (r: seq<Change>)
    ensures |r| == |log|
  {
    if log == [] then [] else [log[|log| - 1]] + Reversed(log[..|log| - 1])
  }

  lemma {:induction false} ReversedAt(log: seq<Change>, i: nat)
    requires i < |log|
    ensures Reversed(log)[i] == log[|log| - 1 - i]
  {
    if i > 0 {
      ReversedAt(log[..|log| - 1], i - 1);
    }
  }

  /** Python's `xs[:limit]`: a negative limit drops that many from the end. */
  function SliceTo(xs: seq<Change>, limit: int): (r: seq<Change>)
    ensures |r| == if limit >= 0 then (if limit < |xs| then limit else |xs|)
                   else (if |xs| + limit > 0 then |xs| + limit else 0)
    ensures r == xs[..|r|]
  {
    var n := if limit >= 0 then (if limit < |xs| then limit else |xs|)
             else (if |xs| + limit > 0 then |xs| + limit else 0);
    xs[..n]
  }

  /** `get_change_log`: newest entries first, at most `limit` of them. */
  function ChangeLog(log: seq<Change>, limit: int): seq<Change> {
    SliceTo(Reversed(log), limit)
  }

  /** The change log lists the most recent entries, newest first: entry `i`
      is the `i`-th from the end of the stored log. */
  lemma ChangeLogNewestFirst(log: seq<Change>, limit: int)
    ensures var r := ChangeLog(log, limit);
      && |r| <= |log|
      && (0 <= limit <= |log| ==> |r| == limit)
      && (forall i :: 0 <= i < |r| ==> r[i] == log[|log| - 1 - i])
  {
    var r := ChangeLog(log, limit);
    forall i | 0 <= i < |r|
      ensures r[i] == log[|log| - 1 - i]
    {
      ReversedAt(log, i);
    }
  }

  /** The warning a new value raises: only against a positive old value,
      and only when it moves by more than `ChangeThreshold` of it. */
  function Warn(f: Field, oldValue: Option<real>, newValue: real): (r: Option<Warning>)
    ensures r.Some? <==> oldValue.Some? && oldValue.value > 0.0
                         && (newValue - oldValue.value > ChangeThreshold * oldValue.value
                             || oldValue.value - newValue > ChangeThreshold * oldValue.value)
  {
    if oldValue.Some? && oldValue.value != 0.0 && oldValue.value > 0.0 then
      var diff := if newValue >= oldValue.value then newValue - oldValue.value else oldValue.value - newValue;
      var pct := diff / oldValue.value;
      assert pct > ChangeThreshold <==> diff > ChangeThreshold * oldValue.value;
      if pct > ChangeThreshold then Some(Warning(f, pct)) else None
    else None
  }

  /** The fields of a body in the order they are processed. */
  function Provided(body: RateIn): seq<(Field, Option<real>)> {
    [(PkgRate, body.pkgRate), (UnitRate, body.unitRate)]
  }

  function StoredValue(old_entry: Option<RateEntry>, f: Field): Option<real> {
    if old_entry.Some? then old_entry.value.Get(f) else None
  }

  /** The warnings raised by the first fields of a save. */
  function Warnings(old_entry: Option<RateEntry>, fs: seq<(Field, Option<real>)>): seq<Warning> {
    if fs == [] then []
    else
      var last := fs[|fs| - 1];
      var w := if last.1.Some? then Warn(last.0, StoredValue(old_entry, last.0), last.1.value) else None;
      Warnings(old_entry, fs[..|fs| - 1]) + (if w.Some? then [w.value] else [])
  }

  /** The audit entries of the first fields of a save: one per provided field. */
  function Changes(item: string, old_entry: Option<RateEntry>, fs: seq<(Field, Option<real>)>, now: string): seq<Change> {
    if fs == [] then []
    else
      var last := fs[|fs| - 1];
      Changes(item, old_entry, fs[..|fs| - 1], now)
        + (if last.1.Some? then [Change(item, last.0, StoredValue(old_entry, last.0), last.1.value, now)] else [])
  }

  /** A save records one audit entry per provided field, package rate first,
      each carrying the stored value it replaces; it warns for a field exactly
      when that field is provided and moves by more than the threshold from a
      positive stored value. */
  lemma SaveRecords(item: string, old_entry: Option<RateEntry>, body: RateIn, now: string)
    ensures var cs := Changes(item, old_entry, Provided(body), now);
      && cs == (if body.pkgRate.Some? then [Change(item, PkgRate, StoredValue(old_entry, PkgRate), body.pkgRate.value, now)] else [])
             + (if body.unitRate.Some? then [Change(item, UnitRate, StoredValue(old_entry, UnitRate), body.unitRate.value, now)] else [])
      && (cs == [] <==> body.pkgRate.None? && body.unitRate.None?)
    ensures var ws := Warnings(old_entry, Provided(body));
      forall f: Field :: (exists k :: 0 <= k < |ws| && ws[k].field == f) <==>
        (var v := if f == PkgRate then body.pkgRate else body.unitRate;
         v.Some? && Warn(f, StoredValue(old_entry, f), v.value).Some?)
  {
    var fs := Provided(body);
    var head := fs[..|fs| - 1];
    assert head == [fs[0]] && head[..|head| - 1] == [];
    var ws := Warnings(old_entry, fs);
    var w1 := Warnings(old_entry, head);
    var wp := if body.pkgRate.Some? then Warn(PkgRate, StoredValue(old_entry, PkgRate), body.pkgRate.value) else None;
    var wu := if body.unitRate.Some? then Warn(UnitRate, StoredValue(old_entry, UnitRate), body.unitRate.value) else None;
    assert w1 == Warnings(old_entry, []) + (if wp.Some? then [wp.value] else []);
    assert ws == w1 + (if wu.Some? then [wu.value] else []);
    assert wp.Some? ==> wp.value.field == PkgRate;
    assert wu.Some? ==> wu.value.field == UnitRate;
    assert Changes(item, old_entry, head, now) == Changes(item, old_entry, [], now)
      + (if body.pkgRate.Some? then [Change(item, PkgRate, StoredValue(old_entry, PkgRate), body.pkgRate.value, now)] else []);
    forall f: Field
      ensures (exists k :: 0 <= k < |ws| && ws[k].field == f) <==>
        (var v := if f == PkgRate then body.pkgRate else body.unitRate;
         v.Some? && Warn(f, StoredValue(old_entry, f), v.value).Some?)
    {
      if f == PkgRate && wp.Some? {
        assert ws[0].field == f;
      }
      if f == UnitRate && wu.Some? {
        assert ws[|ws| - 1].field == f;
      }
    }
  }

  /** The entry stored by a save: each rate is the new one when provided and
      the stored one otherwise, so a partial update keeps the other rate. */
  function Merged(old_entry: Option<RateEntry>, body: RateIn, now: string): (r: RateEntry)
    ensures r.pkgRate == (if body.pkgRate.Some? then body.pkgRate else StoredValue(old_entry, PkgRate))
    ensures r.unitRate == (if body.unitRate.Some? then body.unitRate else StoredValue(old_entry, UnitRate))
    ensures r.lastModified == now
  {
    RateEntry(if body.pkgRate.Some? then body.pkgRate else StoredValue(old_entry, PkgRate),
              if body.unitRate.Some? then body.unitRate else StoredValue(old_entry, UnitRate), now)
  }

  predicate NonNegative(v: Option<real>) {
    v.Some? ==> v.value >= 0.0
  }

  /** The save request is accepted. */
  function Validate(body: RateIn): (r: Result<RateIn, Error>)
    ensures r.Ok? <==> NonNegative(body.pkgRate) && NonNegative(body.unitRate)
    ensures r.Err? ==> r.error == if !NonNegative(body.pkgRate) then NegativePkgRate else NegativeUnitRate
  {
    if !NonNegative(body.pkgRate) then Err(NegativePkgRate)
    else if !NonNegative(body.unitRate) then Err(NegativeUnitRate)
    else Ok(body)
  }

  /** Once a save succeeds, the effective rates of the item are the ones just
      saved for the provided fields and the previous effective ones otherwise. */
  lemma EffectiveAfterSave(overrides: map<string, RateEntry>, item: string, body: RateIn, now: string,
                           f: Field, tallyRate: Option<real>)
    requires Validate(body).Ok?
    ensures var o := if item in overrides then Some(overrides[item]) else None;
      var provided := if f == PkgRate then body.pkgRate else body.unitRate;
      EffectiveRate(overrides[item := Merged(o, body, now)], item, f, tallyRate)
        == if provided.Some? then provided else EffectiveRate(overrides, item, f, tallyRate)
  {
  }

  /** The two JSON files. */
  class RateStore {
    var overrides: map<string, RateEntry>
    var changeLog: seq<Change>

    /** The log never exceeds its window and no saved rate is negative. */
    ghost predicate Valid()
      reads this
    {
      && |changeLog| <= MaxLog
      && forall item :: item in overrides ==> NonNegative(overrides[item].pkgRate) && NonNegative(overrides[item].unitRate)
    }

    constructor ()
      ensures overrides == map[] && changeLog == [] && Valid()
    {
      overrides := map[];
      changeLog := [];
    }

    /** `save_rate_override`: a negative rate is rejected before anything
        changes; otherwise the warnings are returned, one audit entry per
        provided field is appended to the log (trimmed to its window), and
        the merged entry replaces the item's override. */
    method SaveRateOverride(item: string, body: RateIn, now: string) returns (r: Result<(RateEntry, seq<Warning>), Error>)
      requires Valid()
      modifies this
      ensures Validate(body).Err? ==> r == Err(Validate(body).error) && overrides == old(overrides) && changeLog == old(changeLog)
      ensures Validate(body).Ok? ==>
        var o := if item in old(overrides) then Some(old(overrides)[item]) else None;
        && r == Ok((Merged(o, body, now), Warnings(o, Provided(body))))
        && overrides == old(overrides)[item := Merged(o, body, now)]
        && changeLog == AppendLog(old(changeLog), Changes(item, o, Provided(body), now))
      ensures Valid()
    {
      var checked := Validate(body);
      if checked.Err? {
        return Err(checked.error);
      }
      var o := if item in overrides then Some(overrides[item]) else None;
      var fields := Provided(body);
      var warnings: seq<Warning> := [];
      var entries: seq<Change> := [];
      for i := 0 to |fields|
        invariant warnings == Warnings(o, fields[..i])
        invariant entries == Changes(item, o, fields[..i], now)
      {
        assert fields[..i + 1][..i] == fields[..i];
        var (f, newValue) := fields[i];
        if newValue.Some? {
          var w := Warn(f, StoredValue(o, f), newValue.value);
          if w.Some? {
            warnings := warnings + [w.value];
          }
          entries := entries + [Change(item, f, StoredValue(o, f), newValue.value, now)];
        }
      }
      assert fields[..|fields|] == fields;
      if entries != [] {
        changeLog := Trim(changeLog + entries);
      }
      var entry := Merged(o, body, now);
      overrides := overrides[item := entry];
      r := Ok((entry, warnings));
    }

    /** `delete_rate_override`: 404 for an item with no override; otherwise
        that item reverts to the imported rates. The log is untouched. */
    method DeleteRateOverride(item: string) returns (r: Result<string, Error>)
      requires Valid()
      modifies this
      ensures item !in old(overrides) ==> r == Err(NotFound) && overrides == old(overrides)
      ensures item in old(overrides) ==> r == Ok(item) && overrides == old(overrides) - {item}
      ensures changeLog == old(changeLog)
      ensures Valid()
    {
      if item !in overrides {
        return Err(NotFound);
      }
      overrides := overrides - {item};
      r := Ok(item);
    }
  }
}
