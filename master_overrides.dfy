/** User-edited master data per stock item: package factor, group, base unit,
    HSN code, GST rate and notes, kept apart from the imported data and
    taking precedence over it. The JSON file that holds them is a map here. */
module MasterOverrides {
  import opened Wrappers

  /** The body of a save request: every field optional. */
  datatype OverrideIn = OverrideIn(
    baseUnit: Option<string>, pkgFactor: Option<real>, group: Option<string>,
    hsnCode: Option<string>, gstRate: Option<real>, notes: Option<string>)

  /** A stored override: the fields saved so far, and the time of the last
      save. The empty override `{}` has every field absent. */
  datatype Override = Override(
    baseUnit: Option<string>, pkgFactor: Option<real>, group: Option<string>,
    hsnCode: Option<string>, gstRate: Option<real>, notes: Option<string>,
    lastModified: Option<string>)

  const Empty := Override(None, None, None, None, None, None, None)

  /** Why a request fails: field validation (422, reporting every failing
      field), a body with no field (422), or an item with no override (404). */
  datatype Error = Invalid(pkgFactor: bool, gstRate: bool) | NoFields | NotFound

  predicate PkgFactorOk(v: Option<real>) {
    v.Some? ==> v.value > 0.0
  }

  predicate GstRateOk(v: Option<real>) {
    v.Some? ==> 0.0 <= v.value <= 100.0
  }

  /** The two field validators: a package factor must be positive and a GST
      rate must lie between 0 and 100. */
  function Validate(body: OverrideIn): (r: Result<OverrideIn, Error>)
    ensures r.Ok? <==> PkgFactorOk(body.pkgFactor) && GstRateOk(body.gstRate)
    ensures r.Ok? ==> r.value == body
    ensures r.Err? ==> r.error == Invalid(!PkgFactorOk(body.pkgFactor), !GstRateOk(body.gstRate))
  {
    if PkgFactorOk(body.pkgFactor) && GstRateOk(body.gstRate) then Ok(body)
    else Err(Invalid(!PkgFactorOk(body.pkgFactor), !GstRateOk(body.gstRate)))
  }

  /** `model_dump(exclude_none=True)` is non-empty. */
  predicate Provided(b: OverrideIn) {
    b.baseUnit.Some? || b.pkgFactor.Some? || b.group.Some? || b.hsnCode.Some? || b.gstRate.Some? || b.notes.Some?
  }

  function Pick<T>(update: Option<T>, existing: Option<T>): Option<T> {
    if update.Some? then update else existing
  }

  /** `{**existing, **update}` with `last_modified` set to `now`. */
  function Merge(existing: Override, b: OverrideIn, now: string): Override {
    Override(Pick(b.baseUnit, existing.baseUnit), Pick(b.pkgFactor, existing.pkgFactor),
             Pick(b.group, existing.group), Pick(b.hsnCode, existing.hsnCode),
             Pick(b.gstRate, existing.gstRate), Pick(b.notes, existing.notes), Some(now))
  }

  /** A stored override the validators would accept. */
  predicate Sound(o: Override) {
    PkgFactorOk(o.pkgFactor) && GstRateOk(o.gstRate)
  }

  /** The response of `set_override`. */
  function SetResult(data: map<string, Override>, item: string, body: OverrideIn, now: string): Result<Override, Error> {
    match Validate(body)
    case Err(e) => Err(e)
    case Ok(b) =>
      if !Provided(b) then Err(NoFields)
      else Ok(Merge(if item in data then data[item] else Empty, b, now))
  }

  /** Saving is a merge: a provided field takes its new value, any other
      field keeps the stored one (or stays absent), the save time is set, and
      saving the same body again changes only the time. A save that succeeds
      keeps a sound override sound. */
  lemma MergeSpec(existing: Override, b: OverrideIn, now: string, later: string)
    requires Provided(b) && PkgFactorOk(b.pkgFactor) && GstRateOk(b.gstRate)
    ensures var m := Merge(existing, b, now);
      && (b.pkgFactor.Some? ==> m.pkgFactor == b.pkgFactor) && (b.pkgFactor.None? ==> m.pkgFactor == existing.pkgFactor)
      && (b.group.Some? ==> m.group == b.group) && (b.group.None? ==> m.group == existing.group)
      && (b.baseUnit.Some? ==> m.baseUnit == b.baseUnit) && (b.baseUnit.None? ==> m.baseUnit == existing.baseUnit)
      && (b.gstRate.Some? ==> m.gstRate == b.gstRate) && (b.gstRate.None? ==> m.gstRate == existing.gstRate)
      && (b.hsnCode.Some? ==> m.hsnCode == b.hsnCode) && (b.hsnCode.None? ==> m.hsnCode == existing.hsnCode)
      && (b.notes.Some? ==> m.notes == b.notes) && (b.notes.None? ==> m.notes == existing.notes)
      && m.lastModified == Some(now)
      && Merge(m, b, later) == Merge(existing, b, later)
      && (Sound(existing) ==> Sound(m))
  {
  }

  /** `apply_overrides`: each of the three values is replaced exactly when the
      stored override has that field; otherwise the input passes through. */
  function ApplyOverrides(ov: Option<Override>, pkgFactor: Option<real>, group: Option<string>, baseUnit: Option<string>)
    : (r: (Option<real>, Option<string>, Option<string>))
    ensures ov.Some? && ov.value.pkgFactor.Some? ==> r.0 == ov.value.pkgFactor
    ensures !(ov.Some? && ov.value.pkgFactor.Some?) ==> r.0 == pkgFactor
    ensures ov.Some? && ov.value.group.Some? ==> r.1 == ov.value.group
    ensures !(ov.Some? && ov.value.group.Some?) ==> r.1 == group
    ensures ov.Some? && ov.value.baseUnit.Some? ==> r.2 == ov.value.baseUnit
    ensures !(ov.Some? && ov.value.baseUnit.Some?) ==> r.2 == baseUnit
  {
    var o := if ov.Some? then ov.value else Empty;
    (Pick(o.pkgFactor, pkgFactor), Pick(o.group, group), Pick(o.baseUnit, baseUnit))
  }

  /** After a successful save, applying the overrides yields the saved
      values for the provided fields and the earlier result for the others. */
  lemma ApplyAfterSave(data: map<string, Override>, item: string, body: OverrideIn, now: string,
                       pkgFactor: Option<real>, group: Option<string>, baseUnit: Option<string>)
    requires SetResult(data, item, body, now).Ok?
    ensures var saved := SetResult(data, item, body, now).value;
      var before := ApplyOverrides(if item in data then Some(data[item]) else None, pkgFactor, group, baseUnit);
      var after := ApplyOverrides(Some(saved), pkgFactor, group, baseUnit);
      && after.0 == (if body.pkgFactor.Some? then body.pkgFactor else before.0)
      && after.1 == (if body.group.Some? then body.group else before.1)
      && after.2 == (if body.baseUnit.Some? then body.baseUnit else before.2)
  {
  }

  /** The overrides file. */
  class OverrideStore {
    var data: map<string, Override>

    /** Every stored override passed the validators when it was saved. */
    ghost predicate Valid()
      reads this
    {
      forall item :: item in data ==> Sound(data[item])
    }

    constructor ()
      ensures data == map[] && Valid()
    {
      data := map[];
    }

    /** `get_all_overrides`. */
    function All(): (r: map<string, Override>)
      reads this
      ensures r == data
    {
      data
    }

    /** `get_override_for`: the stored override, or the empty one. */
    function OverrideFor(item: string): (r: Override)
      reads this
      ensures item in data ==> r == data[item]
      ensures item !in data ==> r == Empty
    {
      if item in data then data[item] else Empty
    }

    /** `set_override`: a body failing validation or with no field is
        rejected and nothing changes; otherwise the merged override is
        stored under `item` and every other item is untouched. */
    method SetOverride(item: string, body: OverrideIn, now: string) returns (r: Result<Override, Error>)
      requires Valid()
      modifies this
      ensures r == SetResult(old(data), item, body, now)
      ensures r.Err? ==> data == old(data)
      ensures r.Ok? ==> data == old(data)[item := r.value]
      ensures Valid()
    {
      var checked := Validate(body);
      if checked.Err? {
        return Err(checked.error);
      }
      if !Provided(body) {
        return Err(NoFields);
      }
      var existing := if item in data then data[item] else Empty;
      var merged := Merge(existing, body, now);
      data := data[item := merged];
      r := Ok(merged);
    }

    /** `delete_override`: 404 for an item with no override; otherwise only
        that item's override goes. */
    method DeleteOverride(item: string) returns (r: Result<string, Error>)
      requires Valid()
      modifies this
      ensures item !in old(data) ==> r == Err(NotFound) && data == old(data)
      ensures item in old(data) ==> r == Ok(item) && data == old(data) - {item}
      ensures Valid()
    {
      if item !in data {
        return Err(NotFound);
      }
      data := data - {item};
      r := Ok(item);
    }

    /** `clear_all_overrides`: the store is emptied and the number of
        overrides it held is returned. */
    method ClearAll() returns (count: nat)
      modifies this
      ensures count == |old(data)| && data == map[]
      ensures Valid()
    {
      count := |data|;
      data := map[];
    }
  }
}
