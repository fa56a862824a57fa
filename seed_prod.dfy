/**
 * The production seed: inside one transaction it upserts facility types and
 * then amenities by name. A seed row whose name is already in the table
 * updates the first such row, each field falling back to the stored value
 * when the seed leaves it out; a seed row with an unseen name is inserted.
 * Any failing statement rolls the whole transaction back.
 */
module SeedProd {
  import opened Wrappers
  import opened Schema
  import opened Tables
  import opened Store

  // ---------------------------------------------------------------- facility types

  /** The row `SELECT ... WHERE name = v.name LIMIT 1` finds; a seed without a name matches nothing. */
  ghost function FacilityTypeMatch(t: Snapshot, v: FacilityTypeValues): (r: Option<int>)
    ensures r.Some? ==> v.name.Some? && r.value in t.facilityTypes && t.facilityTypes[r.value].name == v.name.value
    ensures r.None? ==> v.name.None? || forall id :: id in t.facilityTypes ==> t.facilityTypes[id].name != v.name.value
  {
    if v.name.Some? then First(FacilityTypesNamed(t, v.name.value)) else None
  }

  /** Some facility type is called `name`. */
  ghost predicate HasFacilityType(t: Snapshot, name: Option<string>) {
    name.Some? && FacilityTypesNamed(t, name.value) != {}
  }

  /** One iteration of the facility-type loop: update the match, or insert the seed row. */
  ghost function UpsertFacilityType(t: Snapshot, v: FacilityTypeValues): Result<Snapshot, DbError>
  {
    match FacilityTypeMatch(t, v)
    case Some(id) =>
      var row := t.facilityTypes[id];
      UpdateFacilityType(t, id, v.slug.OrElse(row.slug), v.description.OrElse(row.description),
                         Some(v.order.GetOr(row.order.GetOr(DefaultOrder))))
    case None =>
      var e := InsertFacilityTypes(t, [v]);
      if e.Ok? then Ok(e.value.tables) else Err(e.error)
  }

  /** What one upsert does: the fallback rule on a match, a one-row insert otherwise. */
  lemma UpsertFacilityTypeEffect(t: Snapshot, v: FacilityTypeValues)
    ensures var r := UpsertFacilityType(t, v); var m := FacilityTypeMatch(t, v);
        m.Some? && r.Ok? ==>
          && r.value.facilityTypes.Keys == t.facilityTypes.Keys
          && r.value == t.(facilityTypes := r.value.facilityTypes)
          && (forall id :: id in t.facilityTypes && id != m.value ==> r.value.facilityTypes[id] == t.facilityTypes[id])
          && var before, after := t.facilityTypes[m.value], r.value.facilityTypes[m.value];
             && after.name == before.name
             && after.slug == (if v.slug.Some? then v.slug else before.slug)
             && after.description == (if v.description.Some? then v.description else before.description)
             && after.order == Some(if v.order.Some? then v.order.value
                                    else if before.order.Some? then before.order.value else DefaultOrder)
    ensures var r := UpsertFacilityType(t, v); FacilityTypeMatch(t, v).None? ==>
        (r.Ok? <==> CheckFacilityType(v).Ok? && t.facilityTypeSeq !in t.facilityTypes)
    ensures var r := UpsertFacilityType(t, v); FacilityTypeMatch(t, v).None? && r.Ok? ==>
        r.value == t.(facilityTypes := t.facilityTypes[t.facilityTypeSeq := CheckFacilityType(v).value],
                      facilityTypeSeq := t.facilityTypeSeq + 1)
  {
    if FacilityTypeMatch(t, v).None? {
      if InsertFacilityTypes(t, [v]).Ok? {
        InsertOneFacilityType(t, v);
      } else {
        assert CheckAll([v], CheckFacilityType).Ok? <==> CheckFacilityType(v).Ok? by {
          assert [v][0] == v;
        }
        assert Ids(t.facilityTypeSeq, 1) == [t.facilityTypeSeq];
      }
    }
  }

  /** The facility-type loop over `vs`; the first failing statement ends it. */
  ghost function UpsertFacilityTypes(t: Snapshot, vs: seq<FacilityTypeValues>): Result<Snapshot, DbError> {
    if vs == [] then Ok(t)
    else match UpsertFacilityTypes(t, vs[..|vs| - 1])
      case Err(e) => Err(e)
      case Ok(u) => UpsertFacilityType(u, vs[|vs| - 1])
  }

  /** An upsert leaves every stored facility type in place, under the same id and name. */
  lemma UpsertFacilityTypeKeepsRows(t: Snapshot, v: FacilityTypeValues)
    requires UpsertFacilityType(t, v).Ok?
    ensures KeepsFacilityTypes(t, UpsertFacilityType(t, v).value)
    ensures HasFacilityType(UpsertFacilityType(t, v).value, v.name)
  {
    UpsertFacilityTypeEffect(t, v);
    var u := UpsertFacilityType(t, v).value;
    var m := FacilityTypeMatch(t, v);
    if m.Some? {
      assert m.value in FacilityTypesNamed(u, v.name.value);
    } else {
      assert CheckFacilityType(v).Ok?;
      assert t.facilityTypeSeq in FacilityTypesNamed(u, v.name.value);
    }
  }

  /** An upsert of a name already stored adds no row. */
  lemma UpsertFacilityTypeOfKnown(t: Snapshot, v: FacilityTypeValues)
    requires HasFacilityType(t, v.name)
    requires UpsertFacilityType(t, v).Ok?
    ensures var u := UpsertFacilityType(t, v).value;
      u.facilityTypes.Keys == t.facilityTypes.Keys && u.facilityTypeSeq == t.facilityTypeSeq
      && (forall id :: id in t.facilityTypes ==> u.facilityTypes[id].name == t.facilityTypes[id].name)
  {
    UpsertFacilityTypeEffect(t, v);
    NonEmptyHasElement(FacilityTypesNamed(t, v.name.value));
    var id :| id in FacilityTypesNamed(t, v.name.value);
  }

  /** Every row of `t` is still in `u`, under the same id and with the same name; nothing else changes. */
  ghost predicate KeepsFacilityTypes(t: Snapshot, u: Snapshot) {
    && u == t.(facilityTypes := u.facilityTypes, facilityTypeSeq := u.facilityTypeSeq)
    && forall id :: id in t.facilityTypes ==> id in u.facilityTypes && u.facilityTypes[id].name == t.facilityTypes[id].name
  }

  lemma KeepsFacilityTypesNames(t: Snapshot, u: Snapshot, name: Option<string>)
    requires KeepsFacilityTypes(t, u) && HasFacilityType(t, name)
    ensures HasFacilityType(u, name)
  {
    NonEmptyHasElement(FacilityTypesNamed(t, name.value));
    var id :| id in FacilityTypesNamed(t, name.value);
    assert id in FacilityTypesNamed(u, name.value);
  }

  /**
   * After the loop every seed name is in the table, and every row that was
   * there before still is, with its id and name.
   */
  lemma {:induction false} UpsertFacilityTypesCover(t: Snapshot, vs: seq<FacilityTypeValues>)
    requires UpsertFacilityTypes(t, vs).Ok?
    ensures KeepsFacilityTypes(t, UpsertFacilityTypes(t, vs).value)
    ensures forall i :: 0 <= i < |vs| ==> HasFacilityType(UpsertFacilityTypes(t, vs).value, vs[i].name)
  {
    if vs != [] {
      var init := vs[..|vs| - 1];
      UpsertFacilityTypesCover(t, init);
      var mid := UpsertFacilityTypes(t, init).value;
      UpsertFacilityTypeKeepsRows(mid, vs[|vs| - 1]);
      var u := UpsertFacilityTypes(t, vs).value;
      assert KeepsFacilityTypes(mid, u);
      forall i | 0 <= i < |vs| - 1
        ensures HasFacilityType(u, vs[i].name)
      {
        assert init[i] == vs[i];
        KeepsFacilityTypesNames(mid, u, vs[i].name);
      }
    }
  }

  /** When every seed name is already stored, the loop inserts nothing: the ids stay as they were. */
  lemma {:induction false} UpsertKnownFacilityTypes(t: Snapshot, vs: seq<FacilityTypeValues>)
    requires forall i :: 0 <= i < |vs| ==> HasFacilityType(t, vs[i].name)
    requires UpsertFacilityTypes(t, vs).Ok?
    ensures var u := UpsertFacilityTypes(t, vs).value;
      u.facilityTypes.Keys == t.facilityTypes.Keys && u.facilityTypeSeq == t.facilityTypeSeq
      && (forall id :: id in t.facilityTypes ==> u.facilityTypes[id].name == t.facilityTypes[id].name)
  {
    if vs != [] {
      var init := vs[..|vs| - 1];
      assert forall i :: 0 <= i < |init| ==> init[i] == vs[i];
      UpsertKnownFacilityTypes(t, init);
      var mid := UpsertFacilityTypes(t, init).value;
      var v := vs[|vs| - 1];
      assert HasFacilityType(t, v.name);
      NonEmptyHasElement(FacilityTypesNamed(t, v.name.value));
      var id :| id in FacilityTypesNamed(t, v.name.value);
      assert id in FacilityTypesNamed(mid, v.name.value);
      UpsertFacilityTypeOfKnown(mid, v);
    }
  }

  /** Once a statement of the loop fails, the loop as a whole fails with that error. */
  lemma {:induction false} UpsertFacilityTypesFailed(t: Snapshot, vs: seq<FacilityTypeValues>, i: nat)
    requires i <= |vs|
    requires UpsertFacilityTypes(t, vs[..i]).Err?
    ensures UpsertFacilityTypes(t, vs) == UpsertFacilityTypes(t, vs[..i])
    decreases |vs| - i
  {
    if i < |vs| {
      var next := vs[..i + 1];
      assert next[..|next| - 1] == vs[..i];
      assert UpsertFacilityTypes(t, next) == UpsertFacilityTypes(t, vs[..i]);
      UpsertFacilityTypesFailed(t, vs, i + 1);
    } else {
      assert vs[..i] == vs;
    }
  }

  // ---------------------------------------------------------------- amenities

  /** The row `SELECT ... WHERE name = v.name LIMIT 1` finds; a seed without a name matches nothing. */
  ghost function AmenityMatch(t: Snapshot, v: AmenityValues): (r: Option<int>)
    ensures r.Some? ==> v.name.Some? && r.value in t.amenities && t.amenities[r.value].name == v.name.value
    ensures r.None? ==> v.name.None? || forall id :: id in t.amenities ==> t.amenities[id].name != v.name.value
  {
    if v.name.Some? then First(AmenitiesNamed(t, v.name.value)) else None
  }

  /** Some amenity is called `name`. */
  ghost predicate HasAmenity(t: Snapshot, name: Option<string>) {
    name.Some? && AmenitiesNamed(t, name.value) != {}
  }

  /** One iteration of the amenity loop: update the match, or insert the seed row. */
  ghost function UpsertAmenity(t: Snapshot, v: AmenityValues): Result<Snapshot, DbError>
  {
    match AmenityMatch(t, v)
    case Some(id) =>
      var row := t.amenities[id];
      Ok(UpdateAmenity(t, id, v.description.OrElse(row.description),
                       Some(v.isMultipleApplicable.GetOr(row.isMultipleApplicable.GetOr(DefaultIsMultipleApplicable)))))
    case None =>
      var e := InsertAmenities(t, [v]);
      if e.Ok? then Ok(e.value.tables) else Err(e.error)
  }

  /** What one upsert does: the fallback rule on a match, a one-row insert otherwise. */
  lemma UpsertAmenityEffect(t: Snapshot, v: AmenityValues)
    ensures var r := UpsertAmenity(t, v); var m := AmenityMatch(t, v);
        m.Some? ==>
          && r.Ok?
          && r.value.amenities.Keys == t.amenities.Keys
          && r.value == t.(amenities := r.value.amenities)
          && (forall id :: id in t.amenities && id != m.value ==> r.value.amenities[id] == t.amenities[id])
          && var before, after := t.amenities[m.value], r.value.amenities[m.value];
             && after.name == before.name
             && after.description == (if v.description.Some? then v.description else before.description)
             && after.isMultipleApplicable == Some(if v.isMultipleApplicable.Some? then v.isMultipleApplicable.value
                                                   else if before.isMultipleApplicable.Some? then before.isMultipleApplicable.value
                                                   else DefaultIsMultipleApplicable)
    ensures var r := UpsertAmenity(t, v); AmenityMatch(t, v).None? ==>
        (r.Ok? <==> CheckAmenity(v).Ok? && t.amenitySeq !in t.amenities)
    ensures var r := UpsertAmenity(t, v); AmenityMatch(t, v).None? && r.Ok? ==>
        r.value == t.(amenities := t.amenities[t.amenitySeq := CheckAmenity(v).value], amenitySeq := t.amenitySeq + 1)
  {
    if AmenityMatch(t, v).None? {
      if InsertAmenities(t, [v]).Ok? {
        InsertOneAmenity(t, v);
      } else {
        assert CheckAll([v], CheckAmenity).Ok? <==> CheckAmenity(v).Ok? by {
          assert [v][0] == v;
        }
        assert Ids(t.amenitySeq, 1) == [t.amenitySeq];
      }
    }
  }

  /** The amenity loop over `vs`; the first failing statement ends it. */
  ghost function UpsertAmenities(t: Snapshot, vs: seq<AmenityValues>): Result<Snapshot, DbError> {
    if vs == [] then Ok(t)
    else match UpsertAmenities(t, vs[..|vs| - 1])
      case Err(e) => Err(e)
      case Ok(u) => UpsertAmenity(u, vs[|vs| - 1])
  }

  /** An upsert leaves every stored amenity in place, under the same id and name. */
  lemma UpsertAmenityKeepsRows(t: Snapshot, v: AmenityValues)
    requires UpsertAmenity(t, v).Ok?
    ensures KeepsAmenities(t, UpsertAmenity(t, v).value)
    ensures HasAmenity(UpsertAmenity(t, v).value, v.name)
  {
    UpsertAmenityEffect(t, v);
    var u := UpsertAmenity(t, v).value;
    var m := AmenityMatch(t, v);
    if m.Some? {
      assert m.value in AmenitiesNamed(u, v.name.value);
    } else {
      assert CheckAmenity(v).Ok?;
      assert t.amenitySeq in AmenitiesNamed(u, v.name.value);
    }
  }

  /** An upsert of a name already stored adds no row. */
  lemma UpsertAmenityOfKnown(t: Snapshot, v: AmenityValues)
    requires HasAmenity(t, v.name)
    requires UpsertAmenity(t, v).Ok?
    ensures var u := UpsertAmenity(t, v).value;
      u.amenities.Keys == t.amenities.Keys && u.amenitySeq == t.amenitySeq
      && (forall id :: id in t.amenities ==> u.amenities[id].name == t.amenities[id].name)
  {
    UpsertAmenityEffect(t, v);
    NonEmptyHasElement(AmenitiesNamed(t, v.name.value));
    var id :| id in AmenitiesNamed(t, v.name.value);
  }

  /** Every row of `t` is still in `u`, under the same id and with the same name; nothing else changes. */
  ghost predicate KeepsAmenities(t: Snapshot, u: Snapshot) {
    && u == t.(amenities := u.amenities, amenitySeq := u.amenitySeq)
    && forall id :: id in t.amenities ==> id in u.amenities && u.amenities[id].name == t.amenities[id].name
  }

  lemma KeepsAmenitiesNames(t: Snapshot, u: Snapshot, name: Option<string>)
    requires KeepsAmenities(t, u) && HasAmenity(t, name)
    ensures HasAmenity(u, name)
  {
    NonEmptyHasElement(AmenitiesNamed(t, name.value));
    var id :| id in AmenitiesNamed(t, name.value);
    assert id in AmenitiesNamed(u, name.value);
  }

  /**
   * After the loop every seed name is in the table, and every row that was
   * there before still is, with its id and name.
   */
  lemma {:induction false} UpsertAmenitiesCover(t: Snapshot, vs: seq<AmenityValues>)
    requires UpsertAmenities(t, vs).Ok?
    ensures KeepsAmenities(t, UpsertAmenities(t, vs).value)
    ensures forall i :: 0 <= i < |vs| ==> HasAmenity(UpsertAmenities(t, vs).value, vs[i].name)
  {
    if vs != [] {
      var init := vs[..|vs| - 1];
      UpsertAmenitiesCover(t, init);
      var mid := UpsertAmenities(t, init).value;
      UpsertAmenityKeepsRows(mid, vs[|vs| - 1]);
      var u := UpsertAmenities(t, vs).value;
      assert KeepsAmenities(mid, u);
      forall i | 0 <= i < |vs| - 1
        ensures HasAmenity(u, vs[i].name)
      {
        assert init[i] == vs[i];
        KeepsAmenitiesNames(mid, u, vs[i].name);
      }
    }
  }

  /** When every seed name is already stored, the loop inserts nothing: the ids stay as they were. */
  lemma {:induction false} UpsertKnownAmenities(t: Snapshot, vs: seq<AmenityValues>)
    requires forall i :: 0 <= i < |vs| ==> HasAmenity(t, vs[i].name)
    requires UpsertAmenities(t, vs).Ok?
    ensures var u := UpsertAmenities(t, vs).value;
      u.amenities.Keys == t.amenities.Keys && u.amenitySeq == t.amenitySeq
      && (forall id :: id in t.amenities ==> u.amenities[id].name == t.amenities[id].name)
  {
    if vs != [] {
      var init := vs[..|vs| - 1];
      assert forall i :: 0 <= i < |init| ==> init[i] == vs[i];
      UpsertKnownAmenities(t, init);
      var mid := UpsertAmenities(t, init).value;
      var v := vs[|vs| - 1];
      assert HasAmenity(t, v.name);
      NonEmptyHasElement(AmenitiesNamed(t, v.name.value));
      var id :| id in AmenitiesNamed(t, v.name.value);
      assert id in AmenitiesNamed(mid, v.name.value);
      UpsertAmenityOfKnown(mid, v);
    }
  }

  /** Once a statement of the loop fails, the loop as a whole fails with that error. */
  lemma {:induction false} UpsertAmenitiesFailed(t: Snapshot, vs: seq<AmenityValues>, i: nat)
    requires i <= |vs|
    requires UpsertAmenities(t, vs[..i]).Err?
    ensures UpsertAmenities(t, vs) == UpsertAmenities(t, vs[..i])
    decreases |vs| - i
  {
    if i < |vs| {
      var next := vs[..i + 1];
      assert next[..|next| - 1] == vs[..i];
      assert UpsertAmenities(t, next) == UpsertAmenities(t, vs[..i]);
      UpsertAmenitiesFailed(t, vs, i + 1);
    } else {
      assert vs[..i] == vs;
    }
  }

  // ---------------------------------------------------------------- the transaction

  /** The whole transaction: facility types first, then amenities; an error anywhere is the result. */
  ghost function SeedAll(t: Snapshot, types: seq<FacilityTypeValues>, amenities: seq<AmenityValues>)
    : Result<Snapshot, DbError>
  {
    match UpsertFacilityTypes(t, types)
    case Err(e) => Err(e)
    case Ok(u) => UpsertAmenities(u, amenities)
  }

  /**
   * Running the seed a second time on what the first run left adds no row:
   * every name is found, so each statement is an update.
   */
  lemma SeedAllIdempotent(t: Snapshot, types: seq<FacilityTypeValues>, amenities: seq<AmenityValues>)
    requires SeedAll(t, types, amenities).Ok?
    ensures var u := SeedAll(t, types, amenities).value;
      SeedAll(u, types, amenities).Ok? ==>
        var w := SeedAll(u, types, amenities).value;
        && w.facilityTypes.Keys == u.facilityTypes.Keys && w.facilityTypeSeq == u.facilityTypeSeq
        && w.amenities.Keys == u.amenities.Keys && w.amenitySeq == u.amenitySeq
  {
    var mid := UpsertFacilityTypes(t, types).value;
    UpsertFacilityTypesCover(t, types);
    UpsertAmenitiesCover(mid, amenities);
    var u := SeedAll(t, types, amenities).value;
    assert forall i :: 0 <= i < |types| ==> HasFacilityType(u, types[i].name) by {
      assert u.facilityTypes == mid.facilityTypes;
      forall i | 0 <= i < |types| ensures HasFacilityType(u, types[i].name) {
        assert HasFacilityType(mid, types[i].name);
      }
    }
    if SeedAll(u, types, amenities).Ok? {
      UpsertKnownFacilityTypes(u, types);
      var mid2 := UpsertFacilityTypes(u, types).value;
      UpsertFacilityTypesCover(u, types);
      assert forall i :: 0 <= i < |amenities| ==> HasAmenity(mid2, amenities[i].name) by {
        assert mid2.amenities == u.amenities;
        forall i | 0 <= i < |amenities| ensures HasAmenity(mid2, amenities[i].name) {
          assert HasAmenity(u, amenities[i].name);
        }
      }
      UpsertKnownAmenities(mid2, amenities);
      UpsertAmenitiesCover(mid2, amenities);
    }
  }

  /**
   * The script against the database. The transaction's starting state is
   * kept; the first failing statement restores it and reports its error.
   */
  method Run(db: Database, types: seq<FacilityTypeValues>, amenities: seq<AmenityValues>)
    returns (r: Result<(), DbError>)
    modifies db
    ensures var e := SeedAll(old(db.State()), types, amenities);
      if e.Ok? then r.Ok? && db.State() == e.value
      else r == Err(e.error) && db.State() == old(db.State())
  {
    var start := db.State();
    for i := 0 to |types|
      invariant UpsertFacilityTypes(start, types[..i]) == Ok(db.State())
    {
      var ft := types[i];
      var existing: Option<int> := None;
      if ft.name.Some? {
        existing := db.FirstFacilityTypeNamed(ft.name.value);
      }
      assert types[..i + 1][..i] == types[..i];
      if existing.Some? {
        var row := db.facilityTypes[existing.value];
        var u := db.UpdateFacilityType(existing.value, ft.slug.OrElse(row.slug), ft.description.OrElse(row.description),
                                       Some(ft.order.GetOr(row.order.GetOr(DefaultOrder))));
        if u.Err? {
          UpsertFacilityTypesFailed(start, types, i + 1);
          db.Restore(start);
          return Err(u.error);
        }
      } else {
        var ins := db.InsertFacilityTypes([ft]);
        if ins.Err? {
          UpsertFacilityTypesFailed(start, types, i + 1);
          db.Restore(start);
          return Err(ins.error);
        }
      }
    }
    assert types[..|types|] == types;
    ghost var mid := db.State();
    for i := 0 to |amenities|
      invariant UpsertAmenities(mid, amenities[..i]) == Ok(db.State())
    {
      var am := amenities[i];
      var existing: Option<int> := None;
      if am.name.Some? {
        existing := db.FirstAmenityNamed(am.name.value);
      }
      assert amenities[..i + 1][..i] == amenities[..i];
      if existing.Some? {
        var row := db.amenities[existing.value];
        db.UpdateAmenity(existing.value, am.description.OrElse(row.description),
                         Some(am.isMultipleApplicable.GetOr(row.isMultipleApplicable.GetOr(DefaultIsMultipleApplicable))));
      } else {
        var ins := db.InsertAmenities([am]);
        if ins.Err? {
          UpsertAmenitiesFailed(mid, amenities, i + 1);
          db.Restore(start);
          return Err(ins.error);
        }
      }
    }
    assert amenities[..|amenities|] == amenities;
    r := Ok(());
  }
}
