/**
 * The development seed. It appends the seed locations, replaces the facility
 * types (the delete cascades to every facility and its amenity rows),
 * appends the amenities, and then inserts the facilities and their amenity
 * rows after joining the seed's names against the ids just handed out.
 * Each statement stands alone: there is no transaction, so a failing
 * statement ends the script and leaves the earlier ones in place.
 */
module Seed {
  import opened Wrappers
  import opened Schema
  import opened Tables
  import opened Store

  /** A facility as the seed file gives it: by location address and facility-type name. */
  datatype FacilitySeed = FacilitySeed(
    locationAddress: string,
    facilityTypeName: string,
    floor: Option<string>,
    description: Option<string>,
    hasDiaperChangingStation: Option<bool>,
    hasLactationRoom: Option<bool>)

  /**
   * One amenity of a facility in the seed file, by name. An entry without a
   * quantity passes `undefined` on, so the column default applies.
   */
  datatype SeedAmenity = SeedAmenity(name: string, quantity: Option<int>)

  /** The amenities of the facility whose description is `facilityDesc`. */
  datatype FacilityAmenitySeed = FacilityAmenitySeed(facilityDesc: string, amenities: seq<SeedAmenity>)

  /** The five seed files. */
  datatype SeedFiles = SeedFiles(
    locations: seq<LocationValues>,
    facilityTypes: seq<FacilityTypeValues>,
    amenities: seq<AmenityValues>,
    facilities: seq<FacilitySeed>,
    facilityAmenities: seq<FacilityAmenitySeed>)

  // ---------------------------------------------------------------- name -> id maps

  /** `Object.fromEntries` over (key, id) pairs, entered in order. */
  function FromEntries<K(==)>(keys: seq<K>, ids: seq<int>): map<K, int>
    requires |keys| == |ids|
  {
    if keys == [] then map[]
    else FromEntries(keys[..|keys| - 1], ids[..|ids| - 1])[keys[|keys| - 1] := ids[|ids| - 1]]
  }

  /** No later entry has the same key as entry `i`. */
  predicate LastWithKey<K(==)>(keys: seq<K>, i: int)
    requires 0 <= i < |keys|
  {
    forall j :: i < j < |keys| ==> keys[j] != keys[i]
  }

  /** The map holds exactly the keys entered. */
  lemma {:induction false} FromEntriesKeys<K>(keys: seq<K>, ids: seq<int>)
    requires |keys| == |ids|
    ensures forall k :: k in FromEntries(keys, ids) <==> exists i :: 0 <= i < |keys| && keys[i] == k
  {
    if keys != [] {
      var n := |keys| - 1;
      FromEntriesKeys(keys[..n], ids[..n]);
      assert forall i :: 0 <= i < n ==> keys[..n][i] == keys[i];
    }
  }

  /** A key entered more than once resolves to the id of its last entry. */
  lemma {:induction false} FromEntriesLaterWins<K>(keys: seq<K>, ids: seq<int>, i: int)
    requires |keys| == |ids|
    requires 0 <= i < |keys| && LastWithKey(keys, i)
    ensures keys[i] in FromEntries(keys, ids) && FromEntries(keys, ids)[keys[i]] == ids[i]
  {
    var n := |keys| - 1;
    if i < n {
      var init, initIds := keys[..n], ids[..n];
      assert init[i] == keys[i] && initIds[i] == ids[i];
      assert LastWithKey(init, i);
      FromEntriesLaterWins(init, initIds, i);
    }
  }

  /** Every id in the map is the id of an entry with that key. */
  lemma {:induction false} FromEntriesValue<K>(keys: seq<K>, ids: seq<int>, k: K)
    requires |keys| == |ids| && k in FromEntries(keys, ids)
    ensures exists i :: 0 <= i < |keys| && keys[i] == k && ids[i] == FromEntries(keys, ids)[k]
  {
    var n := |keys| - 1;
    if keys[n] != k {
      var init, initIds := keys[..n], ids[..n];
      FromEntriesValue(init, initIds, k);
      var i :| 0 <= i < n && init[i] == k && initIds[i] == FromEntries(init, initIds)[k];
      assert keys[i] == k && ids[i] == FromEntries(keys, ids)[k];
    }
  }

  /** The addresses of inserted locations, in insertion order. */
  function Addresses(rows: seq<Location>): (r: seq<string>)
    ensures |r| == |rows| && forall i :: 0 <= i < |rows| ==> r[i] == rows[i].address
  {
    seq(|rows|, i requires 0 <= i < |rows| => rows[i].address)
  }

  function FacilityTypeNames(rows: seq<FacilityType>): (r: seq<string>)
    ensures |r| == |rows| && forall i :: 0 <= i < |rows| ==> r[i] == rows[i].name
  {
    seq(|rows|, i requires 0 <= i < |rows| => rows[i].name)
  }

  function AmenityNames(rows: seq<Amenity>): (r: seq<string>)
    ensures |r| == |rows| && forall i :: 0 <= i < |rows| ==> r[i] == rows[i].name
  {
    seq(|rows|, i requires 0 <= i < |rows| => rows[i].name)
  }

  /** A property key made from a description: a null description becomes the key "null". */
  function DescriptionKey(description: Option<string>): string {
    match description
    case Some(d) => d
    case None => "null"
  }

  function DescriptionKeys(rows: seq<Facility>): (r: seq<string>)
    ensures |r| == |rows| && forall i :: 0 <= i < |rows| ==> r[i] == DescriptionKey(rows[i].description)
  {
    seq(|rows|, i requires 0 <= i < |rows| => DescriptionKey(rows[i].description))
  }

  // ---------------------------------------------------------------- facilities

  /** The facility row a seed facility becomes once its location and type resolve. */
  function FacilityRow(f: FacilitySeed, locationId: int, facilityTypeId: int): (v: FacilityValues)
    ensures v.createdBy == Some("system") && v.locationId == Some(locationId) && v.facilityTypeId == Some(facilityTypeId)
    ensures v.description == f.description && v.floor == f.floor
    ensures v.hasDiaperChangingStation == Some(f.hasDiaperChangingStation.Some? && f.hasDiaperChangingStation.value)
    ensures v.hasLactationRoom == Some(f.hasLactationRoom.Some? && f.hasLactationRoom.value)
    ensures v.howToAccess.None? && v.femalesOnly.None?
  {
    FacilityValues(
      Some(locationId), Some(facilityTypeId), f.floor, f.description,
      Some(f.hasDiaperChangingStation.GetOr(false)), Some(f.hasLactationRoom.GetOr(false)),
      None, Some("system"), None)
  }

  /** Both the address and the facility-type name are keys of their maps. */
  predicate Resolves(f: FacilitySeed, locationIds: map<string, int>, typeIds: map<string, int>) {
    f.locationAddress in locationIds && f.facilityTypeName in typeIds
  }

  /** The facility rows to insert: the seed facilities that resolve, in order; the others are dropped. */
  function FacilitiesToInsert(fs: seq<FacilitySeed>, locationIds: map<string, int>, typeIds: map<string, int>)
    : seq<FacilityValues>
  {
    if fs == [] then []
    else
      var f := fs[|fs| - 1];
      FacilitiesToInsert(fs[..|fs| - 1], locationIds, typeIds)
      + if Resolves(f, locationIds, typeIds)
        then [FacilityRow(f, locationIds[f.locationAddress], typeIds[f.facilityTypeName])]
        else []
  }

  /** `f`, resolved against the two maps, gives the row `v`. */
  predicate RowOf(f: FacilitySeed, locationIds: map<string, int>, typeIds: map<string, int>, v: FacilityValues) {
    Resolves(f, locationIds, typeIds) && v == FacilityRow(f, locationIds[f.locationAddress], typeIds[f.facilityTypeName])
  }

  /** Some element of `s` is `v`. */
  ghost predicate Contains<T>(s: seq<T>, v: T) {
    exists i :: 0 <= i < |s| && s[i] == v
  }

  lemma ContainsAppend<T>(a: seq<T>, b: seq<T>, v: T)
    ensures Contains(a, v) ==> Contains(a + b, v)
    ensures Contains(b, v) ==> Contains(a + b, v)
  {
    if Contains(a, v) {
      var i :| 0 <= i < |a| && a[i] == v;
      assert (a + b)[i] == v;
    }
    if Contains(b, v) {
      var i :| 0 <= i < |b| && b[i] == v;
      assert (a + b)[|a| + i] == v;
    }
  }

  /** `v` is the row of some seed facility that resolves. */
  predicate RowFromSeed(fs: seq<FacilitySeed>, locationIds: map<string, int>, typeIds: map<string, int>, v: FacilityValues) {
    exists j :: 0 <= j < |fs| && RowOf(fs[j], locationIds, typeIds, v)
  }

  /** Every row to insert comes from a seed facility that resolves. */
  lemma {:induction false} FacilitiesToInsertSound(fs: seq<FacilitySeed>, locationIds: map<string, int>, typeIds: map<string, int>)
    ensures |FacilitiesToInsert(fs, locationIds, typeIds)| <= |fs|
    ensures forall i :: 0 <= i < |FacilitiesToInsert(fs, locationIds, typeIds)| ==>
      RowFromSeed(fs, locationIds, typeIds, FacilitiesToInsert(fs, locationIds, typeIds)[i])
  {
    if fs != [] {
      var n := |fs| - 1;
      var init := fs[..n];
      FacilitiesToInsertSound(init, locationIds, typeIds);
      var before := FacilitiesToInsert(init, locationIds, typeIds);
      var rows := FacilitiesToInsert(fs, locationIds, typeIds);
      forall i | 0 <= i < |rows|
        ensures RowFromSeed(fs, locationIds, typeIds, rows[i])
      {
        if i < |before| {
          assert rows[i] == before[i];
          var j :| 0 <= j < n && RowOf(init[j], locationIds, typeIds, before[i]);
          assert init[j] == fs[j];
        } else {
          assert RowOf(fs[n], locationIds, typeIds, rows[i]);
        }
      }
    }
  }

  /** Every seed facility that resolves gives its row: only the unresolved ones are dropped. */
  lemma {:induction false} FacilitiesToInsertComplete(fs: seq<FacilitySeed>, locationIds: map<string, int>, typeIds: map<string, int>, j: int)
    requires 0 <= j < |fs| && Resolves(fs[j], locationIds, typeIds)
    ensures Contains(FacilitiesToInsert(fs, locationIds, typeIds),
                     FacilityRow(fs[j], locationIds[fs[j].locationAddress], typeIds[fs[j].facilityTypeName]))
  {
    var n := |fs| - 1;
    var init := fs[..n];
    var v := FacilityRow(fs[j], locationIds[fs[j].locationAddress], typeIds[fs[j].facilityTypeName]);
    var last := if Resolves(fs[n], locationIds, typeIds)
      then [FacilityRow(fs[n], locationIds[fs[n].locationAddress], typeIds[fs[n].facilityTypeName])] else [];
    assert FacilitiesToInsert(fs, locationIds, typeIds) == FacilitiesToInsert(init, locationIds, typeIds) + last;
    if j < n {
      assert init[j] == fs[j];
      FacilitiesToInsertComplete(init, locationIds, typeIds, j);
    } else {
      assert last[0] == v;
    }
    ContainsAppend(FacilitiesToInsert(init, locationIds, typeIds), last, v);
  }

  // ---------------------------------------------------------------- facility amenities

  /** Both the facility description and the amenity name are keys of their maps. */
  predicate LinkResolves(desc: string, a: SeedAmenity, facilityIds: map<string, int>, amenityIds: map<string, int>) {
    desc in facilityIds && a.name in amenityIds
  }

  function LinkRow(desc: string, a: SeedAmenity, facilityIds: map<string, int>, amenityIds: map<string, int>): LinkValues
    requires LinkResolves(desc, a, facilityIds, amenityIds)
  {
    LinkValues(Some(facilityIds[desc]), Some(amenityIds[a.name]), a.quantity)
  }

  /** A stored seed link has the entry's quantity, or the column default 1 when the entry gives none. */
  lemma LinkRowQuantity(desc: string, a: SeedAmenity, facilityIds: map<string, int>, amenityIds: map<string, int>)
    requires LinkResolves(desc, a, facilityIds, amenityIds)
    requires CheckLink(LinkRow(desc, a, facilityIds, amenityIds)).Ok?
    ensures CheckLink(LinkRow(desc, a, facilityIds, amenityIds)).value.1 == Some(a.quantity.GetOr(1))
  {
  }

  /** The link rows of one facility: its amenities whose facility and amenity both resolve, in order. */
  function LinksOf(desc: string, as_: seq<SeedAmenity>, facilityIds: map<string, int>, amenityIds: map<string, int>)
    : seq<LinkValues>
  {
    if as_ == [] then []
    else
      var a := as_[|as_| - 1];
      LinksOf(desc, as_[..|as_| - 1], facilityIds, amenityIds)
      + if LinkResolves(desc, a, facilityIds, amenityIds) then [LinkRow(desc, a, facilityIds, amenityIds)] else []
  }

  /** The link rows of all facilities, one facility after the other. */
  function LinkRows(fas: seq<FacilityAmenitySeed>, facilityIds: map<string, int>, amenityIds: map<string, int>)
    : seq<LinkValues>
  {
    if fas == [] then []
    else
      var fa := fas[|fas| - 1];
      LinkRows(fas[..|fas| - 1], facilityIds, amenityIds) + LinksOf(fa.facilityDesc, fa.amenities, facilityIds, amenityIds)
  }

  /** The seed pair (`desc`, `a`) resolves and gives the link row `v`. */
  predicate LinkOf(desc: string, a: SeedAmenity, facilityIds: map<string, int>, amenityIds: map<string, int>, v: LinkValues) {
    LinkResolves(desc, a, facilityIds, amenityIds) && v == LinkRow(desc, a, facilityIds, amenityIds)
  }

  /** `v` is the link row of some amenity in `as_`. */
  predicate FromAmenity(desc: string, as_: seq<SeedAmenity>, facilityIds: map<string, int>, amenityIds: map<string, int>, v: LinkValues) {
    exists k :: 0 <= k < |as_| && LinkOf(desc, as_[k], facilityIds, amenityIds, v)
  }

  /** `v` is the link row of some amenity of some facility of the seed file. */
  predicate FromSeedPair(fas: seq<FacilityAmenitySeed>, facilityIds: map<string, int>, amenityIds: map<string, int>, v: LinkValues) {
    exists j :: 0 <= j < |fas| && FromAmenity(fas[j].facilityDesc, fas[j].amenities, facilityIds, amenityIds, v)
  }

  /** Every link row of one facility comes from one of its amenities that resolves. */
  lemma {:induction false} LinksOfSound(desc: string, as_: seq<SeedAmenity>, facilityIds: map<string, int>, amenityIds: map<string, int>)
    ensures forall i :: 0 <= i < |LinksOf(desc, as_, facilityIds, amenityIds)| ==>
      FromAmenity(desc, as_, facilityIds, amenityIds, LinksOf(desc, as_, facilityIds, amenityIds)[i])
  {
    if as_ != [] {
      var n := |as_| - 1;
      var init := as_[..n];
      LinksOfSound(desc, init, facilityIds, amenityIds);
      var before := LinksOf(desc, init, facilityIds, amenityIds);
      var rows := LinksOf(desc, as_, facilityIds, amenityIds);
      forall i | 0 <= i < |rows|
        ensures FromAmenity(desc, as_, facilityIds, amenityIds, rows[i])
      {
        if i < |before| {
          assert rows[i] == before[i];
          var k :| 0 <= k < n && LinkOf(desc, init[k], facilityIds, amenityIds, before[i]);
          assert init[k] == as_[k];
        } else {
          assert LinkOf(desc, as_[n], facilityIds, amenityIds, rows[i]);
        }
      }
    }
  }

  /** Every amenity of one facility that resolves gives its link row. */
  lemma {:induction false} LinksOfComplete(desc: string, as_: seq<SeedAmenity>, facilityIds: map<string, int>, amenityIds: map<string, int>, k: int)
    requires 0 <= k < |as_| && LinkResolves(desc, as_[k], facilityIds, amenityIds)
    ensures Contains(LinksOf(desc, as_, facilityIds, amenityIds), LinkRow(desc, as_[k], facilityIds, amenityIds))
  {
    var n := |as_| - 1;
    var init := as_[..n];
    var v := LinkRow(desc, as_[k], facilityIds, amenityIds);
    var last := if LinkResolves(desc, as_[n], facilityIds, amenityIds) then [LinkRow(desc, as_[n], facilityIds, amenityIds)] else [];
    assert LinksOf(desc, as_, facilityIds, amenityIds) == LinksOf(desc, init, facilityIds, amenityIds) + last;
    if k < n {
      assert init[k] == as_[k];
      LinksOfComplete(desc, init, facilityIds, amenityIds, k);
    } else {
      assert last[0] == v;
    }
    ContainsAppend(LinksOf(desc, init, facilityIds, amenityIds), last, v);
  }

  /** Every link row comes from a facility description and an amenity name of the seed file that both resolve. */
  lemma {:induction false} LinkRowsSound(fas: seq<FacilityAmenitySeed>, facilityIds: map<string, int>, amenityIds: map<string, int>)
    ensures forall i :: 0 <= i < |LinkRows(fas, facilityIds, amenityIds)| ==>
      FromSeedPair(fas, facilityIds, amenityIds, LinkRows(fas, facilityIds, amenityIds)[i])
  {
    if fas != [] {
      var n := |fas| - 1;
      var init := fas[..n];
      var fa := fas[n];
      LinkRowsSound(init, facilityIds, amenityIds);
      LinksOfSound(fa.facilityDesc, fa.amenities, facilityIds, amenityIds);
      var before := LinkRows(init, facilityIds, amenityIds);
      var last := LinksOf(fa.facilityDesc, fa.amenities, facilityIds, amenityIds);
      var rows := LinkRows(fas, facilityIds, amenityIds);
      assert rows == before + last;
      forall i | 0 <= i < |rows|
        ensures FromSeedPair(fas, facilityIds, amenityIds, rows[i])
      {
        if i < |before| {
          assert rows[i] == before[i];
          var j :| 0 <= j < n && FromAmenity(init[j].facilityDesc, init[j].amenities, facilityIds, amenityIds, before[i]);
          assert init[j] == fas[j];
        } else {
          assert rows[i] == last[i - |before|];
          assert FromAmenity(fas[n].facilityDesc, fas[n].amenities, facilityIds, amenityIds, rows[i]);
        }
      }
    }
  }

  /** Every amenity of every seed facility whose description and name both resolve gives its link row. */
  lemma {:induction false} LinkRowsComplete(fas: seq<FacilityAmenitySeed>, facilityIds: map<string, int>, amenityIds: map<string, int>, j: int, k: int)
    requires 0 <= j < |fas| && 0 <= k < |fas[j].amenities|
    requires LinkResolves(fas[j].facilityDesc, fas[j].amenities[k], facilityIds, amenityIds)
    ensures Contains(LinkRows(fas, facilityIds, amenityIds), LinkRow(fas[j].facilityDesc, fas[j].amenities[k], facilityIds, amenityIds))
  {
    var n := |fas| - 1;
    var init := fas[..n];
    var v := LinkRow(fas[j].facilityDesc, fas[j].amenities[k], facilityIds, amenityIds);
    var last := LinksOf(fas[n].facilityDesc, fas[n].amenities, facilityIds, amenityIds);
    assert LinkRows(fas, facilityIds, amenityIds) == LinkRows(init, facilityIds, amenityIds) + last;
    if j < n {
      assert init[j] == fas[j];
      LinkRowsComplete(init, facilityIds, amenityIds, j, k);
    } else {
      LinksOfComplete(fas[n].facilityDesc, fas[n].amenities, facilityIds, amenityIds, k);
    }
    ContainsAppend(LinkRows(init, facilityIds, amenityIds), last, v);
  }

  // ---------------------------------------------------------------- the script

  /** `db.insert(locations).values(vs)`: the ORM refuses an empty list before it reaches the database. */
  function InsertLocationRows(t: Snapshot, vs: seq<LocationValues>): Result<Inserted, DbError> {
    if vs == [] then Err(EmptyValues) else InsertLocations(t, vs)
  }

  function InsertFacilityTypeRows(t: Snapshot, vs: seq<FacilityTypeValues>): Result<Inserted, DbError> {
    if vs == [] then Err(EmptyValues) else InsertFacilityTypes(t, vs)
  }

  function InsertAmenityRows(t: Snapshot, vs: seq<AmenityValues>): Result<Inserted, DbError> {
    if vs == [] then Err(EmptyValues) else InsertAmenities(t, vs)
  }

  function InsertFacilityRows(t: Snapshot, vs: seq<FacilityValues>): Result<Inserted, DbError> {
    if vs == [] then Err(EmptyValues) else InsertFacilities(t, vs)
  }

  /** address -> id over the locations inserted from `vs`, whose ids start at `next`. */
  function LocationIds(next: int, vs: seq<LocationValues>): map<string, int>
    requires CheckAll(vs, CheckLocation).Ok?
  {
    FromEntries(Addresses(CheckAll(vs, CheckLocation).value), Ids(next, |vs|))
  }

  /** name -> id over the facility types inserted from `vs`. */
  function TypeIds(next: int, vs: seq<FacilityTypeValues>): map<string, int>
    requires CheckAll(vs, CheckFacilityType).Ok?
  {
    FromEntries(FacilityTypeNames(CheckAll(vs, CheckFacilityType).value), Ids(next, |vs|))
  }

  /** name -> id over the amenities inserted from `vs`. */
  function AmenityIds(next: int, vs: seq<AmenityValues>): map<string, int>
    requires CheckAll(vs, CheckAmenity).Ok?
  {
    FromEntries(AmenityNames(CheckAll(vs, CheckAmenity).value), Ids(next, |vs|))
  }

  /** description -> id over the facilities inserted from `vs`. */
  function FacilityIds(next: int, vs: seq<FacilityValues>): map<string, int>
    requires CheckAll(vs, CheckFacility).Ok?
  {
    FromEntries(DescriptionKeys(CheckAll(vs, CheckFacility).value), Ids(next, |vs|))
  }

  /** How the script ends, and the database it leaves behind. */
  datatype Outcome = Outcome(result: Result<(), DbError>, tables: Snapshot)

  /** The script's last two statements: the facilities, then their amenity rows if there are any. */
  function SeedFacilities(t: Snapshot, s: SeedFiles, locationIds: map<string, int>, typeIds: map<string, int>,
                          amenityIds: map<string, int>): Outcome
  {
    var rows := FacilitiesToInsert(s.facilities, locationIds, typeIds);
    match InsertFacilityRows(t, rows)
    case Err(e) => Outcome(Err(e), t)
    case Ok(fc) => LinkStep(fc.tables, LinkRows(s.facilityAmenities, FacilityIds(t.facilitySeq, rows), amenityIds))
  }

  /** The amenity rows go in unless none resolved, in which case the statement is skipped. */
  function LinkStep(t: Snapshot, links: seq<LinkValues>): Outcome {
    if links == [] then Outcome(Ok(()), t)
    else match InsertLinks(t, links)
      case Err(e) => Outcome(Err(e), t)
      case Ok(u) => Outcome(Ok(()), u)
  }

  /** The seed files all fit their tables, so the first three inserts hand out one id per entry. */
  predicate Parsed(s: SeedFiles) {
    && CheckAll(s.locations, CheckLocation).Ok?
    && CheckAll(s.facilityTypes, CheckFacilityType).Ok?
    && CheckAll(s.amenities, CheckAmenity).Ok?
  }

  /** `DELETE FROM facility_types`, with everything it cascades to. */
  function Cleared(t: Snapshot): Snapshot {
    DeleteFacilityTypes(t, t.facilityTypes.Keys)
  }

  /**
   * The script's first statements: insert the locations, empty facility_types,
   * insert the facility types, insert the amenities. An `Ok` result means the
   * script goes on from `tables`.
   */
  function FirstThree(t: Snapshot, s: SeedFiles): (o: Outcome)
    ensures o.result.Ok? ==> Parsed(s)
  {
    match InsertLocationRows(t, s.locations)
    case Err(e) => Outcome(Err(e), t)
    case Ok(l) =>
      var cleared := Cleared(l.tables);
      match InsertFacilityTypeRows(cleared, s.facilityTypes)
      case Err(e) => Outcome(Err(e), cleared)
      case Ok(ft) =>
        match InsertAmenityRows(ft.tables, s.amenities)
        case Err(e) => Outcome(Err(e), ft.tables)
        case Ok(am) => Outcome(Ok(()), am.tables)
  }

  /** The whole script, statement by statement; the first failing statement ends it and nothing is rolled back. */
  function SeedRun(t: Snapshot, s: SeedFiles): Outcome {
    var o := FirstThree(t, s);
    if o.result.Err? then o
    else SeedFacilities(o.tables, s, LocationIds(t.locationSeq, s.locations),
                        TypeIds(t.facilityTypeSeq, s.facilityTypes), AmenityIds(t.amenitySeq, s.amenities))
  }

  /** The script against the database. */
  method Run(db: Database, s: SeedFiles) returns (r: Result<(), DbError>)
    modifies db
    ensures Outcome(r, db.State()) == SeedRun(old(db.State()), s)
  {
    ghost var t := db.State();
    var ids;
    r, ids := InsertFirstThree(db, s);
    if r.Err? {
      return;
    }
    var locationIds := FromEntries(Addresses(CheckAll(s.locations, CheckLocation).value), ids.0);
    var typeIds := FromEntries(FacilityTypeNames(CheckAll(s.facilityTypes, CheckFacilityType).value), ids.1);
    var amenityIds := FromEntries(AmenityNames(CheckAll(s.amenities, CheckAmenity).value), ids.2);
    r := InsertFacilitiesAndLinks(db, s, locationIds, typeIds, amenityIds);
  }

  /** The first three inserts and the delete between them; on success, the ids each insert handed out. */
  method InsertFirstThree(db: Database, s: SeedFiles) returns (r: Result<(), DbError>, ids: (seq<int>, seq<int>, seq<int>))
    modifies db
    ensures Outcome(r, db.State()) == FirstThree(old(db.State()), s)
    ensures r.Ok? ==> ids == (Ids(old(db.State()).locationSeq, |s.locations|),
                              Ids(old(db.State()).facilityTypeSeq, |s.facilityTypes|),
                              Ids(old(db.State()).amenitySeq, |s.amenities|))
  {
    ids := ([], [], []);
    if s.locations == [] {
      return Err(EmptyValues), ids;
    }
    var l := db.InsertLocations(s.locations);
    if l.Err? {
      return Err(l.error), ids;
    }
    db.DeleteAllFacilityTypes();
    if s.facilityTypes == [] {
      return Err(EmptyValues), ids;
    }
    var ft := db.InsertFacilityTypes(s.facilityTypes);
    if ft.Err? {
      return Err(ft.error), ids;
    }
    if s.amenities == [] {
      return Err(EmptyValues), ids;
    }
    var am := db.InsertAmenities(s.amenities);
    if am.Err? {
      return Err(am.error), ids;
    }
    return Ok(()), (l.value, ft.value, am.value);
  }
  /** The facility insert, the description -> id map, and the amenity rows unless none resolve. */
  method InsertFacilitiesAndLinks(db: Database, s: SeedFiles, locationIds: map<string, int>, typeIds: map<string, int>,
                                  amenityIds: map<string, int>) returns (r: Result<(), DbError>)
    modifies db
    ensures Outcome(r, db.State()) == SeedFacilities(old(db.State()), s, locationIds, typeIds, amenityIds)
  {
    ghost var t := db.State();
    var rows := FacilitiesToInsert(s.facilities, locationIds, typeIds);
    if rows == [] {
      return Err(EmptyValues);
    }
    var fc := db.InsertFacilities(rows);
    if fc.Err? {
      return Err(fc.error);
    }
    var facilityIds := FromEntries(DescriptionKeys(CheckAll(rows, CheckFacility).value), fc.value);
    r := InsertLinksStep(db, LinkRows(s.facilityAmenities, facilityIds, amenityIds));
  }

  /** The facility_amenities insert, skipped when no amenity row resolved. */
  method InsertLinksStep(db: Database, links: seq<LinkValues>) returns (r: Result<(), DbError>)
    modifies db
    ensures Outcome(r, db.State()) == LinkStep(old(db.State()), links)
  {
    r := Ok(());
    if |links| > 0 {
      var li := db.InsertLinks(links);
      if li.Err? {
        r := Err(li.error);
      }
    }
  }

  // ---------------------------------------------------------------- what a run leaves behind

  /** Deleting every facility type cascades to every facility, and from them to every facility_amenities row. */
  lemma ClearedEffect(t: Snapshot)
    ensures Cleared(t) == t.(facilityTypes := map[], facilities := map[], links := map[])
  {
    var u := Cleared(t);
    assert forall id :: id !in u.facilities;
    assert forall k :: k !in u.links;
  }

  /**
   * `b` is the database `t` after the first three statements: the seed's
   * locations and amenities appended to the old ones, the facility types
   * replaced by the seed's (numbered on from the old sequence, which is not
   * reset), and no facility and no facility_amenities row left.
   */
  ghost predicate AfterFirstThree(t: Snapshot, s: SeedFiles, b: Snapshot)
    requires Parsed(s)
  {
    && Extends(t.locations, b.locations, Ids(t.locationSeq, |s.locations|), CheckAll(s.locations, CheckLocation).value)
    && Extends(map[], b.facilityTypes, Ids(t.facilityTypeSeq, |s.facilityTypes|), CheckAll(s.facilityTypes, CheckFacilityType).value)
    && Extends(t.amenities, b.amenities, Ids(t.amenitySeq, |s.amenities|), CheckAll(s.amenities, CheckAmenity).value)
    && b.facilities == map[] && b.links == map[]
    && b.locationSeq == t.locationSeq + |s.locations|
    && b.facilityTypeSeq == t.facilityTypeSeq + |s.facilityTypes|
    && b.amenitySeq == t.amenitySeq + |s.amenities|
    && b.facilitySeq == t.facilitySeq
  }

  lemma FirstThreeEffect(t: Snapshot, s: SeedFiles)
    requires FirstThree(t, s).result.Ok?
    ensures Parsed(s) && s.locations != [] && s.facilityTypes != [] && s.amenities != []
    ensures AfterFirstThree(t, s, FirstThree(t, s).tables)
  {
    var l := InsertLocations(t, s.locations).value;
    var cleared := Cleared(l.tables);
    ClearedEffect(l.tables);
    var ft := InsertFacilityTypes(cleared, s.facilityTypes).value;
    var am := InsertAmenities(ft.tables, s.amenities).value;
    assert FirstThree(t, s).tables == am.tables;
  }

  /**
   * From a database with no facilities, a successful last part inserts exactly
   * the facility rows built from the seed, numbered from the facility
   * sequence, and exactly the link rows built from them, and touches nothing else.
   */
  lemma SeedFacilitiesEffect(b: Snapshot, s: SeedFiles, locationIds: map<string, int>, typeIds: map<string, int>,
                             amenityIds: map<string, int>)
    requires SeedFacilities(b, s, locationIds, typeIds, amenityIds).result.Ok?
    requires b.facilities == map[] && b.links == map[]
    ensures var rows := FacilitiesToInsert(s.facilities, locationIds, typeIds);
      && rows != [] && CheckAll(rows, CheckFacility).Ok?
      && var u := SeedFacilities(b, s, locationIds, typeIds, amenityIds).tables;
      && var links := LinkRows(s.facilityAmenities, FacilityIds(b.facilitySeq, rows), amenityIds);
      && Extends(map[], u.facilities, Ids(b.facilitySeq, |rows|), CheckAll(rows, CheckFacility).value)
      && u == b.(facilities := u.facilities, links := u.links, facilitySeq := b.facilitySeq + |rows|)
      && (forall k :: k in u.links <==> exists i :: 0 <= i < |links| && CheckLink(links[i]).Ok? && CheckLink(links[i]).value.0 == k)
  {
    SeedFacilitiesRows(b, s, locationIds, typeIds, amenityIds);
    SeedFacilitiesLinks(b, s, locationIds, typeIds, amenityIds);
  }

  /** The facility half of `SeedFacilitiesEffect`: the rows went in under fresh ids, and only facilities and links changed. */
  lemma SeedFacilitiesRows(b: Snapshot, s: SeedFiles, locationIds: map<string, int>, typeIds: map<string, int>,
                           amenityIds: map<string, int>)
    requires SeedFacilities(b, s, locationIds, typeIds, amenityIds).result.Ok?
    ensures var rows := FacilitiesToInsert(s.facilities, locationIds, typeIds);
      && rows != [] && CheckAll(rows, CheckFacility).Ok? && InsertFacilities(b, rows).Ok?
      && var u := SeedFacilities(b, s, locationIds, typeIds, amenityIds).tables;
      && Extends(b.facilities, u.facilities, Ids(b.facilitySeq, |rows|), CheckAll(rows, CheckFacility).value)
      && u == b.(facilities := u.facilities, links := u.links, facilitySeq := b.facilitySeq + |rows|)
  {
    var rows := FacilitiesToInsert(s.facilities, locationIds, typeIds);
    assert InsertFacilityRows(b, rows).Ok?;
    var fc := InsertFacilities(b, rows).value;
    var links := LinkRows(s.facilityAmenities, FacilityIds(b.facilitySeq, rows), amenityIds);
    var u := SeedFacilities(b, s, locationIds, typeIds, amenityIds).tables;
    if links != [] {
      assert u == InsertLinks(fc.tables, links).value;
    }
    assert u.facilities == fc.tables.facilities;
  }

  /** The link half of `SeedFacilitiesEffect`: into an empty link table go exactly the resolved link rows. */
  lemma SeedFacilitiesLinks(b: Snapshot, s: SeedFiles, locationIds: map<string, int>, typeIds: map<string, int>,
                            amenityIds: map<string, int>)
    requires SeedFacilities(b, s, locationIds, typeIds, amenityIds).result.Ok?
    requires b.links == map[]
    ensures var rows := FacilitiesToInsert(s.facilities, locationIds, typeIds);
      && var u := SeedFacilities(b, s, locationIds, typeIds, amenityIds).tables;
      && var links := LinkRows(s.facilityAmenities, FacilityIds(b.facilitySeq, rows), amenityIds);
      && (forall k :: k in u.links <==> exists i :: 0 <= i < |links| && CheckLink(links[i]).Ok? && CheckLink(links[i]).value.0 == k)
  {
    var rows := FacilitiesToInsert(s.facilities, locationIds, typeIds);
    assert InsertFacilityRows(b, rows).Ok?;
    var fc := InsertFacilities(b, rows).value;
    assert fc.tables.links == map[];
    var links := LinkRows(s.facilityAmenities, FacilityIds(b.facilitySeq, rows), amenityIds);
    var o := SeedFacilities(b, s, locationIds, typeIds, amenityIds);
    assert o == LinkStep(fc.tables, links);
    if links != [] {
      assert o.tables == InsertLinks(fc.tables, links).value;
      LinksInsertedInto(fc.tables, links);
    } else {
      assert o.tables.links == map[];
    }
  }

  /** Into a table with no links, a successful link insert stores exactly the keys of its rows. */
  lemma LinksInsertedInto(t: Snapshot, links: seq<LinkValues>)
    requires InsertLinks(t, links).Ok? && t.links == map[]
    ensures forall k :: k in InsertLinks(t, links).value.links <==>
      exists i :: 0 <= i < |links| && CheckLink(links[i]).Ok? && CheckLink(links[i]).value.0 == k
  {
    var u := InsertLinks(t, links).value;
    forall k ensures k in u.links <==> exists i :: 0 <= i < |links| && CheckLink(links[i]).Ok? && CheckLink(links[i]).value.0 == k {
      if k in u.links {
        InsertLinksOrigin(t, links, k);
      }
      if i :| 0 <= i < |links| && CheckLink(links[i]).Ok? && CheckLink(links[i]).value.0 == k {
        InsertLinksStores(t, links, i);
      }
    }
  }

  /** The facility rows the script builds from `s`, resolved against the ids the first inserts hand out from `t`'s sequences. */
  function FacilitySeedRows(t: Snapshot, s: SeedFiles): seq<FacilityValues>
    requires Parsed(s)
  {
    FacilitiesToInsert(s.facilities, LocationIds(t.locationSeq, s.locations), TypeIds(t.facilityTypeSeq, s.facilityTypes))
  }

  /** The link rows the script builds from `s`, resolved against the facility and amenity ids it hands out. */
  function LinkSeedRows(t: Snapshot, s: SeedFiles): seq<LinkValues>
    requires Parsed(s) && CheckAll(FacilitySeedRows(t, s), CheckFacility).Ok?
  {
    LinkRows(s.facilityAmenities, FacilityIds(t.facilitySeq, FacilitySeedRows(t, s)), AmenityIds(t.amenitySeq, s.amenities))
  }

  /**
   * A run that succeeds appends the seed's locations and amenities, replaces
   * the facility types by the seed's, leaves exactly the facilities built from
   * the seed and exactly the facility_amenities rows built from them, and
   * advances each sequence by the rows it handed out.
   */
  lemma SeedRunEffect(t: Snapshot, s: SeedFiles)
    requires SeedRun(t, s).result.Ok?
    ensures Parsed(s) && CheckAll(FacilitySeedRows(t, s), CheckFacility).Ok?
    ensures var u := SeedRun(t, s).tables; var rows := FacilitySeedRows(t, s); var links := LinkSeedRows(t, s);
      && Extends(t.locations, u.locations, Ids(t.locationSeq, |s.locations|), CheckAll(s.locations, CheckLocation).value)
      && Extends(map[], u.facilityTypes, Ids(t.facilityTypeSeq, |s.facilityTypes|), CheckAll(s.facilityTypes, CheckFacilityType).value)
      && Extends(t.amenities, u.amenities, Ids(t.amenitySeq, |s.amenities|), CheckAll(s.amenities, CheckAmenity).value)
      && Extends(map[], u.facilities, Ids(t.facilitySeq, |rows|), CheckAll(rows, CheckFacility).value)
      && (forall k :: k in u.links <==> exists i :: 0 <= i < |links| && CheckLink(links[i]).Ok? && CheckLink(links[i]).value.0 == k)
      && u.locationSeq == t.locationSeq + |s.locations|
      && u.facilityTypeSeq == t.facilityTypeSeq + |s.facilityTypes|
      && u.amenitySeq == t.amenitySeq + |s.amenities|
      && u.facilitySeq == t.facilitySeq + |rows|
  {
    FirstThreeEffect(t, s);
    var b := FirstThree(t, s).tables;
    var locationIds, typeIds, amenityIds :=
      LocationIds(t.locationSeq, s.locations), TypeIds(t.facilityTypeSeq, s.facilityTypes), AmenityIds(t.amenitySeq, s.amenities);
    assert SeedRun(t, s) == SeedFacilities(b, s, locationIds, typeIds, amenityIds);
    SeedFacilitiesEffect(b, s, locationIds, typeIds, amenityIds);
    var u := SeedRun(t, s).tables;
    assert u.locations == b.locations && u.facilityTypes == b.facilityTypes && u.amenities == b.amenities;
    assert FacilitySeedRows(t, s) == FacilitiesToInsert(s.facilities, locationIds, typeIds);
    assert b.facilitySeq == t.facilitySeq && b.amenitySeq == t.amenitySeq + |s.amenities|;
    var links := LinkSeedRows(t, s);
    assert links == LinkRows(s.facilityAmenities, FacilityIds(b.facilitySeq, FacilitySeedRows(t, s)), amenityIds);
    assert forall k :: k in u.links <==> exists i :: 0 <= i < |links| && CheckLink(links[i]).Ok? && CheckLink(links[i]).value.0 == k;
  }

  /**
   * When no seed facility resolves, the facility insert is handed an empty
   * list and fails; the script stops there, and the locations, facility types
   * and amenities it already wrote stay.
   */
  lemma SeedRunWithoutFacilities(t: Snapshot, s: SeedFiles)
    requires FirstThree(t, s).result.Ok? && FacilitySeedRows(t, s) == []
    ensures SeedRun(t, s).result == Err(EmptyValues)
    ensures AfterFirstThree(t, s, SeedRun(t, s).tables)
  {
    FirstThreeEffect(t, s);
  }

  /**
   * There is no transaction: once the locations are in, they stay, whatever
   * a later statement does.
   */
  lemma SeedRunKeepsLocations(t: Snapshot, s: SeedFiles)
    requires InsertLocationRows(t, s.locations).Ok?
    ensures CheckAll(s.locations, CheckLocation).Ok?
    ensures Extends(t.locations, SeedRun(t, s).tables.locations, Ids(t.locationSeq, |s.locations|),
                    CheckAll(s.locations, CheckLocation).value)
  {
    var l := InsertLocations(t, s.locations).value;
    var o := FirstThree(t, s);
    FirstThreeKeepsLocations(t, s);
    if o.result.Ok? {
      var locationIds, typeIds, amenityIds :=
        LocationIds(t.locationSeq, s.locations), TypeIds(t.facilityTypeSeq, s.facilityTypes), AmenityIds(t.amenitySeq, s.amenities);
      assert SeedRun(t, s) == SeedFacilities(o.tables, s, locationIds, typeIds, amenityIds);
      SeedFacilitiesKeepsParents(o.tables, s, locationIds, typeIds, amenityIds);
    }
  }

  /** Whichever of the first statements fails, the locations table is the one the location insert left. */
  lemma FirstThreeKeepsLocations(t: Snapshot, s: SeedFiles)
    requires InsertLocationRows(t, s.locations).Ok?
    ensures FirstThree(t, s).tables.locations == InsertLocations(t, s.locations).value.tables.locations
  {
    var l := InsertLocations(t, s.locations).value;
    var cleared := Cleared(l.tables);
    ClearedEffect(l.tables);
    var ft := InsertFacilityTypeRows(cleared, s.facilityTypes);
    if ft.Ok? {
      var am := InsertAmenityRows(ft.value.tables, s.amenities);
      if am.Ok? {
        assert FirstThree(t, s).tables == am.value.tables;
      } else {
        assert FirstThree(t, s).tables == ft.value.tables;
      }
    } else {
      assert FirstThree(t, s).tables == cleared;
    }
  }

  /** The facility and link inserts leave the locations, facility types and amenities as they were. */
  lemma SeedFacilitiesKeepsParents(b: Snapshot, s: SeedFiles, locationIds: map<string, int>, typeIds: map<string, int>,
                                   amenityIds: map<string, int>)
    ensures var u := SeedFacilities(b, s, locationIds, typeIds, amenityIds).tables;
      u.locations == b.locations && u.facilityTypes == b.facilityTypes && u.amenities == b.amenities
  {
    var o := SeedFacilities(b, s, locationIds, typeIds, amenityIds);
    var rows := FacilitiesToInsert(s.facilities, locationIds, typeIds);
    var fc := InsertFacilityRows(b, rows);
    if fc.Ok? {
      var links := LinkRows(s.facilityAmenities, FacilityIds(b.facilitySeq, rows), amenityIds);
      if links != [] && InsertLinks(fc.value.tables, links).Ok? {
        assert o.tables == InsertLinks(fc.value.tables, links).value;
      } else {
        assert o.tables == fc.value.tables;
      }
    } else {
      assert o.tables == b;
    }
  }

  /** Whatever its outcome, the script leaves a database that satisfies the schema's invariants, as it found it. */
  lemma SeedRunKeepsValid(t: Snapshot, s: SeedFiles)
    requires Valid(t)
    ensures Valid(SeedRun(t, s).tables)
  {
    FirstThreeKeepsValid(t, s);
    var o := FirstThree(t, s);
    if o.result.Ok? {
      var locationIds, typeIds, amenityIds :=
        LocationIds(t.locationSeq, s.locations), TypeIds(t.facilityTypeSeq, s.facilityTypes), AmenityIds(t.amenitySeq, s.amenities);
      assert SeedRun(t, s) == SeedFacilities(o.tables, s, locationIds, typeIds, amenityIds);
      SeedFacilitiesKeepsValid(o.tables, s, locationIds, typeIds, amenityIds);
    }
  }

  lemma FirstThreeKeepsValid(t: Snapshot, s: SeedFiles)
    requires Valid(t)
    ensures Valid(FirstThree(t, s).tables)
  {
    var l := InsertLocationRows(t, s.locations);
    if l.Ok? {
      InsertLocationsKeepsValid(t, s.locations);
      var cleared := Cleared(l.value.tables);
      ClearedEffect(l.value.tables);
      assert Valid(cleared);
      var ft := InsertFacilityTypeRows(cleared, s.facilityTypes);
      if ft.Ok? {
        InsertFacilityTypesKeepsValid(cleared, s.facilityTypes);
        var am := InsertAmenityRows(ft.value.tables, s.amenities);
        if am.Ok? {
          InsertAmenitiesKeepsValid(ft.value.tables, s.amenities);
          assert FirstThree(t, s).tables == am.value.tables;
        } else {
          assert FirstThree(t, s).tables == ft.value.tables;
        }
      } else {
        assert FirstThree(t, s).tables == cleared;
      }
    }
  }

  lemma SeedFacilitiesKeepsValid(b: Snapshot, s: SeedFiles, locationIds: map<string, int>, typeIds: map<string, int>,
                                 amenityIds: map<string, int>)
    requires Valid(b)
    ensures Valid(SeedFacilities(b, s, locationIds, typeIds, amenityIds).tables)
  {
    var o := SeedFacilities(b, s, locationIds, typeIds, amenityIds);
    var rows := FacilitiesToInsert(s.facilities, locationIds, typeIds);
    var fc := InsertFacilityRows(b, rows);
    if fc.Ok? {
      InsertFacilitiesKeepsValid(b, rows);
      var links := LinkRows(s.facilityAmenities, FacilityIds(b.facilitySeq, rows), amenityIds);
      if links != [] && InsertLinks(fc.value.tables, links).Ok? {
        InsertLinksKeepsValid(fc.value.tables, links);
        assert o.tables == InsertLinks(fc.value.tables, links).value;
      } else {
        assert o.tables == fc.value.tables;
      }
    } else {
      assert o.tables == b;
    }
  }

  /**
   * After a successful run, the address -> id map the script built points
   * every address at a stored location with that address, and the name -> id
   * map at a stored facility type with that name.
   */
  lemma SeedRunNameMaps(t: Snapshot, s: SeedFiles, address: string, name: string)
    requires SeedRun(t, s).result.Ok?
    ensures Parsed(s)
    ensures var u := SeedRun(t, s).tables; var locationIds := LocationIds(t.locationSeq, s.locations);
      address in locationIds ==> locationIds[address] in u.locations && u.locations[locationIds[address]].address == address
    ensures var u := SeedRun(t, s).tables; var typeIds := TypeIds(t.facilityTypeSeq, s.facilityTypes);
      name in typeIds ==> typeIds[name] in u.facilityTypes && u.facilityTypes[typeIds[name]].name == name
  {
    var o := FirstThree(t, s);
    FirstThreeEffect(t, s);
    var locationIds, typeIds, amenityIds :=
      LocationIds(t.locationSeq, s.locations), TypeIds(t.facilityTypeSeq, s.facilityTypes), AmenityIds(t.amenitySeq, s.amenities);
    assert SeedRun(t, s) == SeedFacilities(o.tables, s, locationIds, typeIds, amenityIds);
    SeedFacilitiesKeepsParents(o.tables, s, locationIds, typeIds, amenityIds);
    if address in locationIds {
      var rows := CheckAll(s.locations, CheckLocation).value;
      FromEntriesValue(Addresses(rows), Ids(t.locationSeq, |rows|), address);
    }
    if name in typeIds {
      var rows := CheckAll(s.facilityTypes, CheckFacilityType).value;
      FromEntriesValue(FacilityTypeNames(rows), Ids(t.facilityTypeSeq, |rows|), name);
    }
  }
}
