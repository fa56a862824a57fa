/**
 * The database as a value: the five tables, keyed by id (facility_amenities
 * by its composite key), and the next value of each serial sequence. The
 * statements the application runs are functions from one snapshot to the
 * next; store.dfy wraps them in a mutable object.
 *
 * A statement either succeeds as a whole or leaves the snapshot unchanged.
 * A SELECT without ORDER BY that is limited to one row is modelled as
 * returning the matching row with the smallest id.
 */
module Tables {
  import opened Wrappers
  import opened Schema

  datatype Snapshot = Snapshot(
    locations: map<int, Location>,
    facilityTypes: map<int, FacilityType>,
    amenities: map<int, Amenity>,
    facilities: map<int, Facility>,
    links: map<LinkKey, Option<int>>,   // facility_amenities: key -> quantity
    locationSeq: int,                   // next value of locations_id_seq
    facilityTypeSeq: int,
    amenitySeq: int,
    facilitySeq: int)

  /** A fresh database: empty tables, every sequence at 1. */
  const Empty := Snapshot(map[], map[], map[], map[], map[], 1, 1, 1, 1)

  /** Every stored row satisfies its column constraints. */
  predicate RowsFit(t: Snapshot) {
    && (forall id :: id in t.locations ==> LocationFits(t.locations[id]))
    && (forall id :: id in t.facilityTypes ==> FacilityTypeFits(t.facilityTypes[id]))
    && (forall id :: id in t.amenities ==> AmenityFits(t.amenities[id]))
    && (forall id :: id in t.facilities ==> FacilityFits(t.facilities[id]))
    && (forall k :: k in t.links ==> LinkFits(k, t.links[k]))
  }

  /** Every foreign key refers to an existing row. */
  predicate ReferencesResolve(t: Snapshot) {
    && (forall id :: id in t.facilities ==>
          t.facilities[id].locationId in t.locations && t.facilities[id].facilityTypeId in t.facilityTypes)
    && (forall k :: k in t.links ==> k.facilityId in t.facilities && k.amenityId in t.amenities)
  }

  /** The schema's invariants. */
  predicate Valid(t: Snapshot) {
    RowsFit(t) && ReferencesResolve(t)
  }

  /** The four serial sequences are ahead of every id in their tables. */
  predicate SequencesAhead(t: Snapshot) {
    && (forall id :: id in t.locations ==> id < t.locationSeq)
    && (forall id :: id in t.facilityTypes ==> id < t.facilityTypeSeq)
    && (forall id :: id in t.amenities ==> id < t.amenitySeq)
    && (forall id :: id in t.facilities ==> id < t.facilitySeq)
  }

  lemma EmptyIsValid()
    ensures Valid(Empty) && SequencesAhead(Empty)
  {
  }

  // ---------------------------------------------------------------- rows

  /** Checks every row of a multi-row INSERT; the statement fails on the first bad row. */
  function CheckAll<V, R>(vs: seq<V>, check: V -> Result<R, DbError>): (r: Result<seq<R>, DbError>)
    ensures r.Ok? <==> forall i :: 0 <= i < |vs| ==> check(vs[i]).Ok?
    ensures r.Ok? ==> |r.value| == |vs| && forall i :: 0 <= i < |vs| ==> check(vs[i]) == Ok(r.value[i])
  {
    if vs == [] then Ok([])
    else match check(vs[0])
      case Err(e) => Err(e)
      case Ok(x) =>
        match CheckAll(vs[1..], check)
        case Err(e) => Err(e)
        case Ok(xs) => Ok([x] + xs)
  }

  /** The ids `next, next + 1, ...` a serial sequence hands out to `n` rows. */
  function Ids(next: int, n: nat): (ids: seq<int>)
    ensures |ids| == n
    ensures forall i :: 0 <= i < n ==> ids[i] == next + i
    ensures forall i, j :: 0 <= i < j < n ==> ids[i] < ids[j]
  {
    seq(n, i => next + i)
  }

  /** None of the ids about to be handed out is taken. */
  predicate IdsFree<R>(table: map<int, R>, ids: seq<int>) {
    forall i :: 0 <= i < |ids| ==> ids[i] !in table
  }

  /** `table` with `rows[i]` added under `ids[i]`, one row after the other. */
  function Append<R>(table: map<int, R>, ids: seq<int>, rows: seq<R>): map<int, R>
    requires |ids| == |rows|
  {
    if ids == [] then table
    else Append(table, ids[..|ids| - 1], rows[..|rows| - 1])[ids[|ids| - 1] := rows[|rows| - 1]]
  }

  /** Appending adds exactly the given ids as keys. */
  lemma {:induction false} AppendKeys<R>(table: map<int, R>, ids: seq<int>, rows: seq<R>)
    requires |ids| == |rows|
    ensures forall id :: id in Append(table, ids, rows) <==> id in table || exists i :: 0 <= i < |ids| && ids[i] == id
  {
    if ids != [] {
      var n := |ids| - 1;
      var prev := Append(table, ids[..n], rows[..n]);
      AppendKeys(table, ids[..n], rows[..n]);
      forall id ensures id in Append(table, ids, rows) <==> id in table || exists i :: 0 <= i < |ids| && ids[i] == id {
        if id in prev && id !in table {
          var i :| 0 <= i < n && ids[..n][i] == id;
          assert ids[i] == id;
        }
        if i :| 0 <= i < n && ids[i] == id {
          assert ids[..n][i] == id;
        }
      }
    }
  }

  /** With increasing ids, every appended row ends up under its own id. */
  lemma {:induction false} AppendValues<R>(table: map<int, R>, ids: seq<int>, rows: seq<R>)
    requires |ids| == |rows|
    requires forall i, j :: 0 <= i < j < |ids| ==> ids[i] < ids[j]
    ensures forall i :: 0 <= i < |ids| ==> ids[i] in Append(table, ids, rows) && Append(table, ids, rows)[ids[i]] == rows[i]
  {
    if ids != [] {
      var n := |ids| - 1;
      var prev := Append(table, ids[..n], rows[..n]);
      assert forall i :: 0 <= i < n ==> ids[..n][i] == ids[i] && rows[..n][i] == rows[i];
      AppendValues(table, ids[..n], rows[..n]);
      forall i | 0 <= i < n ensures ids[i] in Append(table, ids, rows) && Append(table, ids, rows)[ids[i]] == rows[i] {
        assert ids[i] < ids[n];
        assert prev[ids[..n][i]] == rows[..n][i];
      }
    }
  }

  /** Rows under ids that were not handed out stay as they were. */
  lemma {:induction false} AppendKeeps<R>(table: map<int, R>, ids: seq<int>, rows: seq<R>)
    requires |ids| == |rows|
    requires IdsFree(table, ids)
    ensures forall id :: id in table ==> id in Append(table, ids, rows) && Append(table, ids, rows)[id] == table[id]
  {
    if ids != [] {
      var n := |ids| - 1;
      assert IdsFree(table, ids[..n]);
      AppendKeeps(table, ids[..n], rows[..n]);
      assert ids[n] !in table;
    }
  }

  /** With increasing ids, appending adds each row under its own id and keeps the rows under free ids. */
  lemma AppendEntries<R>(table: map<int, R>, ids: seq<int>, rows: seq<R>)
    requires |ids| == |rows|
    requires forall i, j :: 0 <= i < j < |ids| ==> ids[i] < ids[j]
    ensures forall id :: id in Append(table, ids, rows) <==> id in table || exists i :: 0 <= i < |ids| && ids[i] == id
    ensures forall i :: 0 <= i < |ids| ==> Append(table, ids, rows)[ids[i]] == rows[i]
    ensures IdsFree(table, ids) ==> forall id :: id in table ==> Append(table, ids, rows)[id] == table[id]
  {
    AppendKeys(table, ids, rows);
    AppendValues(table, ids, rows);
    if IdsFree(table, ids) {
      AppendKeeps(table, ids, rows);
    }
  }

  /** `after` is `before` with `rows[i]` added under the fresh id `ids[i]`, and nothing else changed. */
  ghost predicate Extends<R>(before: map<int, R>, after: map<int, R>, ids: seq<int>, rows: seq<R>) {
    && |ids| == |rows|
    && IdsFree(before, ids)
    && (forall id :: id in after <==> id in before || exists i :: 0 <= i < |ids| && ids[i] == id)
    && (forall id :: id in before ==> after[id] == before[id])
    && (forall i :: 0 <= i < |ids| ==> after[ids[i]] == rows[i])
  }

  /** Adding rows that satisfy `P` to a table whose rows satisfy `P` keeps every row satisfying `P`. */
  lemma ExtendsKeeps<R>(before: map<int, R>, after: map<int, R>, ids: seq<int>, rows: seq<R>, P: R -> bool)
    requires Extends(before, after, ids, rows)
    requires forall id :: id in before ==> P(before[id])
    requires forall i :: 0 <= i < |rows| ==> P(rows[i])
    ensures forall id :: id in after ==> P(after[id])
  {
    forall id | id in after ensures P(after[id]) {
      if id !in before {
        var i :| 0 <= i < |ids| && ids[i] == id;
        assert after[id] == rows[i];
      }
    }
  }

  /** What a successful INSERT returns: the new snapshot and the ids it assigned (RETURNING id). */
  datatype Inserted = Inserted(tables: Snapshot, ids: seq<int>)

  // ---------------------------------------------------------------- inserts

  /** INSERT INTO locations: every row must fit and every id the sequence hands out must be free. */
  function InsertLocations(t: Snapshot, vs: seq<LocationValues>): (r: Result<Inserted, DbError>)
    ensures r.Ok? <==> (forall i :: 0 <= i < |vs| ==> CheckLocation(vs[i]).Ok?) && IdsFree(t.locations, Ids(t.locationSeq, |vs|))
    ensures r.Ok? ==> r.value.ids == Ids(t.locationSeq, |vs|)
    ensures r.Ok? ==> Extends(t.locations, r.value.tables.locations, r.value.ids, CheckAll(vs, CheckLocation).value)
    ensures r.Ok? ==> r.value.tables == t.(locations := r.value.tables.locations, locationSeq := t.locationSeq + |vs|)
  {
    match CheckAll(vs, CheckLocation)
    case Err(e) => Err(e)
    case Ok(rows) =>
      var ids := Ids(t.locationSeq, |rows|);
      if !IdsFree(t.locations, ids) then Err(UniqueViolation("locations"))
      else
        AppendEntries(t.locations, ids, rows);
        Ok(Inserted(t.(locations := Append(t.locations, ids, rows), locationSeq := t.locationSeq + |rows|), ids))
  }

  /** INSERT INTO facility_types. */
  function InsertFacilityTypes(t: Snapshot, vs: seq<FacilityTypeValues>): (r: Result<Inserted, DbError>)
    ensures r.Ok? <==> (forall i :: 0 <= i < |vs| ==> CheckFacilityType(vs[i]).Ok?) && IdsFree(t.facilityTypes, Ids(t.facilityTypeSeq, |vs|))
    ensures r.Ok? ==> r.value.ids == Ids(t.facilityTypeSeq, |vs|)
    ensures r.Ok? ==> Extends(t.facilityTypes, r.value.tables.facilityTypes, r.value.ids, CheckAll(vs, CheckFacilityType).value)
    ensures r.Ok? ==> r.value.tables == t.(facilityTypes := r.value.tables.facilityTypes, facilityTypeSeq := t.facilityTypeSeq + |vs|)
  {
    match CheckAll(vs, CheckFacilityType)
    case Err(e) => Err(e)
    case Ok(rows) =>
      var ids := Ids(t.facilityTypeSeq, |rows|);
      if !IdsFree(t.facilityTypes, ids) then Err(UniqueViolation("facility_types"))
      else
        AppendEntries(t.facilityTypes, ids, rows);
        Ok(Inserted(t.(facilityTypes := Append(t.facilityTypes, ids, rows), facilityTypeSeq := t.facilityTypeSeq + |rows|), ids))
  }

  /** INSERT INTO amenities. */
  function InsertAmenities(t: Snapshot, vs: seq<AmenityValues>): (r: Result<Inserted, DbError>)
    ensures r.Ok? <==> (forall i :: 0 <= i < |vs| ==> CheckAmenity(vs[i]).Ok?) && IdsFree(t.amenities, Ids(t.amenitySeq, |vs|))
    ensures r.Ok? ==> r.value.ids == Ids(t.amenitySeq, |vs|)
    ensures r.Ok? ==> Extends(t.amenities, r.value.tables.amenities, r.value.ids, CheckAll(vs, CheckAmenity).value)
    ensures r.Ok? ==> r.value.tables == t.(amenities := r.value.tables.amenities, amenitySeq := t.amenitySeq + |vs|)
  {
    match CheckAll(vs, CheckAmenity)
    case Err(e) => Err(e)
    case Ok(rows) =>
      var ids := Ids(t.amenitySeq, |rows|);
      if !IdsFree(t.amenities, ids) then Err(UniqueViolation("amenities"))
      else
        AppendEntries(t.amenities, ids, rows);
        Ok(Inserted(t.(amenities := Append(t.amenities, ids, rows), amenitySeq := t.amenitySeq + |rows|), ids))
  }

  /** Both foreign keys of a facility row resolve. */
  predicate FacilityRefsResolve(t: Snapshot, f: Facility) {
    f.locationId in t.locations && f.facilityTypeId in t.facilityTypes
  }

  predicate AllFacilityRefsResolve(t: Snapshot, rows: seq<Facility>) {
    LocationsExist(t, rows) && FacilityTypesExist(t, rows)
  }

  predicate LocationsExist(t: Snapshot, rows: seq<Facility>) {
    forall i :: 0 <= i < |rows| ==> rows[i].locationId in t.locations
  }

  predicate FacilityTypesExist(t: Snapshot, rows: seq<Facility>) {
    forall i :: 0 <= i < |rows| ==> rows[i].facilityTypeId in t.facilityTypes
  }

  /** INSERT INTO facilities: rows must fit, reference existing rows, and get free ids. */
  function InsertFacilities(t: Snapshot, vs: seq<FacilityValues>): (r: Result<Inserted, DbError>)
    ensures r.Ok? <==> CheckAll(vs, CheckFacility).Ok? && AllFacilityRefsResolve(t, CheckAll(vs, CheckFacility).value)
                       && IdsFree(t.facilities, Ids(t.facilitySeq, |vs|))
    ensures r.Ok? ==> r.value.ids == Ids(t.facilitySeq, |vs|)
    ensures r.Ok? ==> Extends(t.facilities, r.value.tables.facilities, r.value.ids, CheckAll(vs, CheckFacility).value)
    ensures r.Ok? ==> r.value.tables == t.(facilities := r.value.tables.facilities, facilitySeq := t.facilitySeq + |vs|)
  {
    match CheckAll(vs, CheckFacility)
    case Err(e) => Err(e)
    case Ok(rows) =>
      var ids := Ids(t.facilitySeq, |rows|);
      if !LocationsExist(t, rows) then Err(ForeignKeyViolation("location_id"))
      else if !FacilityTypesExist(t, rows) then Err(ForeignKeyViolation("facility_type_id"))
      else if !IdsFree(t.facilities, ids) then Err(UniqueViolation("facilities"))
      else
        AppendEntries(t.facilities, ids, rows);
        Ok(Inserted(t.(facilities := Append(t.facilities, ids, rows), facilitySeq := t.facilitySeq + |rows|), ids))
  }

  /** The keys of a batch of link rows are pairwise distinct. */
  predicate DistinctKeys(rows: seq<(LinkKey, Option<int>)>) {
    forall i, j :: 0 <= i < j < |rows| ==> rows[i].0 != rows[j].0
  }

  /** Every link row names an existing facility and amenity and a pair not yet linked. */
  predicate LinksInsertable(t: Snapshot, rows: seq<(LinkKey, Option<int>)>) {
    LinkedFacilitiesExist(t, rows) && LinkedAmenitiesExist(t, rows) && NotYetLinked(t, rows) && DistinctKeys(rows)
  }

  predicate LinkedFacilitiesExist(t: Snapshot, rows: seq<(LinkKey, Option<int>)>) {
    forall i :: 0 <= i < |rows| ==> rows[i].0.facilityId in t.facilities
  }

  predicate LinkedAmenitiesExist(t: Snapshot, rows: seq<(LinkKey, Option<int>)>) {
    forall i :: 0 <= i < |rows| ==> rows[i].0.amenityId in t.amenities
  }

  predicate NotYetLinked(t: Snapshot, rows: seq<(LinkKey, Option<int>)>) {
    forall i :: 0 <= i < |rows| ==> rows[i].0 !in t.links
  }

  /** INSERT INTO facility_amenities: one row per (facility, amenity) pair, both of which must exist. */
  function InsertLinks(t: Snapshot, vs: seq<LinkValues>): (r: Result<Snapshot, DbError>)
    ensures r.Ok? <==> CheckAll(vs, CheckLink).Ok? && LinksInsertable(t, CheckAll(vs, CheckLink).value)
    ensures r.Ok? ==> r.value == t.(links := r.value.links)
  {
    match CheckAll(vs, CheckLink)
    case Err(e) => Err(e)
    case Ok(rows) =>
      if !LinkedFacilitiesExist(t, rows) then Err(ForeignKeyViolation("facility_id"))
      else if !LinkedAmenitiesExist(t, rows) then Err(ForeignKeyViolation("amenity_id"))
      else if !NotYetLinked(t, rows) || !DistinctKeys(rows) then Err(UniqueViolation("facility_amenities"))
      else Ok(t.(links := t.links + LinkMap(rows)))
  }

  /** The rows of a batch, as a map from key to quantity (a later row with the same key would win). */
  function LinkMap(rows: seq<(LinkKey, Option<int>)>): map<LinkKey, Option<int>> {
    if rows == [] then map[] else LinkMap(rows[..|rows| - 1])[rows[|rows| - 1].0 := rows[|rows| - 1].1]
  }

  /** With distinct keys, the map holds exactly the batch's keys, each with its own row's quantity. */
  lemma {:induction false} LinkMapEntries(rows: seq<(LinkKey, Option<int>)>)
    requires DistinctKeys(rows)
    ensures forall k :: k in LinkMap(rows) <==> exists i :: 0 <= i < |rows| && rows[i].0 == k
    ensures forall i :: 0 <= i < |rows| ==> LinkMap(rows)[rows[i].0] == rows[i].1
  {
    if rows != [] {
      var init := rows[..|rows| - 1];
      var last := rows[|rows| - 1];
      assert forall i :: 0 <= i < |init| ==> init[i] == rows[i];
      LinkMapEntries(init);
      forall k ensures k in LinkMap(rows) <==> exists i :: 0 <= i < |rows| && rows[i].0 == k {
        if k in LinkMap(init) {
          var i :| 0 <= i < |init| && init[i].0 == k;
          assert rows[i].0 == k;
        }
        if i :| 0 <= i < |rows| && rows[i].0 == k {
          if i < |init| {
            assert init[i].0 == k;
          }
        }
      }
      forall i | 0 <= i < |rows| ensures LinkMap(rows)[rows[i].0] == rows[i].1 {
        if i < |init| {
          assert init[i] == rows[i] && rows[i].0 != last.0;
        }
      }
    }
  }

  /** A successful link insert keeps every old link and adds exactly the batch's rows. */
  lemma InsertLinksEffect(t: Snapshot, vs: seq<LinkValues>)
    requires InsertLinks(t, vs).Ok?
    ensures var u := InsertLinks(t, vs).value; var rows := CheckAll(vs, CheckLink).value;
      && (forall k :: k in u.links <==> k in t.links || exists i :: 0 <= i < |rows| && rows[i].0 == k)
      && (forall k :: k in t.links ==> u.links[k] == t.links[k])
      && (forall i :: 0 <= i < |rows| ==> u.links[rows[i].0] == rows[i].1)
  {
    var rows := CheckAll(vs, CheckLink).value;
    InsertLinksValue(t, vs);
    LinkMapEntries(rows);
    DisjointUnion(t.links, LinkMap(rows));
  }

  /** What a successful link insert stores, and why the batch fits. */
  lemma InsertLinksValue(t: Snapshot, vs: seq<LinkValues>)
    requires InsertLinks(t, vs).Ok?
    ensures CheckAll(vs, CheckLink).Ok?
    ensures InsertLinks(t, vs).value.links == t.links + LinkMap(CheckAll(vs, CheckLink).value)
    ensures NotYetLinked(t, CheckAll(vs, CheckLink).value) && DistinctKeys(CheckAll(vs, CheckLink).value)
  {
  }

  /** The union of two maps with no key in common. */
  lemma DisjointUnion<K, V>(a: map<K, V>, b: map<K, V>)
    requires forall k :: k in a ==> k !in b
    ensures forall k :: k in a + b <==> k in a || k in b
    ensures forall k :: k in a ==> (a + b)[k] == a[k]
    ensures forall k :: k in b ==> (a + b)[k] == b[k]
  {
  }

  /** Row `i` of a successful link insert is stored under its key with its quantity. */
  lemma InsertLinksStores(t: Snapshot, vs: seq<LinkValues>, i: int)
    requires InsertLinks(t, vs).Ok? && 0 <= i < |vs|
    ensures CheckLink(vs[i]).Ok?
    ensures CheckLink(vs[i]).value.0 in InsertLinks(t, vs).value.links
    ensures InsertLinks(t, vs).value.links[CheckLink(vs[i]).value.0] == CheckLink(vs[i]).value.1
  {
    var rows := CheckAll(vs, CheckLink).value;
    InsertLinksEffect(t, vs);
    assert CheckLink(vs[i]) == Ok(rows[i]);
  }

  /** A key a successful link insert holds comes from the old links or from one of the batch's rows. */
  lemma InsertLinksOrigin(t: Snapshot, vs: seq<LinkValues>, k: LinkKey)
    requires InsertLinks(t, vs).Ok?
    ensures k in t.links ==> k in InsertLinks(t, vs).value.links && InsertLinks(t, vs).value.links[k] == t.links[k]
    ensures k in InsertLinks(t, vs).value.links && k !in t.links ==>
      exists i :: 0 <= i < |vs| && CheckLink(vs[i]).Ok? && CheckLink(vs[i]).value.0 == k
  {
    var rows := CheckAll(vs, CheckLink).value;
    InsertLinksEffect(t, vs);
    if k in InsertLinks(t, vs).value.links && k !in t.links {
      var i :| 0 <= i < |rows| && rows[i].0 == k;
      assert CheckLink(vs[i]) == Ok(rows[i]);
    }
  }

  // ---------------------------------------------------------------- inserts keep the schema's invariants

  lemma InsertLocationsKeepsValid(t: Snapshot, vs: seq<LocationValues>)
    requires Valid(t) && InsertLocations(t, vs).Ok?
    ensures Valid(InsertLocations(t, vs).value.tables)
  {
    var r := InsertLocations(t, vs).value;
    ExtendsKeeps(t.locations, r.tables.locations, r.ids, CheckAll(vs, CheckLocation).value, LocationFits);
  }

  lemma InsertFacilityTypesKeepsValid(t: Snapshot, vs: seq<FacilityTypeValues>)
    requires Valid(t) && InsertFacilityTypes(t, vs).Ok?
    ensures Valid(InsertFacilityTypes(t, vs).value.tables)
  {
    var r := InsertFacilityTypes(t, vs).value;
    ExtendsKeeps(t.facilityTypes, r.tables.facilityTypes, r.ids, CheckAll(vs, CheckFacilityType).value, FacilityTypeFits);
  }

  lemma InsertAmenitiesKeepsValid(t: Snapshot, vs: seq<AmenityValues>)
    requires Valid(t) && InsertAmenities(t, vs).Ok?
    ensures Valid(InsertAmenities(t, vs).value.tables)
  {
    var r := InsertAmenities(t, vs).value;
    ExtendsKeeps(t.amenities, r.tables.amenities, r.ids, CheckAll(vs, CheckAmenity).value, AmenityFits);
  }

  lemma InsertFacilitiesKeepsValid(t: Snapshot, vs: seq<FacilityValues>)
    requires Valid(t) && InsertFacilities(t, vs).Ok?
    ensures Valid(InsertFacilities(t, vs).value.tables)
  {
    var r := InsertFacilities(t, vs).value;
    var rows := CheckAll(vs, CheckFacility).value;
    var P := (f: Facility) => FacilityFits(f) && FacilityRefsResolve(t, f);
    forall i | 0 <= i < |rows| ensures P(rows[i]) {
      assert CheckFacility(vs[i]) == Ok(rows[i]);
    }
    ExtendsKeeps(t.facilities, r.tables.facilities, r.ids, rows, P);
  }

  lemma InsertLinksKeepsValid(t: Snapshot, vs: seq<LinkValues>)
    requires Valid(t) && InsertLinks(t, vs).Ok?
    ensures Valid(InsertLinks(t, vs).value)
  {
    var u := InsertLinks(t, vs).value;
    var rows := CheckAll(vs, CheckLink).value;
    InsertLinksEffect(t, vs);
    forall k | k in u.links ensures LinkFits(k, u.links[k]) && k.facilityId in u.facilities && k.amenityId in u.amenities {
      if k !in t.links {
        var i :| 0 <= i < |rows| && rows[i].0 == k;
        assert CheckLink(vs[i]) == Ok(rows[i]);
      }
    }
  }

  /** While every sequence is ahead of its table, the ids an INSERT is handed are free. */
  lemma SequencesAheadIdsFree(t: Snapshot, n: nat)
    requires SequencesAhead(t)
    ensures IdsFree(t.locations, Ids(t.locationSeq, n))
    ensures IdsFree(t.facilityTypes, Ids(t.facilityTypeSeq, n))
    ensures IdsFree(t.amenities, Ids(t.amenitySeq, n))
    ensures IdsFree(t.facilities, Ids(t.facilitySeq, n))
  {
  }

  /** An INSERT moves the sequence past every id it handed out. */
  lemma ExtendsAhead<R>(before: map<int, R>, after: map<int, R>, ids: seq<int>, rows: seq<R>, next: int)
    requires Extends(before, after, ids, rows) && ids == Ids(next, |rows|)
    requires forall id :: id in before ==> id < next
    ensures forall id :: id in after ==> id < next + |rows|
  {
    forall id | id in after ensures id < next + |rows| {
      if id !in before {
        var i :| 0 <= i < |ids| && ids[i] == id;
      }
    }
  }

  lemma InsertLocationsKeepsSequencesAhead(t: Snapshot, vs: seq<LocationValues>)
    requires SequencesAhead(t) && InsertLocations(t, vs).Ok?
    ensures SequencesAhead(InsertLocations(t, vs).value.tables)
  {
    var r := InsertLocations(t, vs).value;
    ExtendsAhead(t.locations, r.tables.locations, r.ids, CheckAll(vs, CheckLocation).value, t.locationSeq);
  }

  lemma InsertFacilityTypesKeepsSequencesAhead(t: Snapshot, vs: seq<FacilityTypeValues>)
    requires SequencesAhead(t) && InsertFacilityTypes(t, vs).Ok?
    ensures SequencesAhead(InsertFacilityTypes(t, vs).value.tables)
  {
    var r := InsertFacilityTypes(t, vs).value;
    ExtendsAhead(t.facilityTypes, r.tables.facilityTypes, r.ids, CheckAll(vs, CheckFacilityType).value, t.facilityTypeSeq);
  }

  lemma InsertAmenitiesKeepsSequencesAhead(t: Snapshot, vs: seq<AmenityValues>)
    requires SequencesAhead(t) && InsertAmenities(t, vs).Ok?
    ensures SequencesAhead(InsertAmenities(t, vs).value.tables)
  {
    var r := InsertAmenities(t, vs).value;
    ExtendsAhead(t.amenities, r.tables.amenities, r.ids, CheckAll(vs, CheckAmenity).value, t.amenitySeq);
  }

  lemma InsertFacilitiesKeepsSequencesAhead(t: Snapshot, vs: seq<FacilityValues>)
    requires SequencesAhead(t) && InsertFacilities(t, vs).Ok?
    ensures SequencesAhead(InsertFacilities(t, vs).value.tables)
  {
    var r := InsertFacilities(t, vs).value;
    ExtendsAhead(t.facilities, r.tables.facilities, r.ids, CheckAll(vs, CheckFacility).value, t.facilitySeq);
  }

  /** A one-row insert under a single fresh id is a map update. */
  lemma ExtendsOne<R>(before: map<int, R>, after: map<int, R>, id: int, row: R)
    requires Extends(before, after, [id], [row])
    ensures id !in before && after == before[id := row]
  {
    assert [id][0] == id;
    assert [row][0] == row;
    assert id in after && after[id] == row;
    assert forall k :: k in after <==> k in before || k == id;
    assert forall k :: k in after ==> after[k] == before[id := row][k];
  }

  /** A one-row INSERT INTO locations stores the checked row under the sequence's next value. */
  lemma InsertOneLocation(t: Snapshot, v: LocationValues)
    requires InsertLocations(t, [v]).Ok?
    ensures var r := InsertLocations(t, [v]).value;
      && CheckLocation(v).Ok? && r.ids == [t.locationSeq] && t.locationSeq !in t.locations
      && r.tables == t.(locations := t.locations[t.locationSeq := CheckLocation(v).value], locationSeq := t.locationSeq + 1)
  {
    var r := InsertLocations(t, [v]).value;
    assert r.ids == [t.locationSeq];
    assert CheckLocation([v][0]).Ok?;
    assert CheckAll([v], CheckLocation).value == [CheckLocation(v).value];
    ExtendsOne(t.locations, r.tables.locations, t.locationSeq, CheckLocation(v).value);
  }

  /** A one-row INSERT INTO facility_types stores the checked row under the sequence's next value. */
  lemma InsertOneFacilityType(t: Snapshot, v: FacilityTypeValues)
    requires InsertFacilityTypes(t, [v]).Ok?
    ensures var r := InsertFacilityTypes(t, [v]).value;
      && CheckFacilityType(v).Ok? && r.ids == [t.facilityTypeSeq] && t.facilityTypeSeq !in t.facilityTypes
      && r.tables == t.(facilityTypes := t.facilityTypes[t.facilityTypeSeq := CheckFacilityType(v).value],
                        facilityTypeSeq := t.facilityTypeSeq + 1)
  {
    var r := InsertFacilityTypes(t, [v]).value;
    assert r.ids == [t.facilityTypeSeq];
    assert CheckFacilityType([v][0]).Ok?;
    assert CheckAll([v], CheckFacilityType).value == [CheckFacilityType(v).value];
    ExtendsOne(t.facilityTypes, r.tables.facilityTypes, t.facilityTypeSeq, CheckFacilityType(v).value);
  }

  /** A one-row INSERT INTO amenities stores the checked row under the sequence's next value. */
  lemma InsertOneAmenity(t: Snapshot, v: AmenityValues)
    requires InsertAmenities(t, [v]).Ok?
    ensures var r := InsertAmenities(t, [v]).value;
      && CheckAmenity(v).Ok? && r.ids == [t.amenitySeq] && t.amenitySeq !in t.amenities
      && r.tables == t.(amenities := t.amenities[t.amenitySeq := CheckAmenity(v).value], amenitySeq := t.amenitySeq + 1)
  {
    var r := InsertAmenities(t, [v]).value;
    assert r.ids == [t.amenitySeq];
    assert CheckAmenity([v][0]).Ok?;
    assert CheckAll([v], CheckAmenity).value == [CheckAmenity(v).value];
    ExtendsOne(t.amenities, r.tables.amenities, t.amenitySeq, CheckAmenity(v).value);
  }

  /** A one-row INSERT INTO facilities stores the checked row under the sequence's next value. */
  lemma InsertOneFacility(t: Snapshot, v: FacilityValues)
    requires InsertFacilities(t, [v]).Ok?
    ensures var r := InsertFacilities(t, [v]).value;
      && CheckFacility(v).Ok? && FacilityRefsResolve(t, CheckFacility(v).value)
      && r.ids == [t.facilitySeq] && t.facilitySeq !in t.facilities
      && r.tables == t.(facilities := t.facilities[t.facilitySeq := CheckFacility(v).value], facilitySeq := t.facilitySeq + 1)
  {
    var r := InsertFacilities(t, [v]).value;
    var rows := CheckAll([v], CheckFacility).value;
    assert r.ids == [t.facilitySeq];
    assert CheckFacility([v][0]) == Ok(rows[0]);
    assert rows == [CheckFacility(v).value];
    assert AllFacilityRefsResolve(t, rows);
    ExtendsOne(t.facilities, r.tables.facilities, t.facilitySeq, CheckFacility(v).value);
  }

  // ---------------------------------------------------------------- deletes

  /**
   * ON DELETE CASCADE: a facility whose location or facility type is gone is
   * deleted, and so is a facility_amenities row whose facility or amenity is gone.
   */
  function Cascade(t: Snapshot): (r: Snapshot)
    ensures r == t.(facilities := r.facilities, links := r.links)
    ensures forall id :: id in r.facilities <==> id in t.facilities && FacilityRefsResolve(t, t.facilities[id])
    ensures forall k :: k in r.links <==> k in t.links && k.facilityId in r.facilities && k.amenityId in t.amenities
    ensures forall id :: id in r.facilities ==> r.facilities[id] == t.facilities[id]
    ensures forall k :: k in r.links ==> r.links[k] == t.links[k]
  {
    var facilities := map id | id in t.facilities && FacilityRefsResolve(t, t.facilities[id]) :: t.facilities[id];
    var links := map k | k in t.links && k.facilityId in facilities && k.amenityId in t.amenities :: t.links[k];
    t.(facilities := facilities, links := links)
  }

  /** DELETE FROM locations WHERE id IN ids */
  function DeleteLocations(t: Snapshot, ids: set<int>): Snapshot {
    Cascade(t.(locations := t.locations - ids))
  }

  /** DELETE FROM facility_types WHERE id IN ids */
  function DeleteFacilityTypes(t: Snapshot, ids: set<int>): Snapshot {
    Cascade(t.(facilityTypes := t.facilityTypes - ids))
  }

  /** DELETE FROM amenities WHERE id IN ids */
  function DeleteAmenities(t: Snapshot, ids: set<int>): Snapshot {
    Cascade(t.(amenities := t.amenities - ids))
  }

  /** DELETE FROM facilities WHERE id IN ids */
  function DeleteFacilities(t: Snapshot, ids: set<int>): Snapshot {
    Cascade(t.(facilities := t.facilities - ids))
  }

  /** DELETE FROM facility_amenities WHERE (facility_id, amenity_id) IN keys */
  function DeleteLinks(t: Snapshot, keys: set<LinkKey>): Snapshot {
    Cascade(t.(links := t.links - keys))
  }

  /** A cascade only ever removes rows, so the rows left still fit and all references resolve. */
  lemma CascadeValid(t: Snapshot)
    requires RowsFit(t)
    ensures Valid(Cascade(t))
  {
  }

  /** On a database whose references all resolve, nothing cascades. */
  lemma CascadeIdle(t: Snapshot)
    requires ReferencesResolve(t)
    ensures Cascade(t) == t
  {
    var r := Cascade(t);
    assert forall id :: id in r.facilities <==> id in t.facilities;
    assert r.facilities == t.facilities;
    assert forall k :: k in r.links <==> k in t.links;
    assert r.links == t.links;
  }

  /** Deleting locations takes the facilities at them, and those facilities' amenity rows, along. */
  lemma DeleteLocationsEffect(t: Snapshot, ids: set<int>)
    requires Valid(t)
    ensures var u := DeleteLocations(t, ids);
      && Valid(u)
      && u.locations == t.locations - ids
      && u.facilityTypes == t.facilityTypes && u.amenities == t.amenities
      && (forall id :: id in u.facilities <==> id in t.facilities && t.facilities[id].locationId !in ids)
      && (forall k :: k in u.links <==> k in t.links && k.facilityId in u.facilities)
  {
  }

  /** Deleting facility types takes every facility of those types, and their amenity rows, along. */
  lemma DeleteFacilityTypesEffect(t: Snapshot, ids: set<int>)
    requires Valid(t)
    ensures var u := DeleteFacilityTypes(t, ids);
      && Valid(u)
      && u.facilityTypes == t.facilityTypes - ids
      && u.locations == t.locations && u.amenities == t.amenities
      && (forall id :: id in u.facilities <==> id in t.facilities && t.facilities[id].facilityTypeId !in ids)
      && (forall k :: k in u.links <==> k in t.links && k.facilityId in u.facilities)
  {
  }

  /** Deleting amenities removes only the facility_amenities rows that name them. */
  lemma DeleteAmenitiesEffect(t: Snapshot, ids: set<int>)
    requires Valid(t)
    ensures var u := DeleteAmenities(t, ids);
      && Valid(u)
      && u.amenities == t.amenities - ids
      && u.locations == t.locations && u.facilityTypes == t.facilityTypes && u.facilities == t.facilities
      && (forall k :: k in u.links <==> k in t.links && k.amenityId !in ids)
  {
    var u := DeleteAmenities(t, ids);
    assert forall id :: id in u.facilities <==> id in t.facilities;
    assert u.facilities == t.facilities;
  }

  /** Deleting facilities removes their facility_amenities rows and nothing else. */
  lemma DeleteFacilitiesEffect(t: Snapshot, ids: set<int>)
    requires Valid(t)
    ensures var u := DeleteFacilities(t, ids);
      && Valid(u)
      && u.facilities == t.facilities - ids
      && u.locations == t.locations && u.facilityTypes == t.facilityTypes && u.amenities == t.amenities
      && (forall k :: k in u.links <==> k in t.links && k.facilityId !in ids)
  {
    var u := DeleteFacilities(t, ids);
    assert forall id :: id in u.facilities <==> id in t.facilities - ids;
    assert u.facilities == t.facilities - ids;
  }

  /** Deleting facility_amenities rows cascades to nothing. */
  lemma DeleteLinksEffect(t: Snapshot, keys: set<LinkKey>)
    requires Valid(t)
    ensures DeleteLinks(t, keys) == t.(links := t.links - keys)
  {
    CascadeIdle(t.(links := t.links - keys));
  }

  // ---------------------------------------------------------------- updates

  /** UPDATE facility_types SET slug, description, order WHERE id = id; no matching row updates nothing. */
  function UpdateFacilityType(t: Snapshot, id: int, slug: Option<string>, description: Option<string>, order: Option<int>)
    : (r: Result<Snapshot, DbError>)
    ensures id !in t.facilityTypes ==> r == Ok(t)
    ensures r.Ok? ==> r.value.facilityTypes.Keys == t.facilityTypes.Keys
    ensures r.Ok? ==> r.value == t.(facilityTypes := r.value.facilityTypes)
    ensures r.Ok? ==> forall other :: other in t.facilityTypes && other != id ==> r.value.facilityTypes[other] == t.facilityTypes[other]
    ensures r.Ok? && id in t.facilityTypes ==> var row := r.value.facilityTypes[id];
      row.name == t.facilityTypes[id].name && row.slug == slug && row.description == description && row.order == order
    ensures r.Err? ==> id in t.facilityTypes
    ensures r.Ok? && Valid(t) ==> Valid(r.value)
  {
    if id !in t.facilityTypes then Ok(t)
    else
      var row := t.facilityTypes[id].(slug := slug, description := description, order := order);
      if !FitsVarchar(slug, SlugMaxLength) then Err(ValueTooLong("slug"))
      else if !FitsInt4(order) then Err(OutOfRange("order"))
      else Ok(t.(facilityTypes := t.facilityTypes[id := row]))
  }

  /** UPDATE amenities SET description, is_multiple_applicable WHERE id = id. */
  function UpdateAmenity(t: Snapshot, id: int, description: Option<string>, isMultipleApplicable: Option<bool>)
    : (r: Snapshot)
    ensures id !in t.amenities ==> r == t
    ensures r.amenities.Keys == t.amenities.Keys
    ensures r == t.(amenities := r.amenities)
    ensures forall other :: other in t.amenities && other != id ==> r.amenities[other] == t.amenities[other]
    ensures id in t.amenities ==> var row := r.amenities[id];
      row.name == t.amenities[id].name && row.description == description && row.isMultipleApplicable == isMultipleApplicable
    ensures Valid(t) ==> Valid(r)
  {
    if id !in t.amenities then t
    else t.(amenities := t.amenities[id := t.amenities[id].(description := description, isMultipleApplicable := isMultipleApplicable)])
  }

  /**
   * ALTER SEQUENCE ... RESTART WITH 1 for the four serial columns. The rows
   * stay, so the invariants are kept; on empty tables the result is the
   * freshly migrated database.
   */
  function ResetSequences(t: Snapshot): (r: Snapshot)
    ensures r.locations == t.locations && r.facilityTypes == t.facilityTypes && r.amenities == t.amenities
    ensures r.facilities == t.facilities && r.links == t.links
    ensures Valid(r) <==> Valid(t)
    ensures (&& t.locations == map[] && t.facilityTypes == map[] && t.amenities == map[]
             && t.facilities == map[] && t.links == map[])
      ==> r == Empty && SequencesAhead(r)
  {
    t.(locationSeq := 1, facilityTypeSeq := 1, amenitySeq := 1, facilitySeq := 1)
  }

  // ---------------------------------------------------------------- lookups

  lemma NonEmptyHasElement(s: set<int>)
    requires s != {}
    ensures exists x :: x in s
  {
    if forall x :: x !in s {
      assert false;
    }
  }

  /** Every non-empty set of ids has a smallest element. */
  lemma {:induction false} HasLeast(s: set<int>)
    requires s != {}
    ensures exists m :: m in s && forall y :: y in s ==> m <= y
    decreases |s|
  {
    NonEmptyHasElement(s);
    var x :| x in s;
    var rest := s - {x};
    assert forall y :: y in s ==> y == x || y in rest;
    if rest != {} {
      HasLeast(rest);
      var m :| m in rest && forall y :: y in rest ==> m <= y;
      var least := if x < m then x else m;
      assert forall y :: y in s ==> least <= y;
    }
  }

  /** The smallest element of a non-empty set of ids. */
  ghost function Least(s: set<int>): (m: int)
    requires s != {}
    ensures m in s && forall y :: y in s ==> m <= y
  {
    HasLeast(s);
    var m :| m in s && forall y :: y in s ==> m <= y;
    m
  }

  /** A set has only one least element. */
  lemma LeastUnique(s: set<int>, m: int)
    requires m in s && forall x :: x in s ==> m <= x
    ensures Least(s) == m
  {
  }

  /** The smallest id of a set, or none when it is empty: `LIMIT 1` without an ORDER BY. */
  ghost function First(s: set<int>): (r: Option<int>)
    ensures r.None? <==> s == {}
    ensures r.Some? ==> r.value in s && forall x :: x in s ==> r.value <= x
  {
    if s == {} then None else Some(Least(s))
  }

  /** The ids of the locations with this address. */
  function LocationsAt(t: Snapshot, address: string): (ids: set<int>)
    ensures forall id :: id in ids <==> id in t.locations && t.locations[id].address == address
  {
    set id | id in t.locations && t.locations[id].address == address
  }

  /** The ids of the facility types with this name. */
  function FacilityTypesNamed(t: Snapshot, name: string): (ids: set<int>)
    ensures forall id :: id in ids <==> id in t.facilityTypes && t.facilityTypes[id].name == name
  {
    set id | id in t.facilityTypes && t.facilityTypes[id].name == name
  }

  /** The ids of the amenities with this name. */
  function AmenitiesNamed(t: Snapshot, name: string): (ids: set<int>)
    ensures forall id :: id in ids <==> id in t.amenities && t.amenities[id].name == name
  {
    set id | id in t.amenities && t.amenities[id].name == name
  }
}
