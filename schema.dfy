/**
 * The relational schema: the five tables' rows, what a row must satisfy to
 * be stored (NOT NULL columns, varchar lengths, integer and numeric ranges)
 * and the column defaults an INSERT applies to the columns it omits.
 *
 * Ids and the composite key of facility_amenities are the keys of the
 * tables' maps (see tables.dfy); the rows here hold the other columns.
 * The timestamp columns created_at and updated_at are not modelled.
 */
module Schema {
  import opened Wrappers

  // varchar(n) bounds, in characters
  const BuildingMaxLength := 255
  const BlockMaxLength := 50
  const RoadMaxLength := 255
  const PostalCodeMaxLength := 10
  const NameMaxLength := 255
  const SlugMaxLength := 255
  const FloorMaxLength := 50
  const CreatedByMaxLength := 255

  // column defaults
  const DefaultOrder := 0
  const DefaultIsMultipleApplicable := true
  const DefaultHasDiaperChangingStation := true
  const DefaultHasLactationRoom := false
  const DefaultFemalesOnly := false
  const DefaultQuantity := 1

  /** A value of a Postgres `integer` column. */
  predicate IsInt4(n: int) {
    -0x8000_0000 <= n <= 0x7FFF_FFFF
  }

  /** Half of the last decimal place a numeric(p, 8) column keeps. */
  const HalfUnit: real := 0.000_000_005

  /** `x` has at most 8 decimal places. */
  predicate IsScaled(x: real) {
    (x * 100_000_000.0).Floor as real == x * 100_000_000.0
  }

  /**
   * The value a numeric(p, 8) column makes of `x` before anything else:
   * rounded to 8 decimal places, halves away from zero.
   */
  function Round8(x: real): (r: real)
    ensures IsScaled(r)
    ensures -HalfUnit <= r - x <= HalfUnit
  {
    var n := if x >= 0.0 then (x * 100_000_000.0 + 0.5).Floor else -((-x) * 100_000_000.0 + 0.5).Floor;
    assert x * 100_000_000.0 - 0.5 <= n as real <= x * 100_000_000.0 + 0.5;
    CountOfUnitsScaled(n);
    n as real / 100_000_000.0
  }

  /** An integer count of the last decimal place has at most 8 decimal places. */
  lemma CountOfUnitsScaled(n: int)
    ensures IsScaled(n as real / 100_000_000.0)
  {
    assert n as real / 100_000_000.0 * 100_000_000.0 == n as real;
  }

  /** A value that already has at most 8 decimal places is stored as it is. */
  lemma Round8Keeps(x: real)
    requires IsScaled(x)
    ensures Round8(x) == x
  {
    var n := (x * 100_000_000.0).Floor;
    if x >= 0.0 {
      assert (x * 100_000_000.0 + 0.5).Floor == n;
    } else {
      assert ((-x) * 100_000_000.0 + 0.5).Floor == -n;
    }
  }

  /**
   * numeric(10, 8) holds magnitudes below 10^2, numeric(11, 8) below 10^3;
   * the test applies to the rounded value (see CheckLocation).
   */
  predicate FitsLatitude(x: real) {
    -100.0 < x < 100.0
  }

  predicate FitsLongitude(x: real) {
    -1000.0 < x < 1000.0
  }

  predicate FitsVarchar(s: Option<string>, n: nat) {
    s.None? || |s.value| <= n
  }

  predicate FitsInt4(n: Option<int>) {
    n.None? || IsInt4(n.value)
  }

  /** A row of `locations`. */
  datatype Location = Location(
    building: Option<string>,
    block: Option<string>,
    road: string,
    address: string,
    postalCode: Option<string>,
    latitude: real,
    longitude: real)

  /** A row of `facility_types`. */
  datatype FacilityType = FacilityType(
    name: string,
    slug: Option<string>,
    description: Option<string>,
    order: Option<int>)

  /** A row of `amenities`. */
  datatype Amenity = Amenity(
    name: string,
    description: Option<string>,
    isMultipleApplicable: Option<bool>)

  /** A row of `facilities`. */
  datatype Facility = Facility(
    locationId: int,
    facilityTypeId: int,
    floor: Option<string>,
    description: Option<string>,
    hasDiaperChangingStation: Option<bool>,
    hasLactationRoom: Option<bool>,
    howToAccess: Option<string>,
    createdBy: string,
    femalesOnly: Option<bool>)

  /** The composite primary key of `facility_amenities`. */
  datatype LinkKey = LinkKey(facilityId: int, amenityId: int)

  predicate LocationFits(l: Location) {
    && FitsVarchar(l.building, BuildingMaxLength)
    && FitsVarchar(l.block, BlockMaxLength)
    && |l.road| <= RoadMaxLength
    && FitsVarchar(l.postalCode, PostalCodeMaxLength)
    && FitsLatitude(l.latitude) && IsScaled(l.latitude)
    && FitsLongitude(l.longitude) && IsScaled(l.longitude)
  }

  predicate FacilityTypeFits(t: FacilityType) {
    |t.name| <= NameMaxLength && FitsVarchar(t.slug, SlugMaxLength) && FitsInt4(t.order)
  }

  predicate AmenityFits(a: Amenity) {
    |a.name| <= NameMaxLength
  }

  predicate FacilityFits(f: Facility) {
    && IsInt4(f.locationId)
    && IsInt4(f.facilityTypeId)
    && FitsVarchar(f.floor, FloorMaxLength)
    && |f.createdBy| <= CreatedByMaxLength
  }

  predicate LinkFits(k: LinkKey, quantity: Option<int>) {
    IsInt4(k.facilityId) && IsInt4(k.amenityId) && FitsInt4(quantity)
  }

  /** Why the database refused a statement. */
  datatype DbError =
    | NotNullViolation(column: string)
    | ValueTooLong(column: string)
    | OutOfRange(column: string)
    | InvalidInput(column: string)
    | ForeignKeyViolation(column: string)
    | UniqueViolation(table: string)
    | EmptyValues          // the ORM refuses an INSERT with no rows
    | Unavailable          // the backend could not be reached

  /**
   * The values an INSERT supplies. For a NOT NULL column None is NULL
   * (refused); for a column with a default None means the column is
   * omitted and the default applies; for the other columns None is NULL.
   */
  datatype LocationValues = LocationValues(
    building: Option<string>,
    block: Option<string>,
    road: Option<string>,
    address: Option<string>,
    postalCode: Option<string>,
    latitude: Option<real>,
    longitude: Option<real>)

  datatype FacilityTypeValues = FacilityTypeValues(
    name: Option<string>,
    slug: Option<string>,
    description: Option<string>,
    order: Option<int>)

  datatype AmenityValues = AmenityValues(
    name: Option<string>,
    description: Option<string>,
    isMultipleApplicable: Option<bool>)

  datatype FacilityValues = FacilityValues(
    locationId: Option<int>,
    facilityTypeId: Option<int>,
    floor: Option<string>,
    description: Option<string>,
    hasDiaperChangingStation: Option<bool>,
    hasLactationRoom: Option<bool>,
    howToAccess: Option<string>,
    createdBy: Option<string>,
    femalesOnly: Option<bool>)

  datatype LinkValues = LinkValues(
    facilityId: Option<int>,
    amenityId: Option<int>,
    quantity: Option<int>)

  /** The `locations` row an INSERT of `v` stores, or why it is refused. */
  function CheckLocation(v: LocationValues): (r: Result<Location, DbError>)
    ensures r.Ok? ==> LocationFits(r.value)
    ensures r.Ok? ==> v.road.Some? && v.address.Some? && v.latitude.Some? && v.longitude.Some?
    ensures r.Ok? ==> r.value.address == v.address.value && r.value.road == v.road.value
    ensures r.Ok? ==> r.value.building == v.building && r.value.block == v.block && r.value.postalCode == v.postalCode
    ensures r.Ok? ==> -HalfUnit <= r.value.latitude - v.latitude.value <= HalfUnit
    ensures r.Ok? ==> -HalfUnit <= r.value.longitude - v.longitude.value <= HalfUnit
    ensures r.Ok? ==> r.value.latitude == Round8(v.latitude.value) && r.value.longitude == Round8(v.longitude.value)
  {
    if v.road.None? then Err(NotNullViolation("road"))
    else if v.address.None? then Err(NotNullViolation("address"))
    else if v.latitude.None? then Err(NotNullViolation("latitude"))
    else if v.longitude.None? then Err(NotNullViolation("longitude"))
    else if !FitsVarchar(v.building, BuildingMaxLength) then Err(ValueTooLong("building"))
    else if !FitsVarchar(v.block, BlockMaxLength) then Err(ValueTooLong("block"))
    else if |v.road.value| > RoadMaxLength then Err(ValueTooLong("road"))
    else if !FitsVarchar(v.postalCode, PostalCodeMaxLength) then Err(ValueTooLong("postal_code"))
    else if !FitsLatitude(Round8(v.latitude.value)) then Err(OutOfRange("latitude"))
    else if !FitsLongitude(Round8(v.longitude.value)) then Err(OutOfRange("longitude"))
    else Ok(Location(v.building, v.block, v.road.value, v.address.value, v.postalCode,
                     Round8(v.latitude.value), Round8(v.longitude.value)))
  }

  /** building, block and postal_code are optional: a row without them is stored when the rest fits. */
  lemma LocationOptionalColumns(road: string, address: string, latitude: real, longitude: real)
    requires |road| <= RoadMaxLength && FitsLatitude(Round8(latitude)) && FitsLongitude(Round8(longitude))
    ensures CheckLocation(LocationValues(None, None, Some(road), Some(address), None, Some(latitude), Some(longitude)))
            == Ok(Location(None, None, road, address, None, Round8(latitude), Round8(longitude)))
  {
  }

  /** A latitude with nine decimals is stored rounded to eight. */
  lemma LatitudeRounded()
    ensures Round8(1.123456789) == 1.12345679
  {
    assert 1.123456789 * 100_000_000.0 + 0.5 == 112345679.4;
    assert (112345679.4).Floor == 112345679;
  }

  /**
   * A latitude just below 100 passes the range test on its exact value, but
   * rounds to 100 and is refused.
   */
  lemma LatitudeRoundsOutOfRange()
    ensures FitsLatitude(99.999999995) && Round8(99.999999995) == 100.0
    ensures CheckLocation(LocationValues(None, None, Some("r"), Some("a"), None, Some(99.999999995), Some(0.0)))
            == Err(OutOfRange("latitude"))
  {
    assert 99.999999995 * 100_000_000.0 + 0.5 == 10000000000.0;
    assert (10000000000.0).Floor == 10000000000;
  }

  /** The `facility_types` row an INSERT of `v` stores: `order` defaults to 0. */
  function CheckFacilityType(v: FacilityTypeValues): (r: Result<FacilityType, DbError>)
    ensures r.Ok? ==> FacilityTypeFits(r.value) && v.name == Some(r.value.name)
    ensures r.Ok? ==> r.value.slug == v.slug && r.value.description == v.description
    ensures r.Ok? ==> r.value.order == Some(if v.order.Some? then v.order.value else DefaultOrder)
  {
    if v.name.None? then Err(NotNullViolation("name"))
    else if |v.name.value| > NameMaxLength then Err(ValueTooLong("name"))
    else if !FitsVarchar(v.slug, SlugMaxLength) then Err(ValueTooLong("slug"))
    else if !FitsInt4(v.order) then Err(OutOfRange("order"))
    else Ok(FacilityType(v.name.value, v.slug, v.description, Some(v.order.GetOr(DefaultOrder))))
  }

  /** The `amenities` row an INSERT of `v` stores: `is_multiple_applicable` defaults to true. */
  function CheckAmenity(v: AmenityValues): (r: Result<Amenity, DbError>)
    ensures r.Ok? ==> AmenityFits(r.value) && v.name == Some(r.value.name) && r.value.description == v.description
    ensures r.Ok? ==> r.value.isMultipleApplicable
                      == Some(if v.isMultipleApplicable.Some? then v.isMultipleApplicable.value else DefaultIsMultipleApplicable)
  {
    if v.name.None? then Err(NotNullViolation("name"))
    else if |v.name.value| > NameMaxLength then Err(ValueTooLong("name"))
    else Ok(Amenity(v.name.value, v.description, Some(v.isMultipleApplicable.GetOr(DefaultIsMultipleApplicable))))
  }

  /**
   * The `facilities` row an INSERT of `v` stores (foreign keys are checked
   * against the tables, in tables.dfy). location_id, facility_type_id and
   * created_by are NOT NULL; the three flags default to true, false, false.
   */
  function CheckFacility(v: FacilityValues): (r: Result<Facility, DbError>)
    ensures r.Ok? ==> FacilityFits(r.value)
    ensures r.Ok? ==> v.locationId == Some(r.value.locationId) && v.facilityTypeId == Some(r.value.facilityTypeId)
                      && v.createdBy == Some(r.value.createdBy)
    ensures r.Ok? ==> r.value.floor == v.floor && r.value.description == v.description && r.value.howToAccess == v.howToAccess
    ensures r.Ok? ==> r.value.hasDiaperChangingStation
                      == Some(if v.hasDiaperChangingStation.Some? then v.hasDiaperChangingStation.value else DefaultHasDiaperChangingStation)
    ensures r.Ok? ==> r.value.hasLactationRoom
                      == Some(if v.hasLactationRoom.Some? then v.hasLactationRoom.value else DefaultHasLactationRoom)
    ensures r.Ok? ==> r.value.femalesOnly
                      == Some(if v.femalesOnly.Some? then v.femalesOnly.value else DefaultFemalesOnly)
  {
    if v.locationId.None? then Err(NotNullViolation("location_id"))
    else if v.facilityTypeId.None? then Err(NotNullViolation("facility_type_id"))
    else if v.createdBy.None? then Err(NotNullViolation("created_by"))
    else if !IsInt4(v.locationId.value) then Err(OutOfRange("location_id"))
    else if !IsInt4(v.facilityTypeId.value) then Err(OutOfRange("facility_type_id"))
    else if !FitsVarchar(v.floor, FloorMaxLength) then Err(ValueTooLong("floor"))
    else if |v.createdBy.value| > CreatedByMaxLength then Err(ValueTooLong("created_by"))
    else Ok(Facility(v.locationId.value, v.facilityTypeId.value, v.floor, v.description,
                     Some(v.hasDiaperChangingStation.GetOr(DefaultHasDiaperChangingStation)),
                     Some(v.hasLactationRoom.GetOr(DefaultHasLactationRoom)),
                     v.howToAccess, v.createdBy.value,
                     Some(v.femalesOnly.GetOr(DefaultFemalesOnly))))
  }

  /** The key and quantity an INSERT of `v` into `facility_amenities` stores: quantity defaults to 1. */
  function CheckLink(v: LinkValues): (r: Result<(LinkKey, Option<int>), DbError>)
    ensures r.Ok? ==> LinkFits(r.value.0, r.value.1)
    ensures r.Ok? ==> v.facilityId == Some(r.value.0.facilityId) && v.amenityId == Some(r.value.0.amenityId)
    ensures r.Ok? ==> r.value.1 == Some(if v.quantity.Some? then v.quantity.value else DefaultQuantity)
  {
    if v.facilityId.None? then Err(NotNullViolation("facility_id"))
    else if v.amenityId.None? then Err(NotNullViolation("amenity_id"))
    else if !IsInt4(v.facilityId.value) then Err(OutOfRange("facility_id"))
    else if !IsInt4(v.amenityId.value) then Err(OutOfRange("amenity_id"))
    else if !FitsInt4(v.quantity) then Err(OutOfRange("quantity"))
    else Ok((LinkKey(v.facilityId.value, v.amenityId.value), Some(v.quantity.GetOr(DefaultQuantity))))
  }
}
