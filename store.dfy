/**
 * The database the application talks to, as a mutable object: one field per
 * table and one per serial sequence. Every statement is a method whose
 * effect is the corresponding function of tables.dfy applied to the state
 * before it; a refused statement leaves every field as it was.
 */
module Store {
  import opened Wrappers
  import opened Schema
  import opened Tables

  class Database {
    var locations: map<int, Location>
    var facilityTypes: map<int, FacilityType>
    var amenities: map<int, Amenity>
    var facilities: map<int, Facility>
    var links: map<LinkKey, Option<int>>
    var locationSeq: int
    var facilityTypeSeq: int
    var amenitySeq: int
    var facilitySeq: int

    /** The whole database as a value. */
    function State(): Snapshot
      reads this
    {
      Snapshot(locations, facilityTypes, amenities, facilities, links,
               locationSeq, facilityTypeSeq, amenitySeq, facilitySeq)
    }

    /** The schema's invariants hold. */
    predicate Valid()
      reads this
    {
      Tables.Valid(State())
    }

    /** A freshly migrated database: empty tables, sequences at 1. */
    constructor ()
      ensures State() == Empty && Valid()
    {
      locations, facilityTypes, amenities, facilities, links := map[], map[], map[], map[], map[];
      locationSeq, facilityTypeSeq, amenitySeq, facilitySeq := 1, 1, 1, 1;
    }

    /** Replaces the whole state; a transaction's ROLLBACK uses it to restore the state it began in. */
    method Restore(s: Snapshot)
      modifies this
      ensures State() == s
    {
      locations, facilityTypes, amenities, facilities, links := s.locations, s.facilityTypes, s.amenities, s.facilities, s.links;
      locationSeq, facilityTypeSeq, amenitySeq, facilitySeq := s.locationSeq, s.facilityTypeSeq, s.amenitySeq, s.facilitySeq;
    }

    /** INSERT INTO locations ... RETURNING id */
    method InsertLocations(vs: seq<LocationValues>) returns (r: Result<seq<int>, DbError>)
      modifies this
      ensures var e := Tables.InsertLocations(old(State()), vs);
        if e.Ok? then r == Ok(e.value.ids) && State() == e.value.tables
        else r == Err(e.error) && State() == old(State())
    {
      var e := Tables.InsertLocations(State(), vs);
      if e.Ok? {
        locations, locationSeq := e.value.tables.locations, e.value.tables.locationSeq;
        r := Ok(e.value.ids);
      } else {
        r := Err(e.error);
      }
    }

    /** INSERT INTO facility_types ... RETURNING id */
    method InsertFacilityTypes(vs: seq<FacilityTypeValues>) returns (r: Result<seq<int>, DbError>)
      modifies this
      ensures var e := Tables.InsertFacilityTypes(old(State()), vs);
        if e.Ok? then r == Ok(e.value.ids) && State() == e.value.tables
        else r == Err(e.error) && State() == old(State())
    {
      var e := Tables.InsertFacilityTypes(State(), vs);
      if e.Ok? {
        facilityTypes, facilityTypeSeq := e.value.tables.facilityTypes, e.value.tables.facilityTypeSeq;
        r := Ok(e.value.ids);
      } else {
        r := Err(e.error);
      }
    }

    /** INSERT INTO amenities ... RETURNING id */
    method InsertAmenities(vs: seq<AmenityValues>) returns (r: Result<seq<int>, DbError>)
      modifies this
      ensures var e := Tables.InsertAmenities(old(State()), vs);
        if e.Ok? then r == Ok(e.value.ids) && State() == e.value.tables
        else r == Err(e.error) && State() == old(State())
    {
      var e := Tables.InsertAmenities(State(), vs);
      if e.Ok? {
        amenities, amenitySeq := e.value.tables.amenities, e.value.tables.amenitySeq;
        r := Ok(e.value.ids);
      } else {
        r := Err(e.error);
      }
    }

    /** INSERT INTO facilities ... RETURNING id */
    method InsertFacilities(vs: seq<FacilityValues>) returns (r: Result<seq<int>, DbError>)
      modifies this
      ensures var e := Tables.InsertFacilities(old(State()), vs);
        if e.Ok? then r == Ok(e.value.ids) && State() == e.value.tables
        else r == Err(e.error) && State() == old(State())
    {
      var e := Tables.InsertFacilities(State(), vs);
      if e.Ok? {
        facilities, facilitySeq := e.value.tables.facilities, e.value.tables.facilitySeq;
        r := Ok(e.value.ids);
      } else {
        r := Err(e.error);
      }
    }

    /** INSERT INTO facility_amenities */
    method InsertLinks(vs: seq<LinkValues>) returns (r: Result<(), DbError>)
      modifies this
      ensures var e := Tables.InsertLinks(old(State()), vs);
        if e.Ok? then r.Ok? && State() == e.value
        else r == Err(e.error) && State() == old(State())
    {
      var e := Tables.InsertLinks(State(), vs);
      if e.Ok? {
        links := e.value.links;
        r := Ok(());
      } else {
        r := Err(e.error);
      }
    }

    /** DELETE FROM locations (every row), with its cascade. */
    method DeleteAllLocations()
      modifies this
      ensures State() == DeleteLocations(old(State()), old(locations).Keys)
    {
      var u := DeleteLocations(State(), locations.Keys);
      locations, facilities, links := u.locations, u.facilities, u.links;
    }

    /** DELETE FROM facility_types (every row), with its cascade. */
    method DeleteAllFacilityTypes()
      modifies this
      ensures State() == DeleteFacilityTypes(old(State()), old(facilityTypes).Keys)
    {
      var u := DeleteFacilityTypes(State(), facilityTypes.Keys);
      facilityTypes, facilities, links := u.facilityTypes, u.facilities, u.links;
    }

    /** DELETE FROM amenities (every row), with its cascade. */
    method DeleteAllAmenities()
      modifies this
      ensures State() == DeleteAmenities(old(State()), old(amenities).Keys)
    {
      var u := DeleteAmenities(State(), amenities.Keys);
      amenities, facilities, links := u.amenities, u.facilities, u.links;
    }

    /** DELETE FROM facilities (every row), with its cascade. */
    method DeleteAllFacilities()
      modifies this
      ensures State() == DeleteFacilities(old(State()), old(facilities).Keys)
    {
      var u := DeleteFacilities(State(), facilities.Keys);
      facilities, links := u.facilities, u.links;
    }

    /** DELETE FROM facility_amenities (every row). */
    method DeleteAllLinks()
      modifies this
      ensures State() == DeleteLinks(old(State()), old(links).Keys)
    {
      var u := DeleteLinks(State(), links.Keys);
      facilities, links := u.facilities, u.links;
    }

    /** UPDATE facility_types SET ... WHERE id = id */
    method UpdateFacilityType(id: int, slug: Option<string>, description: Option<string>, order: Option<int>)
      returns (r: Result<(), DbError>)
      modifies this
      ensures var e := Tables.UpdateFacilityType(old(State()), id, slug, description, order);
        if e.Ok? then r.Ok? && State() == e.value
        else r == Err(e.error) && State() == old(State())
    {
      var e := Tables.UpdateFacilityType(State(), id, slug, description, order);
      if e.Ok? {
        facilityTypes := e.value.facilityTypes;
        r := Ok(());
      } else {
        r := Err(e.error);
      }
    }

    /** UPDATE amenities SET ... WHERE id = id */
    method UpdateAmenity(id: int, description: Option<string>, isMultipleApplicable: Option<bool>)
      modifies this
      ensures State() == Tables.UpdateAmenity(old(State()), id, description, isMultipleApplicable)
    {
      amenities := Tables.UpdateAmenity(State(), id, description, isMultipleApplicable).amenities;
    }

    /** ALTER SEQUENCE ... RESTART WITH 1, for the four serial columns. */
    method ResetSequences()
      modifies this
      ensures State() == Tables.ResetSequences(old(State()))
    {
      locationSeq, facilityTypeSeq, amenitySeq, facilitySeq := 1, 1, 1, 1;
    }

    /** The smallest id in `ids`, or none: what `LIMIT 1` without ORDER BY returns here. */
    method PickFirst(ids: set<int>) returns (r: Option<int>)
      ensures r == First(ids)
    {
      if ids == {} {
        r := None;
      } else {
        HasLeast(ids);
        var m :| m in ids && forall y :: y in ids ==> m <= y;
        r := Some(m);
      }
    }

    /** SELECT id FROM locations WHERE address = address LIMIT 1 */
    method FirstLocationAt(address: string) returns (r: Option<int>)
      ensures r == First(LocationsAt(State(), address))
    {
      r := PickFirst(LocationsAt(State(), address));
    }

    /** SELECT * FROM facility_types WHERE name = name LIMIT 1 */
    method FirstFacilityTypeNamed(name: string) returns (r: Option<int>)
      ensures r == First(FacilityTypesNamed(State(), name))
    {
      r := PickFirst(FacilityTypesNamed(State(), name));
    }

    /** SELECT * FROM amenities WHERE name = name LIMIT 1 */
    method FirstAmenityNamed(name: string) returns (r: Option<int>)
      ensures r == First(AmenitiesNamed(State(), name))
    {
      r := PickFirst(AmenitiesNamed(State(), name));
    }
  }
}
