/**
 * The maintenance script that empties the database: it deletes every row of
 * the five tables, child table first, and then restarts the four id
 * sequences at 1.
 */
module Clear {
  import opened Schema
  import opened Tables
  import opened Store

  /** The five tables, by name. */
  datatype Table = Links | Facilities | FacilityTypes | Amenities | Locations

  /** The order of the deletes: facility_amenities, facilities, facility_types, amenities, locations. */
  const ChildFirst: seq<Table> := [Links, Facilities, FacilityTypes, Amenities, Locations]

  /** DELETE FROM table, with whatever it cascades to. */
  function DeleteTable(t: Snapshot, table: Table): Snapshot {
    match table
    case Links => DeleteLinks(t, t.links.Keys)
    case Facilities => DeleteFacilities(t, t.facilities.Keys)
    case FacilityTypes => DeleteFacilityTypes(t, t.facilityTypes.Keys)
    case Amenities => DeleteAmenities(t, t.amenities.Keys)
    case Locations => DeleteLocations(t, t.locations.Keys)
  }

  /** The state after deleting the given tables, in order. */
  function DeleteTables(t: Snapshot, tables: seq<Table>): Snapshot {
    if tables == [] then t
    else DeleteTable(DeleteTables(t, tables[..|tables| - 1]), tables[|tables| - 1])
  }

  /** `table` emptied and nothing else touched: a delete that cascades to nothing. */
  function Emptied(t: Snapshot, table: Table): Snapshot {
    match table
    case Links => t.(links := map[])
    case Facilities => t.(facilities := map[])
    case FacilityTypes => t.(facilityTypes := map[])
    case Amenities => t.(amenities := map[])
    case Locations => t.(locations := map[])
  }

  /** The tables whose rows refer to rows of `table`. */
  function Children(table: Table): set<Table> {
    match table
    case Links => {}
    case Facilities => {Links}
    case FacilityTypes => {Facilities}
    case Amenities => {Links}
    case Locations => {Facilities}
  }

  predicate IsEmpty(t: Snapshot, table: Table) {
    match table
    case Links => t.links == map[]
    case Facilities => t.facilities == map[]
    case FacilityTypes => t.facilityTypes == map[]
    case Amenities => t.amenities == map[]
    case Locations => t.locations == map[]
  }

  /** The whole script as a function of the state it starts in. */
  function ClearAll(t: Snapshot): Snapshot {
    ResetSequences(DeleteTables(t, ChildFirst))
  }

  /**
   * Deleting a table whose child tables are already empty cascades to
   * nothing: it empties that table alone, and the schema's invariants still hold.
   */
  lemma DeleteLeafTable(t: Snapshot, table: Table)
    requires Valid(t)
    requires forall c :: c in Children(table) ==> IsEmpty(t, c)
    ensures DeleteTable(t, table) == Emptied(t, table)
    ensures Valid(Emptied(t, table))
  {
    EmptiedValid(t, table);
    CascadeIdle(Emptied(t, table));
  }

  /** Emptying a table whose child tables are empty leaves no dangling reference. */
  lemma EmptiedValid(t: Snapshot, table: Table)
    requires Valid(t)
    requires forall c :: c in Children(table) ==> IsEmpty(t, c)
    ensures Valid(Emptied(t, table))
  {
    match table {
      case Links =>
      case Facilities =>
        assert IsEmpty(t, Links);
      case FacilityTypes =>
        assert IsEmpty(t, Facilities);
        NoFacilitiesNoLinks(t);
      case Amenities =>
        assert IsEmpty(t, Links);
      case Locations =>
        assert IsEmpty(t, Facilities);
        NoFacilitiesNoLinks(t);
    }
  }

  /** With the facilities table empty, no facility_amenities row can resolve. */
  lemma NoFacilitiesNoLinks(t: Snapshot)
    requires Valid(t) && t.facilities == map[]
    ensures t.links == map[]
  {
    assert forall k :: k !in t.links;
  }

  /**
   * In the child-first order every delete cascades to nothing: each step
   * empties exactly its own table, so no state along the way has a dangling reference.
   */
  lemma {:induction false} ChildFirstNoCascade(t: Snapshot, i: nat)
    requires Valid(t)
    requires i < |ChildFirst|
    ensures DeleteTables(t, ChildFirst[..i + 1]) == Emptied(DeleteTables(t, ChildFirst[..i]), ChildFirst[i])
    ensures Valid(DeleteTables(t, ChildFirst[..i + 1]))
    ensures forall j :: 0 <= j <= i ==> IsEmpty(DeleteTables(t, ChildFirst[..i + 1]), ChildFirst[j])
  {
    var before := DeleteTables(t, ChildFirst[..i]);
    var after := DeleteTables(t, ChildFirst[..i + 1]);
    assert ChildFirst[..i + 1][..i] == ChildFirst[..i];
    assert after == DeleteTable(before, ChildFirst[i]);
    if i == 0 {
      assert before == t;
    } else {
      ChildFirstNoCascade(t, i - 1);
      assert ChildFirst[..i - 1 + 1] == ChildFirst[..i];
    }
    LeafStep(before, i);
  }

  /** Once the tables before position `i` are empty, deleting the `i`-th empties it alone and keeps the others empty. */
  lemma LeafStep(before: Snapshot, i: nat)
    requires Valid(before) && i < |ChildFirst|
    requires forall j :: 0 <= j < i ==> IsEmpty(before, ChildFirst[j])
    ensures DeleteTable(before, ChildFirst[i]) == Emptied(before, ChildFirst[i])
    ensures Valid(Emptied(before, ChildFirst[i]))
    ensures forall j :: 0 <= j <= i ==> IsEmpty(Emptied(before, ChildFirst[i]), ChildFirst[j])
  {
    forall c | c in Children(ChildFirst[i]) ensures IsEmpty(before, c) {
      var j := ChildBefore(i, c);
    }
    DeleteLeafTable(before, ChildFirst[i]);
    EmptiedKeepsEmpty(before, ChildFirst[i]);
  }

  /** In the child-first order every child table of a table comes before it. */
  lemma ChildBefore(i: nat, c: Table) returns (j: nat)
    requires i < |ChildFirst| && c in Children(ChildFirst[i])
    ensures j < i && ChildFirst[j] == c
  {
    j := if c == Links then 0 else 1;
  }

  lemma EmptiedKeepsEmpty(t: Snapshot, table: Table)
    ensures IsEmpty(Emptied(t, table), table)
    ensures forall other :: IsEmpty(t, other) ==> IsEmpty(Emptied(t, table), other)
  {
  }

  /** Whatever the starting state, the script leaves five empty tables and all sequences at 1. */
  lemma ClearAllEmpties(t: Snapshot)
    ensures ClearAll(t) == Empty
  {
    var u := DeleteTables(t, ChildFirst);
    assert ChildFirst[..5] == ChildFirst;
    var locs := DeleteTables(t, ChildFirst[..4]);
    assert u == DeleteLocations(locs, locs.locations.Keys);
    assert u.locations == map[];
    assert u.facilities == map[];
    assert u.links == map[];
    var ams := DeleteTables(t, ChildFirst[..3]);
    assert ChildFirst[..4][..3] == ChildFirst[..3];
    assert locs == DeleteAmenities(ams, ams.amenities.Keys);
    assert u.amenities == map[];
    var types := DeleteTables(t, ChildFirst[..2]);
    assert ChildFirst[..3][..2] == ChildFirst[..2];
    assert ams == DeleteFacilityTypes(types, types.facilityTypes.Keys);
    assert u.facilityTypes == map[];
  }

  /** Restarting the sequences after the deletes gives back the freshly migrated database. */
  method Clear(db: Database)
    modifies db
    ensures db.State() == ClearAll(old(db.State()))
    ensures db.State() == Empty
  {
    ghost var t := db.State();
    db.DeleteAllLinks();
    assert ChildFirst[..1][..0] == [];
    assert db.State() == DeleteTables(t, ChildFirst[..1]);
    db.DeleteAllFacilities();
    assert ChildFirst[..2][..1] == ChildFirst[..1];
    assert db.State() == DeleteTables(t, ChildFirst[..2]);
    db.DeleteAllFacilityTypes();
    assert ChildFirst[..3][..2] == ChildFirst[..2];
    assert db.State() == DeleteTables(t, ChildFirst[..3]);
    db.DeleteAllAmenities();
    assert ChildFirst[..4][..3] == ChildFirst[..3];
    assert db.State() == DeleteTables(t, ChildFirst[..4]);
    db.DeleteAllLocations();
    assert ChildFirst[..5][..4] == ChildFirst[..4];
    assert ChildFirst[..5] == ChildFirst;
    assert db.State() == DeleteTables(t, ChildFirst);
    db.ResetSequences();
    ClearAllEmpties(t);
  }
}
