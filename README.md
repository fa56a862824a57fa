# bibsnbub, modelled in Dafny

bibsnbub is a directory of baby-care facilities (lactation rooms, diaper
changing stations, family restrooms) in Singapore. Users find facilities near
an address, read what each offers, and add new ones through a wizard. This
project models the parts of the app that follow fixed rules, and proves what
those rules guarantee:

- **The database** (`schema.dfy`, `tables.dfy`, `store.dfy`). There are five tables: locations,
  facility types, amenities, facilities and facility-amenity links. The column
  constraints, defaults, foreign keys with `ON DELETE CASCADE`, the composite
  key of the link table and the serial id sequences are modelled. What a failed statement does to a sequence is not (see "Left out"). `Tables` states each
  statement as a function on a `Snapshot` value. `Store.Database` is the
  class holding the tables, and its methods are proved against those functions.
- **The submission endpoint** (`submit_facility.dfy`). `POST /api/submitFacility` validates the
  request and resolves the location by address, reusing it or inserting it. It then inserts
  one facility and links the chosen amenities with the quantity rule, on both the hosted (PostgREST)
  path and the local (ORM) path. Nothing is rolled back when a later step fails.
- **The maintenance scripts** (`clear.dfy`, `seed_prod.dfy`, `seed.dfy`):
  - the child-first clear and the sequence reset;
  - the production seed's upsert-by-name inside one transaction;
  - the development seed's name-to-id joins, which drop rows that do not resolve.
- **The translation tooling** (`json_tree.dfy`, `i18n_check.dfy`, `i18n_fill.dfy`, `i18n_merge.dfy`). Locale
  files are trees of `Str` leaves and `Obj` nodes. The modelled operations are:
  - the dotted-key flattening and the missing/extra report;
  - the placeholder fill that copies English text into a locale;
  - the deep merge that falls back to English and records the missing paths.
- **Configuration** (`config.dfy`). This covers environment validation, the runtime's choice of
  Postgres or PGlite, and whether it migrates. It also covers the migration tool's own
  choice, and proves that the two agree.
- **Images** (`images.dfy`):
  - the `-compressed.jpg` name rewrite;
  - the per-facility image list kept in local storage;
  - the hosted bucket's `<facility id>/` prefix.
- **Small UI rules**. These are:
  - the address mapping from Singapore's OneMap service (`one_map.dfy`);
  - the search box (`search_bar.dfy`);
  - the wizard's Back/Next buttons (`navigation_buttons.dfy`);
  - the category toggle (`category_scroller.dfy`);
  - the facility card (`facility_card.dfy`);
  - the amenity badge (`amenity_item.dfy`);
  - the phone navigation bar with its locale menu (`mobile_navigation.dfy`).

Modelling conventions:

- `Option`/`Result` (`wrappers.dfy`) stand for JavaScript's absent values and for error paths.
- `JsValues` models the few JavaScript conversions the code depends on: `trim`, `String(n)`, `Number(s)` and truthiness.
- A database statement that fails for reasons outside the model (a lost connection, a PostgREST error) is named in a `down` set of statements.
- Time, the network and storage become parameters.

## Model

| member | source | states |
|---|---|---|
| Tables.EmptyIsValid | src/models/Schema.ts:4-53 | A freshly migrated database (empty tables, sequences at 1) satisfies every column constraint and reference, and its sequences are ahead of every id |
| Tables.CheckAll | src/models/Schema.ts:4-53 | A multi-row INSERT is accepted iff every row passes its column checks, and then yields one checked row per input row, in order |
| Tables.Ids | src/models/Schema.ts:5 | A serial sequence hands `n` rows the consecutive, strictly increasing ids `next .. next+n-1` |
| Tables.AppendEntries | src/models/Schema.ts:5 | Adding rows under increasing ids stores each row under its own id, adds no other key, and keeps every old row under an id that was free |
| Tables.AppendKeys | src/models/Schema.ts:5 | After adding rows, the keys are exactly the old ones and the handed-out ids |
| Tables.AppendValues | src/models/Schema.ts:5 | With increasing ids, every added row is stored under its own id |
| Tables.AppendKeeps | src/models/Schema.ts:5 | Rows under ids that were not handed out stay as they were |
| Tables.ExtendsKeeps | src/models/Schema.ts:4-53 | Inserting rows that satisfy a property into a table whose rows satisfy it leaves every row satisfying it |
| Tables.InsertLocations | src/models/Schema.ts:4-13 | INSERT INTO locations succeeds iff every row fits and the handed-out ids are free; it then adds exactly those rows, advances the sequence by their number and changes no other table |
| Tables.InsertFacilityTypes | src/models/Schema.ts:16-22 | The same for facility_types |
| Tables.InsertAmenities | src/models/Schema.ts:25-30 | The same for amenities |
| Tables.InsertFacilities | src/models/Schema.ts:33-46 | INSERT INTO facilities also demands that every row's location and facility type exist (non-null foreign keys) |
| Tables.InsertLinks | src/models/Schema.ts:49-53 | A link INSERT succeeds iff every row fits, names an existing facility and amenity, and the batch adds no (facility, amenity) pair twice or already present; only the link table changes |
| Tables.LinkMapEntries | src/models/Schema.ts:49-53 | A batch with distinct keys, read as a map, holds exactly the batch's keys with each row's quantity |
| Tables.InsertLinksEffect | src/models/Schema.ts:49-53 | A successful link insert keeps every old link with its quantity and adds exactly the batch's pairs, each with its own quantity |
| Tables.InsertLinksValue | src/models/Schema.ts:49-53 | A successful link insert stores the old links plus the batch's map, and the batch had distinct, new keys |
| Tables.DisjointUnion | src/models/Schema.ts:53 | Joining two maps with no key in common keeps each side's entries |
| Tables.InsertLinksStores | src/models/Schema.ts:49-53 | Each row of a successful link insert is stored under its key with its quantity |
| Tables.InsertLinksOrigin | src/models/Schema.ts:49-53 | Every key after a link insert is an old link, unchanged, or comes from one of the batch's rows |
| Tables.InsertLocationsKeepsValid | src/models/Schema.ts:4-13 | A successful location insert keeps the schema's invariants |
| Tables.InsertFacilityTypesKeepsValid | src/models/Schema.ts:16-22 | A successful facility-type insert keeps the schema's invariants |
| Tables.InsertAmenitiesKeepsValid | src/models/Schema.ts:25-30 | A successful amenity insert keeps the schema's invariants |
| Tables.InsertFacilitiesKeepsValid | src/models/Schema.ts:33-46 | A successful facility insert keeps the schema's invariants, references included |
| Tables.InsertLinksKeepsValid | src/models/Schema.ts:49-53 | A successful link insert keeps the schema's invariants, references included |
| Tables.SequencesAheadIdsFree | src/models/Schema.ts:5 | While each sequence is ahead of its table, every id it hands out is free |
| Tables.ExtendsAhead | src/models/Schema.ts:5 | An insert moves the sequence past every id it handed out |
| Tables.InsertLocationsKeepsSequencesAhead | src/models/Schema.ts:5 | Location inserts keep the sequences ahead |
| Tables.InsertFacilityTypesKeepsSequencesAhead | src/models/Schema.ts:17 | Facility-type inserts keep the sequences ahead |
| Tables.InsertAmenitiesKeepsSequencesAhead | src/models/Schema.ts:26 | Amenity inserts keep the sequences ahead |
| Tables.InsertFacilitiesKeepsSequencesAhead | src/models/Schema.ts:34 | Facility inserts keep the sequences ahead |
| Tables.ExtendsOne | src/models/Schema.ts:5 | A one-row insert under a fresh id is a map update at that id |
| Tables.InsertOneLocation | src/models/Schema.ts:4-13 | A one-row location insert stores the checked row under the sequence's next value and bumps the sequence by one |
| Tables.InsertOneFacilityType | src/models/Schema.ts:16-22 | The same for one facility type |
| Tables.InsertOneAmenity | src/models/Schema.ts:25-30 | The same for one amenity |
| Tables.InsertOneFacility | src/models/Schema.ts:33-46 | The same for one facility, whose references resolve |
| Tables.Cascade | src/models/Schema.ts:35-36 | Definition of ON DELETE CASCADE, on which the delete lemmas build: it keeps exactly the facilities whose location and type exist and the links whose facility and amenity exist, unchanged; nothing else changes |
| Tables.CascadeValid | src/models/Schema.ts:35-36 | After a cascade every reference resolves, so the invariants hold again |
| Tables.CascadeIdle | src/models/Schema.ts:35-36 | A cascade on a database with no dangling reference removes nothing |
| Tables.DeleteLocationsEffect | src/models/Schema.ts:35 | Deleting locations removes exactly the facilities at them and those facilities' links; the other tables stay |
| Tables.DeleteFacilityTypesEffect | src/models/Schema.ts:36 | Deleting facility types removes exactly their facilities and those facilities' links |
| Tables.DeleteAmenitiesEffect | src/models/Schema.ts:51 | Deleting amenities removes exactly the links naming them |
| Tables.DeleteFacilitiesEffect | src/models/Schema.ts:50 | Deleting facilities removes exactly their links |
| Tables.DeleteLinksEffect | src/models/Schema.ts:49-53 | Deleting links removes those keys and nothing else |
| Tables.UpdateFacilityType | src/lib/seed-prod.ts:24-31 | UPDATE facility_types by id sets slug, description and order of that row only, keeping its id and name; no matching row changes nothing; invariants are kept |
| Tables.UpdateAmenity | src/lib/seed-prod.ts:41-50 | UPDATE amenities by id sets description and is_multiple_applicable of that row only, keeping id and name; invariants are kept |
| Tables.ResetSequences | src/lib/clear.ts:11-16 | Restarting the sequences keeps every row and the invariants, and on empty tables gives the freshly migrated database with its sequences ahead |
| Tables.HasLeast | src/lib/seed-prod.ts:22 | Every non-empty set of ids has a smallest element |
| Tables.Least | src/lib/seed-prod.ts:22 | The least element belongs to the set and is below every other |
| Tables.LeastUnique | src/lib/seed-prod.ts:22 | An element below all others is the least one |
| Tables.First | src/pages/api/submitFacility.ts:111-114 | `LIMIT 1` without ORDER BY picks nothing iff no row matches, and otherwise a matching row; the model takes the lowest id, which is one of the rows Postgres may return |
| Tables.LocationsAt | src/pages/api/submitFacility.ts:111-114 | Definition: the match set of `WHERE address = ?`, the ids of exactly the locations with that address |
| Tables.FacilityTypesNamed | src/lib/seed-prod.ts:22 | Definition: the match set of the lookup by name, the ids of exactly the facility types with that name |
| Tables.AmenitiesNamed | src/lib/seed-prod.ts:39 | Definition: the match set of the lookup by name, the ids of exactly the amenities with that name |
| Schema.CheckLocation | src/models/Schema.ts:4-13 | A stored location fits its column bounds and had road, address, latitude and longitude. It keeps the submitted texts. Each coordinate is stored rounded to 8 decimals, within half a unit of the last place of the submitted value, and the range test applies to the rounded value |
| Schema.Round8 | src/models/Schema.ts:11-12 | numeric(p, 8) first rounds a value to 8 decimal places: the result has at most 8 decimals and lies within half a unit of the last place |
| Schema.Round8Keeps | src/models/Schema.ts:11-12 | A value that already has at most 8 decimals is stored unchanged |
| Schema.LatitudeRounded | src/models/Schema.ts:11 | A stated example: the latitude 1.123456789 is stored as 1.12345679 |
| Schema.LatitudeRoundsOutOfRange | src/models/Schema.ts:11 | A stated example: 99.999999995 lies inside the exact range, but it rounds to 100 and the insert is refused as out of range |
| Schema.LocationOptionalColumns | src/models/Schema.ts:6-12 | A location without building, block and postal code is stored, with those columns NULL and the coordinates rounded |
| Schema.CheckFacilityType | src/models/Schema.ts:16-22 | A stored facility type had a name, keeps slug and description, and its order defaults to 0 |
| Schema.CheckAmenity | src/models/Schema.ts:25-30 | A stored amenity had a name and its is_multiple_applicable defaults to true |
| Schema.CheckFacility | src/models/Schema.ts:33-46 | A stored facility had location, type and creator, keeps its texts, and its flags default to true, false, false |
| Schema.CheckLink | src/models/Schema.ts:49-53 | A stored link had facility and amenity ids and its quantity defaults to 1 |
| Store.Database.constructor | src/models/Schema.ts:4-53 | A new database is empty, with sequences at 1, and valid |
| Store.Database.Restore | src/lib/seed-prod.ts:19 | A rollback puts back the saved tables and, in the model, the saved sequences too |
| Store.Database.InsertLocations | src/models/Schema.ts:4-13 | The insert returns the new ids and leaves the state the insert function gives, or reports the error and changes nothing |
| Store.Database.InsertFacilityTypes | src/models/Schema.ts:16-22 | The same for facility_types |
| Store.Database.InsertAmenities | src/models/Schema.ts:25-30 | The same for amenities |
| Store.Database.InsertFacilities | src/models/Schema.ts:33-46 | The same for facilities |
| Store.Database.InsertLinks | src/models/Schema.ts:49-53 | The same for facility_amenities |
| Store.Database.DeleteAllLocations | src/lib/clear.ts:25 | Deleting every location, with its cascade |
| Store.Database.DeleteAllFacilityTypes | src/lib/clear.ts:23 | Deleting every facility type, with its cascade |
| Store.Database.DeleteAllAmenities | src/lib/clear.ts:24 | Deleting every amenity, with its cascade |
| Store.Database.DeleteAllFacilities | src/lib/clear.ts:22 | Deleting every facility, with its cascade |
| Store.Database.DeleteAllLinks | src/lib/clear.ts:21 | Deleting every link |
| Store.Database.UpdateFacilityType | src/lib/seed-prod.ts:24-31 | The update leaves the state the update function gives, or reports its error and changes nothing |
| Store.Database.UpdateAmenity | src/lib/seed-prod.ts:41-50 | The update leaves the state the update function gives |
| Store.Database.ResetSequences | src/lib/clear.ts:11-16 | The sequences restart at 1 |
| Store.Database.PickFirst | src/pages/api/submitFacility.ts:111-115 | Picks the model's choice among the matches (the lowest id), or none when nothing matches |
| Store.Database.FirstLocationAt | src/pages/api/submitFacility.ts:111-115 | The local lookup by address returns a location with that address (the model's choice), or none when there is none |
| Store.Database.FirstFacilityTypeNamed | src/lib/seed-prod.ts:22 | The lookup by name returns a facility type with that name (the model's choice), or none when there is none |
| Store.Database.FirstAmenityNamed | src/lib/seed-prod.ts:39 | The lookup by name returns an amenity with that name (the model's choice), or none when there is none |
| SubmitFacility.Failure | src/pages/api/submitFacility.ts:37 | A failure answers 500 with success false and leaves the tables as they are |
| SubmitFacility.Success | src/pages/api/submitFacility.ts:106 | A success answers 200 with success true and the facility's id |
| SubmitFacility.AmenityQuantity | src/pages/api/submitFacility.ts:92 | A link's quantity is never 0 |
| SubmitFacility.AmenityQuantityRule | src/pages/api/submitFacility.ts:92 | A missing, null, zero or non-numeric quantity becomes 1; any other number is taken as given |
| SubmitFacility.QuantityFromText | src/pages/api/submitFacility.ts:158 | A quantity sent as the decimal text of `n` is `n`, except that "0" becomes 1 |
| SubmitFacility.QuantityFromNonNumber | src/pages/api/submitFacility.ts:92 | A quantity sent as any text that `Number` reads as NaN becomes 1 |
| SubmitFacility.QuantityFromWord | src/pages/api/submitFacility.ts:92 | A stated example: the text "two" becomes 1 |
| SubmitFacility.PgTrimStart | src/pages/api/submitFacility.ts:91 | Postgres's integer input drops exactly the leading ASCII blanks, leaving a suffix that does not start with one |
| SubmitFacility.PgTrimEnd | src/pages/api/submitFacility.ts:91 | Postgres's integer input drops exactly the trailing ASCII blanks, leaving a prefix that does not end with one |
| SubmitFacility.PgIntegerTextRoundTrip | src/pages/api/submitFacility.ts:91 | Postgres reads back the decimal text of every integer |
| SubmitFacility.PgIntegerRefusesNoBreakSpace | src/pages/api/submitFacility.ts:91 | Text led by a no-break space is refused by an integer column although JavaScript's `Number` reads it as a number |
| SubmitFacility.NotPgInteger | src/pages/api/submitFacility.ts:91 | Unpadded text whose first character is neither a digit nor a sign is refused by an integer column |
| SubmitFacility.NoBreakSpaceNotPgInteger | src/pages/api/submitFacility.ts:91 | An integer column refuses the text "\u00A01" |
| SubmitFacility.NoBreakSpaceNumber | src/pages/api/submitFacility.ts:152 | JavaScript's `Number` reads "\u00A01" as 1 |
| SubmitFacility.TrimAfterOneBlank | src/pages/api/submitFacility.ts:152 | One leading white-space character before a single non-blank character is removed by `trim` |
| SubmitFacility.NumberOfOneDigit | src/pages/api/submitFacility.ts:152 | Text that trims to a single digit is read by `Number` as that digit's value |
| SubmitFacility.PgInteger | src/pages/api/submitFacility.ts:68 | A JSON value sent into an integer column: absent or null is NULL, a number is kept, text is accepted iff it reads as an integer |
| SubmitFacility.IntegerParam | src/pages/api/submitFacility.ts:136 | The ORM refuses NaN for an integer column and passes any finite number |
| SubmitFacility.LocalAmenityIds | src/pages/api/submitFacility.ts:152 | The local path keeps at most as many ids as were selected |
| SubmitFacility.LocalAmenityIdsExact | src/pages/api/submitFacility.ts:152 | The local ids are exactly the selected texts that `Number` reads as finite, no more and no fewer |
| SubmitFacility.RemoteLocationValues | src/pages/api/submitFacility.ts:44-52 | The hosted path sends every address field exactly as submitted |
| SubmitFacility.RemoteFacilityValues | src/pages/api/submitFacility.ts:66-78 | The hosted facility row is accepted iff the type id reads as an integer, and carries the location, creator, flags and texts as submitted |
| SubmitFacility.RemoteLinkValues | src/pages/api/submitFacility.ts:89-93 | The hosted path sends one link per selected id, in order, with the quantity rule; it is accepted iff every id is integer text |
| SubmitFacility.RemoteLookup | src/pages/api/submitFacility.ts:29-40 | `.single()` finds a location only when exactly one row has the address; none or several count as not found |
| SubmitFacility.LocalLocationValues | src/pages/api/submitFacility.ts:117-125 | The local path sends empty building, block and postal code as NULL and the rest as submitted |
| SubmitFacility.Bang | src/pages/api/submitFacility.ts:139-142 | `!!flag` is true exactly when the flag was given as true |
| SubmitFacility.LocalFacilityValues | src/pages/api/submitFacility.ts:134-144 | The local facility row is accepted iff the type id is a finite number; every flag is given (absent is false) and empty texts are NULL |
| SubmitFacility.LocalLinkValues | src/pages/api/submitFacility.ts:154-160 | One link per kept id, in order, with the quantity looked up under the id's decimal text |
| SubmitFacility.RemoteAmenityIds | src/pages/api/submitFacility.ts:91 | One id per selected text, as Postgres reads it |
| SubmitFacility.InsertedLinks | src/pages/api/submitFacility.ts:154-160 | Inserting rows keyed (facility, ids[i]) adds exactly those links |
| SubmitFacility.InsertedLinkQuantity | src/models/Schema.ts:52 | Each inserted link stores its row's quantity, or 1 when the row gives none |
| SubmitFacility.LocalAmenitiesEffect | src/pages/api/submitFacility.ts:151-163 | The local amenity step changes only the link table; with no finite id it inserts nothing and succeeds |
| SubmitFacility.InsertedBatch | src/pages/api/submitFacility.ts:154-160 | A batch of rows (facility, ids[i], qs[i]) adds exactly those pairs, each with its quantity |
| SubmitFacility.LocalQuantities | src/pages/api/submitFacility.ts:158 | One quantity per id, by the quantity rule on the id's text |
| SubmitFacility.LocalLinksInserted | src/pages/api/submitFacility.ts:154-160 | The local batch adds exactly the pairs (facility, id), each with its quantity |
| SubmitFacility.LocalAmenitiesLinks | src/pages/api/submitFacility.ts:152-161 | After a successful local amenity step the added links are exactly the finite selected ids, each with the quantity rule's value |
| SubmitFacility.LocalAmenitiesValid | src/pages/api/submitFacility.ts:152-161 | The local amenity step keeps the schema's invariants |
| SubmitFacility.RemoteAmenitiesEffect | src/pages/api/submitFacility.ts:89-106 | The hosted amenity step changes only links; with an empty selection it inserts nothing and succeeds; a failure answers 500 |
| SubmitFacility.RemoteQuantities | src/pages/api/submitFacility.ts:92 | One quantity per selected text, by the quantity rule |
| SubmitFacility.RemoteLinksInserted | src/pages/api/submitFacility.ts:89-98 | The hosted batch adds exactly the pairs (facility, id read by Postgres), each with its quantity |
| SubmitFacility.RemoteAmenitiesLinks | src/pages/api/submitFacility.ts:89-104 | After a successful hosted amenity step every selected id was integer text and the added links are exactly those ids, with the quantity rule |
| SubmitFacility.RemoteAmenitiesValid | src/pages/api/submitFacility.ts:89-104 | The hosted amenity step keeps the schema's invariants |
| SubmitFacility.LocalFacilityEffect | src/pages/api/submitFacility.ts:133-163 | The local facility step only touches facilities and links; on success it adds one facility and its links; it keeps the invariants |
| SubmitFacility.RemoteFacilityEffect | src/pages/api/submitFacility.ts:64-106 | The same for the hosted facility step |
| SubmitFacility.LocalAmenitiesGrow | src/pages/api/submitFacility.ts:151-161 | The local amenity step never removes or changes a row |
| SubmitFacility.RemoteAmenitiesGrow | src/pages/api/submitFacility.ts:95-104 | The hosted amenity step never removes or changes a row |
| SubmitFacility.InsertOneFacilityGrows | src/pages/api/submitFacility.ts:134 | A facility insert only adds |
| SubmitFacility.GrowsTransitive | src/pages/api/submitFacility.ts:40-106 | Only adding, twice, is only adding |
| SubmitFacility.LocalFacilityGrows | src/pages/api/submitFacility.ts:133-163 | The local facility and amenity steps never remove or change a row |
| SubmitFacility.RemoteFacilityGrows | src/pages/api/submitFacility.ts:64-106 | The hosted facility and amenity steps never remove or change a row |
| SubmitFacility.InsertOneLocationGrows | src/pages/api/submitFacility.ts:117 | A location insert only adds |
| SubmitFacility.SubmitLocalGrows | src/pages/api/submitFacility.ts:129-131 | Whichever local step fails, nothing inserted before it is undone |
| SubmitFacility.SubmitRemoteGrows | src/pages/api/submitFacility.ts:56-59 | Whichever hosted step fails, nothing inserted before it is undone |
| SubmitFacility.StoredFlags | src/pages/api/submitFacility.ts:137-143 | The local path stores false for every flag not given as true and NULL for empty texts; the hosted path leaves absent flags to the column defaults |
| SubmitFacility.SubmitLocalSucceeds | src/pages/api/submitFacility.ts:111-127 | A successful local submission reuses the location the lookup returned and adds no location, or stores exactly one new location under the next id; then it adds one facility there with its links |
| SubmitFacility.SubmitRemoteSucceeds | src/pages/api/submitFacility.ts:29-62 | A successful hosted submission reuses a location only when exactly one has the address, else stores one new location; then one facility there with its links |
| SubmitFacility.SubmitLocalKeepsValid | src/pages/api/submitFacility.ts:109-163 | The local path never breaks the invariants, whether it succeeds or stops half way |
| SubmitFacility.SubmitRemoteKeepsValid | src/pages/api/submitFacility.ts:27-107 | The hosted path never breaks the invariants, whether it succeeds or stops half way |
| SubmitFacility.AddedIsOne | src/pages/api/submitFacility.ts:134-144 | A facility added on top of an unchanged facility table, by that user, is the one new facility |
| SubmitFacility.SubmitLocalAddsOneNew | src/pages/api/submitFacility.ts:116-149 | When the local path stores a new location first, it still adds exactly one facility |
| SubmitFacility.SubmitLocalAddsOne | src/pages/api/submitFacility.ts:111-163 | A successful local submission adds exactly one facility, created by the user |
| SubmitFacility.SubmitRemoteAddsOneNew | src/pages/api/submitFacility.ts:41-80 | When the hosted path stores a new location first, it still adds exactly one facility |
| SubmitFacility.SubmitRemoteAddsOne | src/pages/api/submitFacility.ts:29-106 | A successful hosted submission adds exactly one facility, created by the user |
| SubmitFacility.SubmitAddsOneFacility | src/pages/api/submitFacility.ts:7-163 | A successful request was a POST with form data and a user id, and added exactly one facility, created by that user |
| SubmitFacility.SubmitKeepsValid | src/pages/api/submitFacility.ts:7-168 | Every request leaves a valid database valid |
| SubmitFacility.SubmitGrows | src/pages/api/submitFacility.ts:7-168 | No request removes or changes a row |
| SubmitFacility.Handler | src/pages/api/submitFacility.ts:7-168 | The handler does what `Submit` says: 405 and no change for a non-POST, 400 and no change without form data or user id, 500 and no change when the location lookup fails |
| SubmitFacility.HandleRemote | src/pages/api/submitFacility.ts:27-107 | The hosted path against the database does what `SubmitRemote` says |
| SubmitFacility.RemoteInsertFacility | src/pages/api/submitFacility.ts:64-106 | The hosted facility and amenity inserts do what `RemoteFacility` says |
| SubmitFacility.HandleLocal | src/pages/api/submitFacility.ts:109-163 | The local path against the database does what `SubmitLocal` says |
| SubmitFacility.LocalInsertFacility | src/pages/api/submitFacility.ts:133-163 | The local facility and amenity inserts do what `LocalFacility` says |
| Clear.DeleteLeafTable | src/lib/clear.ts:20-25 | Deleting a table whose child tables are empty cascades to nothing and keeps the invariants |
| Clear.EmptiedValid | src/lib/clear.ts:20-25 | Emptying a table whose child tables are empty leaves every reference resolving |
| Clear.NoFacilitiesNoLinks | src/lib/clear.ts:21-22 | With no facilities, a valid database has no links |
| Clear.ChildFirstNoCascade | src/lib/clear.ts:20-25 | In the child-first order each delete empties exactly its own table, every intermediate state is valid, and the tables already deleted stay empty |
| Clear.LeafStep | src/lib/clear.ts:20-25 | Once the tables before it in the order are empty, a delete empties its own table only, and all of them stay empty |
| Clear.ChildBefore | src/lib/clear.ts:20-25 | Every child table comes earlier in the delete order than its parent |
| Clear.EmptiedKeepsEmpty | src/lib/clear.ts:21-25 | Emptying one table keeps the others that were empty, empty |
| Clear.ClearAllEmpties | src/lib/clear.ts:18-27 | From any state, the script leaves five empty tables and every sequence at 1 |
| Clear.Clear | src/lib/clear.ts:18-27 | The script against the database deletes child-first, then resets the sequences, and leaves the empty database |
| SeedProd.FacilityTypeMatch | src/lib/seed-prod.ts:22 | The lookup finds a row with the seed's name, or there is none (or the seed has no name) |
| SeedProd.UpsertFacilityTypeEffect | src/lib/seed-prod.ts:21-34 | On a match only that row changes: name kept, slug and description fall back to the old value, order to the old value or 0; with no match one row is inserted under the next id |
| SeedProd.UpsertFacilityTypeKeepsRows | src/lib/seed-prod.ts:21-34 | An upsert keeps every row under its id and name, and the seed's name is then stored |
| SeedProd.UpsertFacilityTypeOfKnown | src/lib/seed-prod.ts:23-31 | An upsert of a stored name adds no row |
| SeedProd.KeepsFacilityTypesNames | src/lib/seed-prod.ts:21-34 | A name stored before stays stored |
| SeedProd.UpsertFacilityTypesCover | src/lib/seed-prod.ts:21-35 | After the loop every seed name is stored and every earlier row is still there under its id and name |
| SeedProd.UpsertKnownFacilityTypes | src/lib/seed-prod.ts:21-35 | When every seed name is already stored, the loop adds no row |
| SeedProd.UpsertFacilityTypesFailed | src/lib/seed-prod.ts:19-35 | Once a statement fails, the loop fails with that error |
| SeedProd.AmenityMatch | src/lib/seed-prod.ts:39 | The lookup finds a row with the seed's name, or there is none |
| SeedProd.UpsertAmenityEffect | src/lib/seed-prod.ts:38-53 | On a match only that row changes: description falls back to the old value, is_multiple_applicable to the old value or true; with no match one row is inserted |
| SeedProd.UpsertAmenityKeepsRows | src/lib/seed-prod.ts:38-53 | An upsert keeps every row under its id and name, and the seed's name is then stored |
| SeedProd.UpsertAmenityOfKnown | src/lib/seed-prod.ts:40-50 | An upsert of a stored name adds no row |
| SeedProd.KeepsAmenitiesNames | src/lib/seed-prod.ts:38-54 | A name stored before stays stored |
| SeedProd.UpsertAmenitiesCover | src/lib/seed-prod.ts:38-54 | After the loop every seed name is stored and every earlier row is still there under its id and name |
| SeedProd.UpsertKnownAmenities | src/lib/seed-prod.ts:38-54 | When every seed name is already stored, the loop adds no row |
| SeedProd.UpsertAmenitiesFailed | src/lib/seed-prod.ts:19-54 | Once a statement fails, the loop fails with that error |
| SeedProd.SeedAllIdempotent | src/lib/seed-prod.ts:20-54 | Running the seed again on what it left adds no facility type and no amenity |
| SeedProd.Run | src/lib/seed-prod.ts:19-55 | The transaction leaves what `SeedAll` gives, or on the first error reports it and restores the starting state: all or nothing |
| Seed.FromEntriesKeys | src/lib/seed.ts:37-39 | `Object.fromEntries` holds exactly the keys entered |
| Seed.FromEntriesLaterWins | src/lib/seed.ts:45-47 | A key entered more than once maps to the id of its last entry |
| Seed.FromEntriesValue | src/lib/seed.ts:84-86 | Every id in the map is the id of an entry with that key |
| Seed.Addresses | src/lib/seed.ts:38 | The addresses of the inserted locations, in order |
| Seed.FacilityTypeNames | src/lib/seed.ts:46 | The names of the inserted facility types, in order |
| Seed.AmenityNames | src/lib/seed.ts:52 | The names of the inserted amenities, in order |
| Seed.DescriptionKeys | src/lib/seed.ts:85 | The description keys of the inserted facilities, a null description read as "null" |
| Seed.FacilityRow | src/lib/seed.ts:69-77 | A kept facility is created by "system" at the resolved location and type, keeps floor and description, and its absent flags are false |
| Seed.ContainsAppend | src/lib/seed.ts:89-100 | An element of either part is an element of the concatenation |
| Seed.FacilitiesToInsertSound | src/lib/seed.ts:56-80 | Every facility row to insert comes from a seed facility whose address and type name both resolve |
| Seed.FacilitiesToInsertComplete | src/lib/seed.ts:56-80 | Every seed facility that resolves gives its row: only unresolved ones are dropped |
| Seed.LinkRowQuantity | src/lib/seed.ts:91-95 | A seed link stores the entry's quantity, or the column default 1 when the entry has none |
| Seed.LinksOfSound | src/lib/seed.ts:90-99 | Every link row of a facility comes from one of its amenities that resolves |
| Seed.LinksOfComplete | src/lib/seed.ts:90-99 | Every amenity of a facility that resolves gives its link row |
| Seed.LinkRowsSound | src/lib/seed.ts:89-100 | Every link row comes from a facility description and amenity name that both resolve |
| Seed.LinkRowsComplete | src/lib/seed.ts:89-100 | Every pair whose description and name both resolve gives its link row |
| Seed.FirstThree | src/lib/seed.ts:35-53 | When the first statements succeed, the seed files fit their tables |
| Seed.Run | src/lib/seed.ts:32-106 | The script against the database leaves what `SeedRun` says |
| Seed.InsertFirstThree | src/lib/seed.ts:35-53 | The first inserts and the delete do what `FirstThree` says and return the ids each insert handed out |
| Seed.InsertFacilitiesAndLinks | src/lib/seed.ts:82-105 | The facility insert and the link insert (skipped when no link resolves) do what `SeedFacilities` says |
| Seed.InsertLinksStep | src/lib/seed.ts:101-105 | The link insert runs only when some row resolved, and then does what the insert function says |
| Seed.ClearedEffect | src/lib/seed.ts:43 | Deleting every facility type cascades to every facility and every link |
| Seed.FirstThreeEffect | src/lib/seed.ts:35-53 | After the first statements succeed, all three seed files were non-empty and fit, and the tables hold what they inserted |
| Seed.SeedFacilitiesEffect | src/lib/seed.ts:82-105 | From a database without facilities, the last part inserts exactly the resolved facility rows under fresh ids and exactly the resolved link rows, and touches nothing else |
| Seed.SeedFacilitiesRows | src/lib/seed.ts:82-86 | A successful last part inserted the resolved facility rows under fresh ids and changed only facilities, links and the facility sequence |
| Seed.SeedFacilitiesLinks | src/lib/seed.ts:88-105 | Into an empty link table the last part puts exactly the keys of the resolved link rows |
| Seed.LinksInsertedInto | src/lib/seed.ts:102 | Into an empty link table, a link insert stores exactly its rows' keys |
| Seed.SeedRunEffect | src/lib/seed.ts:32-106 | A successful run appends the seed's locations and amenities, replaces the facility types by the seed's, leaves exactly the facilities and links built from the seed, and advances each sequence by the rows it handed out |
| Seed.SeedRunWithoutFacilities | src/lib/seed.ts:82 | When no seed facility resolves the facility insert gets an empty list and fails, and the rows already written stay |
| Seed.SeedRunKeepsLocations | src/lib/seed.ts:36 | There is no transaction: once the locations are in, they stay, whatever fails later |
| Seed.FirstThreeKeepsLocations | src/lib/seed.ts:36-53 | Whichever of the first statements fails, the location table is the one the location insert left |
| Seed.SeedFacilitiesKeepsParents | src/lib/seed.ts:82-105 | The facility and link inserts leave locations, facility types and amenities as they were |
| Seed.SeedRunKeepsValid | src/lib/seed.ts:32-106 | Whatever its outcome, the script keeps the schema's invariants |
| Seed.FirstThreeKeepsValid | src/lib/seed.ts:35-53 | The first statements keep the schema's invariants |
| Seed.SeedFacilitiesKeepsValid | src/lib/seed.ts:82-105 | The last statements keep the schema's invariants |
| Seed.SeedRunNameMaps | src/lib/seed.ts:37-47 | After a successful run the address map points at a stored location with that address and the name map at a stored facility type with that name |
| JsValues.TrimStart | src/components/SearchBar.tsx:79 | The result is a suffix, only white space was cut, and it starts with no white space |
| JsValues.TrimEnd | src/components/SearchBar.tsx:79 | The result is a prefix, only white space was cut, and it ends with no white space |
| JsValues.TrimEmptyIffBlank | src/components/SearchBar.tsx:79 | `trim()` gives "" exactly for white-space-only text |
| JsValues.NatToString | src/pages/api/submitFacility.ts:158 | Decimal text is non-empty digits |
| JsValues.NatToStringValue | src/pages/api/submitFacility.ts:158 | The digits of `n` read back as `n` |
| JsValues.IntToStringRoundTrip | src/pages/api/submitFacility.ts:158 | Reading `String(n)` as an integer gives back `n` |
| JsValues.NegativeRoundTrip | src/pages/api/submitFacility.ts:158 | A minus sign followed by the digits of `m` reads back as `-m` |
| JsValues.NatRoundTrip | src/pages/api/submitFacility.ts:158 | The digits of `n` read back as `n` |
| JsValues.StringToNumber | src/pages/api/submitFacility.ts:152 | `Number` of blank text is 0 |
| JsValues.IntToStringTrimmed | src/pages/api/submitFacility.ts:158 | `String(n)` has no surrounding white space |
| JsValues.NumberOfStringRoundTrip | src/pages/api/submitFacility.ts:152-158 | `Number(String(n))` is `n` |
| JsValues.OrNull | src/pages/api/submitFacility.ts:118-122 | `v \|\| null` is null exactly for a missing or empty text and otherwise the text |
| JsonTree.LookupCons | scripts/i18n-check.ts:8-11 | Looking up `k` then a path is looking the path up in child `k` |
| JsonTree.LookupSnoc | scripts/i18n-fill.ts:22-27 | Looking up a path plus `k` is child `k` of the object at the path |
| JsonTree.FlatKeyFromDotted | scripts/i18n-check.ts:9 | With non-empty keys, flattening under a dotted prefix gives the dotted full path |
| JsonTree.DottedSnoc | scripts/i18n-fill.ts:24 | Extending a path adds `.k` to its dotted form |
| JsonTree.DottedNonEmpty | scripts/i18n-check.ts:9 | A path starting with a non-empty key has non-empty dotted form |
| JsonTree.FlatKeyIsDotted | scripts/i18n-check.ts:9 | With non-empty keys, a flat key is the path joined by dots, with no leading dot at the top |
| JsonTree.EmptyKeyDiffers | scripts/i18n-check.ts:9 | With an empty top key the two spellings differ: flatten writes "b", the fill writes ".b" |
| JsonTree.LocaleName | scripts/i18n-check.ts:40 | `path.basename(file, '.json')` of a directory entry: the name with a trailing ".json" removed, and any other name unchanged |
| JsonTree.LocaleNameExamples | scripts/i18n-fill.ts:55 | Stated examples: "fr.json" gives "fr", and a file named just ".json" gives "" |
| JsonTree.JsonFiles | scripts/i18n-check.ts:26 | Exactly the files ending in ".json" are kept |
| JsonTree.FindEnglish | scripts/i18n-check.ts:27-30 | The search returns the first index of `en.json`, or the listing's length exactly when there is none |
| JsonTree.NoDupAppend | scripts/i18n-fill.ts:31 | Joining two duplicate-free lists with no common element is duplicate-free |
| JsonTree.NoDupCard | scripts/i18n-fill.ts:31 | A duplicate-free list has as many elements as its set |
| JsonTree.DottedList | scripts/i18n-fill.ts:31 | Dotting a duplicate-free list of paths lists each path of the set once |
| I18nCheck.FlatKeysSound | scripts/i18n-check.ts:6-17 | Every flat key is the dotted path of a leaf |
| I18nCheck.FlatKeysComplete | scripts/i18n-check.ts:6-17 | Every leaf's dotted path is a flat key |
| I18nCheck.FlatKeysExact | scripts/i18n-check.ts:6-17 | The flat keys are exactly the dotted leaf paths |
| I18nCheck.UpToDateIffSameKeys | scripts/i18n-check.ts:44-50 | A locale is reported up to date iff its flat keys equal English's |
| I18nCheck.OutdatedLists | scripts/i18n-check.ts:44-45 | `missing` is exactly English's keys the locale lacks, `extra` exactly the locale's keys English lacks, and one of them is non-empty |
| I18nCheck.CheckLocales | scripts/i18n-check.ts:24-70 | Exit code 1 and no report iff there is no en.json; otherwise every other locale is reported against English and the exit code is 2 iff some locale lacks a key |
| I18nCheck.EnglishWitness | scripts/i18n-check.ts:27-45 | The first `en.json` of the listing is the English file the locales were checked against |
| I18nCheck.ReportAsWritten | scripts/i18n-check.ts:44-50 | As written, a locale is up to date iff its flat keys equal English's apart from names inherited from `Object.prototype`, which are never listed |
| I18nCheck.PrototypeKeyHidden | scripts/i18n-check.ts:44-50 | A French file lacking English's "constructor" leaf is reported missing it by the model and up to date by the script as written |
| I18nCheck.ReportAll | scripts/i18n-check.ts:34-65 | The loop reports every non-English locale in order, and `hadMissing` is set iff some locale lacks a key |
| I18nCheck.ExampleReport | scripts/i18n-check.ts:44-45 | A locale lacking the nested "b.c" is reported with exactly that missing key |
| I18nFill.AddedSound | scripts/i18n-fill.ts:29-32 | Every added path is an English leaf absent from the target |
| I18nFill.AddedComplete | scripts/i18n-fill.ts:29-32 | Every English leaf absent from the target is added |
| I18nFill.AddedExact | scripts/i18n-fill.ts:29-32 | The added paths are exactly the English leaves absent from the target |
| I18nFill.AddedAsWritten | scripts/i18n-fill.ts:29-32 | As written, the added paths are the model's, minus those ending in a name inherited from `Object.prototype` |
| I18nFill.PrototypeLeafNotFilled | scripts/i18n-fill.ts:29-32 | An English "constructor" leaf is added to an empty locale by the model and not by the script as written |
| I18nFill.FillCovers | scripts/i18n-fill.ts:22-34 | After the fill every English leaf path is present |
| I18nFill.FillAddsPlaceholder | scripts/i18n-fill.ts:30 | An added leaf holds `String` of the English value |
| I18nFill.FillKeepsLeaves | scripts/i18n-fill.ts:29 | A target leaf where English has no object is never overwritten |
| I18nFill.FillObjectsWhereEnglishHas | scripts/i18n-fill.ts:25-27 | Where English has an object, the result has an object, replacing whatever the target held |
| I18nFill.FillIdempotent | scripts/i18n-fill.ts:20-39 | Filling a filled file changes nothing |
| I18nFill.FillAddsNothingTwice | scripts/i18n-fill.ts:20-39 | Filling a filled file adds no path |
| I18nFill.ExampleFill | scripts/i18n-fill.ts:22-34 | A locale missing the nested "b.c" gets exactly that placeholder |
| I18nFill.FillStep | scripts/i18n-fill.ts:23-33 | Handling one more key updates exactly that key of the partial fill |
| I18nFill.AddedStep | scripts/i18n-fill.ts:29-31 | Handling one more key adds exactly that key's added paths |
| I18nFill.AppendAdded | scripts/i18n-fill.ts:31 | Appending the new key's paths keeps the list duplicate-free and equal to the paths so far |
| I18nFill.WalkStart | scripts/i18n-fill.ts:22 | Before the loop the walk's invariant holds |
| I18nFill.WalkedAll | scripts/i18n-fill.ts:23-34 | After every key the clone is the fill and the list holds each added path once |
| I18nFill.Walk | scripts/i18n-fill.ts:22-35 | The walk over the clone leaves the fill and pushes each added path exactly once |
| I18nFill.WalkKey | scripts/i18n-fill.ts:24-33 | One iteration of the walk keeps its invariant |
| I18nFill.FillMissing | scripts/i18n-fill.ts:20-39 | `fillMissing` returns the fill of the target (a non-object read as {}) and lists each added dotted path once |
| I18nFill.Writes | scripts/i18n-fill.ts:51-59 | en.json is never rewritten |
| I18nFill.FillLocales | scripts/i18n-fill.ts:41-68 | Without en.json, or when en.json is null and another locale is listed, the exit code is 1 and nothing is written; otherwise the exit code is 0 and each other locale is filled and rewritten only when a path was added |
| I18nFill.FillAll | scripts/i18n-fill.ts:51-67 | The loop writes and reports exactly as `Writes` and `Notes` say |
| I18nMerge.OverrideWins | src/libs/i18n.ts:11-18 | Every path present in the override, unless both sides hold objects there, keeps the override's value |
| I18nMerge.MissingFallsBack | src/libs/i18n.ts:19-22 | A recorded missing path is absent from the override and present in the base, and the result holds the base's value |
| I18nMerge.MissingSound | src/libs/i18n.ts:19-23 | A recorded path's parent is an object on both sides, and its last key is in the base but not the override |
| I18nMerge.MissingComplete | src/libs/i18n.ts:19-23 | Every such base key is recorded |
| I18nMerge.MissingExact | src/libs/i18n.ts:19-23 | The recorded paths are exactly the base keys the override lacks under objects both share |
| I18nMerge.MissingAsWritten | src/libs/i18n.ts:19-23 | As written, the recorded paths are the model's, minus those ending in a name inherited from `Object.prototype` |
| I18nMerge.PrototypeKeyNotRecorded | src/libs/i18n.ts:19-23 | An English "constructor" key missing from the locale is recorded by the model and not by the loader as written |
| I18nMerge.OnlySubtreeRoot | src/libs/i18n.ts:20-22 | When a whole subtree is missing, only its root is recorded |
| I18nMerge.LookupAppend | src/libs/i18n.ts:12-14 | Looking up a path in two parts is looking up the second part at the first |
| I18nMerge.MergeSelf | src/libs/i18n.ts:41-44 | Merging English with itself gives English and records nothing |
| I18nMerge.OverrideStart | src/libs/i18n.ts:10 | The merge starts from a copy of the base |
| I18nMerge.OverrideDone | src/libs/i18n.ts:11-18 | After the override loop the result is the merge |
| I18nMerge.FellBackDone | src/libs/i18n.ts:19-24 | After the fallback loop the list holds each missing path once |
| I18nMerge.OverrideStep | src/libs/i18n.ts:12-17 | One override key keeps the first loop's invariant |
| I18nMerge.MissingBelowStep | src/libs/i18n.ts:14 | One override key adds exactly its nested missing paths |
| I18nMerge.FallBackStep | src/libs/i18n.ts:20-23 | One base key keeps the second loop's invariant, recording it iff the override lacks it |
| I18nMerge.DeepMergeWithFallback | src/libs/i18n.ts:9-26 | The method returns the merge, and its list holds each missing path under the current path exactly once |
| I18nMerge.ResolveLocale | src/libs/i18n.ts:34-36 | The locale is the requested one when it is non-empty and supported, else the default |
| I18nMerge.SupportedLocaleKept | src/libs/i18n.ts:34-36 | A supported locale is kept |
| I18nMerge.MergeMessages | src/libs/i18n.ts:43-44 | The messages are the merge of English and the locale, and the missing keys list each missing path once |
| I18nMerge.RequestConfig | src/libs/i18n.ts:29-55 | The request config uses the resolved locale and the merged messages; it warns iff outside production and some key is missing, listing them; English never warns |
| Config.ParseNodeEnv | src/libs/Env.ts:21 | NODE_ENV is refused iff given and not one of the three values; it is production iff given as "production" |
| Config.ParseEnvExact | src/libs/Env.ts:4-35 | Validation passes iff ARCJET_KEY is absent or starts with "ajkey_", the three Clerk settings are non-empty and NODE_ENV is valid; optional values pass through; NODE_ENV defaults to development |
| Config.SelectBackendTable | src/libs/DB.ts:15-40 | Production without DATABASE_URL fails with its message; a URL selects Postgres at it; otherwise PGlite at PGLITE_DATA_DIR or ".pglite-data"; migrations from "./migrations" run exactly outside production |
| Config.SelectBackendInputs | src/libs/DB.ts:15-40 | The choice depends only on NODE_ENV, DATABASE_URL and PGLITE_DATA_DIR: FORCE_LOCAL_DB plays no part |
| Config.DbModule.constructor | src/libs/DB.ts:12-13 | Before loading there is no client and nothing is migrated |
| Config.DbModule.Load | src/libs/DB.ts:15-40 | Loading sets the selected client and runs the selected migrations, or fails with the message and changes nothing |
| Config.DrizzleConfigTable | drizzle.config.ts:3-23 | The tool uses PGlite iff not production and no DATABASE_URL, at PGLITE_DATA_DIR or ".pglite-data"; otherwise DATABASE_URL or "" |
| Config.RuntimeAndToolAgree | drizzle.config.ts:3-7 | For every valid environment the runtime and the migration tool choose the same backend at the same place and the same migrations folder; when the runtime fails, the tool points at "" |
| Images.TrailLen | src/utils/images.ts:44 | The trailing run of non-dots, and the dot before it when there is one |
| Images.CompressedName | src/utils/images.ts:44 | Every compressed name ends in "-compressed.jpg" |
| Images.StripExtensionExact | src/utils/images.ts:44 | Stripping keeps a prefix; the name is unchanged iff it has no extension; otherwise exactly the last dot and the non-empty text after it go |
| Images.ExampleTwoExtensions | src/utils/images.ts:44 | Only the last extension goes: "a.b.c" becomes "a.b-compressed.jpg" |
| Images.ExampleTrailingDot | src/utils/images.ts:44 | A trailing dot is no extension: "a." becomes "a.-compressed.jpg" |
| Images.IntToStringNoSlash | src/utils/images.ts:68 | A facility id's text contains no slash |
| Images.LocalKeyInjective | src/utils/images.ts:82 | Different facilities have different local storage keys |
| Images.SlashSeparated | src/utils/images.ts:108 | Two slash-free names followed by a slash, one a prefix of the other, are equal |
| Images.PrefixSelectsFacility | src/utils/images.ts:68 | The listing prefix of facility `a` starts a stored path of facility `b` iff `a == b` |
| Images.LocalEntries | src/utils/images.ts:86-89 | One local entry per file, in order, with its data URL and category |
| Images.RemoteUploadsMatch | src/utils/images.ts:60-79 | Failed uploads are skipped; the others give one stored path and one public entry each, in order, with their categories |
| Images.ListedImages | src/utils/images.ts:114-117 | One image per listed name, at the public URL of prefix plus name |
| Images.OtherFacilitiesKept | src/utils/images.ts:91 | Writing one facility's list leaves every other facility's list as it was |
| Images.ImageStorage.constructor | src/utils/images.ts:80 | Storage starts empty |
| Images.ImageStorage.UploadFacilityImages | src/utils/images.ts:48-96 | No files or no window touch nothing and give []; the hosted path uploads, stores the paths and returns the successful uploads; the local path appends the files after the stored list and returns the whole list |
| Images.ImageStorage.UploadRemote | src/utils/images.ts:58-79 | The upload loop returns the successful uploads and adds their paths to the bucket |
| Images.ImageStorage.AppendLocal | src/utils/images.ts:80-93 | The local loop appends one entry per file after the stored ones and writes the list back under the facility's key |
| Images.ImageStorage.GetFacilityImages | src/utils/images.ts:98-123 | No window gives []; the hosted path lists the facility's prefix, [] on error; the local path returns the stored list, [] when none |
| OneMap.NilRoundTrip | src/utils/mapOneMapToAddress.ts:6-7 | Reading a field the service wrote and writing it back gives the same text |
| OneMap.NullRoundTrip | src/utils/mapOneMapToAddress.ts:6-7 | The other way round for every value except the text "NIL" itself |
| OneMap.MapOneMapFields | src/utils/mapOneMapToAddress.ts:4-14 | Building and block are null exactly when "NIL" and copied otherwise; road, address and postal code are copied even when "NIL"; coordinates come from LATITUDE and LONGITUDE and the misspelt field plays no part |
| SearchBar.CaretRule | src/components/SearchBar.tsx:35-52 | The caret moves only out of a full selection of a non-empty value, to the end, and a second move changes nothing |
| SearchBar.OrEmpty | src/components/SearchBar.tsx:97-102 | A missing or empty field reads as "" and any other text as given |
| SearchBar.SuggestionsRule | src/components/SearchBar.tsx:78-115 | A blank query, a failed request or an answer without results gives no suggestion; otherwise one suggestion per result, in order, with every text field set |
| SearchBar.SearchBox.constructor | src/components/SearchBar.tsx:26-29 | The box starts with the initial address, no suggestion, closed and not in current-location mode |
| SearchBar.SearchBox.InitialLocationChanged | src/components/SearchBar.tsx:54-58 | A new initial location replaces the text; nothing else changes |
| SearchBar.SearchBox.FetchSuggestions | src/components/SearchBar.tsx:78-115 | A blank query clears the suggestions without a request; otherwise one request is sent and the answer decides the suggestions; it resolves to [] |
| SearchBar.SearchBox.ValueChanged | src/components/SearchBar.tsx:146-169 | Typing sets the text, fetches suggestions and ends current-location mode; typing in the box also opens the dialog |
| SearchBar.SearchBox.SuggestionClicked | src/components/SearchBar.tsx:117-123 | Choosing a suggestion sets the text to its address, clears mode and suggestions, closes the dialog and reports it once |
| SearchBar.SearchBox.UseCurrentLocation | src/components/SearchBar.tsx:125-130 | The text becomes "your location", the mode is on, the dialog closes and the callback is called once |
| SearchBar.SearchBox.ClearInput | src/components/SearchBar.tsx:132-136 | Clearing empties text and suggestions, ends the mode, and the current-location option is offered again |
| SearchBar.SearchBox.SetOpen | src/components/SearchBar.tsx:141 | Opening or closing changes only whether the dialog is open |
| SearchBar.OffersCurrentLocationIffBlank | src/components/SearchBar.tsx:181 | The current-location option shows exactly when the text is white space only |
| NavigationButtons.Visibility | src/components/NavigationButtons.tsx:14-19 | Back shows iff the step is above 1; Next iff it is below the last |
| NavigationButtons.EndSteps | src/components/NavigationButtons.tsx:14-24 | At the first of several steps only Next shows, at the last only Back, with one step neither |
| NavigationButtons.PressCallsOwnHandler | src/components/NavigationButtons.tsx:11-26 | Each button calls only its own handler; the step is never changed here |
| CategoryScroller.Toggle | src/components/CategoryScroller.tsx:44 | Clicking the selected category deselects it; any other click selects the clicked category |
| CategoryScroller.ToggleTwice | src/components/CategoryScroller.tsx:43-47 | Two clicks on the same category restore the selection only when it was that category; otherwise they leave nothing selected |
| CategoryScroller.ToggleTwiceExample | src/components/CategoryScroller.tsx:23-47 | From the initial "All", two clicks on "Lactation Room" leave nothing selected, not "All" |
| CategoryScroller.Scroller.constructor | src/components/CategoryScroller.tsx:23 | "All" is selected at first |
| CategoryScroller.Scroller.CategoryClicked | src/components/CategoryScroller.tsx:43-47 | A click toggles the selection and reports exactly the new selection |
| CategoryScroller.OneHighlighted | src/components/CategoryScroller.tsx:25-58 | The three categories are distinct, so at most one is highlighted |
| FacilityCard.IconRoundTrip | src/components/FacilityCard.tsx:26-47 | Each of the eight type names selects its own icon by exact match; every other name gets the help icon |
| FacilityCard.TitleRule | src/components/FacilityCard.tsx:62-68 | The title is the building if non-empty, else "block road" if the block is non-empty, else the address |
| FacilityCard.FloorBadgeRule | src/components/FacilityCard.tsx:70 | The floor badge shows iff the floor is a non-empty text |
| FacilityCard.HrefNamesFacility | src/components/FacilityCard.tsx:52 | The card links to `/facility/` plus the id, and different facilities get different links |
| AmenityItem.Lower | src/components/AmenityItem.tsx:15 | Lower-casing maps each character and keeps the length |
| AmenityItem.LowerIdempotent | src/components/AmenityItem.tsx:15 | Lower-casing twice is lower-casing once |
| AmenityItem.IconIgnoresCase | src/components/AmenityItem.tsx:14-41 | The icon depends only on the lower-cased name, and a name gets a real icon iff its lower case is one of the eleven known names |
| AmenityItem.KnownIconsDistinct | src/components/AmenityItem.tsx:16-39 | The eleven known names get eleven different icons |
| AmenityItem.ViewRule | src/components/AmenityItem.tsx:47-48 | The name shows as given; the badge shows the quantity iff it is above 0; the icon ignores case |
| MobileNavigation.LinkRules | src/components/MobileNavigation.tsx:33-94 | Logged in, Add goes to "/add" and the user link to "/user-profile"; logged out, both go to "/sign-in" with the sign-in label; Explore is never highlighted on its own target "/" |
| MobileNavigation.OnlyCurrentBold | src/components/MobileNavigation.tsx:16-62 | Among distinct locales only the current one is bold |
| MobileNavigation.LocaleMenu.constructor | src/components/MobileNavigation.tsx:21 | The locale menu starts closed |
| MobileNavigation.LocaleMenu.ToggleMenu | src/components/MobileNavigation.tsx:49 | The locale button flips the menu |
| MobileNavigation.LocaleMenu.ChooseLocale | src/components/MobileNavigation.tsx:24-27 | Choosing a locale navigates to "/locale" and closes the menu |

## Left out

- Floating point: coordinates are kept as the text `parseFloat` reads (`OneMap.Coordinate`), and latitude and longitude as `real`, which the numeric(p, 8) columns round to 8 decimals (`Schema.Round8`); the binary double a JavaScript number holds is not modelled. The distance arithmetic, the progress percentage and the canvas scaling and JPEG quality of `compressImage` are not modelled.
- `compressImage` itself, with its bitmap, canvas and encoder, and its exceptions, is not modelled. Only the file name it produces is modelled.
- I/O and the outside world are left out: the OneMap `fetch` (its answer is a parameter of `SearchBar.SearchBox.FetchSuggestions`), `requestAnimationFrame`, focus handling, geolocation and toasts. Local and hosted storage are modelled as a map and a list. Console output, `process.exit` and file reads and writes are not modelled.
- Timestamps (`created_at`, `updated_at`) are not modelled; they come from the clock.
- Concurrency is not modelled: one request or script runs at a time. The ordering of overlapping suggestion requests and the read-then-insert race on locations are out of scope, and address uniqueness is not claimed.
- Library internals are not modelled: the Supabase client factories, Drizzle, pg, PGlite connections and migrators, zod, next-intl and Clerk. Only the predicates and decisions the app's code states are modelled. A statement that fails for an outside reason is marked by the `down` parameter.
- JSON values: locale files are trees of string leaves and objects. Arrays, numbers, booleans and null as leaves are not distinguished from strings.
- A locale file whose top level is `null` or a string is read as `{}`. For `null` this is what the scripts do; a `null` `en.json` in the fill script throws instead, as `I18nFill.FillLocales` states.
- `I18nFill.FillLocales`: an `en.json` that is a bare string is read as `{}`. JavaScript's `Object.keys` would give it the index keys "0", "1", …, and every locale would get one placeholder per character. `I18nCheck.CheckLocales` reads it as `{}` for the same reason, where `Object.entries` would give the same index keys.
- `JsValues.StringToNumber`: `Number(s)` is modelled for blank text, optionally signed decimal integers and everything else as NaN. Decimal fractions, exponents, hexadecimal, binary and octal literals, "Infinity" and floating-point rounding are not modelled. So "1.5", "1e2" and "0x10" are NaN here, where JavaScript gives 1.5, 100 and 16.
- `SubmitFacility.AmenityQuantity`: a quantity sent as text such as "2.5" or "1e1" becomes 1 here. In JavaScript it is 2.5 or 10, so Postgres would refuse 2.5 and the request would answer 500.
- `SubmitFacility.AmenityQuantityRule`: "any other number is taken as given" covers integers only, for the same reason.
- `SubmitFacility.QuantityFromNonNumber`: text that JavaScript reads as a non-integer or exponent number counts as not a number here, and becomes 1.
- `SubmitFacility.PgInteger`: JSON numbers are integers in the model, so a non-integer number that Postgres refuses for an integer column cannot occur.
- `SubmitFacility.IntegerParam`: "finite" means integer here; JavaScript's finite non-integers, which Postgres refuses, are not modelled.
- `SubmitFacility.LocalAmenityIds`: ids sent as "1e0" or "1.5" are dropped here, where JavaScript keeps 1, or keeps 1.5 and Postgres then refuses the link.
- `SubmitFacility.LocalAmenityIdsExact`: "finite" follows the integer-only `JsValues.StringToNumber`, for the same reason.
- `Store.Database.InsertLocations`: a refused insert leaves the sequence where it was. Postgres has already taken `nextval` for rows it formed before the failure, and how many depends on where the statement failed, so ids handed out after a failure may differ from the model's.
- `Store.Database.InsertFacilityTypes`: the same sequence gap on a refused insert.
- `Store.Database.InsertAmenities`: the same sequence gap on a refused insert.
- `Store.Database.InsertFacilities`: the same sequence gap on a refused insert, for example when a foreign key fails in the local submission.
- `Store.Database.Restore`: a rollback restores the sequences too. Postgres sequences are not transactional, so after a failed production seed `facility_types_id_seq` and `amenities_id_seq` stay advanced.
- `SeedProd.Run`: "all or nothing" holds for the tables only. The sequences are restored by `Store.Database.Restore`, which Postgres does not do.
- `Tables.First`: `LIMIT 1` without ORDER BY returns a matching row that Postgres does not specify. The model always takes the lowest id, so the same matches always give the same row.
- `Store.Database.PickFirst`: picks the lowest id, one of the rows Postgres may return.
- `Store.Database.FirstLocationAt`: the local lookup by address returns the lowest matching id here, where Postgres may return any matching row.
- `Store.Database.FirstFacilityTypeNamed`: the same choice for the production seed's lookup by name.
- `Store.Database.FirstAmenityNamed`: the same choice for the production seed's lookup by name.
- `SubmitFacility.SubmitLocalSucceeds`: the reused location is the one `Store.Database.FirstLocationAt` returns, the lowest id with that address in the model.
- `I18nCheck.UpToDateIffSameKeys`: JavaScript's `k in flat` also finds names inherited from `Object.prototype` ("constructor", "toString", "valueOf", …). The model states the intended own-key test, and the difference is recorded under "Findings" with `I18nCheck.ReportAsWritten`.
- `I18nCheck.OutdatedLists`: the same inherited-name difference in `missing` and `extra`.
- `I18nFill.AddedComplete`: the script's `key in t` never adds an English leaf named like an inherited property. The model adds it; see "Findings".
- `I18nFill.AddedExact`: the same inherited-name difference.
- `I18nMerge.MissingComplete`: the loader's `key in override` never records a missing key named like an inherited property. The model records it; see "Findings".
- `I18nMerge.MissingExact`: the same inherited-name difference.
- `SubmitFacility.StoredFlags`: a flag sent as JSON `null` is not expressible. Each flag of `SubmitFacility.FormData` is present-or-absent, and absent means the column default. The hosted path forwards a `null` unchanged, so Postgres would store NULL in the nullable column where the model stores the default. The wizard's form always sends booleans.
- `SubmitFacility.FormData`: the flags `hasDiaperChangingStation`, `hasLactationRoom` and `femalesOnly` are `Option<bool>`, so a `null` flag or a flag of another JSON type is out of scope.
- `I18nCheck.FlatKeys`: only the keys of `flatten` are modelled, not its values (`String(v ?? '')`). `main` reads only the keys, when it computes `missing` and `extra`.
- `Seed.SeedRunEffect`: a seed row of `locations.json`, `facilityTypes.json` or `amenities.json` that carries an explicit `id` is not modelled. The insert type allows one, and Postgres would store it under that id without advancing the sequence. The model gives every seed row the next sequence value.
- `Seed.Resolves`: a name is resolved by an own-key test. The script reads `locationMap[name]` and tests `!== undefined`, which also succeeds for a name inherited from `Object.prototype` ("toString", "constructor", …). A seed facility at such an address, not listed in the locations file, is kept by the script with a function as its location id, and the facility insert then fails. The model drops that row and inserts the rest.
- `Seed.FacilitiesToInsertComplete`: the same inherited-name difference, as `Seed.Resolves` states.
- Own properties named `__proto__` are not modelled: assigning one in JavaScript replaces the prototype instead of adding a key.
- Object key order is not modelled. Maps are unordered, so report lists are stated as sets, each listed exactly once, rather than in `Object.keys` order.
- `AmenityItem.Lower`: lower-casing is modelled for ASCII letters only, not the full Unicode `toLowerCase`.
- `Images.ImageStorage.GetFacilityImages`: the hosted listing is a parameter. The service's 50-item limit and name ordering are not modelled.
- Update in place: the fill's deep clone, the merge's fresh `out` object and the scripts' arrays are Dafny values. That the caller's object is never mutated holds because the model has no aliasing; it is not proved about JavaScript objects.
- Seed files with a wrong JSON type for a field (for example, a number where text belongs) are out of scope. The production seed's `typeof` tests are modelled as present-or-absent.
- The hosted path's PostgREST error codes are not modelled individually. A lookup error other than "not found" is the `LocationLookup` entry of `down`.
- src/lib/migrate-local.ts, DesktopNavigation, BackButton, AuthWrapper, AmenitiesList, ProgressBar, the carousel and the app icons are not part of this model. They are rendering or glue with no rule of their own.

## Findings

| source | as written | input that shows it | evidently intended | confidence | as-written member | corrected member |
|---|---|---|---|---|---|---|
| scripts/i18n-check.ts:44-45 | `k in flat` and `k in enFlat` also hold for names inherited from `Object.prototype` | en.json `{"constructor":"x"}`, fr.json `{}`: "[fr] ✅ Up to date" and exit code 0 | "constructor" is reported missing and the exit code is 2 | medium, not executed | I18nCheck.ReportAsWritten, I18nCheck.PrototypeKeyHidden | I18nCheck.ReportOf, I18nCheck.OutdatedLists |
| scripts/i18n-fill.ts:29 | `key in t` also holds for names inherited from `Object.prototype` | en.json `{"constructor":"x"}`, fr.json `{}`: no placeholder is added | the placeholder "constructor": "x" is added | medium, not executed | I18nFill.AddedAsWritten, I18nFill.PrototypeLeafNotFilled | I18nFill.Added, I18nFill.AddedExact |
| src/libs/i18n.ts:20 | `key in` on the override also holds for names inherited from `Object.prototype` | English `{"constructor":"x"}`, locale `{}`: nothing is recorded missing | "constructor" is recorded missing | medium, not executed | I18nMerge.MissingAsWritten, I18nMerge.PrototypeKeyNotRecorded | I18nMerge.Missing, I18nMerge.MissingExact |
