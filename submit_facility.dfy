/**
 * The facility submission endpoint (POST /api/submitFacility).
 *
 * The handler rejects anything but POST, then a body without form data or
 * user id. With a Supabase URL and key configured it talks to the hosted
 * database through PostgREST (the remote path); otherwise it uses the ORM
 * on the local database (the local path). Both resolve the location by
 * exact address (reuse or insert), insert one facility, then link the
 * chosen amenities. Nothing is rolled back when a later step fails.
 *
 * A statement that cannot reach the database is modelled by naming it in
 * `down`; everything else the database does is the model of tables.dfy.
 */
module SubmitFacility {
  import opened Wrappers
  import opened JsValues
  import opened Schema
  import opened Tables
  import opened Store

  /** The submitted form, as it arrives in the JSON body; None is an absent field. */
  datatype FormData = FormData(
    building: Option<string>,
    block: Option<string>,
    road: Option<string>,
    address: Option<string>,
    postalCode: Option<string>,
    latitude: Option<real>,
    longitude: Option<real>,
    facilityTypeId: Option<Scalar>,
    floor: Option<string>,
    description: Option<string>,
    hasDiaperChangingStation: Option<bool>,
    hasLactationRoom: Option<bool>,
    howToAccess: Option<string>,
    femalesOnly: Option<bool>,
    amenities: Option<seq<string>>,
    amenityQuantities: Option<map<string, Scalar>>)

  datatype Body = Body(formData: Option<FormData>, userId: Option<string>)

  datatype Request = Request(verb: string, body: Option<Body>)

  /** The Supabase settings the handler reads from the environment. */
  datatype SupabaseEnv = SupabaseEnv(url: Option<string>, anonKey: Option<string>)

  /** The statements the handler may issue, in order. */
  datatype Statement = LocationLookup | LocationInsert | FacilityInsert | AmenityInsert

  /** The JSON response: HTTP status, success flag, message and the new facility's id. */
  datatype Response = Response(status: int, success: bool, message: string, facilityId: Option<int>)

  /** A response together with the database it leaves behind. */
  datatype Outcome = Outcome(response: Response, tables: Snapshot)

  const MethodNotAllowed := Response(405, false, "Method not allowed", None)
  const MissingInput := Response(400, false, "Missing formData or userId", None)
  const Added := "Facility added successfully!"

  function Failure(t: Snapshot, message: string): (o: Outcome)
    ensures o.response.status == 500 && !o.response.success && o.tables == t
  {
    Outcome(Response(500, false, message, None), t)
  }

  function Success(t: Snapshot, facilityId: int): (o: Outcome)
    ensures o.response.status == 200 && o.response.success && o.response.facilityId == Some(facilityId) && o.tables == t
  {
    Outcome(Response(200, true, Added, Some(facilityId)), t)
  }

  /** A Supabase client is created only when both the URL and the key are non-empty. */
  predicate SupabaseConfigured(env: SupabaseEnv) {
    Truthy(env.url) && Truthy(env.anonKey)
  }

  // ---------------------------------------------------------------- value rules

  /**
   * The quantity of an amenity link, `Number(quantities?.[key] ?? 1) || 1`:
   * the given number when it is present, numeric and non-zero, else 1.
   */
  function AmenityQuantity(quantities: Option<map<string, Scalar>>, key: string): (q: int)
    ensures q != 0
  {
    var given := if quantities.Some? && key in quantities.value && quantities.value[key] != JNull
                 then quantities.value[key] else JNumber(1);
    match ToNumber(given)
    case Finite(n) => if n != 0 then n else 1
    case NaN => 1
  }

  /** A missing, null, zero or non-numeric quantity is 1; any other number is taken as given. */
  lemma AmenityQuantityRule(quantities: Option<map<string, Scalar>>, key: string)
    ensures (quantities.None? || key !in quantities.value) ==> AmenityQuantity(quantities, key) == 1
    ensures quantities.Some? && key in quantities.value && !NumTruthy(ToNumber(quantities.value[key]))
            ==> AmenityQuantity(quantities, key) == 1
    ensures quantities.Some? && key in quantities.value && NumTruthy(ToNumber(quantities.value[key]))
            ==> AmenityQuantity(quantities, key) == ToNumber(quantities.value[key]).value
  {
  }

  /** A quantity sent as decimal text is taken at its value, and "0" falls back to 1. */
  lemma QuantityFromText(quantities: map<string, Scalar>, key: string, n: int)
    requires key in quantities && quantities[key] == JString(IntToString(n))
    ensures AmenityQuantity(Some(quantities), key) == (if n == 0 then 1 else n)
  {
    NumberOfStringRoundTrip(n);
  }

  /** A quantity sent as text that `Number` reads as NaN falls back to 1. */
  lemma QuantityFromNonNumber(quantities: map<string, Scalar>, key: string, s: string)
    requires key in quantities && quantities[key] == JString(s) && StringToNumber(s) == NaN
    ensures AmenityQuantity(Some(quantities), key) == 1
  {
  }

  /** For instance the text "two" is not a number, so its quantity is 1. */
  lemma QuantityFromWord(quantities: map<string, Scalar>, key: string)
    requires key in quantities && quantities[key] == JString("two")
    ensures AmenityQuantity(Some(quantities), key) == 1
  {
    assert TrimStart("two") == "two";
    assert TrimEnd("two") == "two";
    assert ParseInteger("two") == None;
    QuantityFromNonNumber(quantities, key, "two");
  }

  /** The blanks Postgres skips around an integer: the ASCII `isspace` characters only. */
  predicate IsPgSpace(c: char) {
    c == ' ' || c == '\t' || c == '\n' || c == '\r' || c == '\U{B}' || c == '\U{C}'
  }

  /** Drops leading ASCII blanks. */
  function PgTrimStart(s: string): (r: string)
    ensures |r| <= |s| && r == s[|s| - |r|..]
    ensures forall i :: 0 <= i < |s| - |r| ==> IsPgSpace(s[i])
    ensures r == [] || !IsPgSpace(r[0])
  {
    if |s| > 0 && IsPgSpace(s[0]) then PgTrimStart(s[1..]) else s
  }

  /** Drops trailing ASCII blanks. */
  function PgTrimEnd(s: string): (r: string)
    ensures |r| <= |s| && r == s[..|r|]
    ensures forall i :: |r| <= i < |s| ==> IsPgSpace(s[i])
    ensures r == [] || !IsPgSpace(r[|r| - 1])
  {
    if |s| > 0 && IsPgSpace(s[|s| - 1]) then PgTrimEnd(s[..|s| - 1]) else s
  }

  /** How Postgres reads the text of an integer: surrounding ASCII blanks allowed, an optional sign, digits. */
  function PgIntegerText(s: string): Option<int> {
    ParseInteger(PgTrimEnd(PgTrimStart(s)))
  }

  /** Postgres reads back the decimal text of every integer. */
  lemma PgIntegerTextRoundTrip(n: int)
    ensures PgIntegerText(IntToString(n)) == Some(n)
  {
    var s := IntToString(n);
    var digits := NatToString(if n < 0 then -n else n);
    assert s[|s| - 1] == digits[|digits| - 1];
    assert PgTrimStart(s) == s;
    assert PgTrimEnd(s) == s;
    IntToStringRoundTrip(n);
  }

  /**
   * A no-break space is white space to JavaScript's `trim` but not to
   * Postgres: `Number` reads "\u00A01" as 1, while the integer column refuses it.
   */
  lemma PgIntegerRefusesNoBreakSpace()
    ensures PgIntegerText("\U{A0}1") == None
    ensures StringToNumber("\U{A0}1") == Finite(1)
  {
    NoBreakSpaceNotPgInteger();
    NoBreakSpaceNumber();
  }

  lemma NoBreakSpaceNotPgInteger()
    ensures PgIntegerText("\U{A0}1") == None
  {
    var s := "\U{A0}1";
    assert s[0] == '\U{A0}' && s[|s| - 1] == '1';
    NotPgInteger(s);
  }

  /** Text that starts with a character other than a blank, a sign or a digit is no integer to Postgres. */
  lemma NotPgInteger(s: string)
    requires |s| > 0 && !IsPgSpace(s[0]) && !IsPgSpace(s[|s| - 1])
    requires !IsDigit(s[0]) && s[0] != '-' && s[0] != '+'
    ensures PgIntegerText(s) == None
  {
    assert PgTrimStart(s) == s;
    assert PgTrimEnd(s) == s;
    assert !AllDigits(s);
  }

  lemma NoBreakSpaceNumber()
    ensures StringToNumber("\U{A0}1") == Finite(1)
  {
    var s := "\U{A0}1";
    assert s[0] == '\U{A0}' && s[1..] == ['1'];
    TrimAfterOneBlank(s, '1');
    NumberOfOneDigit(s, '1');
  }

  /** One white-space character before a character that is not white space is trimmed away. */
  lemma TrimAfterOneBlank(s: string, c: char)
    requires |s| == 2 && IsWhiteSpace(s[0]) && s[1..] == [c] && !IsWhiteSpace(c)
    ensures Trim(s) == [c]
  {
    var t := s[1..];
    assert t[0] == c && t[|t| - 1] == c;
    TrimKeepsUnpadded(t);
    assert TrimStart(s) == TrimStart(t);
  }

  /** Text that neither starts nor ends with white space is left as it is by both trims. */
  lemma TrimKeepsUnpadded(t: string)
    requires |t| > 0 && !IsWhiteSpace(t[0]) && !IsWhiteSpace(t[|t| - 1])
    ensures TrimStart(t) == t && TrimEnd(t) == t
  {
  }

  /** Text that trims to one digit is that digit's number. */
  lemma NumberOfOneDigit(s: string, d: char)
    requires Trim(s) == [d] && IsDigit(d)
    ensures StringToNumber(s) == Finite(DigitValue(d))
  {
    assert [d][..0] == [] && [d][0] == d;
    assert DigitsValue([d]) == DigitValue(d);
    assert ParseInteger([d]) == Some(DigitValue(d));
  }

  /** A JSON value sent by PostgREST into an integer column: null stays NULL, text must be an integer. */
  function PgInteger(v: Option<Scalar>, column: string): (r: Result<Option<int>, DbError>)
    ensures (v.None? || v == Some(JNull)) ==> r == Ok(None)
    ensures forall n :: v == Some(JNumber(n)) ==> r == Ok(Some(n))
    ensures forall s :: v == Some(JString(s)) ==> (r.Ok? <==> PgIntegerText(s).Some?)
  {
    match v
    case None => Ok(None)
    case Some(JNull) => Ok(None)
    case Some(JNumber(n)) => Ok(Some(n))
    case Some(JString(s)) => (match PgIntegerText(s) case Some(n) => Ok(Some(n)) case None => Err(InvalidInput(column)))
    case Some(JBool(_)) => Err(InvalidInput(column))
  }

  /** `Number(x)` of a field that may be absent (`Number(undefined)` is NaN). */
  function NumberOf(v: Option<Scalar>): Num {
    if v.None? then NaN else ToNumber(v.value)
  }

  /** The ORM sends a JavaScript number to an integer column: NaN is refused. */
  function IntegerParam(n: Num, column: string): (r: Result<Option<int>, DbError>)
    ensures r.Ok? <==> n.Finite?
    ensures r.Ok? ==> r.value == Some(n.value)
  {
    match n
    case Finite(x) => Ok(Some(x))
    case NaN => Err(InvalidInput(column))
  }

  /**
   * The local path's amenity ids: each selected id through `Number`, keeping
   * only the finite ones, in order.
   */
  function LocalAmenityIds(amenities: seq<string>): (ids: seq<int>)
    ensures |ids| <= |amenities|
  {
    if amenities == [] then []
    else match StringToNumber(amenities[0])
      case Finite(n) => [n] + LocalAmenityIds(amenities[1..])
      case NaN => LocalAmenityIds(amenities[1..])
  }

  /** The local path links exactly the ids whose text `Number` reads as a finite number. */
  lemma {:induction false} LocalAmenityIdsExact(amenities: seq<string>)
    ensures forall n :: n in LocalAmenityIds(amenities) ==> exists s :: s in amenities && StringToNumber(s) == Finite(n)
    ensures forall s :: s in amenities && StringToNumber(s).Finite? ==> StringToNumber(s).value in LocalAmenityIds(amenities)
  {
    if amenities != [] {
      LocalAmenityIdsExact(amenities[1..]);
      assert forall s :: s in amenities[1..] ==> s in amenities;
      assert forall s :: s in amenities ==> s == amenities[0] || s in amenities[1..];
    }
  }

  // ---------------------------------------------------------------- remote path

  /** The location row the remote path sends: every field exactly as submitted. */
  function RemoteLocationValues(f: FormData): (v: LocationValues)
    ensures v.building == f.building && v.block == f.block && v.road == f.road && v.address == f.address
    ensures v.postalCode == f.postalCode && v.latitude == f.latitude && v.longitude == f.longitude
  {
    LocationValues(f.building, f.block, f.road, f.address, f.postalCode, f.latitude, f.longitude)
  }

  /**
   * The facility row the remote path sends. Absent fields are left out of the
   * JSON, so the column defaults apply to absent flags.
   */
  function RemoteFacilityValues(f: FormData, locationId: int, userId: string): (r: Result<FacilityValues, DbError>)
    ensures r.Ok? <==> PgInteger(f.facilityTypeId, "facility_type_id").Ok?
    ensures r.Ok? ==> r.value.locationId == Some(locationId) && r.value.createdBy == Some(userId)
    ensures r.Ok? ==> r.value.hasDiaperChangingStation == f.hasDiaperChangingStation
                      && r.value.hasLactationRoom == f.hasLactationRoom && r.value.femalesOnly == f.femalesOnly
    ensures r.Ok? ==> r.value.floor == f.floor && r.value.description == f.description && r.value.howToAccess == f.howToAccess
  {
    match PgInteger(f.facilityTypeId, "facility_type_id")
    case Err(e) => Err(e)
    case Ok(typeId) =>
      Ok(FacilityValues(Some(locationId), typeId, f.floor, f.description, f.hasDiaperChangingStation,
                        f.hasLactationRoom, f.howToAccess, Some(userId), f.femalesOnly))
  }

  /** The link rows the remote path sends: one per selected id, the id read by Postgres. */
  function RemoteLinkValues(facilityId: int, amenities: seq<string>, quantities: Option<map<string, Scalar>>)
    : (r: Result<seq<LinkValues>, DbError>)
    ensures r.Ok? <==> forall i :: 0 <= i < |amenities| ==> PgIntegerText(amenities[i]).Some?
    ensures r.Ok? ==> |r.value| == |amenities|
    ensures r.Ok? ==> forall i :: 0 <= i < |amenities| ==>
      r.value[i] == LinkValues(Some(facilityId), PgIntegerText(amenities[i]), Some(AmenityQuantity(quantities, amenities[i])))
  {
    if amenities == [] then Ok([])
    else match PgIntegerText(amenities[0])
      case None => Err(InvalidInput("amenity_id"))
      case Some(n) =>
        match RemoteLinkValues(facilityId, amenities[1..], quantities)
        case Err(e) => Err(e)
        case Ok(rest) => Ok([LinkValues(Some(facilityId), Some(n), Some(AmenityQuantity(quantities, amenities[0])))] + rest)
  }

  /**
   * `.eq('address', …).single()`: PostgREST answers with the row only when
   * exactly one matches; none or several is the PGRST116 error, which the
   * handler treats as "not found". An absent address is sent as the text "undefined".
   */
  ghost function RemoteLookup(t: Snapshot, address: Option<string>): (r: Option<int>)
    ensures r.Some? <==> |LocationsAt(t, address.GetOr("undefined"))| == 1
    ensures r.Some? ==> LocationsAt(t, address.GetOr("undefined")) == {r.value}
  {
    var matches := LocationsAt(t, address.GetOr("undefined"));
    if |matches| == 1 then
      var m := Least(matches);
      assert matches == {m} by {
        forall x | x in matches ensures x == m {
          assert |matches - {m}| == 0;
          assert x !in matches - {m};
        }
      }
      Some(m)
    else None
  }

  ghost function SubmitRemote(t: Snapshot, f: FormData, userId: string, down: set<Statement>): Outcome {
    if LocationLookup in down then Failure(t, "Failed to check the location.")
    else
      var existing := RemoteLookup(t, f.address);
      if existing.Some? && existing.value != 0 then RemoteFacility(t, f, userId, existing.value, down)
      else if LocationInsert in down then Failure(t, "Failed to create the location.")
      else match Tables.InsertLocations(t, [RemoteLocationValues(f)])
        case Err(_) => Failure(t, "Failed to create the location.")
        case Ok(ins) => RemoteFacility(ins.tables, f, userId, ins.ids[0], down)
  }

  function RemoteFacility(t: Snapshot, f: FormData, userId: string, locationId: int, down: set<Statement>): Outcome {
    if FacilityInsert in down then Failure(t, "Failed to submit the facility.")
    else match RemoteFacilityValues(f, locationId, userId)
      case Err(_) => Failure(t, "Failed to submit the facility.")
      case Ok(v) =>
        match Tables.InsertFacilities(t, [v])
        case Err(_) => Failure(t, "Failed to submit the facility.")
        case Ok(ins) => RemoteAmenities(ins.tables, f, ins.ids[0], down)
  }

  function RemoteAmenities(t: Snapshot, f: FormData, facilityId: int, down: set<Statement>): Outcome {
    var amenities := f.amenities.GetOr([]);
    if |amenities| == 0 then Success(t, facilityId)
    else if AmenityInsert in down then Failure(t, "Failed to submit the facility amenities.")
    else match RemoteLinkValues(facilityId, amenities, f.amenityQuantities)
      case Err(_) => Failure(t, "Failed to submit the facility amenities.")
      case Ok(vs) =>
        match Tables.InsertLinks(t, vs)
        case Err(_) => Failure(t, "Failed to submit the facility amenities.")
        case Ok(u) => Success(u, facilityId)
  }

  // ---------------------------------------------------------------- local path

  const Unexpected := "An unexpected error occurred."

  /** The location row the local path sends: empty building, block and postal code become NULL. */
  function LocalLocationValues(f: FormData): (v: LocationValues)
    ensures v.building == OrNull(f.building) && v.block == OrNull(f.block) && v.postalCode == OrNull(f.postalCode)
    ensures v.road == f.road && v.address == f.address && v.latitude == f.latitude && v.longitude == f.longitude
  {
    LocationValues(OrNull(f.building), OrNull(f.block), f.road, f.address, OrNull(f.postalCode), f.latitude, f.longitude)
  }

  /** `!!x` on an optional flag. */
  function Bang(b: Option<bool>): (r: bool)
    ensures r <==> b == Some(true)
  {
    b.Some? && b.value
  }

  /**
   * The facility row the local path sends: every flag is given (absent means
   * false), empty texts become NULL, the facility type goes through `Number`.
   */
  function LocalFacilityValues(f: FormData, locationId: int, userId: string): (r: Result<FacilityValues, DbError>)
    ensures r.Ok? <==> NumberOf(f.facilityTypeId).Finite?
    ensures r.Ok? ==> r.value.locationId == Some(locationId) && r.value.createdBy == Some(userId)
                      && r.value.facilityTypeId == Some(NumberOf(f.facilityTypeId).value)
    ensures r.Ok? ==> r.value.hasDiaperChangingStation == Some(f.hasDiaperChangingStation == Some(true))
                      && r.value.hasLactationRoom == Some(f.hasLactationRoom == Some(true))
                      && r.value.femalesOnly == Some(f.femalesOnly == Some(true))
    ensures r.Ok? ==> r.value.floor == OrNull(f.floor) && r.value.description == OrNull(f.description)
                      && r.value.howToAccess == OrNull(f.howToAccess)
  {
    match IntegerParam(NumberOf(f.facilityTypeId), "facility_type_id")
    case Err(e) => Err(e)
    case Ok(typeId) =>
      Ok(FacilityValues(Some(locationId), typeId, OrNull(f.floor), OrNull(f.description),
                        Some(Bang(f.hasDiaperChangingStation)), Some(Bang(f.hasLactationRoom)),
                        OrNull(f.howToAccess), Some(userId), Some(Bang(f.femalesOnly))))
  }

  /** The link rows the local path sends; the quantity is looked up under the id's decimal text. */
  function LocalLinkValues(facilityId: int, ids: seq<int>, quantities: Option<map<string, Scalar>>): (vs: seq<LinkValues>)
    ensures |vs| == |ids|
    ensures forall i :: 0 <= i < |ids| ==>
      vs[i] == LinkValues(Some(facilityId), Some(ids[i]), Some(AmenityQuantity(quantities, IntToString(ids[i]))))
  {
    seq(|ids|, i requires 0 <= i < |ids| => LinkValues(Some(facilityId), Some(ids[i]), Some(AmenityQuantity(quantities, IntToString(ids[i])))))
  }

  /** `SELECT id FROM locations WHERE address = … LIMIT 1`; an absent address matches nothing. */
  ghost function LocalLookup(t: Snapshot, address: Option<string>): Option<int> {
    if address.None? then None else First(LocationsAt(t, address.value))
  }

  ghost function SubmitLocal(t: Snapshot, f: FormData, userId: string, down: set<Statement>): Outcome {
    if LocationLookup in down then Failure(t, Unexpected)
    else
      var existing := LocalLookup(t, f.address);
      if existing.Some? && existing.value != 0 then LocalFacility(t, f, userId, existing.value, down)
      else if LocationInsert in down then Failure(t, Unexpected)
      else match Tables.InsertLocations(t, [LocalLocationValues(f)])
        case Err(_) => Failure(t, Unexpected)
        case Ok(ins) =>
          if ins.ids[0] == 0 then Failure(ins.tables, "Failed to resolve location.")
          else LocalFacility(ins.tables, f, userId, ins.ids[0], down)
  }

  function LocalFacility(t: Snapshot, f: FormData, userId: string, locationId: int, down: set<Statement>): Outcome {
    if FacilityInsert in down then Failure(t, Unexpected)
    else match LocalFacilityValues(f, locationId, userId)
      case Err(_) => Failure(t, Unexpected)
      case Ok(v) =>
        match Tables.InsertFacilities(t, [v])
        case Err(_) => Failure(t, Unexpected)
        case Ok(ins) =>
          if ins.ids[0] == 0 then Failure(ins.tables, "Failed to create facility.")
          else LocalAmenities(ins.tables, f, ins.ids[0], down)
  }

  function LocalAmenities(t: Snapshot, f: FormData, facilityId: int, down: set<Statement>): Outcome {
    var ids := LocalAmenityIds(f.amenities.GetOr([]));
    if |ids| == 0 then Success(t, facilityId)
    else if AmenityInsert in down then Failure(t, Unexpected)
    else match Tables.InsertLinks(t, LocalLinkValues(facilityId, ids, f.amenityQuantities))
      case Err(_) => Failure(t, Unexpected)
      case Ok(u) => Success(u, facilityId)
  }

  // ---------------------------------------------------------------- what each step does to the tables

  /** `u` is `t` with the one facility `id` added, holding `row`. */
  ghost predicate AddsFacility(t: Snapshot, u: Snapshot, id: int, row: Facility) {
    id !in t.facilities && u.facilities == t.facilities[id := row]
  }

  /**
   * `u` keeps every link of `t` and adds exactly the pairs (facilityId, n)
   * for n in `amenityIds`.
   */
  ghost predicate LinksAdded(t: Snapshot, u: Snapshot, facilityId: int, amenityIds: seq<int>) {
    && (forall k :: k in t.links ==> k in u.links && u.links[k] == t.links[k])
    && (forall k :: k in u.links <==> k in t.links || exists i :: 0 <= i < |amenityIds| && k == LinkKey(facilityId, amenityIds[i]))
  }

  /** The amenity ids the remote path sends, as Postgres reads them (0 stands for text it cannot read). */
  function RemoteAmenityIds(amenities: seq<string>): (ids: seq<int>)
    ensures |ids| == |amenities|
    ensures forall i :: 0 <= i < |amenities| ==> ids[i] == PgIntegerText(amenities[i]).GetOr(0)
  {
    seq(|amenities|, i requires 0 <= i < |amenities| => PgIntegerText(amenities[i]).GetOr(0))
  }

  /** Inserting the rows whose keys are (facilityId, ids[i]) adds exactly those links. */
  lemma InsertedLinks(t: Snapshot, vs: seq<LinkValues>, facilityId: int, ids: seq<int>)
    requires |vs| == |ids| && InsertLinks(t, vs).Ok?
    requires forall i :: 0 <= i < |vs| ==> vs[i].facilityId == Some(facilityId) && vs[i].amenityId == Some(ids[i])
    ensures LinksAdded(t, InsertLinks(t, vs).value, facilityId, ids)
  {
    var u := InsertLinks(t, vs).value;
    forall k | k in t.links ensures k in u.links && u.links[k] == t.links[k] {
      InsertLinksOrigin(t, vs, k);
    }
    forall k ensures k in u.links <==> k in t.links || exists i :: 0 <= i < |ids| && k == LinkKey(facilityId, ids[i]) {
      InsertLinksOrigin(t, vs, k);
      if i :| 0 <= i < |ids| && k == LinkKey(facilityId, ids[i]) {
        InsertLinksStores(t, vs, i);
      }
    }
  }

  /** The link inserted for row `i` stores that row's quantity, 1 when the row gives none. */
  lemma InsertedLinkQuantity(t: Snapshot, vs: seq<LinkValues>, i: int)
    requires InsertLinks(t, vs).Ok? && 0 <= i < |vs|
    ensures vs[i].facilityId.Some? && vs[i].amenityId.Some?
    ensures LinkKey(vs[i].facilityId.value, vs[i].amenityId.value) in InsertLinks(t, vs).value.links
    ensures InsertLinks(t, vs).value.links[LinkKey(vs[i].facilityId.value, vs[i].amenityId.value)]
            == Some(vs[i].quantity.GetOr(DefaultQuantity))
  {
    InsertLinksStores(t, vs, i);
  }

  lemma LocalAmenitiesEffect(t: Snapshot, f: FormData, facilityId: int, down: set<Statement>)
    ensures var o := LocalAmenities(t, f, facilityId, down);
      && o.tables == t.(links := o.tables.links)
      && (o.response.success ==> o.response == Success(t, facilityId).response)
      && (!o.response.success ==> o == Failure(t, Unexpected))
      && (|LocalAmenityIds(f.amenities.GetOr([]))| == 0 ==> o == Success(t, facilityId))
  {
  }

  /** A batch of rows (facilityId, ids[i], qs[i]) adds exactly those pairs, each with its quantity. */
  lemma InsertedBatch(t: Snapshot, vs: seq<LinkValues>, facilityId: int, ids: seq<int>, qs: seq<int>)
    requires |vs| == |ids| == |qs| && InsertLinks(t, vs).Ok?
    requires forall i :: 0 <= i < |vs| ==> vs[i] == LinkValues(Some(facilityId), Some(ids[i]), Some(qs[i]))
    ensures LinksAdded(t, InsertLinks(t, vs).value, facilityId, ids)
    ensures forall i :: 0 <= i < |ids| ==> InsertLinks(t, vs).value.links[LinkKey(facilityId, ids[i])] == Some(qs[i])
  {
    InsertedLinks(t, vs, facilityId, ids);
    forall i | 0 <= i < |ids| ensures InsertLinks(t, vs).value.links[LinkKey(facilityId, ids[i])] == Some(qs[i]) {
      InsertedLinkQuantity(t, vs, i);
    }
  }

  /** The quantities the local path sends, one per id. */
  function LocalQuantities(ids: seq<int>, quantities: Option<map<string, Scalar>>): (qs: seq<int>)
    ensures |qs| == |ids|
    ensures forall i :: 0 <= i < |ids| ==> qs[i] == AmenityQuantity(quantities, IntToString(ids[i]))
  {
    seq(|ids|, i requires 0 <= i < |ids| => AmenityQuantity(quantities, IntToString(ids[i])))
  }

  /** The local link batch adds exactly the pairs (facilityId, id), each with the quantity rule's value for the id's text. */
  lemma LocalLinksInserted(t: Snapshot, facilityId: int, ids: seq<int>, quantities: Option<map<string, Scalar>>)
    requires InsertLinks(t, LocalLinkValues(facilityId, ids, quantities)).Ok?
    ensures var u := InsertLinks(t, LocalLinkValues(facilityId, ids, quantities)).value;
      && LinksAdded(t, u, facilityId, ids)
      && forall i :: 0 <= i < |ids| ==>
           u.links[LinkKey(facilityId, ids[i])] == Some(AmenityQuantity(quantities, IntToString(ids[i])))
  {
    InsertedBatch(t, LocalLinkValues(facilityId, ids, quantities), facilityId, ids, LocalQuantities(ids, quantities));
  }

  /**
   * When the local amenity step succeeds, the links added are exactly the
   * pairs (facilityId, id) for the finite ids among the selection, and each
   * carries the quantity rule's value for that id's decimal text.
   */
  lemma LocalAmenitiesLinks(t: Snapshot, f: FormData, facilityId: int, down: set<Statement>)
    requires LocalAmenities(t, f, facilityId, down).response.success
    ensures var o := LocalAmenities(t, f, facilityId, down);
      var ids := LocalAmenityIds(f.amenities.GetOr([]));
      && LinksAdded(t, o.tables, facilityId, ids)
      && forall i :: 0 <= i < |ids| ==>
           o.tables.links[LinkKey(facilityId, ids[i])] == Some(AmenityQuantity(f.amenityQuantities, IntToString(ids[i])))
  {
    var ids := LocalAmenityIds(f.amenities.GetOr([]));
    if |ids| > 0 {
      LocalLinksInserted(t, facilityId, ids, f.amenityQuantities);
    }
  }

  lemma LocalAmenitiesValid(t: Snapshot, f: FormData, facilityId: int, down: set<Statement>)
    requires Valid(t)
    ensures Valid(LocalAmenities(t, f, facilityId, down).tables)
  {
    var ids := LocalAmenityIds(f.amenities.GetOr([]));
    var vs := LocalLinkValues(facilityId, ids, f.amenityQuantities);
    if |ids| > 0 && AmenityInsert !in down && InsertLinks(t, vs).Ok? {
      InsertLinksKeepsValid(t, vs);
    }
  }

  lemma RemoteAmenitiesEffect(t: Snapshot, f: FormData, facilityId: int, down: set<Statement>)
    ensures var o := RemoteAmenities(t, f, facilityId, down);
      && o.tables == t.(links := o.tables.links)
      && (o.response.success ==> o.response == Success(t, facilityId).response)
      && (!o.response.success ==> o == Failure(t, "Failed to submit the facility amenities."))
      && (|f.amenities.GetOr([])| == 0 ==> o == Success(t, facilityId))
  {
  }

  /** The quantities the remote path sends, one per selected text. */
  function RemoteQuantities(amenities: seq<string>, quantities: Option<map<string, Scalar>>): (qs: seq<int>)
    ensures |qs| == |amenities|
    ensures forall i :: 0 <= i < |amenities| ==> qs[i] == AmenityQuantity(quantities, amenities[i])
  {
    seq(|amenities|, i requires 0 <= i < |amenities| => AmenityQuantity(quantities, amenities[i]))
  }

  /** The remote link batch adds exactly the pairs (facilityId, id read by Postgres), each with the quantity rule's value. */
  lemma RemoteLinksInserted(t: Snapshot, facilityId: int, amenities: seq<string>, quantities: Option<map<string, Scalar>>)
    requires RemoteLinkValues(facilityId, amenities, quantities).Ok?
    requires InsertLinks(t, RemoteLinkValues(facilityId, amenities, quantities).value).Ok?
    ensures var u := InsertLinks(t, RemoteLinkValues(facilityId, amenities, quantities).value).value;
      && LinksAdded(t, u, facilityId, RemoteAmenityIds(amenities))
      && forall i :: 0 <= i < |amenities| ==>
           u.links[LinkKey(facilityId, RemoteAmenityIds(amenities)[i])] == Some(AmenityQuantity(quantities, amenities[i]))
  {
    InsertedBatch(t, RemoteLinkValues(facilityId, amenities, quantities).value, facilityId,
                  RemoteAmenityIds(amenities), RemoteQuantities(amenities, quantities));
  }

  /**
   * When the remote amenity step succeeds, every selected id was integer
   * text, the links added are exactly the pairs (facilityId, id), and each
   * carries the quantity rule's value for that text.
   */
  lemma RemoteAmenitiesLinks(t: Snapshot, f: FormData, facilityId: int, down: set<Statement>)
    requires RemoteAmenities(t, f, facilityId, down).response.success
    ensures var amenities := f.amenities.GetOr([]);
      forall i :: 0 <= i < |amenities| ==> PgIntegerText(amenities[i]).Some?
    ensures var amenities := f.amenities.GetOr([]);
      var o := RemoteAmenities(t, f, facilityId, down);
      && LinksAdded(t, o.tables, facilityId, RemoteAmenityIds(amenities))
      && forall i :: 0 <= i < |amenities| ==>
           o.tables.links[LinkKey(facilityId, RemoteAmenityIds(amenities)[i])] == Some(AmenityQuantity(f.amenityQuantities, amenities[i]))
  {
    var amenities := f.amenities.GetOr([]);
    if |amenities| > 0 {
      RemoteLinksInserted(t, facilityId, amenities, f.amenityQuantities);
    }
  }

  lemma RemoteAmenitiesValid(t: Snapshot, f: FormData, facilityId: int, down: set<Statement>)
    requires Valid(t)
    ensures Valid(RemoteAmenities(t, f, facilityId, down).tables)
  {
    var rows := RemoteLinkValues(facilityId, f.amenities.GetOr([]), f.amenityQuantities);
    if |f.amenities.GetOr([])| > 0 && AmenityInsert !in down && rows.Ok? && InsertLinks(t, rows.value).Ok? {
      InsertLinksKeepsValid(t, rows.value);
    }
  }

  /**
   * The outcome `o` answers 200 with a new facility id, under which the
   * checked row of `v` was added to `t`'s facilities; both its references
   * resolve in `t`, and the links added are exactly the facility's pairs
   * with `amenityIds`.
   */
  ghost predicate FacilityAdded(t: Snapshot, o: Outcome, v: Result<FacilityValues, DbError>, amenityIds: seq<int>) {
    && o.response.facilityId.Some?
    && o.response == Success(t, o.response.facilityId.value).response
    && v.Ok? && CheckFacility(v.value).Ok?
    && AddsFacility(t, o.tables, o.response.facilityId.value, CheckFacility(v.value).value)
    && FacilityRefsResolve(t, CheckFacility(v.value).value)
    && LinksAdded(t, o.tables, o.response.facilityId.value, amenityIds)
  }

  /** Every row of `t` is still in `u` with the same contents, and the lookup tables are untouched. */
  ghost predicate Grows(t: Snapshot, u: Snapshot) {
    && u.facilityTypes == t.facilityTypes && u.amenities == t.amenities
    && (forall id :: id in t.locations ==> id in u.locations && u.locations[id] == t.locations[id])
    && (forall id :: id in t.facilities ==> id in u.facilities && u.facilities[id] == t.facilities[id])
    && (forall k :: k in t.links ==> k in u.links && u.links[k] == t.links[k])
  }

  /** Only the facilities, their sequence and the links can differ between `t` and `u`. */
  ghost predicate OnlyFacilitiesChange(t: Snapshot, u: Snapshot) {
    u == t.(facilities := u.facilities, links := u.links, facilitySeq := u.facilitySeq)
  }

  /** The local facility step: on success one facility and its links are added; it keeps the schema's invariants. */
  lemma LocalFacilityEffect(t: Snapshot, f: FormData, userId: string, locationId: int, down: set<Statement>)
    ensures var o := LocalFacility(t, f, userId, locationId, down);
      && OnlyFacilitiesChange(t, o.tables)
      && (o.response.success ==>
            FacilityAdded(t, o, LocalFacilityValues(f, locationId, userId), LocalAmenityIds(f.amenities.GetOr([]))))
      && (Valid(t) ==> Valid(o.tables))
  {
    var v := LocalFacilityValues(f, locationId, userId);
    if FacilityInsert !in down && v.Ok? && InsertFacilities(t, [v.value]).Ok? {
      var ins := InsertFacilities(t, [v.value]).value;
      InsertOneFacility(t, v.value);
      if Valid(t) {
        InsertFacilitiesKeepsValid(t, [v.value]);
      }
      if ins.ids[0] != 0 {
        LocalAmenitiesEffect(ins.tables, f, ins.ids[0], down);
        if LocalAmenities(ins.tables, f, ins.ids[0], down).response.success {
          LocalAmenitiesLinks(ins.tables, f, ins.ids[0], down);
        }
        if Valid(t) {
          LocalAmenitiesValid(ins.tables, f, ins.ids[0], down);
        }
      }
    }
  }

  /** The remote facility step: on success one facility and its links are added; it keeps the schema's invariants. */
  lemma RemoteFacilityEffect(t: Snapshot, f: FormData, userId: string, locationId: int, down: set<Statement>)
    ensures var o := RemoteFacility(t, f, userId, locationId, down);
      && OnlyFacilitiesChange(t, o.tables)
      && (o.response.success ==>
            FacilityAdded(t, o, RemoteFacilityValues(f, locationId, userId), RemoteAmenityIds(f.amenities.GetOr([]))))
      && (Valid(t) ==> Valid(o.tables))
  {
    var v := RemoteFacilityValues(f, locationId, userId);
    if FacilityInsert !in down && v.Ok? && InsertFacilities(t, [v.value]).Ok? {
      var ins := InsertFacilities(t, [v.value]).value;
      InsertOneFacility(t, v.value);
      if Valid(t) {
        InsertFacilitiesKeepsValid(t, [v.value]);
      }
      RemoteAmenitiesEffect(ins.tables, f, ins.ids[0], down);
      if RemoteAmenities(ins.tables, f, ins.ids[0], down).response.success {
        RemoteAmenitiesLinks(ins.tables, f, ins.ids[0], down);
      }
      if Valid(t) {
        RemoteAmenitiesValid(ins.tables, f, ins.ids[0], down);
      }
    }
  }

  /** The amenity steps only add links. */
  lemma LocalAmenitiesGrow(t: Snapshot, f: FormData, facilityId: int, down: set<Statement>)
    ensures Grows(t, LocalAmenities(t, f, facilityId, down).tables)
  {
    LocalAmenitiesEffect(t, f, facilityId, down);
    if LocalAmenities(t, f, facilityId, down).response.success {
      LocalAmenitiesLinks(t, f, facilityId, down);
    }
  }

  lemma RemoteAmenitiesGrow(t: Snapshot, f: FormData, facilityId: int, down: set<Statement>)
    ensures Grows(t, RemoteAmenities(t, f, facilityId, down).tables)
  {
    RemoteAmenitiesEffect(t, f, facilityId, down);
    if RemoteAmenities(t, f, facilityId, down).response.success {
      RemoteAmenitiesLinks(t, f, facilityId, down);
    }
  }

  /** A one-row facility insert only adds. */
  lemma InsertOneFacilityGrows(t: Snapshot, v: FacilityValues)
    requires InsertFacilities(t, [v]).Ok?
    ensures Grows(t, InsertFacilities(t, [v]).value.tables)
  {
    InsertOneFacility(t, v);
  }

  lemma GrowsTransitive(t: Snapshot, mid: Snapshot, u: Snapshot)
    requires Grows(t, mid) && Grows(mid, u)
    ensures Grows(t, u)
  {
  }

  /** The facility steps never remove or change a row that was there: a later failure undoes nothing. */
  lemma LocalFacilityGrows(t: Snapshot, f: FormData, userId: string, locationId: int, down: set<Statement>)
    ensures Grows(t, LocalFacility(t, f, userId, locationId, down).tables)
  {
    var v := LocalFacilityValues(f, locationId, userId);
    if FacilityInsert !in down && v.Ok? && InsertFacilities(t, [v.value]).Ok? {
      var ins := InsertFacilities(t, [v.value]).value;
      InsertOneFacilityGrows(t, v.value);
      if ins.ids[0] != 0 {
        LocalAmenitiesGrow(ins.tables, f, ins.ids[0], down);
        GrowsTransitive(t, ins.tables, LocalAmenities(ins.tables, f, ins.ids[0], down).tables);
      }
    }
  }

  lemma RemoteFacilityGrows(t: Snapshot, f: FormData, userId: string, locationId: int, down: set<Statement>)
    ensures Grows(t, RemoteFacility(t, f, userId, locationId, down).tables)
  {
    var v := RemoteFacilityValues(f, locationId, userId);
    if FacilityInsert !in down && v.Ok? && InsertFacilities(t, [v.value]).Ok? {
      var ins := InsertFacilities(t, [v.value]).value;
      InsertOneFacilityGrows(t, v.value);
      RemoteAmenitiesGrow(ins.tables, f, ins.ids[0], down);
      GrowsTransitive(t, ins.tables, RemoteAmenities(ins.tables, f, ins.ids[0], down).tables);
    }
  }

  /** A one-row location insert only adds. */
  lemma InsertOneLocationGrows(t: Snapshot, v: LocationValues)
    requires InsertLocations(t, [v]).Ok?
    ensures Grows(t, InsertLocations(t, [v]).value.tables)
  {
    InsertOneLocation(t, v);
  }

  /** Whatever step fails, nothing an earlier step inserted is taken back. */
  lemma SubmitLocalGrows(t: Snapshot, f: FormData, userId: string, down: set<Statement>)
    ensures Grows(t, SubmitLocal(t, f, userId, down).tables)
  {
    var out := SubmitLocal(t, f, userId, down);
    var existing := LocalLookup(t, f.address);
    if LocationLookup in down {
      assert out.tables == t;
    } else if existing.Some? && existing.value != 0 {
      assert out == LocalFacility(t, f, userId, existing.value, down);
      LocalFacilityGrows(t, f, userId, existing.value, down);
    } else if LocationInsert in down || InsertLocations(t, [LocalLocationValues(f)]).Err? {
      assert out.tables == t;
    } else {
      var ins := InsertLocations(t, [LocalLocationValues(f)]).value;
      InsertOneLocationGrows(t, LocalLocationValues(f));
      if ins.ids[0] == 0 {
        assert out.tables == ins.tables;
      } else {
        assert out == LocalFacility(ins.tables, f, userId, ins.ids[0], down);
        LocalFacilityGrows(ins.tables, f, userId, ins.ids[0], down);
        GrowsTransitive(t, ins.tables, out.tables);
      }
    }
  }

  lemma SubmitRemoteGrows(t: Snapshot, f: FormData, userId: string, down: set<Statement>)
    ensures Grows(t, SubmitRemote(t, f, userId, down).tables)
  {
    var out := SubmitRemote(t, f, userId, down);
    var existing := RemoteLookup(t, f.address);
    if LocationLookup in down {
      assert out.tables == t;
    } else if existing.Some? && existing.value != 0 {
      assert out == RemoteFacility(t, f, userId, existing.value, down);
      RemoteFacilityGrows(t, f, userId, existing.value, down);
    } else if LocationInsert in down || InsertLocations(t, [RemoteLocationValues(f)]).Err? {
      assert out.tables == t;
    } else {
      var ins := InsertLocations(t, [RemoteLocationValues(f)]).value;
      assert out == RemoteFacility(ins.tables, f, userId, ins.ids[0], down);
      InsertOneLocationGrows(t, RemoteLocationValues(f));
      RemoteFacilityGrows(ins.tables, f, userId, ins.ids[0], down);
      GrowsTransitive(t, ins.tables, out.tables);
    }
  }

  /**
   * The stored flags: the local path stores false for every flag not given as
   * true and NULL for empty texts; the remote path leaves absent flags to the
   * column defaults (a changing station unless told otherwise).
   */
  lemma StoredFlags(f: FormData, locationId: int, userId: string)
    ensures var r := LocalFacilityValues(f, locationId, userId);
      r.Ok? && CheckFacility(r.value).Ok? ==>
        var row := CheckFacility(r.value).value;
        && row.hasDiaperChangingStation == Some(f.hasDiaperChangingStation == Some(true))
        && row.hasLactationRoom == Some(f.hasLactationRoom == Some(true))
        && row.femalesOnly == Some(f.femalesOnly == Some(true))
        && row.floor == OrNull(f.floor) && row.description == OrNull(f.description) && row.howToAccess == OrNull(f.howToAccess)
    ensures var r := RemoteFacilityValues(f, locationId, userId);
      r.Ok? && CheckFacility(r.value).Ok? ==>
        var row := CheckFacility(r.value).value;
        && row.hasDiaperChangingStation == Some(f.hasDiaperChangingStation.GetOr(true))
        && row.hasLactationRoom == Some(f.hasLactationRoom.GetOr(false))
        && row.femalesOnly == Some(f.femalesOnly.GetOr(false))
        && row.floor == f.floor && row.description == f.description && row.howToAccess == f.howToAccess
  {
  }

  /** `t` with the checked row of `v` stored under the next location id, as a one-row INSERT leaves it. */
  ghost function WithLocation(t: Snapshot, v: LocationValues): Snapshot {
    if CheckLocation(v).Ok? then
      t.(locations := t.locations[t.locationSeq := CheckLocation(v).value], locationSeq := t.locationSeq + 1)
    else t
  }

  /**
   * A successful local submission either reuses the first location with the
   * submitted address, leaving the locations as they were, or, when there is
   * none, stores exactly one new location under the next id; then it adds one
   * facility at that location together with its links.
   */
  lemma SubmitLocalSucceeds(t: Snapshot, f: FormData, userId: string, down: set<Statement>)
    requires SubmitLocal(t, f, userId, down).response.success
    ensures var o := SubmitLocal(t, f, userId, down);
      var existing := LocalLookup(t, f.address);
      var ids := LocalAmenityIds(f.amenities.GetOr([]));
      if existing.Some? && existing.value != 0 then
        FacilityAdded(t, o, LocalFacilityValues(f, existing.value, userId), ids)
      else
        && CheckLocation(LocalLocationValues(f)).Ok? && t.locationSeq !in t.locations
        && FacilityAdded(WithLocation(t, LocalLocationValues(f)), o, LocalFacilityValues(f, t.locationSeq, userId), ids)
  {
    var existing := LocalLookup(t, f.address);
    if existing.Some? && existing.value != 0 {
      LocalFacilityEffect(t, f, userId, existing.value, down);
    } else {
      InsertOneLocation(t, LocalLocationValues(f));
      var ins := InsertLocations(t, [LocalLocationValues(f)]).value;
      LocalFacilityEffect(ins.tables, f, userId, ins.ids[0], down);
    }
  }

  /**
   * A successful remote submission reuses a location only when exactly one
   * has the submitted address; with none or several it stores one new
   * location; then it adds one facility at that location together with its links.
   */
  lemma SubmitRemoteSucceeds(t: Snapshot, f: FormData, userId: string, down: set<Statement>)
    requires SubmitRemote(t, f, userId, down).response.success
    ensures var o := SubmitRemote(t, f, userId, down);
      var existing := RemoteLookup(t, f.address);
      var ids := RemoteAmenityIds(f.amenities.GetOr([]));
      if existing.Some? && existing.value != 0 then
        FacilityAdded(t, o, RemoteFacilityValues(f, existing.value, userId), ids)
      else
        && CheckLocation(RemoteLocationValues(f)).Ok? && t.locationSeq !in t.locations
        && FacilityAdded(WithLocation(t, RemoteLocationValues(f)), o, RemoteFacilityValues(f, t.locationSeq, userId), ids)
  {
    var existing := RemoteLookup(t, f.address);
    if existing.Some? && existing.value != 0 {
      RemoteFacilityEffect(t, f, userId, existing.value, down);
    } else {
      InsertOneLocation(t, RemoteLocationValues(f));
      var ins := InsertLocations(t, [RemoteLocationValues(f)]).value;
      RemoteFacilityEffect(ins.tables, f, userId, ins.ids[0], down);
    }
  }

  /** Neither path ever breaks the schema's invariants, whether it succeeds or stops half way. */
  lemma SubmitLocalKeepsValid(t: Snapshot, f: FormData, userId: string, down: set<Statement>)
    requires Valid(t)
    ensures Valid(SubmitLocal(t, f, userId, down).tables)
  {
    var existing := LocalLookup(t, f.address);
    if existing.Some? && existing.value != 0 {
      LocalFacilityEffect(t, f, userId, existing.value, down);
    } else if LocationInsert !in down && InsertLocations(t, [LocalLocationValues(f)]).Ok? {
      var ins := InsertLocations(t, [LocalLocationValues(f)]).value;
      InsertLocationsKeepsValid(t, [LocalLocationValues(f)]);
      LocalFacilityEffect(ins.tables, f, userId, ins.ids[0], down);
    }
  }

  lemma SubmitRemoteKeepsValid(t: Snapshot, f: FormData, userId: string, down: set<Statement>)
    requires Valid(t)
    ensures Valid(SubmitRemote(t, f, userId, down).tables)
  {
    var existing := RemoteLookup(t, f.address);
    if existing.Some? && existing.value != 0 {
      RemoteFacilityEffect(t, f, userId, existing.value, down);
    } else if LocationInsert !in down && InsertLocations(t, [RemoteLocationValues(f)]).Ok? {
      var ins := InsertLocations(t, [RemoteLocationValues(f)]).value;
      InsertLocationsKeepsValid(t, [RemoteLocationValues(f)]);
      RemoteFacilityEffect(ins.tables, f, userId, ins.ids[0], down);
    }
  }

  // ---------------------------------------------------------------- the handler

  /** What the handler answers and leaves in the database, for one request. */
  ghost function Submit(t: Snapshot, req: Request, env: SupabaseEnv, down: set<Statement>): Outcome {
    if req.verb != "POST" then Outcome(MethodNotAllowed, t)
    else
      var body := req.body.GetOr(Body(None, None));
      if body.formData.None? || !Truthy(body.userId) then Outcome(MissingInput, t)
      else if SupabaseConfigured(env) then SubmitRemote(t, body.formData.value, body.userId.value, down)
      else SubmitLocal(t, body.formData.value, body.userId.value, down)
  }


  /**
   * `o` answers 200 with the id of exactly one facility that `t` did not
   * have; every other facility is as in `t`, and the new one was created by
   * `userId` at a location present afterwards.
   */
  ghost predicate OneFacilityAdded(t: Snapshot, o: Outcome, userId: string) {
    && o.response.facilityId.Some?
    && o.response == Response(200, true, Added, o.response.facilityId)
    && var id := o.response.facilityId.value;
    && id !in t.facilities && id in o.tables.facilities
    && o.tables.facilities == t.facilities[id := o.tables.facilities[id]]
    && o.tables.facilities[id].createdBy == userId
    && o.tables.facilities[id].locationId in o.tables.locations
  }

  lemma AddedIsOne(t: Snapshot, mid: Snapshot, o: Outcome, v: Result<FacilityValues, DbError>, ids: seq<int>, userId: string)
    requires FacilityAdded(mid, o, v, ids) && Grows(mid, o.tables) && mid.facilities == t.facilities
    requires v.Ok? && v.value.createdBy == Some(userId)
    ensures OneFacilityAdded(t, o, userId)
  {
    var id := o.response.facilityId.value;
    assert o.tables.facilities[id] == CheckFacility(v.value).value;
  }

  /** The branch of SubmitLocalAddsOne that stores a new location first. */
  lemma SubmitLocalAddsOneNew(t: Snapshot, f: FormData, userId: string, down: set<Statement>)
    requires InsertLocations(t, [LocalLocationValues(f)]).Ok?
    requires SubmitLocal(t, f, userId, down) == LocalFacility(InsertLocations(t, [LocalLocationValues(f)]).value.tables, f, userId, t.locationSeq, down)
    requires SubmitLocal(t, f, userId, down).response.success
    requires FacilityAdded(WithLocation(t, LocalLocationValues(f)), SubmitLocal(t, f, userId, down), LocalFacilityValues(f, t.locationSeq, userId),
                           LocalAmenityIds(f.amenities.GetOr([])))
    ensures OneFacilityAdded(t, SubmitLocal(t, f, userId, down), userId)
  {
    var mid := WithLocation(t, LocalLocationValues(f));
    InsertOneLocation(t, LocalLocationValues(f));
    LocalFacilityGrows(mid, f, userId, t.locationSeq, down);
    AddedIsOne(t, mid, SubmitLocal(t, f, userId, down), LocalFacilityValues(f, t.locationSeq, userId),
               LocalAmenityIds(f.amenities.GetOr([])), userId);
  }

  lemma SubmitLocalAddsOne(t: Snapshot, f: FormData, userId: string, down: set<Statement>)
    requires SubmitLocal(t, f, userId, down).response.success
    ensures OneFacilityAdded(t, SubmitLocal(t, f, userId, down), userId)
  {
    var o := SubmitLocal(t, f, userId, down);
    var existing := LocalLookup(t, f.address);
    var ids := LocalAmenityIds(f.amenities.GetOr([]));
    SubmitLocalSucceeds(t, f, userId, down);
    if existing.Some? && existing.value != 0 {
      LocalFacilityGrows(t, f, userId, existing.value, down);
      AddedIsOne(t, t, o, LocalFacilityValues(f, existing.value, userId), ids, userId);
    } else {
      SubmitLocalAddsOneNew(t, f, userId, down);
    }
  }

  /** The branch of SubmitRemoteAddsOne that stores a new location first. */
  lemma SubmitRemoteAddsOneNew(t: Snapshot, f: FormData, userId: string, down: set<Statement>)
    requires InsertLocations(t, [RemoteLocationValues(f)]).Ok?
    requires SubmitRemote(t, f, userId, down) == RemoteFacility(InsertLocations(t, [RemoteLocationValues(f)]).value.tables, f, userId, t.locationSeq, down)
    requires SubmitRemote(t, f, userId, down).response.success
    requires FacilityAdded(WithLocation(t, RemoteLocationValues(f)), SubmitRemote(t, f, userId, down), RemoteFacilityValues(f, t.locationSeq, userId),
                           RemoteAmenityIds(f.amenities.GetOr([])))
    ensures OneFacilityAdded(t, SubmitRemote(t, f, userId, down), userId)
  {
    var mid := WithLocation(t, RemoteLocationValues(f));
    InsertOneLocation(t, RemoteLocationValues(f));
    RemoteFacilityGrows(mid, f, userId, t.locationSeq, down);
    AddedIsOne(t, mid, SubmitRemote(t, f, userId, down), RemoteFacilityValues(f, t.locationSeq, userId),
               RemoteAmenityIds(f.amenities.GetOr([])), userId);
  }

  lemma SubmitRemoteAddsOne(t: Snapshot, f: FormData, userId: string, down: set<Statement>)
    requires SubmitRemote(t, f, userId, down).response.success
    ensures OneFacilityAdded(t, SubmitRemote(t, f, userId, down), userId)
  {
    var o := SubmitRemote(t, f, userId, down);
    var existing := RemoteLookup(t, f.address);
    var ids := RemoteAmenityIds(f.amenities.GetOr([]));
    SubmitRemoteSucceeds(t, f, userId, down);
    if existing.Some? && existing.value != 0 {
      RemoteFacilityGrows(t, f, userId, existing.value, down);
      AddedIsOne(t, t, o, RemoteFacilityValues(f, existing.value, userId), ids, userId);
    } else {
      SubmitRemoteAddsOneNew(t, f, userId, down);
    }
  }

  /** A successful request was a POST with form data and a user id, and it added exactly one facility, created by that user. */
  lemma SubmitAddsOneFacility(t: Snapshot, req: Request, env: SupabaseEnv, down: set<Statement>)
    requires Submit(t, req, env, down).response.success
    ensures req.verb == "POST" && req.body.Some? && req.body.value.formData.Some? && Truthy(req.body.value.userId)
    ensures OneFacilityAdded(t, Submit(t, req, env, down), req.body.value.userId.value)
  {
    var body := req.body.GetOr(Body(None, None));
    if SupabaseConfigured(env) {
      SubmitRemoteAddsOne(t, body.formData.value, body.userId.value, down);
    } else {
      SubmitLocalAddsOne(t, body.formData.value, body.userId.value, down);
    }
  }

  /** Every request leaves a valid database valid, whatever step fails. */
  lemma SubmitKeepsValid(t: Snapshot, req: Request, env: SupabaseEnv, down: set<Statement>)
    requires Valid(t)
    ensures Valid(Submit(t, req, env, down).tables)
  {
    var body := req.body.GetOr(Body(None, None));
    if req.verb == "POST" && body.formData.Some? && Truthy(body.userId) {
      if SupabaseConfigured(env) {
        SubmitRemoteKeepsValid(t, body.formData.value, body.userId.value, down);
      } else {
        SubmitLocalKeepsValid(t, body.formData.value, body.userId.value, down);
      }
    }
  }

  /** No request removes or changes a row: a step that fails does not undo the inserts before it. */
  lemma SubmitGrows(t: Snapshot, req: Request, env: SupabaseEnv, down: set<Statement>)
    ensures Grows(t, Submit(t, req, env, down).tables)
  {
    var body := req.body.GetOr(Body(None, None));
    if req.verb == "POST" && body.formData.Some? && Truthy(body.userId) {
      if SupabaseConfigured(env) {
        SubmitRemoteGrows(t, body.formData.value, body.userId.value, down);
      } else {
        SubmitLocalGrows(t, body.formData.value, body.userId.value, down);
      }
    }
  }

  /** POST /api/submitFacility against the database `db`. */
  method Handler(db: Database, req: Request, env: SupabaseEnv, down: set<Statement>) returns (res: Response)
    modifies db
    ensures Outcome(res, db.State()) == Submit(old(db.State()), req, env, down)
    ensures req.verb != "POST" ==> res == MethodNotAllowed && res.status == 405 && db.State() == old(db.State())
    ensures req.verb == "POST" && (req.body.None? || req.body.value.formData.None? || !Truthy(req.body.value.userId))
            ==> res == MissingInput && res.status == 400 && db.State() == old(db.State())
    ensures req.verb == "POST" && req.body.Some? && req.body.value.formData.Some? && Truthy(req.body.value.userId)
            && LocationLookup in down
            ==> res.status == 500 && !res.success && db.State() == old(db.State())
  {
    if req.verb != "POST" {
      return MethodNotAllowed;
    }
    var body := req.body.GetOr(Body(None, None));
    if body.formData.None? || !Truthy(body.userId) {
      return MissingInput;
    }
    if SupabaseConfigured(env) {
      res := HandleRemote(db, body.formData.value, body.userId.value, down);
    } else {
      res := HandleLocal(db, body.formData.value, body.userId.value, down);
    }
  }

  method HandleRemote(db: Database, f: FormData, userId: string, down: set<Statement>) returns (res: Response)
    modifies db
    ensures Outcome(res, db.State()) == SubmitRemote(old(db.State()), f, userId, down)
  {
    if LocationLookup in down {
      return Failure(db.State(), "Failed to check the location.").response;
    }
    var matches := LocationsAt(db.State(), f.address.GetOr("undefined"));
    var existing: Option<int> := None;
    if |matches| == 1 {
      existing := db.PickFirst(matches);
    }
    assert existing == RemoteLookup(db.State(), f.address);
    var locationId: int;
    if existing.Some? && existing.value != 0 {
      locationId := existing.value;
    } else {
      if LocationInsert in down {
        return Failure(db.State(), "Failed to create the location.").response;
      }
      var inserted := db.InsertLocations([RemoteLocationValues(f)]);
      if inserted.Err? {
        return Failure(db.State(), "Failed to create the location.").response;
      }
      locationId := inserted.value[0];
    }
    res := RemoteInsertFacility(db, f, userId, locationId, down);
  }

  method RemoteInsertFacility(db: Database, f: FormData, userId: string, locationId: int, down: set<Statement>)
    returns (res: Response)
    modifies db
    ensures Outcome(res, db.State()) == RemoteFacility(old(db.State()), f, userId, locationId, down)
  {
    if FacilityInsert in down {
      return Failure(db.State(), "Failed to submit the facility.").response;
    }
    var values := RemoteFacilityValues(f, locationId, userId);
    if values.Err? {
      return Failure(db.State(), "Failed to submit the facility.").response;
    }
    var inserted := db.InsertFacilities([values.value]);
    if inserted.Err? {
      return Failure(db.State(), "Failed to submit the facility.").response;
    }
    var facilityId := inserted.value[0];
    var amenities := f.amenities.GetOr([]);
    if |amenities| > 0 {
      if AmenityInsert in down {
        return Failure(db.State(), "Failed to submit the facility amenities.").response;
      }
      var rows := RemoteLinkValues(facilityId, amenities, f.amenityQuantities);
      if rows.Err? {
        return Failure(db.State(), "Failed to submit the facility amenities.").response;
      }
      var linked := db.InsertLinks(rows.value);
      if linked.Err? {
        return Failure(db.State(), "Failed to submit the facility amenities.").response;
      }
    }
    res := Success(db.State(), facilityId).response;
  }

  method HandleLocal(db: Database, f: FormData, userId: string, down: set<Statement>) returns (res: Response)
    modifies db
    ensures Outcome(res, db.State()) == SubmitLocal(old(db.State()), f, userId, down)
  {
    if LocationLookup in down {
      return Failure(db.State(), Unexpected).response;
    }
    var existing: Option<int> := None;
    if f.address.Some? {
      existing := db.FirstLocationAt(f.address.value);
    }
    var locationId: int;
    if existing.Some? && existing.value != 0 {
      locationId := existing.value;
    } else {
      if LocationInsert in down {
        return Failure(db.State(), Unexpected).response;
      }
      var inserted := db.InsertLocations([LocalLocationValues(f)]);
      if inserted.Err? {
        return Failure(db.State(), Unexpected).response;
      }
      locationId := inserted.value[0];
      if locationId == 0 {
        return Failure(db.State(), "Failed to resolve location.").response;
      }
    }
    res := LocalInsertFacility(db, f, userId, locationId, down);
  }

  method LocalInsertFacility(db: Database, f: FormData, userId: string, locationId: int, down: set<Statement>)
    returns (res: Response)
    modifies db
    ensures Outcome(res, db.State()) == LocalFacility(old(db.State()), f, userId, locationId, down)
  {
    if FacilityInsert in down {
      return Failure(db.State(), Unexpected).response;
    }
    var values := LocalFacilityValues(f, locationId, userId);
    if values.Err? {
      return Failure(db.State(), Unexpected).response;
    }
    var inserted := db.InsertFacilities([values.value]);
    if inserted.Err? {
      return Failure(db.State(), Unexpected).response;
    }
    var facilityId := inserted.value[0];
    if facilityId == 0 {
      return Failure(db.State(), "Failed to create facility.").response;
    }
    var amenityIds := LocalAmenityIds(f.amenities.GetOr([]));
    if |amenityIds| > 0 {
      if AmenityInsert in down {
        return Failure(db.State(), Unexpected).response;
      }
      var linked := db.InsertLinks(LocalLinkValues(facilityId, amenityIds, f.amenityQuantities));
      if linked.Err? {
        return Failure(db.State(), Unexpected).response;
      }
    }
    res := Success(db.State(), facilityId).response;
  }
}
