/**
 * Addresses as the app stores them, and the conversion of a OneMap search
 * result (Singapore's address service, which writes `NIL` for an absent
 * building or block) into one.
 */
module OneMap {
  import opened Wrappers

  /** The number `Number.parseFloat` reads from `text`; floating point is not modelled. */
  datatype Coordinate = ParseFloat(text: string)

  datatype Address = Address(
    building: Option<string>,
    block: Option<string>,
    road: string,
    address: string,
    postalCode: string,
    latitude: Coordinate,
    longitude: Coordinate)

  /** One result of the address search, as the service sends it; `LONGTITUDE` is a misspelt duplicate some answers carry. */
  datatype OneMapResult = OneMapResult(
    searchVal: string,
    blkNo: string,
    roadName: string,
    building: string,
    address: string,
    postal: string,
    x: string,
    y: string,
    latitude: string,
    longitude: string,
    longtitude: Option<string>)

  /** `v !== 'NIL' ? v : null` */
  function NilToNull(v: string): Option<string> {
    if v != "NIL" then Some(v) else None
  }

  /** The service's spelling of an optional field: null is written `NIL`. */
  function NullToNil(v: Option<string>): string {
    match v
    case None => "NIL"
    case Some(s) => s
  }

  /** Reading a field the service wrote and writing it back gives the same text. */
  lemma NilRoundTrip(v: string)
    ensures NullToNil(NilToNull(v)) == v
  {
  }

  /** The other way round, for every value but the literal text `NIL`, which reads back as null. */
  lemma NullRoundTrip(v: Option<string>)
    ensures NilToNull(NullToNil(v)) == v <==> v != Some("NIL")
  {
  }

  /** `mapOneMapToAddress` */
  function MapOneMapToAddress(r: OneMapResult): Address {
    Address(
      NilToNull(r.building),
      NilToNull(r.blkNo),
      r.roadName,
      r.address,
      r.postal,
      ParseFloat(r.latitude),
      ParseFloat(r.longitude))
  }

  /**
   * Building and block become null exactly when the service wrote `NIL` and
   * are copied otherwise; road, address and postal code are copied even when
   * they read `NIL`; the coordinates come from `LATITUDE` and `LONGITUDE`,
   * and the misspelt field plays no part.
   */
  lemma MapOneMapFields(r: OneMapResult, typo: Option<string>)
    ensures var a := MapOneMapToAddress(r);
      && (a.building.None? <==> r.building == "NIL")
      && (a.building.Some? ==> a.building.value == r.building)
      && (a.block.None? <==> r.blkNo == "NIL")
      && (a.block.Some? ==> a.block.value == r.blkNo)
      && a.road == r.roadName && a.address == r.address && a.postalCode == r.postal
      && a.latitude.text == r.latitude && a.longitude.text == r.longitude
      && MapOneMapToAddress(r.(longtitude := typo)) == a
  {
  }
}
