/** The facility summary card of the explore list: its title, floor badge, icon and link. */
module FacilityCard {
  import opened Wrappers
  import opened JsValues

  /** The icons a facility type can show. */
  datatype FacilityIcon = BottleBaby | BabyChangingStation | Baby | Accessible | FamilyRestroom | Woman | Man | Wc | CircleHelp

  /** `getFacilityIcon`: an exact match on the type name, with the help icon for any other name. */
  function IconFor(typeName: string): FacilityIcon {
    if typeName == "Lactation Room" then BottleBaby
    else if typeName == "Diaper Changing Station" then BabyChangingStation
    else if typeName == "Baby Room" then Baby
    else if typeName == "Restroom (Accessible)" then Accessible
    else if typeName == "Restroom (Family)" then FamilyRestroom
    else if typeName == "Restroom (Ladies)" then Woman
    else if typeName == "Restroom (Men's)" then Man
    else if typeName == "Restroom (Unisex)" then Wc
    else CircleHelp
  }

  /** The type name that selects an icon; the help icon stands for every other name. */
  function NameOf(icon: FacilityIcon): Option<string> {
    match icon
    case BottleBaby => Some("Lactation Room")
    case BabyChangingStation => Some("Diaper Changing Station")
    case Baby => Some("Baby Room")
    case Accessible => Some("Restroom (Accessible)")
    case FamilyRestroom => Some("Restroom (Family)")
    case Woman => Some("Restroom (Ladies)")
    case Man => Some("Restroom (Men's)")
    case Wc => Some("Restroom (Unisex)")
    case CircleHelp => None
  }

  /** Each of the eight names selects its own icon and no other name does: the choice is exact, not by case or prefix. */
  lemma IconRoundTrip(typeName: string, icon: FacilityIcon)
    ensures IconFor(typeName) != CircleHelp <==> NameOf(IconFor(typeName)) == Some(typeName)
    ensures icon != CircleHelp ==> NameOf(icon).Some? && IconFor(NameOf(icon).value) == icon
  {
  }

  /** The title: the building when there is one, else block and road, else the full address. */
  function Title(building: Option<string>, block: Option<string>, road: Option<string>, address: string): string {
    if Truthy(building) then building.value
    else if Truthy(block) then block.value + " " + TemplateText(road)
    else address
  }

  /** `${v}` for an optional field: a missing road reads `undefined`. */
  function TemplateText(v: Option<string>): string {
    v.GetOr("undefined")
  }

  /** Which of the three rules chose the title. */
  lemma TitleRule(building: Option<string>, block: Option<string>, road: string, address: string)
    ensures var t := Title(building, block, Some(road), address);
      && (Truthy(building) ==> t == building.value)
      && (!Truthy(building) && Truthy(block) ==> t == block.value + " " + road)
      && (!Truthy(building) && !Truthy(block) ==> t == address)
  {
  }

  /** The floor badge shows iff the floor is a non-empty text. */
  predicate ShowsFloorBadge(floor: Option<string>) {
    Truthy(floor)
  }

  /** A missing or empty floor shows no badge; any other floor text does. */
  lemma FloorBadgeRule(floor: Option<string>)
    ensures ShowsFloorBadge(floor) <==> floor.Some? && |floor.value| > 0
    ensures !ShowsFloorBadge(None) && !ShowsFloorBadge(Some(""))
  {
  }

  /** The card's link. */
  function Href(facilityId: int): string {
    "/facility/" + IntToString(facilityId)
  }

  /** Different facilities' cards link to different pages, and each link names its facility's id. */
  lemma HrefNamesFacility(a: int, b: int)
    ensures Href(a)[|"/facility/"|..] == IntToString(a)
    ensures Href(a) == Href(b) <==> a == b
  {
    var k := |"/facility/"|;
    assert Href(a)[k..] == IntToString(a);
    assert Href(b)[k..] == IntToString(b);
    IntToStringRoundTrip(a);
    IntToStringRoundTrip(b);
  }
}
