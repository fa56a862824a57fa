/** One line of a facility's amenity list: an icon chosen by name, the name, and a quantity badge. */
module AmenityItem {
  import opened Wrappers

  /** `toLowerCase` on one character; letters outside A to Z are left as they are. */
  function LowerChar(c: char): char {
    if 'A' <= c <= 'Z' then (c as int + 32) as char else c
  }

  function Lower(s: string): (r: string)
    ensures |r| == |s|
    ensures forall i :: 0 <= i < |s| ==> r[i] == LowerChar(s[i])
  {
    seq(|s|, i requires 0 <= i < |s| => LowerChar(s[i]))
  }

  /** Lower-casing twice is lower-casing once. */
  lemma LowerIdempotent(s: string)
    ensures Lower(Lower(s)) == Lower(s)
  {
    assert forall i :: 0 <= i < |s| ==> LowerChar(LowerChar(s[i])) == LowerChar(s[i]);
  }

  datatype AmenityIcon = Faucet | Coffee | Snowflake | BabyChangingStation | Diaper | TowelFolded | Wifi | Trash | Plug | BottleBaby | Sofa | XCircle

  /** The amenity names that have an icon, as written in the switch. */
  const KnownAmenities: seq<string> := [
    "sink", "hot water dispenser", "cold water dispenser", "diaper changing station", "diaper dispenser",
    "bed linen dispenser", "wifi", "trash bin", "electrical outlet", "lactation room", "bench"]

  /** The icon for a lower-case name. */
  function IconForLower(n: string): AmenityIcon {
    if n == "sink" then Faucet
    else if n == "hot water dispenser" then Coffee
    else if n == "cold water dispenser" then Snowflake
    else if n == "diaper changing station" then BabyChangingStation
    else if n == "diaper dispenser" then Diaper
    else if n == "bed linen dispenser" then TowelFolded
    else if n == "wifi" then Wifi
    else if n == "trash bin" then Trash
    else if n == "electrical outlet" then Plug
    else if n == "lactation room" then BottleBaby
    else if n == "bench" then Sofa
    else XCircle
  }

  /** `getAmenityIcon` */
  function IconFor(name: string): AmenityIcon {
    IconForLower(Lower(name))
  }

  /**
   * The icon ignores case: names that lower-case alike get the same icon,
   * and a name gets a real icon exactly when its lower-case form is one of
   * the eleven known names, each of which has its own icon.
   */
  lemma IconIgnoresCase(a: string, b: string)
    ensures Lower(a) == Lower(b) ==> IconFor(a) == IconFor(b)
    ensures IconFor(Lower(a)) == IconFor(a)
    ensures IconFor(a) != XCircle <==> Lower(a) in KnownAmenities
  {
    LowerIdempotent(a);
  }

  /** The eleven known names have eleven different icons. */
  lemma KnownIconsDistinct(i: int, j: int)
    requires 0 <= i < |KnownAmenities| && 0 <= j < |KnownAmenities|
    requires IconForLower(KnownAmenities[i]) == IconForLower(KnownAmenities[j])
    ensures i == j
  {
  }

  /** What the item shows. */
  datatype AmenityView = AmenityView(icon: AmenityIcon, name: string, badge: Option<int>)

  function View(name: string, quantity: int): AmenityView {
    AmenityView(IconFor(name), name, if quantity > 0 then Some(quantity) else None)
  }

  /** The name is shown as given, the badge iff the quantity is positive, and then with that quantity. */
  lemma ViewRule(name: string, quantity: int)
    ensures View(name, quantity).name == name
    ensures View(name, quantity).badge.Some? <==> quantity > 0
    ensures View(name, quantity).badge.Some? ==> View(name, quantity).badge.value == quantity
    ensures View(Lower(name), quantity).icon == View(name, quantity).icon
  {
    LowerIdempotent(name);
  }
}
