/** `Place`: a search result. Built from a map item (name default, address
    line, derived id) or field by field; two places are equal when their
    ids are. Also the coordinate's `Codable` conformance. */
module Places {
  import opened Support
  import opened Foundation

  /** The fields of an `MKMapItem` the app reads. */
  datatype MapItem = MapItem(
    name: Option<string>,
    coordinate: Coordinate,
    subThoroughfare: Option<string>,
    thoroughfare: Option<string>,
    locality: Option<string>,
    phoneNumber: Option<string>,
    pointOfInterestCategory: Option<string>)

  datatype Place = Place(
    id: string,
    name: string,
    subtitle: string,
    coordinate: Coordinate,
    phoneNumber: Option<string>,
    hours: Option<string>,
    category: Option<string>)

  /** The address line: the present components among street number, street
      and locality, in that order, joined with ", ". */
  function AddressLine(item: MapItem): string {
    Join(Present([item.subThoroughfare, item.thoroughfare, item.locality]), ", ")
  }

  /** `"\(lat),\(lon)|\(name ?? "")"`. How a double is rendered as text is
      the platform's business, so it is the `describe` parameter. */
  function PlaceId(item: MapItem, describe: Float64 -> string): string {
    describe(item.coordinate.latitude) + "," + describe(item.coordinate.longitude) + "|" + item.name.GetOr("")
  }

  /** `init(mapItem:)` */
  function PlaceOf(item: MapItem, describe: Float64 -> string): Place {
    Place(
      PlaceId(item, describe),
      item.name.GetOr("Unknown"),
      AddressLine(item),
      item.coordinate,
      item.phoneNumber,
      None,
      item.pointOfInterestCategory)
  }

  /** `items.map { Place(mapItem: $0) }` */
  function PlacesOf(items: seq<MapItem>, describe: Float64 -> string): (r: seq<Place>)
    ensures |r| == |items|
    ensures forall i :: 0 <= i < |items| ==> r[i] == PlaceOf(items[i], describe)
    decreases |items|
  {
    if items == [] then [] else [PlaceOf(items[0], describe)] + PlacesOf(items[1..], describe)
  }

  /** The memberwise initializer; the optional fields default to nil. The
      source's default id is a fresh UUID, which the caller supplies here. */
  function NewPlace(id: string, name: string, subtitle: string, coordinate: Coordinate,
                    phoneNumber: Option<string> := None, hours: Option<string> := None,
                    category: Option<string> := None): (p: Place)
    ensures p.id == id && p.name == name && p.subtitle == subtitle && p.coordinate == coordinate
    ensures p.phoneNumber == phoneNumber && p.hours == hours && p.category == category
  {
    Place(id, name, subtitle, coordinate, phoneNumber, hours, category)
  }

  /** `==`: places compare by id only. */
  predicate SamePlace(a: Place, b: Place) {
    a.id == b.id
  }

  // ---------------------------------------------------------------------
  // Properties of places built from map items

  /** A missing name shows as "Unknown"; hours are never known; the category
      is the point-of-interest category; coordinate and phone are copied. */
  lemma PlaceOfFields(item: MapItem, describe: Float64 -> string)
    ensures PlaceOf(item, describe).name == (if item.name.Some? then item.name.value else "Unknown")
    ensures PlaceOf(item, describe).hours.None?
    ensures PlaceOf(item, describe).category == item.pointOfInterestCategory
    ensures PlaceOf(item, describe).coordinate == item.coordinate
    ensures PlaceOf(item, describe).phoneNumber == item.phoneNumber
  {
  }

  /** The id ends with "|" and the raw name, which is "" (not "Unknown")
      for an unnamed item. */
  lemma PlaceIdEndsWithRawName(item: MapItem, describe: Float64 -> string)
    ensures var id := PlaceOf(item, describe).id;
            var raw := if item.name.Some? then item.name.value else "";
            |id| > |raw| && id[|id| - |raw| - 1..] == "|" + raw
  {
    var id := PlaceOf(item, describe).id;
    var raw := item.name.GetOr("");
    var head := describe(item.coordinate.latitude) + "," + describe(item.coordinate.longitude);
    assert id == head + ("|" + raw);
    assert id[|head|..] == "|" + raw;
  }

  /** Two map items at the same coordinate with the same name give equal
      places, whatever their addresses, phones and categories. */
  lemma SameCoordinateAndNameCollide(a: MapItem, b: MapItem, describe: Float64 -> string)
    requires a.coordinate == b.coordinate && a.name == b.name
    ensures SamePlace(PlaceOf(a, describe), PlaceOf(b, describe))
  {
  }

  /** An unnamed item and an item named "" at the same coordinate are equal
      places, although one shows "Unknown" and the other "". */
  lemma UnnamedCollidesWithEmptyName(a: MapItem, b: MapItem, describe: Float64 -> string)
    requires a.coordinate == b.coordinate && a.name == None && b.name == Some("")
    ensures SamePlace(PlaceOf(a, describe), PlaceOf(b, describe))
    ensures PlaceOf(a, describe).name == "Unknown" && PlaceOf(b, describe).name == ""
  {
  }

  /** An unnamed item and an item named "Unknown" show the same name but are
      different places. */
  lemma UnnamedDiffersFromUnknown(a: MapItem, b: MapItem, describe: Float64 -> string)
    requires a.coordinate == b.coordinate && a.name == None && b.name == Some("Unknown")
    ensures PlaceOf(a, describe).name == PlaceOf(b, describe).name
    ensures !SamePlace(PlaceOf(a, describe), PlaceOf(b, describe))
  {
    assert |PlaceOf(a, describe).id| < |PlaceOf(b, describe).id|;
  }

  /** Place equality is an equivalence that ignores every field but the id. */
  lemma SamePlaceIsIdEquality(a: Place, b: Place, c: Place)
    ensures SamePlace(a, a)
    ensures SamePlace(a, b) ==> SamePlace(b, a)
    ensures SamePlace(a, b) && SamePlace(b, c) ==> SamePlace(a, c)
    ensures SamePlace(a, b) <==> a.id == b.id
  {
  }

  // ---------------------------------------------------------------------
  // The address line

  lemma ContainsPrefix(hay: string, needle: string)
    requires needle <= hay
    ensures Contains(hay, needle)
  {
  }

  lemma {:induction false} ContainsInSuffix(pre: string, hay: string, needle: string)
    requires Contains(hay, needle)
    ensures Contains(pre + hay, needle)
    decreases |pre|
  {
    if pre != [] {
      assert (pre + hay)[1..] == pre[1..] + hay;
      ContainsInSuffix(pre[1..], hay, needle);
    } else {
      assert pre + hay == hay;
    }
  }

  /** Every part appears in the joined text. */
  lemma {:induction false} JoinContainsParts(parts: seq<string>, sep: string, i: nat)
    requires i < |parts|
    ensures Contains(Join(parts, sep), parts[i])
    decreases |parts|
  {
    if |parts| > 1 {
      if i == 0 {
        ContainsPrefix(Join(parts, sep), parts[0]);
      } else {
        JoinContainsParts(parts[1..], sep, i - 1);
        assert Join(parts, sep) == (parts[0] + sep) + Join(parts[1..], sep);
        ContainsInSuffix(parts[0] + sep, Join(parts[1..], sep), parts[i]);
      }
    } else {
      ContainsPrefix(Join(parts, sep), parts[0]);
    }
  }

  lemma {:induction false} PresentHas<T>(xs: seq<Option<T>>, k: nat)
    requires k < |xs| && xs[k].Some?
    ensures xs[k].value in Present(xs)
    decreases |xs|
  {
    if k > 0 {
      PresentHas(xs[1..], k - 1);
    }
  }

  /** The address line is "" when the item has no address components, holds
      every component that is present, and reads street number, street,
      locality when all three are. */
  lemma AddressLineSpec(item: MapItem)
    ensures item.subThoroughfare.None? && item.thoroughfare.None? && item.locality.None? ==> AddressLine(item) == ""
    ensures forall c :: c in [item.subThoroughfare, item.thoroughfare, item.locality] && c.Some? ==>
              Contains(AddressLine(item), c.value)
    ensures item.subThoroughfare.Some? && item.thoroughfare.Some? && item.locality.Some? ==>
              AddressLine(item) == item.subThoroughfare.value + ", " + item.thoroughfare.value + ", " + item.locality.value
  {
    AddressLineHasComponents(item);
    AddressLineParts(item);
    if item.subThoroughfare.Some? && item.thoroughfare.Some? && item.locality.Some? {
      var parts := [item.subThoroughfare.value, item.thoroughfare.value, item.locality.value];
      assert [item.subThoroughfare.value] + [item.thoroughfare.value] + [item.locality.value] == parts;
      assert AddressLine(item) == Join(parts, ", ");
      assert parts[1..] == [item.thoroughfare.value, item.locality.value];
      assert parts[1..][1..] == [item.locality.value];
      assert Join(parts[1..], ", ") == item.thoroughfare.value + ", " + item.locality.value;
    }
  }

  /** Every present component occurs in the address line. */
  lemma AddressLineHasComponents(item: MapItem)
    ensures forall c :: c in [item.subThoroughfare, item.thoroughfare, item.locality] && c.Some? ==>
              Contains(AddressLine(item), c.value)
  {
    var xs := [item.subThoroughfare, item.thoroughfare, item.locality];
    var parts := Present(xs);
    forall c | c in xs && c.Some? ensures Contains(AddressLine(item), c.value) {
      var k :| 0 <= k < 3 && xs[k] == c;
      PresentHas(xs, k);
      var i :| 0 <= i < |parts| && parts[i] == c.value;
      JoinContainsParts(parts, ", ", i);
    }
  }

  /** The components joined are the present ones, in order. */
  lemma AddressLineParts(item: MapItem)
    ensures Present([item.subThoroughfare, item.thoroughfare, item.locality])
            == (if item.subThoroughfare.Some? then [item.subThoroughfare.value] else [])
               + (if item.thoroughfare.Some? then [item.thoroughfare.value] else [])
               + (if item.locality.Some? then [item.locality.value] else [])
  {
    var xs := [item.subThoroughfare, item.thoroughfare, item.locality];
    assert xs[1..] == [item.thoroughfare, item.locality];
    assert xs[1..][1..] == [item.locality];
    assert xs[1..][1..][1..] == [];
    assert Present(xs[1..][1..]) == (if item.locality.Some? then [item.locality.value] else []);
    assert Present(xs[1..]) == (if item.thoroughfare.Some? then [item.thoroughfare.value] else []) + Present(xs[1..][1..]);
  }

  // ---------------------------------------------------------------------
  // `CLLocationCoordinate2D: Codable`

  /** `CLLocationCoordinate2D.encode(to:)`: an unkeyed container holding the
      latitude and then the longitude. */
  function EncodeCoordinate(c: Coordinate): (r: Option<Json>)
    ensures r.Some? <==> c.latitude.Finite? && c.longitude.Finite?
    ensures r.Some? ==> r.value.JArray? && |r.value.elements| == 2
    ensures r.Some? ==>
              r.value.elements[0] == JNumber(c.latitude.value) && r.value.elements[1] == JNumber(c.longitude.value)
  {
    match (EncodeDouble(c.latitude), EncodeDouble(c.longitude))
    case (Some(lat), Some(lon)) => Some(JArray([lat, lon]))
    case _ => None
  }

  /** `CLLocationCoordinate2D.init(from:)`: decodes the first element as the
      latitude and the second as the longitude; anything after them is not
      read. */
  function DecodeCoordinate(j: Json): (r: Option<Coordinate>)
    ensures r.Some? <==> j.JArray? && |j.elements| >= 2
                         && j.elements[0].JNumber? && j.elements[1].JNumber?
    ensures r.Some? ==>
              r.value.latitude == Finite(j.elements[0].number) && r.value.longitude == Finite(j.elements[1].number)
  {
    if j.JArray? && |j.elements| >= 2 then
      match (DecodeDouble(j.elements[0]), DecodeDouble(j.elements[1]))
      case (Some(lat), Some(lon)) => Some(Coordinate(lat, lon))
      case _ => None
    else None
  }

  /** Decoding what was encoded gives back the coordinate, latitude first. */
  lemma {:induction false} CoordinateRoundTrip(c: Coordinate)
    requires c.latitude.Finite? && c.longitude.Finite?
    ensures EncodeCoordinate(c).Some?
    ensures DecodeCoordinate(EncodeCoordinate(c).value) == Some(c)
  {
    DoubleRoundTrip(c.latitude);
    DoubleRoundTrip(c.longitude);
  }

  /** The two components are not interchangeable: reading an encoded
      coordinate whose latitude and longitude differ never yields the
      swapped pair. */
  lemma CoordinateOrderMatters(c: Coordinate)
    requires c.latitude.Finite? && c.longitude.Finite? && c.latitude != c.longitude
    ensures DecodeCoordinate(EncodeCoordinate(c).value) != Some(Coordinate(c.longitude, c.latitude))
  {
    CoordinateRoundTrip(c);
  }
}
