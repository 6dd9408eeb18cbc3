/**
 * The geocoding client (src/services/geocodingService.ts): the readable place name
 * assembled from a reverse-geocoding reply, the forward lookup and the detailed
 * location record, each with its fallback. The HTTP exchange is an input (what the
 * request produced), and `toFixed(2)` is an uninterpreted formatter.
 */
module Geocoding {
  import opened Wrappers
  import opened Types
  import opened Text

  /** The fields of a reverse-geocoding reply that are read. */
  datatype ReverseData = ReverseData(city: Option<string>, principalSubdivision: Option<string>, countryName: Option<string>)

  /** The fields of a forward-geocoding reply that are read: the coordinates of each result. */
  datatype ForwardData = ForwardData(results: Option<seq<Coord>>)

  /** What a request produced: an error (network or JSON), a non-OK status, or a parsed body. */
  datatype Reply<D> = Failed | NotOk | Body(data: D)

  /** `LocationInfo`. */
  datatype LocationInfo = LocationInfo(
    coordinates: Coord, placeName: string, city: Option<string>, state: Option<string>, country: Option<string>)

  const Separator: string := ", "

  /** The fallback of the forward lookup (New York City). */
  const DefaultCoords := Coord(40.7128, -74.0060)

  /** `${latitude.toFixed(2)}, ${longitude.toFixed(2)}`. */
  function CoordinateText(lat: real, lng: real, fmt: real -> string): string
  {
    fmt(lat) + Separator + fmt(lng)
  }

  /** The present parts in their order: the ones that are neither missing nor empty. */
  function Present(xs: seq<Option<string>>): (r: seq<string>)
    ensures forall p :: p in r ==> p != ""
    ensures |r| <= |xs|
    decreases |xs|
  {
    if xs == [] then [] else (if Truthy(xs[0]) then [xs[0].value] else []) + Present(xs[1..])
  }

  function PartIf(x: Option<string>): seq<string>
  {
    if Truthy(x) then [x.value] else []
  }

  lemma PresentOfThree(a: Option<string>, b: Option<string>, c: Option<string>)
    ensures Present([a, b, c]) == PartIf(a) + PartIf(b) + PartIf(c)
  {
    assert [a, b, c][1..] == [b, c];
    assert [b, c][1..] == [c];
    assert [c][1..] == [];
    assert Present([c]) == PartIf(c) + Present([]);
    assert Present([b, c]) == PartIf(b) + Present([c]);
    assert Present([a, b, c]) == PartIf(a) + Present([b, c]);
  }

  /** The reference definition of the readable name: the present parts joined, or the coordinates. */
  function PlaceNameSpec(d: ReverseData, lat: real, lng: real, fmt: real -> string): string
  {
    var parts := Present([d.city, d.principalSubdivision, d.countryName]);
    if parts == [] then CoordinateText(lat, lng, fmt) else Join(parts, Separator)
  }

  /** The name lists city, subdivision and country in that order, skipping absent ones; with none it is the coordinates. */
  lemma PlaceNameShape(d: ReverseData, lat: real, lng: real, fmt: real -> string)
    ensures Truthy(d.city) && Truthy(d.principalSubdivision) && Truthy(d.countryName) ==>
      PlaceNameSpec(d, lat, lng, fmt) == d.city.value + Separator + d.principalSubdivision.value + Separator + d.countryName.value
    ensures Truthy(d.city) && !Truthy(d.principalSubdivision) && Truthy(d.countryName) ==>
      PlaceNameSpec(d, lat, lng, fmt) == d.city.value + Separator + d.countryName.value
    ensures !Truthy(d.city) && !Truthy(d.principalSubdivision) && !Truthy(d.countryName) ==>
      PlaceNameSpec(d, lat, lng, fmt) == CoordinateText(lat, lng, fmt)
    ensures Truthy(d.city) || Truthy(d.principalSubdivision) || Truthy(d.countryName) ==>
      PlaceNameSpec(d, lat, lng, fmt) != ""
  {
    PresentOfThree(d.city, d.principalSubdivision, d.countryName);
    var parts := Present([d.city, d.principalSubdivision, d.countryName]);
    JoinEmptyIff(parts, Separator);
    var city, sub, country := d.city, d.principalSubdivision, d.countryName;
    if Truthy(city) && Truthy(sub) && Truthy(country) {
      assert parts == [city.value, sub.value, country.value];
      assert parts[1..] == [sub.value, country.value];
      assert parts[1..][1..] == [country.value];
      assert Join(parts[1..][1..], Separator) == country.value;
      assert Join(parts[1..], Separator) == sub.value + Separator + country.value;
      assert Join(parts, Separator) == city.value + Separator + (sub.value + Separator + country.value);
    }
    if Truthy(city) && !Truthy(sub) && Truthy(country) {
      assert parts == [city.value, country.value];
      assert parts[1..] == [country.value];
    }
  }

  /** The successive conditional pushes of `parts`. */
  method PlaceParts(d: ReverseData) returns (parts: seq<string>)
    ensures parts == Present([d.city, d.principalSubdivision, d.countryName])
  {
    PresentOfThree(d.city, d.principalSubdivision, d.countryName);
    parts := [];
    if Truthy(d.city) {
      parts := parts + [d.city.value];
    }
    if Truthy(d.principalSubdivision) {
      parts := parts + [d.principalSubdivision.value];
    }
    if Truthy(d.countryName) {
      parts := parts + [d.countryName.value];
    }
  }

  /** `parts.join(', ') || coordinates`. */
  method NameOrCoordinates(parts: seq<string>, lat: real, lng: real, fmt: real -> string) returns (name: string)
    requires forall p :: p in parts ==> p != ""
    ensures parts == [] ==> name == CoordinateText(lat, lng, fmt)
    ensures parts != [] ==> name == Join(parts, Separator) && name != ""
  {
    JoinEmptyIff(parts, Separator);
    var joined := Join(parts, Separator);
    if joined != "" {
      name := joined;
    } else {
      name := CoordinateText(lat, lng, fmt);
    }
  }

  /** `getPlaceNameFromCoordinates`: never fails; any failure gives the coordinates. */
  method GetPlaceNameFromCoordinates(lat: real, lng: real, reply: Reply<ReverseData>, fmt: real -> string) returns (name: string)
    ensures reply.Body? ==> name == PlaceNameSpec(reply.data, lat, lng, fmt)
    ensures !reply.Body? ==> name == CoordinateText(lat, lng, fmt)
  {
    match reply {
      case Body(d) =>
        var parts := PlaceParts(d);
        name := NameOrCoordinates(parts, lat, lng, fmt);
      case _ =>
        name := CoordinateText(lat, lng, fmt);
    }
  }

  /** The range `new GeoPoint` accepts: latitude within [-90, 90], longitude within [-180, 180]; it throws otherwise. */
  predicate ValidGeoPoint(c: Coord)
  {
    -90.0 <= c.lat <= 90.0 && -180.0 <= c.lng <= 180.0
  }

  /** The reply carries at least one result, and the first one is a valid GeoPoint. */
  predicate UsableFirstResult(reply: Reply<ForwardData>)
  {
    reply.Body? && reply.data.results.Some? && |reply.data.results.value| > 0 && ValidGeoPoint(reply.data.results.value[0])
  }

  /**
   * `getCoordinatesFromPlaceName`: the first result, or New York City when there is none,
   * the request fails, or the first result is out of range (its `new GeoPoint` throws
   * inside the `try`).
   */
  method GetCoordinatesFromPlaceName(reply: Reply<ForwardData>) returns (c: Coord)
    ensures ValidGeoPoint(c)
    ensures UsableFirstResult(reply) ==> c == reply.data.results.value[0]
    ensures !UsableFirstResult(reply) ==> c == DefaultCoords
  {
    if UsableFirstResult(reply) {
      c := reply.data.results.value[0];
    } else {
      c := DefaultCoords;
    }
  }

  /**
   * `getLocationInfo`: the coordinates are always the input; city, state and country only
   * come from a reply. Out-of-range input makes `new GeoPoint` throw in the `try` and again
   * in the `catch`, so the call rejects (`None`) whatever the reply.
   */
  method GetLocationInfo(lat: real, lng: real, reply: Reply<ReverseData>, fmt: real -> string) returns (info: Option<LocationInfo>)
    ensures info.None? <==> !ValidGeoPoint(Coord(lat, lng))
    ensures info.Some? ==> info.value.coordinates == Coord(lat, lng)
    ensures info.Some? && reply.Body? ==> info.value == LocationInfo(Coord(lat, lng), PlaceNameSpec(reply.data, lat, lng, fmt),
      reply.data.city, reply.data.principalSubdivision, reply.data.countryName)
    ensures info.Some? && !reply.Body? ==> info.value == LocationInfo(Coord(lat, lng), CoordinateText(lat, lng, fmt), None, None, None)
  {
    if !ValidGeoPoint(Coord(lat, lng)) {
      return None;
    }
    match reply {
      case Body(d) =>
        var parts := PlaceParts(d);
        var name := NameOrCoordinates(parts, lat, lng, fmt);
        info := Some(LocationInfo(Coord(lat, lng), name, d.city, d.principalSubdivision, d.countryName));
      case _ =>
        info := Some(LocationInfo(Coord(lat, lng), CoordinateText(lat, lng, fmt), None, None, None));
    }
  }

  /** The detailed record, when there is one, names the place exactly as the plain reverse lookup does. */
  method SameNameBothWays(lat: real, lng: real, reply: Reply<ReverseData>, fmt: real -> string) returns (name: string, info: Option<LocationInfo>)
    ensures info.Some? <==> ValidGeoPoint(Coord(lat, lng))
    ensures info.Some? ==> info.value.placeName == name
  {
    name := GetPlaceNameFromCoordinates(lat, lng, reply, fmt);
    info := GetLocationInfo(lat, lng, reply, fmt);
  }
}
