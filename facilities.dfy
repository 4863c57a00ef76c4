/** The data the map page works on: positions, facility records as loaded from the
    facility list, and the distance helper, which the model keeps uninterpreted. */
module Facilities {

  datatype Option<T> = None | Some(value: T)

  /** A position as the map library takes it: latitude first. */
  datatype LatLng = LatLng(lat: real, lng: real)

  /** The `location.coordinates` pair of a facility record, stored longitude first
      (GeoJSON order). */
  datatype GeoPoint = GeoPoint(lng: real, lat: real)

  /** A facility record. `category` is the record's `type` field. */
  datatype Facility = Facility(id: string, name: string, category: string, location: GeoPoint)

  /** `distanceMeters(userLat, userLng, facilityLat, facilityLng)`; the haversine
      formula behind it is not modelled, so every property below holds for any
      function of this shape. */
  type Distance = (real, real, real, real) -> real

  /** The facility's position with the coordinate pair swapped into latitude-first order. */
  function PositionOf(f: Facility): LatLng
  {
    LatLng(f.location.lat, f.location.lng)
  }

  /** Distance from `here` to facility `f`, with the arguments in the order the
      page passes them: user latitude, user longitude, facility latitude,
      facility longitude. */
  function DistanceTo(f: Facility, here: LatLng, dist: Distance): real
  {
    dist(here.lat, here.lng, f.location.lat, f.location.lng)
  }

  /** The set of identifiers of a list of facilities. */
  function IdsOf(fs: seq<Facility>): (ids: set<string>)
    ensures forall i | 0 <= i < |fs| :: fs[i].id in ids
  {
    set f | f in fs :: f.id
  }

  lemma IdsOfAppend(a: seq<Facility>, b: seq<Facility>)
    ensures IdsOf(a + b) == IdsOf(a) + IdsOf(b)
  {
  }
}
