/** The single active route and the rerouting step of a position update: a route
    keeps its destination and starts again from the user's new position. */
module Routing {
  import opened Facilities

  /** The waypoints of the routing control, start first. */
  datatype Route = Route(waypoints: seq<LatLng>)

  /** The route drawn by the nearest-facility search: from the user to the
      facility, with the facility's coordinates taken latitude first. */
  function RouteTo(from: LatLng, f: Facility): Route
  {
    Route([from, PositionOf(f)])
  }

  /** The rerouting step: a route with more than one waypoint is replaced by the
      route from `here` to its last waypoint; anything else is left as it is. */
  function Reroute(route: Option<Route>, here: LatLng): (r: Option<Route>)
    ensures r.Some? <==> route.Some?
  {
    match route
    case None => None
    case Some(r) =>
      if |r.waypoints| > 1 then Some(Route([here, r.waypoints[|r.waypoints| - 1]])) else route
  }

  /** A route with more than one waypoint becomes a two-waypoint route that starts
      at the new position and ends where the old one ended. This is the promise of
      the rerouting code as written, so the lemma only unfolds `Reroute` and needs
      no proof steps. */
  lemma RerouteKeepsDestination(route: Option<Route>, here: LatLng)
    requires route.Some? && |route.value.waypoints| > 1
    ensures var r := Reroute(route, here);
            && r.Some? && |r.value.waypoints| == 2
            && r.value.waypoints[0] == here
            && r.value.waypoints[1] == route.value.waypoints[|route.value.waypoints| - 1]
  {
  }

  /** Only the latest position matters: rerouting twice is rerouting once to the
      second position. */
  lemma RerouteLatestWins(route: Option<Route>, first: LatLng, second: LatLng)
    ensures Reroute(Reroute(route, first), second) == Reroute(route, second)
  {
  }

  /** A route drawn to a facility still leads to that facility after a rerouting
      step, now from the new position. Like the lemma above, this follows by
      unfolding `Reroute` and `RouteTo` and needs no proof steps. */
  lemma RerouteKeepsFacility(from: LatLng, f: Facility, here: LatLng)
    ensures Reroute(Some(RouteTo(from, f)), here) == Some(RouteTo(here, f))
  {
  }
}
