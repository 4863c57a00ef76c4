# User map: proximity notifications and nearest-facility routing

This project models the decision logic of a browser map page. The page shows the
user's live position and a list of facilities (restrooms, medical posts, ...). It
announces each facility once when the user comes within 150 m of it. It also draws
a route to the closest facility of a category the user picks.

The model covers the page's two event handlers in `main.js`:

- `onLocation`, the position-update handler. It replaces the user's position and
  walks the facility list in order. Each facility closer than 150 m whose `_id` is
  not yet in the session's `notified` set is announced with a notification, and
  its `_id` is added to the set. If a route is active, the handler then restarts
  it from the new position towards its old destination.
- `findNearest`, the search behind the category button. It alerts when no position
  is known yet or no category is chosen. Otherwise it scans the facilities of the
  category for the smallest distance, using a strict `<`, so on ties the earliest
  in list order wins. It alerts when none has the category. Otherwise it replaces
  the single active route by one from the user to that facility.

Layout:

- `facilities.dfy` (module `Facilities`): positions and facility records. Facility
  coordinates are stored longitude first, as in the data file. `distanceMeters`
  is an uninterpreted function value of type `Distance`.
- `proximity.dfy` (module `Proximity`): one pass of the proximity loop as a left
  fold (`NotifyPass`), and what a pass and a sequence of passes (`NotifyTrace`) do
  to the notified set.
- `nearest.dfy` (module `Nearest`): the running-minimum scan as a left fold
  (`NearestOf`), and its characterisation as "earliest of the closest".
- `routing.dfy` (module `Routing`): the active route and the rerouting step.
- `session.dfy` (module `Session`): class `MapSession` holds the page's global
  state: the user position (standing for `userMarker`), `notified`, the active
  route (standing for `routingControl`) and the facility list. Its methods are
  the two handlers, written as loops, and each loop is proved equal to the fold
  that specifies it. What the user sees is appended to an `effects` log:
  notifications, alerts, route removal, route drawing and waypoint updates. A
  ghost sequence `announced` records the facility behind each notification. The
  class invariant `Valid` states four things:
  - the notifications in `effects`, in order, are exactly those of `announced`;
  - no two facilities in `announced` share an identifier, so no identifier is
    announced twice in a session;
  - the notified set is exactly the set of announced identifiers;
  - the active route has two waypoints and starts at the user's latest position.

The record field `type` is called `category` in the model, because `type` is a
keyword in Dafny.

## Model

| member | source | states |
|---|---|---|
| `Proximity.NotifyPass` | main.js:77-85 | One run of the proximity loop over the facility list, in list order, from a given notified set. It returns the new notified set and the facilities announced, in order. Its contract: the set never shrinks; there are at most as many announcements as facilities; every announced facility is one of the list, closer than 150 m, not notified before, and its id is in the new set; no two announced facilities share an id. |
| `Proximity.NotifyTrace` | main.js:63-97 | The proximity loops of a sequence of position updates, each starting from the set the previous one left. Its contract: the set never shrinks; there are at most `|positions| * |fs|` announcements; every announced facility is one of the list, not notified at the start, and its id is in the final set; no two announcements over the whole sequence share an id. |
| `Proximity.NotifyPassNotified` | main.js:77-85 | After a pass, `notified` equals the old set plus the ids of all facilities closer than 150 m. So the set only grows, every nearby facility's id is in it, and facilities at 150 m or more add nothing. |
| `Proximity.NotifyPassAnnounced` | main.js:81-84 | The ids a pass announces are exactly the ids it adds to `notified`: the new set is the old set plus the announced ids, and nothing else. It also restates the per-facility facts of `NotifyPass`'s contract (near, not notified before, no id twice). |
| `Proximity.NotifyPassIdempotent` | main.js:81-83 | A second pass at the same position announces nothing and leaves `notified` unchanged. |
| `Proximity.NotifyPassIgnoresFar` | main.js:79-84 | Removing the facilities at 150 m or more from the list changes neither the resulting `notified` set nor the announcements. |
| `Proximity.NotifyTraceAnnouncesOnce` | main.js:77-85 | Over any sequence of position updates, the final `notified` set is exactly the start set plus the announced ids. It also restates that each id is announced at most once and never one already notified at the start. |
| `Nearest.NearestOf` | main.js:118-128 | The scan's result, when there is one, is an index into the list whose facility has the requested category. |
| `Nearest.NearestOfNone` | main.js:118-133 | The scan finds nothing if and only if no facility has the requested category. |
| `Nearest.NearestOfIsFirstNearest` | main.js:118-128 | The facility the scan keeps has the category. Its distance is at most that of every facility of the category. Every earlier facility of the category is strictly farther, because of the strict `<`. |
| `Nearest.NearestOfIff` | main.js:118-128 | The scan returns index `k` if and only if `k` is the earliest of the closest facilities of the category. |
| `Nearest.NearestOfPicksClosest` | main.js:118-128 | With three facilities of a category at 50 m, 10 m and 200 m, the one at 10 m is chosen. |
| `Routing.Reroute` | main.js:88-96 | The rerouting step of a position update. A route with more than one waypoint is restarted from the new position towards its last waypoint. Anything else is left as it is. Its contract: rerouting never creates or removes a route. |
| `Routing.RerouteKeepsDestination` | main.js:88-95 | A route with more than one waypoint becomes exactly `[new position, previous last waypoint]`, so its destination is kept. |
| `Routing.RerouteLatestWins` | main.js:88-95 | Two reroutes in a row give the same route as a single reroute to the second position. |
| `Routing.RerouteKeepsFacility` | main.js:88-95 | A route drawn to a facility still leads to that facility after a reroute, and now starts from the new position. |
| `Session.MapSession.constructor` | main.js:1-5 | A session starts with no position, an empty `notified` set, no route and no effects, over the given facility list. |
| `Session.MapSession.OnLocation` | main.js:63-97 | The position becomes the reported one, and `notified` becomes the result of `NotifyPass`. Exactly that pass's notifications are emitted, in list order. The facilities announced are appended to the ghost `announced` sequence. The route becomes `Reroute` of the old route, with one waypoint update when a route existed. The class invariant is kept. |
| `Session.MapSession.RerouteActive` | main.js:88-96 | The rerouting step inside the session: the route becomes `Reroute` of the old route, one waypoint update is emitted exactly when a route existed, and the class invariant holds afterwards. |
| `Session.MapSession.NotifyNearby` | main.js:77-85 | The loop over the facilities computes `NotifyPass` from the current `notified` set. It emits one notification per announced facility, in order, titled "Facility Nearby" with body "name (category) is nearby". It appends those facilities to `announced`. It keeps the invariant that the notifications shown are exactly those of `announced`, with no identifier twice. |
| `Session.MapSession.VisitFacility` | main.js:77-85 | One run of the loop's callback. It announces the facility if and only if it is closer than 150 m and its id is not yet notified. In that case it emits that facility's notification and adds the id to `notified`. Otherwise nothing changes. |
| `Session.MapSession.FindNearest` | main.js:101-155 | With no position it only alerts "Waiting for your location...". With an empty category it only alerts "Please select a category.". When no facility has the category it only alerts "No <category> found.". In these three cases the route is unchanged. Otherwise the previous route is removed, and the single new route runs from the user's position to the chosen facility at (coordinates[1], coordinates[0]). Position and `notified` never change. |
| `Session.MapSession.ScanNearest` | main.js:114-128 | The loop with `nearest` and `nearestDist`, which starts at `Infinity`, keeps exactly the facility `NearestOf` designates. It keeps none exactly when `NearestOf` finds none. |

## Left out

- `distanceMeters` (main.js:171-180) is not modelled. It is the haversine formula in floating point. The model takes it as an arbitrary function from four reals to a real, so no symmetry or zero-distance fact is assumed or proved. Distances are exact reals, so NaN results are not modelled. In the source a NaN distance is never below 150 and never below `nearestDist`.
- Map rendering through Leaflet is not modelled. This covers the map and tile layer, facility and crowd markers, icons, popups, the "You are here" marker, and `fitBounds` (main.js:16-21, 28-33, 39-49, 67-74, 154, 159-168). The user marker is reduced to the stored position. The routing control is reduced to its list of waypoints.
- The `fetch("facilities.json")` load and its error handling (main.js:24-36) are I/O. The facility list is the constructor's argument, and it may be empty. It is empty when the fetch or the JSON parsing fails (main.js:25-26). The list is fixed for the session, because position updates are only watched after the load has settled.
- Every facility record is assumed to have a `location.coordinates` pair. The model does not capture what the source does with a record that lacks one. In that case:
  - the marker loop at load throws at main.js:29 after `facilitiesData` has been assigned (main.js:26), so the list stays as loaded and later facilities get no marker;
  - every later `onLocation` throws at that record (main.js:78), so facilities after it in the list are never checked or announced, and the reroute at main.js:88-96 never runs;
  - `findNearest` throws at main.js:120 when the record has the requested category, so no route is drawn.
  
  In the model, `OnLocation` and `FindNearest` always complete.
- `showNotification` (main.js:195-201) is assumed to return normally. In a browser without the `Notification` global, reading `Notification.permission` at main.js:196 throws. Because main.js:82 calls it before `notified.add` at main.js:83, `onLocation` then aborts inside the loop at the first nearby, not yet notified facility: its id is never added, facilities after it are never checked, and the reroute at main.js:88-96 is skipped. This repeats on every update while that facility is in range. The model does not capture this.
- A `Notify` effect stands for the call to `showNotification` at main.js:82, not for a notification the user sees. In the source the notification is shown later, in a promise callback (main.js:197-198) that runs after `onLocation` has returned, so after its waypoint update. Nothing is shown when permission is not granted or no service-worker registration exists, although the id has already been added to `notified`.
- Facility ids (`_id`) are modelled as strings, so two ids are the same key exactly when they are equal strings. The model does not capture ids of other JSON types: a number `1` and a string `"1"` are different keys in a JavaScript `Set`, and an object id (such as `{"$oid": ...}`) is compared by reference, so the same id loaded twice would count as two.
- The browser APIs are not modelled: the geolocation watch, service-worker registration, the notification permission request, and the permission check inside `showNotification` (main.js:54-60, 183-201). A notification is recorded as an effect whether or not permission was granted. The category comes in as a parameter instead of being read from the page.
- sw.js is not part of this model. It only wires service-worker events to the browser's notification API.
- A facility's `coordinates` is modelled as a longitude-latitude pair. Arrays of other lengths, and waypoints without a position, are not modelled.
