/** The page's session state and its two event handlers: the position-update
    handler (proximity notifications and rerouting) and the nearest-facility
    search. What the page shows the user (notifications, alerts, route drawing) is
    recorded as a log of effects. */
module Session {
  import opened Facilities
  import opened Proximity
  import opened Nearest
  import opened Routing

  datatype Effect =
    | Notify(title: string, body: string)     // a system notification
    | Alert(text: string)                     // a blocking message box
    | RemoveRoute                             // the previous routing control is taken off the map
    | DrawRoute(waypoints: seq<LatLng>)       // a new routing control is added to the map
    | SetWaypoints(waypoints: seq<LatLng>)    // the active routing control is given new waypoints

  const WaitingMessage: string := "Waiting for your location..."
  const SelectMessage: string := "Please select a category."

  function NotFoundMessage(category: string): string
  {
    "No " + category + " found."
  }

  /** The notifications for a list of announced facilities, in order. */
  function Notifications(fs: seq<Facility>): seq<Effect>
    decreases |fs|
  {
    if fs == [] then []
    else Notifications(fs[..|fs| - 1]) + [Notify(NotificationTitle, NotificationBody(fs[|fs| - 1]))]
  }

  /** The notifications of a log of effects, in order, without the other effects. */
  function NotifyEffects(es: seq<Effect>): seq<Effect>
    decreases |es|
  {
    if es == [] then []
    else NotifyEffects(es[..|es| - 1]) + (if es[|es| - 1].Notify? then [es[|es| - 1]] else [])
  }

  lemma NotifyEffectsSnoc(es: seq<Effect>, e: Effect)
    ensures NotifyEffects(es + [e]) == NotifyEffects(es) + (if e.Notify? then [e] else [])
  {
    assert (es + [e])[..|es|] == es;
  }

  lemma AppendAssoc<T>(a: seq<T>, b: seq<T>, c: seq<T>)
    ensures (a + b) + c == a + (b + c)
  {
  }

  lemma NotificationsSnoc(fs: seq<Facility>, f: Facility)
    ensures Notifications(fs + [f]) == Notifications(fs) + [Notify(NotificationTitle, NotificationBody(f))]
  {
  }

  /** The notifications shown are those of the announced facilities, in order, no
      two announced facilities share an identifier, and the notified set is the set
      of announced identifiers. */
  ghost predicate AnnouncedOnce(effects: seq<Effect>, announced: seq<Facility>, notified: set<string>)
  {
    && NotifyEffects(effects) == Notifications(announced)
    && (forall i, j | 0 <= i < j < |announced| :: announced[i].id != announced[j].id)
    && notified == IdsOf(announced)
  }

  /** Announcing a facility whose identifier is not yet notified keeps
      `AnnouncedOnce`. */
  lemma AnnounceKeepsOnce(effects: seq<Effect>, announced: seq<Facility>, notified: set<string>, f: Facility)
    requires AnnouncedOnce(effects, announced, notified)
    requires f.id !in notified
    ensures AnnouncedOnce(effects + [Notify(NotificationTitle, NotificationBody(f))],
                          announced + [f], notified + {f.id})
  {
    NotifyEffectsSnoc(effects, Notify(NotificationTitle, NotificationBody(f)));
    NotificationsSnoc(announced, f);
    IdsOfAppend(announced, [f]);
    assert IdsOf([f]) == {f.id};
  }

  /** An effect other than a notification keeps `AnnouncedOnce`. */
  lemma OtherEffectKeepsOnce(effects: seq<Effect>, announced: seq<Facility>, notified: set<string>, e: Effect)
    requires AnnouncedOnce(effects, announced, notified)
    requires !e.Notify?
    ensures AnnouncedOnce(effects + [e], announced, notified)
  {
    NotifyEffectsSnoc(effects, e);
  }

  class MapSession {
    /** The facility list, loaded once at start-up (empty when loading failed). */
    const facilities: seq<Facility>
    /** The distance helper. */
    const dist: Distance
    /** The user's last reported position; `None` until the first report. */
    var position: Option<LatLng>
    /** Identifiers of the facilities already announced this session. */
    var notified: set<string>
    /** The single active route, if any. */
    var route: Option<Route>
    /** Everything shown to the user so far, in order. */
    var effects: seq<Effect>
    /** The facility behind each notification in `effects`, in order. */
    ghost var announced: seq<Facility>

    /** The notifications shown so far are exactly those of `announced`, in order;
        no two announced facilities share an identifier, so no identifier is
        announced twice in a session; the notified set is exactly the set of
        announced identifiers; and the active route is a two-waypoint route that
        starts at the user's latest position. */
    ghost predicate Valid()
      reads this
    {
      NotifiedValid() && RouteValid()
    }

    /** Each notification shown is that of an announced facility, in order, no
        identifier is announced twice, and the notified set holds exactly the
        announced identifiers. */
    ghost predicate NotifiedValid()
      reads this
    {
      AnnouncedOnce(effects, announced, notified)
    }

    ghost predicate RouteValid()
      reads this
    {
      route.Some? ==>
        position.Some? && |route.value.waypoints| == 2 && route.value.waypoints[0] == position.value
    }

    constructor (facilities: seq<Facility>, dist: Distance)
      ensures Valid()
      ensures this.facilities == facilities && this.dist == dist
      ensures position == None && notified == {} && route == None && effects == []
      ensures announced == []
    {
      this.facilities := facilities;
      this.dist := dist;
      position, notified, route, effects := None, {}, None, [];
      announced := [];
    }

    /** A position update: the position is replaced, every facility within the
        radius whose identifier is not yet notified is announced and notified, in
        list order, and an active route is restarted from the new position. */
    method OnLocation(lat: real, lng: real)
      requires Valid()
      modifies this
      ensures Valid()
      ensures position == Some(LatLng(lat, lng))
      ensures var pass := NotifyPass(facilities, old(notified), LatLng(lat, lng), dist);
              && notified == pass.notified
              && announced == old(announced) + pass.announced
              && route == Reroute(old(route), LatLng(lat, lng))
              && effects == old(effects) + Notifications(pass.announced)
                            + (if old(route).Some? then [SetWaypoints(route.value.waypoints)] else [])
    {
      var here := LatLng(lat, lng);
      ghost var pass := NotifyPass(facilities, notified, here, dist);
      position := Some(here);
      NotifyNearby(here);
      ghost var notifiedEffects := effects;
      assert notifiedEffects == old(effects) + Notifications(pass.announced);
      RerouteActive(here);
    }

    /** The rerouting step of a position update: an active route with more than one
        waypoint is restarted from `here` towards its last waypoint. */
    method RerouteActive(here: LatLng)
      requires NotifiedValid() && position == Some(here)
      requires route.Some? ==> |route.value.waypoints| == 2
      modifies this`route, this`effects
      ensures Valid()
      ensures route == Reroute(old(route), here)
      ensures effects == old(effects)
                         + (if old(route).Some? then [SetWaypoints(route.value.waypoints)] else [])
    {
      if route.Some? {
        var waypoints := route.value.waypoints;
        if |waypoints| > 1 {
          route := Some(Route([here, waypoints[|waypoints| - 1]]));
          OtherEffectKeepsOnce(effects, announced, notified, SetWaypoints(route.value.waypoints));
          effects := effects + [SetWaypoints(route.value.waypoints)];
        }
      }
    }

    /** The loop of the position update over the facilities, in list order. */
    method NotifyNearby(here: LatLng)
      requires NotifiedValid()
      modifies this`notified, this`effects, this`announced
      ensures NotifiedValid()
      ensures var pass := NotifyPass(facilities, old(notified), here, dist);
              && notified == pass.notified
              && effects == old(effects) + Notifications(pass.announced)
              && announced == old(announced) + pass.announced
    {
      ghost var start := notified;
      ghost var newly: seq<Facility> := [];
      var i := 0;
      while i < |facilities|
        invariant 0 <= i <= |facilities|
        invariant NotifyPass(facilities[..i], start, here, dist) == Pass(notified, newly)
        invariant effects == old(effects) + Notifications(newly)
        invariant announced == old(announced) + newly
        invariant NotifiedValid()
      {
        var f := facilities[i];
        NotifyPassPrefix(facilities, i, start, here, dist);
        ghost var before := Pass(notified, newly);
        var announcedNow := VisitFacility(f, here);
        if announcedNow {
          NotificationsSnoc(newly, f);
          AppendAssoc(old(effects), Notifications(newly), [Notify(NotificationTitle, NotificationBody(f))]);
          AppendAssoc(old(announced), newly, [f]);
          newly := newly + [f];
        }
        assert Visit(before, f, here, dist) == Pass(notified, newly);
        i := i + 1;
      }
      assert facilities[..i] == facilities;
    }

    /** The body of the loop for one facility: when it is within the radius and its
        identifier is not yet notified, it is announced and its identifier joins the
        notified set; otherwise nothing changes. */
    method VisitFacility(f: Facility, here: LatLng) returns (announcedNow: bool)
      requires NotifiedValid()
      modifies this`notified, this`effects, this`announced
      ensures NotifiedValid()
      ensures announcedNow == (IsNear(f, here, dist) && f.id !in old(notified))
      ensures announcedNow ==>
                && notified == old(notified) + {f.id}
                && effects == old(effects) + [Notify(NotificationTitle, NotificationBody(f))]
                && announced == old(announced) + [f]
      ensures !announcedNow ==>
                notified == old(notified) && effects == old(effects) && announced == old(announced)
    {
      var d := dist(here.lat, here.lng, f.location.lat, f.location.lng);
      announcedNow := d < NearbyRadius && f.id !in notified;
      if announcedNow {
        AnnounceKeepsOnce(effects, announced, notified, f);
        effects := effects + [Notify(NotificationTitle, NotificationBody(f))];
        notified := notified + {f.id};
        announced := announced + [f];
      }
    }

    /** The nearest-facility search for `category`: with no known position, or with
        no category chosen, it only alerts; otherwise it alerts when no facility has
        the category, and else replaces the active route by one from the user to
        the earliest closest facility of the category. */
    method FindNearest(category: string)
      requires Valid()
      modifies this
      ensures Valid()
      ensures position == old(position) && notified == old(notified) && announced == old(announced)
      ensures old(position).None? ==>
                route == old(route) && effects == old(effects) + [Alert(WaitingMessage)]
      ensures old(position).Some? && category == "" ==>
                route == old(route) && effects == old(effects) + [Alert(SelectMessage)]
      ensures old(position).Some? && category != "" ==>
                var found := NearestOf(facilities, category, old(position).value, dist);
                if found.None? then
                  route == old(route) && effects == old(effects) + [Alert(NotFoundMessage(category))]
                else
                  && route == Some(RouteTo(old(position).value, facilities[found.value]))
                  && effects == old(effects) + (if old(route).Some? then [RemoveRoute] else [])
                                + [DrawRoute(route.value.waypoints)]
    {
      if position.None? {
        OtherEffectKeepsOnce(effects, announced, notified, Alert(WaitingMessage));
        effects := effects + [Alert(WaitingMessage)];
        return;
      }
      if category == "" {
        OtherEffectKeepsOnce(effects, announced, notified, Alert(SelectMessage));
        effects := effects + [Alert(SelectMessage)];
        return;
      }

      var user := position.value;
      var nearest := ScanNearest(category, user);
      if nearest.None? {
        OtherEffectKeepsOnce(effects, announced, notified, Alert(NotFoundMessage(category)));
        effects := effects + [Alert(NotFoundMessage(category))];
        return;
      }

      var target := nearest.value;
      if route.Some? {
        OtherEffectKeepsOnce(effects, announced, notified, RemoveRoute);
        effects := effects + [RemoveRoute];
      }
      route := Some(Route([user, LatLng(target.location.lat, target.location.lng)]));
      OtherEffectKeepsOnce(effects, announced, notified, DrawRoute(route.value.waypoints));
      effects := effects + [DrawRoute(route.value.waypoints)];
    }

    /** The scan of the search: the facility it keeps is the one `NearestOf`
        designates, and it keeps none exactly when `NearestOf` finds none. */
    method ScanNearest(category: string, user: LatLng) returns (nearest: Option<Facility>)
      ensures var found := NearestOf(facilities, category, user, dist);
              && (nearest.None? <==> found.None?)
              && (found.Some? ==> nearest == Some(facilities[found.value]))
    {
      nearest := None;
      var nearestDist := Infinity;
      ghost var at: Option<nat> := None;
      var i := 0;
      while i < |facilities|
        invariant 0 <= i <= |facilities|
        invariant at == NearestOf(facilities[..i], category, user, dist)
        invariant at.None? ==> nearest.None? && nearestDist == Infinity
        invariant at.Some? ==>
                    && at.value < i
                    && nearest == Some(facilities[at.value])
                    && nearestDist == Finite(DistanceTo(facilities[at.value], user, dist))
      {
        var f := facilities[i];
        if f.category == category {
          var d := dist(user.lat, user.lng, f.location.lat, f.location.lng);
          if Below(d, nearestDist) {
            nearest := Some(f);
            nearestDist := Finite(d);
            at := Some(i);
          }
        }
        assert facilities[..i + 1][..i] == facilities[..i];
        i := i + 1;
      }
      assert facilities[..i] == facilities;
    }
  }
}
