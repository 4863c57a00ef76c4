/** The proximity check run on every position update: each facility closer than the
    radius whose identifier has not been announced yet is announced once, and its
    identifier joins the session's notified set. This module states one pass over
    the facility list as a left fold, and what a pass, and a sequence of passes,
    does to the notified set. */
module Proximity {
  import opened Facilities

  /** Radius, in metres, inside which a facility counts as nearby. */
  const NearbyRadius: real := 150.0

  /** Title of every proximity notification. */
  const NotificationTitle: string := "Facility Nearby"

  /** Body of the proximity notification for `f`: its name, its category in
      parentheses, then "is nearby". */
  function NotificationBody(f: Facility): string
  {
    f.name + " (" + f.category + ") is nearby"
  }

  predicate IsNear(f: Facility, here: LatLng, dist: Distance)
  {
    DistanceTo(f, here, dist) < NearbyRadius
  }

  /** Identifiers of the facilities of `fs` that are within the radius of `here`. */
  function NearIds(fs: seq<Facility>, here: LatLng, dist: Distance): set<string>
  {
    set f | f in fs && IsNear(f, here, dist) :: f.id
  }

  /** The state a pass carries: the notified set so far and the facilities
      announced so far, in the order they were announced. */
  datatype Pass = Pass(notified: set<string>, announced: seq<Facility>)

  /** One iteration of the loop over the facilities. */
  function Visit(p: Pass, f: Facility, here: LatLng, dist: Distance): Pass
  {
    if IsNear(f, here, dist) && f.id !in p.notified then
      Pass(p.notified + {f.id}, p.announced + [f])
    else
      p
  }

  /** The loop over the facilities, in list order, starting from `notified`. The
      set never shrinks; only facilities of the list within the radius and not
      notified before are announced, their identifiers join the set, and no
      identifier is announced twice. */
  function NotifyPass(fs: seq<Facility>, notified: set<string>, here: LatLng, dist: Distance): (r: Pass)
    ensures notified <= r.notified
    ensures |r.announced| <= |fs|
    ensures forall i | 0 <= i < |r.announced| ::
              r.announced[i] in fs && IsNear(r.announced[i], here, dist)
              && r.announced[i].id !in notified && r.announced[i].id in r.notified
    ensures forall i, j | 0 <= i < j < |r.announced| :: r.announced[i].id != r.announced[j].id
    decreases |fs|
  {
    if fs == [] then Pass(notified, [])
    else Visit(NotifyPass(fs[..|fs| - 1], notified, here, dist), fs[|fs| - 1], here, dist)
  }

  lemma NotifyPassPrefix(fs: seq<Facility>, i: nat, notified: set<string>, here: LatLng, dist: Distance)
    requires i < |fs|
    ensures NotifyPass(fs[..i + 1], notified, here, dist)
            == Visit(NotifyPass(fs[..i], notified, here, dist), fs[i], here, dist)
  {
    assert fs[..i + 1][..i] == fs[..i];
  }

  lemma NearIdsSnoc(fs: seq<Facility>, f: Facility, here: LatLng, dist: Distance)
    ensures NearIds(fs + [f], here, dist)
            == NearIds(fs, here, dist) + (if IsNear(f, here, dist) then {f.id} else {})
  {
  }

  /** After a pass the notified set is exactly the old set plus the identifiers of
      the facilities within the radius: it only grows, every nearby facility's
      identifier is in it, and no facility outside the radius adds anything. */
  lemma {:induction false} NotifyPassNotified(fs: seq<Facility>, notified: set<string>, here: LatLng, dist: Distance)
    ensures notified <= NotifyPass(fs, notified, here, dist).notified
    ensures NotifyPass(fs, notified, here, dist).notified == notified + NearIds(fs, here, dist)
    ensures forall i | 0 <= i < |fs| && IsNear(fs[i], here, dist) ::
              fs[i].id in NotifyPass(fs, notified, here, dist).notified
  {
    if fs == [] {
      assert NearIds(fs, here, dist) == {};
    } else {
      var init, f := fs[..|fs| - 1], fs[|fs| - 1];
      assert fs == init + [f];
      NotifyPassNotified(init, notified, here, dist);
      NearIdsSnoc(init, f, here, dist);
    }
  }

  /** What a pass announces: only facilities of the list that are within the
      radius and whose identifier was not notified before, never two with the same
      identifier, and exactly the identifiers the pass adds to the notified set. */
  lemma {:induction false} NotifyPassAnnounced(fs: seq<Facility>, notified: set<string>, here: LatLng, dist: Distance)
    ensures var r := NotifyPass(fs, notified, here, dist);
            && r.notified == notified + IdsOf(r.announced)
            && (forall i | 0 <= i < |r.announced| ::
                  r.announced[i] in fs && IsNear(r.announced[i], here, dist) && r.announced[i].id !in notified)
            && (forall i, j | 0 <= i < j < |r.announced| :: r.announced[i].id != r.announced[j].id)
  {
    if fs == [] {
      assert IdsOf([]) == {};
    } else {
      var init, f := fs[..|fs| - 1], fs[|fs| - 1];
      assert fs == init + [f];
      NotifyPassAnnounced(init, notified, here, dist);
      var p := NotifyPass(init, notified, here, dist);
      IdsOfAppend(p.announced, [f]);
      assert IdsOf([f]) == {f.id};
    }
  }

  /** A second pass at the same position announces nothing and leaves the
      notified set as it is. */
  lemma NotifyPassIdempotent(fs: seq<Facility>, notified: set<string>, here: LatLng, dist: Distance)
    ensures var r := NotifyPass(fs, notified, here, dist);
            NotifyPass(fs, r.notified, here, dist) == Pass(r.notified, [])
  {
    var r := NotifyPass(fs, notified, here, dist);
    NotifyPassNotified(fs, notified, here, dist);
    NotifyPassNotified(fs, r.notified, here, dist);
    NotifyPassAnnounced(fs, r.notified, here, dist);
  }

  /** The facilities of `fs` that are within the radius, in list order. */
  function NearOnly(fs: seq<Facility>, here: LatLng, dist: Distance): seq<Facility>
    decreases |fs|
  {
    if fs == [] then []
    else
      var rest := NearOnly(fs[..|fs| - 1], here, dist);
      if IsNear(fs[|fs| - 1], here, dist) then rest + [fs[|fs| - 1]] else rest
  }

  /** Facilities outside the radius play no part: dropping them from the list
      changes neither the notified set nor what is announced. */
  lemma {:induction false} NotifyPassIgnoresFar(fs: seq<Facility>, notified: set<string>, here: LatLng, dist: Distance)
    ensures NotifyPass(NearOnly(fs, here, dist), notified, here, dist) == NotifyPass(fs, notified, here, dist)
  {
    if fs != [] {
      var init, f := fs[..|fs| - 1], fs[|fs| - 1];
      NotifyPassIgnoresFar(init, notified, here, dist);
      var near := NearOnly(init, here, dist);
      if IsNear(f, here, dist) {
        assert (near + [f])[..|near + [f]| - 1] == near;
      }
    }
  }

  /** The passes run for a sequence of position updates, each starting from the
      notified set the previous one left; the announcements are concatenated. No
      update removes an identifier; only facilities of the list not notified at
      the start are announced, their identifiers join the set, and no identifier
      is announced twice over the whole sequence. */
  function NotifyTrace(fs: seq<Facility>, notified: set<string>, positions: seq<LatLng>, dist: Distance): (r: Pass)
    ensures notified <= r.notified
    ensures |r.announced| <= |positions| * |fs|
    ensures forall i | 0 <= i < |r.announced| ::
              r.announced[i] in fs && r.announced[i].id !in notified && r.announced[i].id in r.notified
    ensures forall i, j | 0 <= i < j < |r.announced| :: r.announced[i].id != r.announced[j].id
    decreases |positions|
  {
    if positions == [] then Pass(notified, [])
    else
      var p := NotifyTrace(fs, notified, positions[..|positions| - 1], dist);
      var q := NotifyPass(fs, p.notified, positions[|positions| - 1], dist);
      Pass(q.notified, p.announced + q.announced)
  }

  /** Over any sequence of position updates each identifier is announced at most
      once, never one that was notified at the start, and the notified set is the
      starting set plus the identifiers announced. */
  lemma {:induction false} NotifyTraceAnnouncesOnce(fs: seq<Facility>, notified: set<string>, positions: seq<LatLng>, dist: Distance)
    ensures var r := NotifyTrace(fs, notified, positions, dist);
            && r.notified == notified + IdsOf(r.announced)
            && (forall i | 0 <= i < |r.announced| :: r.announced[i] in fs && r.announced[i].id !in notified)
            && (forall i, j | 0 <= i < j < |r.announced| :: r.announced[i].id != r.announced[j].id)
  {
    if positions == [] {
      assert IdsOf([]) == {};
    } else {
      var before := positions[..|positions| - 1];
      NotifyTraceAnnouncesOnce(fs, notified, before, dist);
      var p := NotifyTrace(fs, notified, before, dist);
      NotifyPassAnnounced(fs, p.notified, positions[|positions| - 1], dist);
      var q := NotifyPass(fs, p.notified, positions[|positions| - 1], dist);
      IdsOfAppend(p.announced, q.announced);
      var a := p.announced + q.announced;
      forall i, j | 0 <= i < j < |a| ensures a[i].id != a[j].id {
        if j >= |p.announced| && i < |p.announced| {
          assert a[i].id in p.notified;
          assert a[j] == q.announced[j - |p.announced|];
        }
      }
    }
  }
}
