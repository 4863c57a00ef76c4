/** The search behind the "nearest facility" button: a linear scan of the facility
    list that keeps a running minimum of the distance to the user, over the
    facilities of the chosen category only. */
module Nearest {
  import opened Facilities

  /** The running minimum `nearestDist`, which starts at `Infinity`. */
  datatype Extended = Finite(value: real) | Infinity

  /** `d < bound`; every real distance is below `Infinity`. */
  predicate Below(d: real, bound: Extended)
  {
    bound.Infinity? || d < bound.value
  }

  /** The running minimum a scan holds when `best` is the facility it has kept. */
  function BoundOf(fs: seq<Facility>, best: Option<nat>, user: LatLng, dist: Distance): Extended
    requires best.Some? ==> best.value < |fs|
  {
    if best.None? then Infinity else Finite(DistanceTo(fs[best.value], user, dist))
  }

  /** Index of the facility the scan keeps: a facility of the category replaces the
      one kept so far only when it is strictly closer, so on ties the earliest one
      in list order stays. `None` when no facility has the category. */
  function NearestOf(fs: seq<Facility>, category: string, user: LatLng, dist: Distance): (r: Option<nat>)
    ensures r.Some? ==> r.value < |fs| && fs[r.value].category == category
    decreases |fs|
  {
    if fs == [] then None
    else
      var best := NearestOf(fs[..|fs| - 1], category, user, dist);
      var f := fs[|fs| - 1];
      if f.category == category && Below(DistanceTo(f, user, dist), BoundOf(fs, best, user, dist)) then
        Some(|fs| - 1)
      else
        best
  }

  /** `k` is the earliest facility of the category among those at the least
      distance from the user. */
  ghost predicate IsFirstNearest(fs: seq<Facility>, category: string, user: LatLng, dist: Distance, k: nat)
  {
    && k < |fs|
    && fs[k].category == category
    && (forall j | 0 <= j < |fs| && fs[j].category == category ::
          DistanceTo(fs[k], user, dist) <= DistanceTo(fs[j], user, dist))
    && (forall j | 0 <= j < k && fs[j].category == category ::
          DistanceTo(fs[k], user, dist) < DistanceTo(fs[j], user, dist))
  }

  /** The scan finds nothing exactly when no facility has the category. */
  lemma {:induction false} NearestOfNone(fs: seq<Facility>, category: string, user: LatLng, dist: Distance)
    ensures NearestOf(fs, category, user, dist).None?
            <==> forall i | 0 <= i < |fs| :: fs[i].category != category
  {
    if fs != [] {
      var init := fs[..|fs| - 1];
      NearestOfNone(init, category, user, dist);
      assert forall i | 0 <= i < |init| :: init[i] == fs[i];
    }
  }

  /** What the scan keeps is the earliest of the closest facilities of the category. */
  lemma {:induction false} NearestOfIsFirstNearest(fs: seq<Facility>, category: string, user: LatLng, dist: Distance)
    ensures var r := NearestOf(fs, category, user, dist);
            r.Some? ==> IsFirstNearest(fs, category, user, dist, r.value)
  {
    if fs != [] {
      var init, last := fs[..|fs| - 1], |fs| - 1;
      NearestOfIsFirstNearest(init, category, user, dist);
      NearestOfNone(init, category, user, dist);
      assert forall i | 0 <= i < |init| :: init[i] == fs[i];
      var best := NearestOf(init, category, user, dist);
      var r := NearestOf(fs, category, user, dist);
      if r == Some(last) {
        forall j | 0 <= j < |fs| && fs[j].category == category
          ensures DistanceTo(fs[last], user, dist) <= DistanceTo(fs[j], user, dist)
        {
          if j < last && best.Some? {
            assert DistanceTo(fs[best.value], user, dist) <= DistanceTo(init[j], user, dist);
          }
        }
      } else if r.Some? {
        assert r == best;
      }
    }
  }

  /** The scan's result is characterised exactly: it is `Some(k)` if and only if
      `k` is the earliest closest facility of the category. */
  lemma NearestOfIff(fs: seq<Facility>, category: string, user: LatLng, dist: Distance, k: nat)
    ensures NearestOf(fs, category, user, dist) == Some(k) <==> IsFirstNearest(fs, category, user, dist, k)
  {
    NearestOfIsFirstNearest(fs, category, user, dist);
    if IsFirstNearest(fs, category, user, dist, k) {
      NearestOfNone(fs, category, user, dist);
      var r := NearestOf(fs, category, user, dist);
      assert r.Some?;
      var m := r.value;
      assert DistanceTo(fs[m], user, dist) <= DistanceTo(fs[k], user, dist);
      assert DistanceTo(fs[k], user, dist) <= DistanceTo(fs[m], user, dist);
    }
  }

  /** Three facilities of the category at 50 m, 10 m and 200 m: the one at 10 m
      is chosen. The distance function here reads the facility's latitude as its
      distance. */
  lemma NearestOfPicksClosest()
    ensures var fs := [Facility("a", "Post A", "medical", GeoPoint(0.0, 50.0)),
                       Facility("b", "Post B", "medical", GeoPoint(0.0, 10.0)),
                       Facility("c", "Post C", "medical", GeoPoint(0.0, 200.0))];
            NearestOf(fs, "medical", LatLng(0.0, 0.0), (uLat, uLng, fLat, fLng) => fLat) == Some(1)
  {
  }
}
