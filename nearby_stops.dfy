/** The stop queries of the service: `get_nearest_stops` and the
    `stops_nearby_with_mode` endpoint, which labels every nearby stop with
    the `route_type` of a route that serves it. */
module NearbyStops {
  import opened Seqs
  import opened Sorting
  import opened Gtfs
  import opened Wire

  /** A stops.txt row with its `distance_km` column. */
  datatype Located = Located(stop: StopRow, distanceKm: real)

  function Position(s: StopRow): Coord {
    Coord(s.lat, s.lon)
  }

  /** The `distance_km` column: the distance from the query point to every stop. */
  function Measure(stops: seq<StopRow>, origin: Coord, dist: Distance): (r: seq<Located>)
    ensures |r| == |stops|
    ensures forall i :: 0 <= i < |r| ==> r[i] == Located(stops[i], dist(origin, Position(stops[i])))
  {
    Map(stops, (s: StopRow) => Located(s, dist(origin, Position(s))))
  }

  function DistanceOf(x: Located): real {
    x.distanceKm
  }

  /** `stops_df[distance_km <= radius_km]`, in file order. */
  function Nearby(stops: seq<StopRow>, origin: Coord, radius: real, dist: Distance): (r: seq<Located>)
    ensures forall x :: x in r <==> x in Measure(stops, origin, dist) && x.distanceKm <= radius
  {
    Filter(Measure(stops, origin, dist), (x: Located) => x.distanceKm <= radius)
  }

  /** `get_nearest_stops`: the stops within the radius, nearest first. Ties
      are in whatever order the sort leaves them; nothing here depends on it. */
  function NearestStops(stops: seq<StopRow>, origin: Coord, radius: real, dist: Distance): (r: seq<Located>)
    ensures forall x :: x in r ==> x.distanceKm <= radius
    ensures SortedBy(r, DistanceOf)
    ensures multiset(r) == multiset(Nearby(stops, origin, radius, dist))
    ensures forall i :: 0 <= i < |stops| && dist(origin, Position(stops[i])) <= radius ==>
      Located(stops[i], dist(origin, Position(stops[i]))) in r
  {
    var near := Nearby(stops, origin, radius, dist);
    var r := SortBy(near, DistanceOf);
    assert forall x :: x in r <==> x in near by {
      forall x ensures x in r <==> x in near {
        assert x in r <==> x in multiset(r);
      }
    }
    r
  }

  /** Trips with a stop time at one of `stopIds`. */
  function TripsAt(stopTimes: seq<StopTimeRow>, stopIds: set<string>): set<string> {
    set st | st in stopTimes && st.stopId in stopIds :: st.tripId
  }

  /** Routes of the given trips. */
  function RoutesOfTrips(trips: seq<TripRow>, tripIds: set<string>): set<string> {
    set t | t in trips && t.tripId in tripIds :: t.routeId
  }

  /** The route ids that serve a stop: stop_times, then trips, then routes. */
  function ServingRoutes(feed: Feed, stopId: string): set<string> {
    RoutesOfTrips(feed.trips, TripsAt(feed.stopTimes, {stopId}))
  }

  ghost predicate Serves(feed: Feed, routeId: string, stopId: string) {
    exists t, st :: t in feed.trips && st in feed.stopTimes &&
      t.routeId == routeId && t.tripId == st.tripId && st.stopId == stopId
  }

  lemma ServingRoutesMeans(feed: Feed, routeId: string, stopId: string)
    ensures routeId in ServingRoutes(feed, stopId) <==> Serves(feed, routeId, stopId)
  {
    if Serves(feed, routeId, stopId) {
      var t, st :| t in feed.trips && st in feed.stopTimes &&
        t.routeId == routeId && t.tripId == st.tripId && st.stopId == stopId;
      assert st.tripId in TripsAt(feed.stopTimes, {stopId});
    }
  }

  /** routes.txt rows whose id is in `ids` (`routes_df[route_id.isin(ids)]`). */
  function RoutesIn(routes: seq<RouteRow>, ids: set<string>): (r: seq<RouteRow>)
    ensures forall x :: x in r <==> x in routes && x.routeId in ids
  {
    if routes == [] then []
    else (if routes[0].routeId in ids then [routes[0]] else []) + RoutesIn(routes[1..], ids)
  }

  /** Taking a wider subset of routes first does not change a narrower one. */
  lemma {:induction false} RoutesInNarrow(routes: seq<RouteRow>, wide: set<string>, narrow: set<string>)
    requires narrow <= wide
    ensures RoutesIn(RoutesIn(routes, wide), narrow) == RoutesIn(routes, narrow)
  {
    if routes != [] {
      RoutesInNarrow(routes[1..], wide, narrow);
      var head := if routes[0].routeId in wide then [routes[0]] else [];
      var rest := RoutesIn(routes[1..], wide);
      if routes[0].routeId in wide {
        var w := head + rest;
        assert w[0] == routes[0] && w[1..] == rest;
      } else {
        assert RoutesIn(routes, wide) == rest;
      }
    }
  }

  /** The mode of a stop: the `route_type` of the first routes.txt row that
      serves it, or -1 when none does. */
  function ModeOf(feed: Feed, stopId: string): int {
    var serving := RoutesIn(feed.routes, ServingRoutes(feed, stopId));
    if |serving| > 0 then serving[0].routeType else -1
  }

  lemma {:induction false} RoutesInHead(routes: seq<RouteRow>, ids: set<string>, k: int)
    requires 0 <= k < |routes| && routes[k].routeId in ids
    requires forall j :: 0 <= j < k ==> routes[j].routeId !in ids
    ensures RoutesIn(routes, ids) != [] && RoutesIn(routes, ids)[0] == routes[k]
  {
    if k > 0 {
      RoutesInHead(routes[1..], ids, k - 1);
    }
  }

  /** `ModeOf` picks the first serving route in file order, and -1 exactly
      when no route serves the stop. */
  lemma ModeOfFirstServing(feed: Feed, stopId: string)
    ensures (forall i :: 0 <= i < |feed.routes| ==> !Serves(feed, feed.routes[i].routeId, stopId)) ==>
      ModeOf(feed, stopId) == -1
    ensures forall k :: (0 <= k < |feed.routes| && Serves(feed, feed.routes[k].routeId, stopId) &&
      (forall j :: 0 <= j < k ==> !Serves(feed, feed.routes[j].routeId, stopId))) ==>
      ModeOf(feed, stopId) == feed.routes[k].routeType
  {
    var ids := ServingRoutes(feed, stopId);
    forall i | 0 <= i < |feed.routes| ensures feed.routes[i].routeId in ids <==> Serves(feed, feed.routes[i].routeId, stopId) {
      ServingRoutesMeans(feed, feed.routes[i].routeId, stopId);
    }
    var serving := RoutesIn(feed.routes, ids);
    if serving != [] {
      assert serving[0] in serving;
    }
    forall k | 0 <= k < |feed.routes| && Serves(feed, feed.routes[k].routeId, stopId) &&
      (forall j :: 0 <= j < k ==> !Serves(feed, feed.routes[j].routeId, stopId))
      ensures ModeOf(feed, stopId) == feed.routes[k].routeType
    {
      RoutesInHead(feed.routes, ids, k);
    }
  }

  /** The subsets the endpoint takes first (stop_times at any nearby stop,
      their trips, their routes) lose nothing for a nearby stop. */
  lemma SubsetsAgree(feed: Feed, nearbyIds: set<string>, subsetStopTimes: seq<StopTimeRow>,
                     subsetTrips: seq<TripRow>, stopId: string)
    requires stopId in nearbyIds
    requires forall st :: st in subsetStopTimes <==> st in feed.stopTimes && st.stopId in nearbyIds
    requires forall t :: t in subsetTrips <==> t in feed.trips && t.tripId in TripsAt(subsetStopTimes, nearbyIds)
    ensures RoutesOfTrips(subsetTrips, TripsAt(subsetStopTimes, {stopId})) == ServingRoutes(feed, stopId)
    ensures ServingRoutes(feed, stopId) <= RoutesOfTrips(subsetTrips, TripsAt(subsetStopTimes, nearbyIds))
  {
    assert TripsAt(subsetStopTimes, {stopId}) == TripsAt(feed.stopTimes, {stopId});
    assert TripsAt(subsetStopTimes, {stopId}) <= TripsAt(subsetStopTimes, nearbyIds);
  }

  /** `stop_times_df[stop_id.isin(ids)]`. */
  function StopTimesAtStops(stopTimes: seq<StopTimeRow>, ids: set<string>): (r: seq<StopTimeRow>)
    ensures forall st :: st in r <==> st in stopTimes && st.stopId in ids
  {
    Filter(stopTimes, (st: StopTimeRow) => st.stopId in ids)
  }

  /** `trips_df[trip_id.isin(tripIds)]`. */
  function TripsOf(trips: seq<TripRow>, tripIds: set<string>): (r: seq<TripRow>)
    ensures forall t :: t in r <==> t in trips && t.tripId in tripIds
  {
    Filter(trips, (t: TripRow) => t.tripId in tripIds)
  }

  /** The first route type found for one stop through the subsets, or -1. */
  function SubsetMode(subsetStopTimes: seq<StopTimeRow>, subsetTrips: seq<TripRow>, subsetRoutes: seq<RouteRow>,
                      stopId: string): int {
    var rows := RoutesIn(subsetRoutes, RoutesOfTrips(subsetTrips, TripsAt(subsetStopTimes, {stopId})));
    if |rows| > 0 then rows[0].routeType else -1
  }

  /** One step of the mode loop: the mode found through the subsets is the
      stop's mode. */
  lemma StopModeAgrees(feed: Feed, nearbyIds: set<string>, stopId: string)
    requires stopId in nearbyIds
    ensures var subsetStopTimes := StopTimesAtStops(feed.stopTimes, nearbyIds);
      var tripIds := TripsAt(subsetStopTimes, nearbyIds);
      var subsetTrips := TripsOf(feed.trips, tripIds);
      var subsetRoutes := RoutesIn(feed.routes, RoutesOfTrips(subsetTrips, tripIds));
      SubsetMode(subsetStopTimes, subsetTrips, subsetRoutes, stopId) == ModeOf(feed, stopId)
  {
    var subsetStopTimes := StopTimesAtStops(feed.stopTimes, nearbyIds);
    var tripIds := TripsAt(subsetStopTimes, nearbyIds);
    var subsetTrips := TripsOf(feed.trips, tripIds);
    SubsetsAgree(feed, nearbyIds, subsetStopTimes, subsetTrips, stopId);
    RoutesInNarrow(feed.routes, RoutesOfTrips(subsetTrips, tripIds), ServingRoutes(feed, stopId));
  }

  function WithMode(x: Located, mode: int): NearbyStop {
    NearbyStop(x.stop.stopId, x.stop.stopName, x.stop.lat, x.stop.lon, Round2(x.distanceKm), mode)
  }

  /** The mode map of the endpoint: it first narrows stop_times, trips and
      routes to the nearby stops, then looks up each nearby stop's routes
      within those subsets. */
  method StopModes(feed: Feed, nearby: seq<Located>) returns (stopModes: map<string, int>)
    ensures forall x :: x in nearby ==> x.stop.stopId in stopModes
    ensures forall k :: k in stopModes ==> stopModes[k] == ModeOf(feed, k)
  {
    // Link stops -> stop_times -> trips -> routes.
    var nearbyIds := set x | x in nearby :: x.stop.stopId;
    var subsetStopTimes := StopTimesAtStops(feed.stopTimes, nearbyIds);
    var tripIds := TripsAt(subsetStopTimes, nearbyIds);
    var subsetTrips := TripsOf(feed.trips, tripIds);
    var routeIds := RoutesOfTrips(subsetTrips, tripIds);
    var subsetRoutes := RoutesIn(feed.routes, routeIds);

    stopModes := map[];
    var i := 0;
    while i < |nearby|
      invariant 0 <= i <= |nearby|
      invariant forall k :: k in stopModes ==> stopModes[k] == ModeOf(feed, k)
      invariant forall j :: 0 <= j < i ==> nearby[j].stop.stopId in stopModes
    {
      var stopId := nearby[i].stop.stopId;
      assert stopId in nearbyIds;
      StopModeAgrees(feed, nearbyIds, stopId);
      stopModes := stopModes[stopId := SubsetMode(subsetStopTimes, subsetTrips, subsetRoutes, stopId)];
      i := i + 1;
    }
    assert forall x :: x in nearby ==> exists j :: 0 <= j < |nearby| && nearby[j] == x;
  }

  /** Every nearby stop lies within the radius, by position. */
  lemma NearbyWithin(stops: seq<StopRow>, origin: Coord, radius: real, dist: Distance)
    ensures forall i :: 0 <= i < |Nearby(stops, origin, radius, dist)| ==> Nearby(stops, origin, radius, dist)[i].distanceKm <= radius
  {
    var near := Nearby(stops, origin, radius, dist);
    forall i | 0 <= i < |near| ensures near[i].distanceKm <= radius {
      assert near[i] in near;
    }
  }

  /** The "Build result" loop: each nearby row with the mode of its stop. */
  method LabelModes(nearby: seq<Located>, stopModes: map<string, int>) returns (results: seq<NearbyStop>)
    requires forall x :: x in nearby ==> x.stop.stopId in stopModes
    ensures |results| == |nearby|
    ensures forall k :: 0 <= k < |nearby| ==> results[k] == WithMode(nearby[k], stopModes[nearby[k].stop.stopId])
  {
    results := [];
    var j := 0;
    while j < |nearby|
      invariant 0 <= j <= |nearby|
      invariant |results| == j
      invariant forall k :: 0 <= k < j ==> results[k] == WithMode(nearby[k], stopModes[nearby[k].stop.stopId])
    {
      var row := nearby[j];
      assert row in nearby;
      results := results + [WithMode(row, stopModes[row.stop.stopId])];
      j := j + 1;
    }
  }

  /** The `stops_nearby_with_mode` endpoint: one answer per nearby stops.txt
      row, in file order, carrying that stop's mode. */
  method StopsNearbyWithMode(feed: Feed, origin: Coord, radius: real, dist: Distance) returns (results: seq<NearbyStop>)
    ensures |results| == |Nearby(feed.stops, origin, radius, dist)|
    ensures forall i :: 0 <= i < |results| ==>
      var x := Nearby(feed.stops, origin, radius, dist)[i];
      results[i] == WithMode(x, ModeOf(feed, x.stop.stopId))
    ensures forall i :: 0 <= i < |results| ==> results[i].distanceKm <= Round2(radius)
  {
    var nearby := Nearby(feed.stops, origin, radius, dist);
    NearbyWithin(feed.stops, origin, radius, dist);
    var stopModes := StopModes(feed, nearby);
    results := LabelModes(nearby, stopModes);
    forall i | 0 <= i < |results| ensures results[i].distanceKm <= Round2(radius) {
      Round2Monotone(nearby[i].distanceKm, radius);
    }
  }
}
