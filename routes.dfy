/** The `routes_from_to` endpoint: the routes with a trip that calls both near
    the start and near the destination, one candidate per route, duplicates
    removed, nearest boarding stop first. */
module Routes {
  import opened Wrappers
  import opened Seqs
  import opened Sorting
  import opened Gtfs
  import opened Wire
  import opened NearbyStops
  import opened Departures

  /** `set(nearby["stop_id"])`. */
  function IdsOf(near: seq<Located>): set<string> {
    set x | x in near :: x.stop.stopId
  }

  /** Trips with a stop time near the start and one near the destination. */
  function CommonTrips(feed: Feed, startIds: set<string>, endIds: set<string>): set<string> {
    TripsAt(feed.stopTimes, startIds) * TripsAt(feed.stopTimes, endIds)
  }

  function TripsIn(trips: seq<TripRow>, ids: set<string>): seq<TripRow> {
    Filter(trips, (t: TripRow) => t.tripId in ids)
  }

  /** `trip_info`: the trips.txt rows of the common trips, in file order. */
  function TripInfo(feed: Feed, startNear: seq<Located>, endNear: seq<Located>): seq<TripRow> {
    TripsIn(feed.trips, CommonTrips(feed, IdsOf(startNear), IdsOf(endNear)))
  }

  function RouteOf(t: TripRow): string {
    t.routeId
  }

  function Identity(x: string): string {
    x
  }

  /** `trip_info["route_id"].unique()`: each route once, in order of first appearance. */
  function RouteIdsOf(tripInfo: seq<TripRow>): seq<string> {
    KeepFirst(Map(tripInfo, RouteOf), Identity)
  }

  function TripsOfRoute(tripInfo: seq<TripRow>, routeId: string): seq<TripRow> {
    Filter(tripInfo, (t: TripRow) => t.routeId == routeId)
  }

  function StopTimesOfTrips(stopTimes: seq<StopTimeRow>, tripIds: set<string>): seq<StopTimeRow> {
    Filter(stopTimes, (st: StopTimeRow) => st.tripId in tripIds)
  }

  function StopTimesAt(stopTimes: seq<StopTimeRow>, stopIds: set<string>): seq<StopTimeRow> {
    Filter(stopTimes, (st: StopTimeRow) => st.stopId in stopIds)
  }

  /** `set(route_trips["trip_id"])`. */
  function RouteTripIds(tripInfo: seq<TripRow>, routeId: string): set<string> {
    set t | t in TripsOfRoute(tripInfo, routeId) :: t.tripId
  }

  /** `relevant_stops`: the stop_times rows of the route's trips. */
  function Relevant(feed: Feed, tripInfo: seq<TripRow>, routeId: string): seq<StopTimeRow> {
    StopTimesOfTrips(feed.stopTimes, RouteTripIds(tripInfo, routeId))
  }

  function TripIdOf(st: StopTimeRow): string {
    st.tripId
  }

  function RouteRowOf(routes: seq<RouteRow>, routeId: string): Option<RouteRow> {
    First(routes, (r: RouteRow) => r.routeId == routeId)
  }

  /** `nearby[nearby["stop_id"] == stop_id].iloc[0]`. */
  function RowOfStop(near: seq<Located>, stopId: string): Option<Located> {
    First(near, (x: Located) => x.stop.stopId == stopId)
  }

  lemma RowOfStopFound(near: seq<Located>, stopId: string)
    requires stopId in IdsOf(near)
    ensures RowOfStop(near, stopId).Some?
    ensures RowOfStop(near, stopId).value in near && RowOfStop(near, stopId).value.stop.stopId == stopId
  {
    var x :| x in near && x.stop.stopId == stopId;
    var i :| 0 <= i < |near| && near[i] == x;
  }

  function RefOf(x: Located): StopRef {
    StopRef(x.stop.stopName, x.stop.stopId, Round2(x.distanceKm), x.stop.lat, x.stop.lon)
  }

  /** The candidate for one route id: a failed lookup when routes.txt has no
      row for it (or no trip of `tripInfo` is on it), no candidate when the
      route's trips call at no stop near one of the two ends, otherwise the
      first such stop at each end and the next three departures at the start. */
  function CandidateFor(feed: Feed, tripInfo: seq<TripRow>, startNear: seq<Located>, endNear: seq<Located>,
                        routeId: string): Result<Option<Candidate>, ApiError>
  {
    var route := RouteRowOf(feed.routes, routeId);
    var routeTrips := TripsOfRoute(tripInfo, routeId);
    if route.None? || routeTrips == [] then Failure(LookupFailed)
    else
      var relevant := Relevant(feed, tripInfo, routeId);
      var atStart := StopTimesAt(relevant, IdsOf(startNear));
      var atEnd := StopTimesAt(relevant, IdsOf(endNear));
      if atStart == [] || atEnd == [] then Success(None)
      else
        var startStopId := atStart[0].stopId;
        var endStopId := atEnd[0].stopId;
        assert atStart[0] in atStart && atEnd[0] in atEnd;
        RowOfStopFound(startNear, startStopId);
        RowOfStopFound(endNear, endStopId);
        var startTripIds := Map(StopTimesAt(relevant, {startStopId}), TripIdOf);
        var departures := NextDepartures(feed.stopTimes, startTripIds, startStopId, 3);
        Success(Some(Candidate(
          route.value.longName.GetOr(""),
          routeTrips[0].shapeId,
          departures,
          RefOf(RowOfStop(startNear, startStopId).value),
          RefOf(RowOfStop(endNear, endStopId).value))))
  }

  /** Some trip of `tripInfo` on the route calls at the stop. */
  ghost predicate ServedBy(feed: Feed, tripInfo: seq<TripRow>, routeId: string, stopId: string) {
    exists t, st :: t in tripInfo && st in feed.stopTimes &&
      t.routeId == routeId && st.tripId == t.tripId && st.stopId == stopId
  }

  lemma AtStopsServed(feed: Feed, tripInfo: seq<TripRow>, routeId: string, ids: set<string>, st: StopTimeRow)
    requires st in StopTimesAt(Relevant(feed, tripInfo, routeId), ids)
    ensures st.stopId in ids && ServedBy(feed, tripInfo, routeId, st.stopId)
  {
    var t :| t in TripsOfRoute(tripInfo, routeId) && t.tripId == st.tripId;
  }

  lemma ServedAt(feed: Feed, tripInfo: seq<TripRow>, routeId: string, ids: set<string>, stopId: string)
    requires stopId in ids && ServedBy(feed, tripInfo, routeId, stopId)
    ensures StopTimesAt(Relevant(feed, tripInfo, routeId), ids) != []
  {
    var t, st :| t in tripInfo && st in feed.stopTimes &&
      t.routeId == routeId && st.tripId == t.tripId && st.stopId == stopId;
    assert t in TripsOfRoute(tripInfo, routeId);
    assert st in Relevant(feed, tripInfo, routeId);
  }

  /** A lookup fails exactly when routes.txt has no row for the route or no
      trip of `tripInfo` runs on it. */
  lemma CandidateForFails(feed: Feed, tripInfo: seq<TripRow>, startNear: seq<Located>, endNear: seq<Located>, routeId: string)
    ensures CandidateFor(feed, tripInfo, startNear, endNear, routeId).Failure? <==>
      (forall r :: r in feed.routes ==> r.routeId != routeId) || (forall t :: t in tripInfo ==> t.routeId != routeId)
  {
    var routeTrips := TripsOfRoute(tripInfo, routeId);
    if routeTrips != [] {
      assert routeTrips[0] in routeTrips;
    }
    if RouteRowOf(feed.routes, routeId).Some? {
      assert RouteRowOf(feed.routes, routeId).value in feed.routes;
    }
  }

  /** There is no candidate exactly when the route's trips call at no stop
      near one of the two ends. */
  lemma CandidateForNone(feed: Feed, tripInfo: seq<TripRow>, startNear: seq<Located>, endNear: seq<Located>, routeId: string)
    requires CandidateFor(feed, tripInfo, startNear, endNear, routeId).Success?
    ensures CandidateFor(feed, tripInfo, startNear, endNear, routeId).value.None? <==>
      (forall x :: x in startNear ==> !ServedBy(feed, tripInfo, routeId, x.stop.stopId)) ||
      (forall x :: x in endNear ==> !ServedBy(feed, tripInfo, routeId, x.stop.stopId))
  {
    var routeTrips := TripsOfRoute(tripInfo, routeId);
    var relevant := Relevant(feed, tripInfo, routeId);
    var atStart := StopTimesAt(relevant, IdsOf(startNear));
    var atEnd := StopTimesAt(relevant, IdsOf(endNear));
    if atStart != [] {
      assert atStart[0] in atStart;
      AtStopsServed(feed, tripInfo, routeId, IdsOf(startNear), atStart[0]);
      var x :| x in startNear && x.stop.stopId == atStart[0].stopId;
    }
    if atEnd != [] {
      assert atEnd[0] in atEnd;
      AtStopsServed(feed, tripInfo, routeId, IdsOf(endNear), atEnd[0]);
      var x :| x in endNear && x.stop.stopId == atEnd[0].stopId;
    }
    forall x | x in startNear && ServedBy(feed, tripInfo, routeId, x.stop.stopId) ensures atStart != [] {
      ServedAt(feed, tripInfo, routeId, IdsOf(startNear), x.stop.stopId);
    }
    forall x | x in endNear && ServedBy(feed, tripInfo, routeId, x.stop.stopId) ensures atEnd != [] {
      ServedAt(feed, tripInfo, routeId, IdsOf(endNear), x.stop.stopId);
    }
  }

  /** A candidate carries the route's long name (or ""), two stops taken from
      the nearby lists that a trip of the route calls at, and at most three
      departures. */
  lemma CandidateForSome(feed: Feed, tripInfo: seq<TripRow>, startNear: seq<Located>, endNear: seq<Located>,
                         routeId: string, c: Candidate)
    requires CandidateFor(feed, tripInfo, startNear, endNear, routeId) == Success(Some(c))
    ensures exists r :: r in feed.routes && r.routeId == routeId && c.routeId == r.longName.GetOr("")
    ensures exists x :: x in startNear && c.startStop == RefOf(x)
    ensures exists x :: x in endNear && c.endStop == RefOf(x)
    ensures ServedBy(feed, tripInfo, routeId, c.startStop.stopId)
    ensures ServedBy(feed, tripInfo, routeId, c.endStop.stopId)
    ensures |c.nextDepartures| <= 3
  {
    var routeTrips := TripsOfRoute(tripInfo, routeId);
    var relevant := Relevant(feed, tripInfo, routeId);
    var atStart := StopTimesAt(relevant, IdsOf(startNear));
    var atEnd := StopTimesAt(relevant, IdsOf(endNear));
    assert RouteRowOf(feed.routes, routeId).value in feed.routes;
    assert atStart[0] in atStart && atEnd[0] in atEnd;
    AtStopsServed(feed, tripInfo, routeId, IdsOf(startNear), atStart[0]);
    AtStopsServed(feed, tripInfo, routeId, IdsOf(endNear), atEnd[0]);
    RowOfStopFound(startNear, atStart[0].stopId);
    RowOfStopFound(endNear, atEnd[0].stopId);
  }

  /** The outcome of every route id, in order. */
  function Outcomes(feed: Feed, tripInfo: seq<TripRow>, startNear: seq<Located>, endNear: seq<Located>,
                    routeIds: seq<string>): (outs: seq<Result<Option<Candidate>, ApiError>>)
    ensures |outs| == |routeIds|
    ensures forall i :: 0 <= i < |routeIds| ==> outs[i] == CandidateFor(feed, tripInfo, startNear, endNear, routeIds[i])
  {
    seq(|routeIds|, i requires 0 <= i < |routeIds| => CandidateFor(feed, tripInfo, startNear, endNear, routeIds[i]))
  }

  /** The loop over `route_ids`, written from the end: a failed lookup ends
      the whole request, a route without a candidate is skipped. */
  function Collect<T, E>(outs: seq<Result<Option<T>, E>>): Result<seq<T>, E>
  {
    if outs == [] then Success([])
    else
      var n := |outs| - 1;
      match Collect(outs[..n])
      case Failure(e) => Failure(e)
      case Success(rs) =>
        match outs[n]
        case Failure(e) => Failure(e)
        case Success(None) => Success(rs)
        case Success(Some(c)) => Success(rs + [c])
  }

  /** The loop fails exactly when one of its lookups does, and otherwise
      yields exactly the candidates found, in order. */
  lemma {:induction false} CollectMeans<T, E>(outs: seq<Result<Option<T>, E>>)
    ensures Collect(outs).Failure? <==> exists i :: 0 <= i < |outs| && outs[i].Failure?
    ensures Collect(outs).Success? ==>
      forall c :: c in Collect(outs).value <==> exists i :: 0 <= i < |outs| && outs[i] == Success(Some(c))
  {
    if outs != [] {
      var n := |outs| - 1;
      var init := outs[..n];
      CollectMeans(init);
      assert forall i :: 0 <= i < n ==> init[i] == outs[i];
    }
  }

  lemma {:induction false} CollectFailureSticks<T, E>(a: seq<Result<Option<T>, E>>, b: seq<Result<Option<T>, E>>)
    requires Collect(a).Failure?
    ensures Collect(a + b) == Collect(a)
  {
    if b != [] {
      var n := |b| - 1;
      CollectFailureSticks(a, b[..n]);
      assert (a + b)[..|a + b| - 1] == a + b[..n];
      assert (a + b)[|a + b| - 1] == b[n];
    } else {
      assert a + b == a;
    }
  }

  /** One more outcome extends the collected prefix as the loop body does. */
  lemma CollectStep<T, E>(outs: seq<Result<Option<T>, E>>, i: nat, rs: seq<T>)
    requires i < |outs| && Collect(outs[..i]) == Success(rs)
    ensures Collect(outs[..i + 1]) ==
      match outs[i]
      case Failure(e) => Failure(e)
      case Success(None) => Success(rs)
      case Success(Some(c)) => Success(rs + [c])
  {
    assert outs[..i + 1][..i] == outs[..i];
  }

  /** The first failed lookup is the answer of the whole loop. */
  lemma CollectStops<T, E>(outs: seq<Result<Option<T>, E>>, i: nat)
    requires i < |outs| && Collect(outs[..i]).Success? && outs[i].Failure?
    ensures Collect(outs) == Failure(outs[i].error)
  {
    CollectStep(outs, i, Collect(outs[..i]).value);
    assert outs[..i + 1] + outs[i + 1..] == outs;
    CollectFailureSticks(outs[..i + 1], outs[i + 1..]);
  }

  method BuildCandidates(feed: Feed, tripInfo: seq<TripRow>, startNear: seq<Located>, endNear: seq<Located>,
                         routeIds: seq<string>) returns (r: Result<seq<Candidate>, ApiError>)
    ensures r == Collect(Outcomes(feed, tripInfo, startNear, endNear, routeIds))
  {
    ghost var outs := Outcomes(feed, tripInfo, startNear, endNear, routeIds);
    var results: seq<Candidate> := [];
    var i := 0;
    while i < |routeIds|
      invariant 0 <= i <= |routeIds|
      invariant Collect(outs[..i]) == Success(results)
    {
      var candidate := CandidateFor(feed, tripInfo, startNear, endNear, routeIds[i]);
      assert candidate == outs[i];
      CollectStep(outs, i, results);
      if candidate.Failure? {
        CollectStops(outs, i);
        return Failure(candidate.error);
      }
      if candidate.value.Some? {
        results := results + [candidate.value.value];
      }
      i := i + 1;
    }
    assert outs[..i] == outs;
    r := Success(results);
  }

  /** The duplicate key: (long name, boarding stop, alighting stop). */
  function UniqueKey(c: Candidate): (string, string, string) {
    (c.routeId, c.startStop.stopId, c.endStop.stopId)
  }

  function StartDistance(c: Candidate): real {
    c.startStop.distanceKm
  }

  /** The `unique_keys` loop: keeps the first candidate of every key. */
  method Dedup(results: seq<Candidate>) returns (unique: seq<Candidate>)
    ensures unique == KeepFirst(results, UniqueKey)
  {
    var uniqueKeys: set<(string, string, string)> := {};
    unique := [];
    var i := 0;
    while i < |results|
      invariant 0 <= i <= |results|
      invariant unique == KeepFirst(results[..i], UniqueKey)
      invariant uniqueKeys == KeysOf(results[..i], UniqueKey)
    {
      var key := UniqueKey(results[i]);
      assert results[..i + 1] == results[..i] + [results[i]];
      assert results[..i + 1][..i] == results[..i];
      KeysOfSnoc(results[..i], results[i], UniqueKey);
      if key !in uniqueKeys {
        uniqueKeys := uniqueKeys + {key};
        unique := unique + [results[i]];
      }
      i := i + 1;
    }
    assert results[..i] == results;
  }

  /** The candidates the loop over `route_ids` collects, before duplicates go. */
  function Found(feed: Feed, start: Coord, end: Coord, radius: real, dist: Distance): Result<seq<Candidate>, ApiError> {
    var startNear := NearestStops(feed.stops, start, radius, dist);
    var endNear := NearestStops(feed.stops, end, radius, dist);
    var tripInfo := TripInfo(feed, startNear, endNear);
    Collect(Outcomes(feed, tripInfo, startNear, endNear, RouteIdsOf(tripInfo)))
  }

  /** The answer of `routes_from_to` for a start, a destination and a radius. */
  function Answer(feed: Feed, start: Coord, end: Coord, radius: real, dist: Distance): Result<seq<Candidate>, ApiError> {
    match Found(feed, start, end, radius, dist)
    case Failure(e) => Failure(e)
    case Success(cs) => Success(SortBy(KeepFirst(cs, UniqueKey), StartDistance))
  }

  lemma RouteIdsOfMeans(tripInfo: seq<TripRow>, routeId: string)
    ensures routeId in RouteIdsOf(tripInfo) <==> exists t :: t in tripInfo && t.routeId == routeId
  {
    var m := Map(tripInfo, RouteOf);
    KeepFirstProps(m, Identity);
    var kf := KeepFirst(m, Identity);
    assert routeId in kf <==> routeId in KeysOf(kf, Identity) by {
      if routeId in kf {
        var i :| 0 <= i < |kf| && kf[i] == routeId;
        assert Identity(kf[i]) == routeId;
      }
    }
    assert routeId in m <==> routeId in KeysOf(m, Identity) by {
      if routeId in m {
        var i :| 0 <= i < |m| && m[i] == routeId;
        assert Identity(m[i]) == routeId;
      }
    }
    if t :| t in tripInfo && t.routeId == routeId {
      var i :| 0 <= i < |tripInfo| && tripInfo[i] == t;
      assert m[i] == routeId;
    }
  }

  /** The request fails exactly when a common trip's route has no routes.txt row. */
  lemma AnswerFails(feed: Feed, start: Coord, end: Coord, radius: real, dist: Distance)
    ensures Answer(feed, start, end, radius, dist).Failure? <==>
      exists t :: t in TripInfo(feed, NearestStops(feed.stops, start, radius, dist), NearestStops(feed.stops, end, radius, dist)) &&
        forall r :: r in feed.routes ==> r.routeId != t.routeId
  {
    var startNear := NearestStops(feed.stops, start, radius, dist);
    var endNear := NearestStops(feed.stops, end, radius, dist);
    var tripInfo := TripInfo(feed, startNear, endNear);
    var routeIds := RouteIdsOf(tripInfo);
    var outs := Outcomes(feed, tripInfo, startNear, endNear, routeIds);
    CollectMeans(outs);
    forall i | 0 <= i < |routeIds|
      ensures outs[i].Failure? <==> forall r :: r in feed.routes ==> r.routeId != routeIds[i]
    {
      CandidateForFails(feed, tripInfo, startNear, endNear, routeIds[i]);
      RouteIdsOfMeans(tripInfo, routeIds[i]);
    }
    if t :| t in tripInfo && forall r :: r in feed.routes ==> r.routeId != t.routeId {
      RouteIdsOfMeans(tripInfo, t.routeId);
      var i :| 0 <= i < |routeIds| && routeIds[i] == t.routeId;
      assert outs[i].Failure?;
    }
    if Collect(outs).Failure? {
      var i :| 0 <= i < |outs| && outs[i].Failure?;
      assert routeIds[i] in routeIds;
      RouteIdsOfMeans(tripInfo, routeIds[i]);
    }
  }

  /** A successful answer has one candidate per key, nearest boarding stop
      first, holds exactly the first candidate of every key found, and keeps
      candidates at the same distance in the order they were found. */
  lemma AnswerOrder(feed: Feed, start: Coord, end: Coord, radius: real, dist: Distance, k: real)
    requires Answer(feed, start, end, radius, dist).Success?
    ensures DistinctBy(Answer(feed, start, end, radius, dist).value, UniqueKey)
    ensures SortedBy(Answer(feed, start, end, radius, dist).value, StartDistance)
    ensures multiset(Answer(feed, start, end, radius, dist).value) ==
      multiset(KeepFirst(Found(feed, start, end, radius, dist).value, UniqueKey))
    ensures KeyClass(Answer(feed, start, end, radius, dist).value, StartDistance, k) ==
      KeyClass(KeepFirst(Found(feed, start, end, radius, dist).value, UniqueKey), StartDistance, k)
  {
    var cs := Found(feed, start, end, radius, dist).value;
    var unique := KeepFirst(cs, UniqueKey);
    KeepFirstProps(cs, UniqueKey);
    DistinctByPerm(unique, SortBy(unique, StartDistance), UniqueKey);
    SortStable(unique, StartDistance, k);
  }

  /** Every candidate found is represented in the answer by one with its key. */
  lemma AnswerComplete(feed: Feed, start: Coord, end: Coord, radius: real, dist: Distance, c: Candidate)
    requires Answer(feed, start, end, radius, dist).Success?
    requires c in Found(feed, start, end, radius, dist).value
    ensures exists d :: d in Answer(feed, start, end, radius, dist).value && UniqueKey(d) == UniqueKey(c)
  {
    var cs := Found(feed, start, end, radius, dist).value;
    var unique := KeepFirst(cs, UniqueKey);
    assert Answer(feed, start, end, radius, dist).value == SortBy(unique, StartDistance);
    KeepFirstCovers(cs, UniqueKey, c);
    var d :| d in unique && UniqueKey(d) == UniqueKey(c);
    SortByMember(unique, StartDistance, d);
  }

  /** Every answered candidate names a routes.txt row, boards at a stop near
      the start and alights at a stop near the destination (both within the
      radius), a common trip of that route calls at each, and it lists at most
      three departures. */
  lemma AnswerCandidate(feed: Feed, start: Coord, end: Coord, radius: real, dist: Distance, c: Candidate)
    requires Answer(feed, start, end, radius, dist).Success?
    requires c in Answer(feed, start, end, radius, dist).value
    ensures c.startStop.distanceKm <= Round2(radius) && c.endStop.distanceKm <= Round2(radius)
    ensures exists x :: x in NearestStops(feed.stops, start, radius, dist) && c.startStop == RefOf(x)
    ensures exists x :: x in NearestStops(feed.stops, end, radius, dist) && c.endStop == RefOf(x)
    ensures var tripInfo := TripInfo(feed, NearestStops(feed.stops, start, radius, dist), NearestStops(feed.stops, end, radius, dist));
      exists r :: r in feed.routes && c.routeId == r.longName.GetOr("") &&
                  ServedBy(feed, tripInfo, r.routeId, c.startStop.stopId) && ServedBy(feed, tripInfo, r.routeId, c.endStop.stopId)
    ensures |c.nextDepartures| <= 3
  {
    var startNear := NearestStops(feed.stops, start, radius, dist);
    var endNear := NearestStops(feed.stops, end, radius, dist);
    var tripInfo := TripInfo(feed, startNear, endNear);
    var routeIds := RouteIdsOf(tripInfo);
    var outs := Outcomes(feed, tripInfo, startNear, endNear, routeIds);
    var cs := Collect(outs).value;
    var unique := KeepFirst(cs, UniqueKey);
    assert c in multiset(SortBy(unique, StartDistance));
    KeepFirstIsSubseq(cs, UniqueKey);
    SubseqMembers(unique, cs, c);
    CollectMeans(outs);
    var i :| 0 <= i < |outs| && outs[i] == Success(Some(c));
    CandidateForSome(feed, tripInfo, startNear, endNear, routeIds[i], c);
    var xs :| xs in startNear && c.startStop == RefOf(xs);
    var xe :| xe in endNear && c.endStop == RefOf(xe);
    Round2Monotone(xs.distanceKm, radius);
    Round2Monotone(xe.distanceKm, radius);
  }
  method RoutesFromTo(feed: Feed, start: Coord, end: Coord, radius: real, dist: Distance)
    returns (r: Result<seq<Candidate>, ApiError>)
    ensures r == Answer(feed, start, end, radius, dist)
  {
    var startNear := NearestStops(feed.stops, start, radius, dist);
    var endNear := NearestStops(feed.stops, end, radius, dist);
    var startIds := IdsOf(startNear);
    var endIds := IdsOf(endNear);
    var commonTrips := TripsAt(feed.stopTimes, startIds) * TripsAt(feed.stopTimes, endIds);
    var tripInfo := TripsIn(feed.trips, commonTrips);
    var routeIds := RouteIdsOf(tripInfo);
    var built := BuildCandidates(feed, tripInfo, startNear, endNear, routeIds);
    if built.Failure? {
      return Failure(built.error);
    }
    var unique := Dedup(built.value);
    r := Success(SortBy(unique, StartDistance));
  }
}
