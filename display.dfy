/** What the client shows: the transport-mode toggle and the filters applied
    to the nearby stops and to the route list before they reach the map. */
module Display {
  import opened Wrappers
  import opened Seqs
  import opened Text
  import opened Wire

  /** `visibleModes` at start-up: bus, ferry, rail, tram, metro. */
  const InitialModes: seq<int> := [3, 4, 2, 0, 1]

  /** The mode-filter button: remove the mode if shown, else append it. */
  function Toggle(modes: seq<int>, m: int): (r: seq<int>)
    ensures m in r <==> m !in modes
    ensures forall x :: x != m ==> (x in r <==> x in modes)
  {
    if m in modes then Filter(modes, (x: int) => x != m) else modes + [m]
  }

  /** Toggling twice restores membership. */
  lemma ToggleTwice(modes: seq<int>, m: int)
    ensures forall x :: x in Toggle(Toggle(modes, m), m) <==> x in modes
  {
  }

  /** Switching a hidden mode on and off again restores the list itself. */
  lemma ToggleTwiceHidden(modes: seq<int>, m: int)
    requires m !in modes
    ensures Toggle(Toggle(modes, m), m) == modes
  {
    var p := (x: int) => x != m;
    FilterAppend(modes, [m], p);
    FilterAll(modes, p);
    assert Filter([m], p) == [] + Filter([m][1..], p);
  }

  /** The toggle keeps the list free of duplicates. */
  lemma ToggleNoDup(modes: seq<int>, m: int)
    requires NoDup(modes)
    ensures NoDup(Toggle(modes, m))
  {
    if m in modes {
      FilterNoDup(modes, (x: int) => x != m);
    } else {
      var r := modes + [m];
      forall i, j | 0 <= i < j < |r| ensures r[i] != r[j] {
        if j == |modes| { assert r[i] in modes; }
      }
    }
  }

  /** A stop as the client holds it; `lat`/`lon` may be undefined. */
  datatype Stop = Stop(stopId: string, stopName: string, lat: Option<real>, lon: Option<real>, distanceKm: real, mode: int)

  predicate HasPosition(s: Stop) {
    s.lat.Some? && s.lon.Some?
  }

  function ByPosition(stops: seq<Stop>): seq<Stop> {
    Filter(stops, HasPosition)
  }

  function ByName(stops: seq<Stop>, searchTerm: string): seq<Stop> {
    Filter(stops, (s: Stop) => Contains(ToLower(s.stopName), ToLower(searchTerm)))
  }

  function ByMode(stops: seq<Stop>, visibleModes: seq<int>): seq<Stop> {
    Filter(stops, (s: Stop) => s.mode in visibleModes)
  }

  /** The stop markers on the map. */
  function ShownStops(stops: seq<Stop>, searchTerm: string, visibleModes: seq<int>): seq<Stop> {
    ByMode(ByName(ByPosition(stops), searchTerm), visibleModes)
  }

  /** The "N nearby stops" count: the mode filter alone. */
  function NearbyCount(stops: seq<Stop>, visibleModes: seq<int>): nat {
    |ByMode(stops, visibleModes)|
  }

  /** A stop is shown exactly when it has a position, its name contains the
      search term ignoring ASCII case, and its mode is visible; the markers
      keep the order of the list. */
  lemma ShownStopsMeans(stops: seq<Stop>, searchTerm: string, visibleModes: seq<int>)
    ensures forall s :: s in ShownStops(stops, searchTerm, visibleModes) <==>
      s in stops && HasPosition(s) && Contains(ToLower(s.stopName), ToLower(searchTerm)) && s.mode in visibleModes
    ensures IsSubseq(ShownStops(stops, searchTerm, visibleModes), stops)
  {
    var a := ByPosition(stops);
    var b := ByName(a, searchTerm);
    FilterIsSubseq(stops, HasPosition);
    FilterIsSubseq(a, (s: Stop) => Contains(ToLower(s.stopName), ToLower(searchTerm)));
    FilterIsSubseq(b, (s: Stop) => s.mode in visibleModes);
    SubseqTrans(ShownStops(stops, searchTerm, visibleModes), b, a);
    SubseqTrans(ShownStops(stops, searchTerm, visibleModes), a, stops);
  }

  /** With every visible mode a GTFS route type, a stop of mode -1 (no
      serving route) is never shown. */
  lemma UnservedStopsHidden(stops: seq<Stop>, searchTerm: string, visibleModes: seq<int>)
    requires forall m :: m in visibleModes ==> 0 <= m
    ensures forall s :: s in ShownStops(stops, searchTerm, visibleModes) ==> s.mode != -1
  {
  }

  /** The count never undercounts the markers. */
  lemma NearbyCountBound(stops: seq<Stop>, searchTerm: string, visibleModes: seq<int>)
    ensures |ShownStops(stops, searchTerm, visibleModes)| <= NearbyCount(stops, visibleModes)
  {
    var byMode := (s: Stop) => s.mode in visibleModes;
    var a := ByPosition(stops);
    FilterChainLen(a, (s: Stop) => Contains(ToLower(s.stopName), ToLower(searchTerm)), byMode);
    FilterChainLen(stops, HasPosition, byMode);
  }

  /** The route drawn on the map: the selected one, while shapes are shown. */
  function ShownRoutes(routes: seq<Candidate>, selectedRouteId: Option<string>, showShape: bool): seq<Candidate> {
    Filter(routes, (r: Candidate) => selectedRouteId == Some(r.routeId) && showShape)
  }

  lemma ShownRoutesMeans(routes: seq<Candidate>, selectedRouteId: Option<string>, showShape: bool)
    ensures forall r :: r in ShownRoutes(routes, selectedRouteId, showShape) <==>
      r in routes && showShape && selectedRouteId == Some(r.routeId)
    ensures !showShape || selectedRouteId.None? ==> ShownRoutes(routes, selectedRouteId, showShape) == []
  {
    var shown := ShownRoutes(routes, selectedRouteId, showShape);
    if shown != [] {
      assert shown[0] in shown;
    }
  }
}
