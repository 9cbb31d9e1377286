/** The client's controller: the component state of the map page and one
    transition per event handler. Every network answer is a parameter, None
    where the call throws, and each handler runs to completion, its awaited
    answers included, before the next event. */
module Controller {
  import opened Wrappers
  import opened Seqs
  import opened Text
  import opened Wire
  import opened Geocode
  import opened Display
  import opened Debounce

  /** The colours `getRandomColor` draws from. */
  const Palette: seq<string> := [
    "#FF5733", "#33FF57", "#3357FF", "#F39C12", "#8E44AD",
    "#00BCD4", "#FF9800", "#009688", "#E91E63", "#9C27B0"]

  /** A chosen destination. */
  datatype Place = Place(stopId: string, stopName: string, lat: real, lon: real)

  /** The query parameters of the three service requests and the geocoder request. */
  datatype StopsQuery = StopsQuery(at: Coord, radiusKm: real)
  datatype RoutesQuery = RoutesQuery(start: Coord, end: Coord, radiusKm: real)
  datatype ShapeQuery = ShapeQuery(shapeId: string, startStopId: string, endStopId: string)
  datatype GeocodeQuery = GeocodeQuery(q: string, lang: string, limit: int)

  /** The answer of `route_shape` for each query; None where the fetch throws. */
  type ShapeFetch = ShapeQuery -> Option<seq<Coord>>

  /** `parseFloat`, with None for NaN. */
  type NumberParser = string -> Option<real>

  /** What `navigator.geolocation` reports. */
  datatype GeoOutcome = Unsupported | Denied | Located(pos: Coord)

  // ---------------------------------------------------------------------
  // "lat,lon" input

  datatype LatLon = Coords(lat: real, lon: real) | NotNumeric | WrongCount

  /** `text.split(",").map(s => s.trim())`, then two `parseFloat`s. */
  function ParseLatLon(text: string, parseNum: NumberParser): LatLon {
    var parts := Map(Split(text, ','), Trim);
    if |parts| != 2 then WrongCount
    else if parseNum(parts[0]).Some? && parseNum(parts[1]).Some? then Coords(parseNum(parts[0]).value, parseNum(parts[1]).value)
    else NotNumeric
  }

  /** The token count is wrong exactly when the text has other than one comma. */
  lemma ParseLatLonCount(text: string, parseNum: NumberParser)
    ensures ParseLatLon(text, parseNum).WrongCount? <==> Count(text, ',') != 1
  {
  }

  predicate Trimmed(s: string) {
    s != [] ==> !IsSpace(s[0]) && !IsSpace(s[|s| - 1])
  }

  /** Two comma-free tokens, each padded with blanks, read back as the two
      numbers they spell. */
  lemma {:induction false} ParseLatLonReads(pa: string, a: string, pb: string, qa: string, b: string, qb: string,
                                            parseNum: NumberParser)
    requires AllSpace(pa) && AllSpace(pb) && AllSpace(qa) && AllSpace(qb)
    requires Trimmed(a) && Trimmed(b)
    requires ',' !in pa + a + pb && ',' !in qa + b + qb
    ensures ParseLatLon(pa + a + pb + "," + qa + b + qb, parseNum) ==
      if parseNum(a).Some? && parseNum(b).Some? then Coords(parseNum(a).value, parseNum(b).value) else NotNumeric
  {
    var first, second := pa + a + pb, qa + b + qb;
    assert pa + a + pb + "," + qa + b + qb == first + [','] + second;
    SplitConcat(first, second, ',');
    SplitNoSep(second, ',');
    TrimPadded(pa, a, pb);
    TrimPadded(qa, b, qb);
    var parts := Map(Split(first + [','] + second, ','), Trim);
    assert parts == [Trim(first), Trim(second)];
  }

  // ---------------------------------------------------------------------
  // Colour and shape maps

  function RouteIds(routes: seq<Candidate>): set<string> {
    set r | r in routes :: r.routeId
  }

  /** A colour map fit for `routes`: one entry per route id, each a palette colour. */
  predicate ColorsFor(colors: map<string, string>, routes: seq<Candidate>) {
    colors.Keys == RouteIds(routes) && PaletteColors(colors)
  }

  /** `getRandomColor`: `Math.random` picks a palette entry. */
  method RandomColor() returns (c: string)
    ensures c in Palette
  {
    var i :| 0 <= i < |Palette|;
    c := Palette[i];
  }

  /** The `colorMap` loop. */
  method AssignColors(routes: seq<Candidate>) returns (colors: map<string, string>)
    ensures ColorsFor(colors, routes)
  {
    colors := map[];
    var i := 0;
    while i < |routes|
      invariant 0 <= i <= |routes|
      invariant ColorsFor(colors, routes[..i])
    {
      var c := RandomColor();
      colors := colors[routes[i].routeId := c];
      assert routes[..i + 1] == routes[..i] + [routes[i]];
      i := i + 1;
    }
    assert routes[..i] == routes;
  }

  /** `if (route.shape_id)`: present and non-empty. */
  predicate HasShape(r: Candidate) {
    r.shapeId.Some? && r.shapeId.value != ""
  }

  function QueryOf(r: Candidate): ShapeQuery
    requires HasShape(r)
  {
    ShapeQuery(r.shapeId.value, r.startStop.stopId, r.endStop.stopId)
  }

  function ShapeRouteIds(routes: seq<Candidate>): set<string> {
    set r | r in routes && HasShape(r) :: r.routeId
  }

  /** The `shapeData` loop, written from the end: one fetch per route with a
      shape, a later route overwriting an earlier one of the same id, and the
      first throwing fetch abandoning the loop. */
  function ShapesOf(routes: seq<Candidate>, fetch: ShapeFetch): Option<map<string, seq<Coord>>> {
    if routes == [] then Some(map[])
    else
      var n := |routes| - 1;
      var r := routes[n];
      match ShapesOf(routes[..n], fetch)
      case None => None
      case Some(m) =>
        if !HasShape(r) then Some(m)
        else if fetch(QueryOf(r)).None? then None
        else Some(m[r.routeId := fetch(QueryOf(r)).value])
  }

  /** The shape loop fails exactly when a fetch it makes throws; otherwise
      it has an entry exactly for the routes with a shape, each one the
      answer of a fetch for a route with that id. */
  lemma {:induction false} ShapesOfMeans(routes: seq<Candidate>, fetch: ShapeFetch)
    ensures ShapesOf(routes, fetch).None? <==>
      exists i :: 0 <= i < |routes| && HasShape(routes[i]) && fetch(QueryOf(routes[i])).None?
    ensures ShapesOf(routes, fetch).Some? ==>
      ShapesOf(routes, fetch).value.Keys == ShapeRouteIds(routes) &&
      forall k :: k in ShapesOf(routes, fetch).value ==>
        exists r :: r in routes && HasShape(r) && r.routeId == k && fetch(QueryOf(r)) == Some(ShapesOf(routes, fetch).value[k])
  {
    if routes != [] {
      var n := |routes| - 1;
      var init := routes[..n];
      ShapesOfMeans(init, fetch);
      assert routes == init + [routes[n]];
      assert forall i :: 0 <= i < n ==> init[i] == routes[i];
      assert ShapeRouteIds(routes) == ShapeRouteIds(init) + (if HasShape(routes[n]) then {routes[n].routeId} else {});
    }
  }

  lemma {:induction false} ShapesOfFailureSticks(a: seq<Candidate>, b: seq<Candidate>, fetch: ShapeFetch)
    requires ShapesOf(a, fetch).None?
    ensures ShapesOf(a + b, fetch).None?
  {
    if b == [] {
      assert a + b == a;
    } else {
      var n := |b| - 1;
      ShapesOfFailureSticks(a, b[..n], fetch);
      assert (a + b)[..|a + b| - 1] == a + b[..n];
    }
  }

  method LoadShapes(routes: seq<Candidate>, fetch: ShapeFetch) returns (shapes: Option<map<string, seq<Coord>>>)
    ensures shapes == ShapesOf(routes, fetch)
  {
    var shapeData: map<string, seq<Coord>> := map[];
    var i := 0;
    while i < |routes|
      invariant 0 <= i <= |routes|
      invariant ShapesOf(routes[..i], fetch) == Some(shapeData)
    {
      var route := routes[i];
      assert routes[..i + 1][..i] == routes[..i] && routes[..i + 1][i] == route;
      if HasShape(route) {
        var shapeCoords := fetch(QueryOf(route));
        if shapeCoords.None? {
          assert routes[..i + 1] + routes[i + 1..] == routes;
          ShapesOfFailureSticks(routes[..i + 1], routes[i + 1..], fetch);
          return None;
        }
        shapeData := shapeData[route.routeId := shapeCoords.value];
      }
      i := i + 1;
    }
    assert routes[..i] == routes;
    shapes := Some(shapeData);
  }

  // ---------------------------------------------------------------------
  // The component state and its transitions

  datatype State = State(
    userPos: Option<Coord>,
    stops: seq<Stop>,
    error: string,
    manualLat: string,
    searchTerm: string,
    destSearchTerm: string,
    destSuggestions: seq<Suggestion>,
    destination: Option<Place>,
    routesInfo: seq<Candidate>,
    routeShapes: map<string, seq<Coord>>,
    routeColors: map<string, string>,
    showShape: bool,
    selectedRouteId: Option<string>,
    visibleModes: seq<int>,
    search: Debouncer)

  const Initial: State := State(None, [], "", "", "", "", [], None, [], map[], map[], false, None, InitialModes, Idle)

  /** The visible modes are distinct GTFS route types and every colour is a palette entry. */
  predicate Consistent(s: State) {
    ModesOk(s.visibleModes) && PaletteColors(s.routeColors)
  }

  predicate ModesOk(modes: seq<int>) {
    NoDup(modes) && forall m :: m in modes ==> 0 <= m <= 7
  }

  predicate PaletteColors(colors: map<string, string>) {
    forall k :: k in colors ==> colors[k] in Palette
  }

  function Reset(s: State): State {
    s.(routeShapes := map[], routesInfo := [], destSearchTerm := "", destSuggestions := [], searchTerm := "",
       selectedRouteId := None, showShape := false, destination := None, error := "")
  }

  /** The completion of `fetchStops`. */
  function StopsFetched(s: State, resp: Option<seq<Stop>>): State {
    if resp.Some? then s.(stops := resp.value) else s.(error := "Failed to fetch stops.")
  }

  function Geolocated(s: State, outcome: GeoOutcome, stopsResp: Option<seq<Stop>>): State {
    match outcome
    case Unsupported => s.(error := "Geolocation not supported. Please enter manually.")
    case Denied => s.(error := "Failed to get location. Please enter manually.")
    case Located(pos) => StopsFetched(s.(userPos := Some(pos)), stopsResp)
  }

  /** `fetchRoutes`, with `colors` the map the random draws produced. */
  function RoutesFetched(s: State, resp: Option<seq<Candidate>>, fetch: ShapeFetch, colors: map<string, string>): State {
    if s.userPos.None? then s
    else if resp.None? then s.(error := "Failed to load routes")
    else
      var data := resp.value;
      var shapes := ShapesOf(data, fetch);
      s.(routesInfo := data, routeColors := colors,
         routeShapes := if shapes.None? then s.routeShapes else shapes.value,
         error := if shapes.None? then "Failed to load routes"
                  else if |data| == 0 then "No routes found between these locations" else "")
  }

  /** `handleSetDestination`. */
  function DestinationSet(s: State, name: string, resp: Option<seq<Candidate>>, fetch: ShapeFetch,
                          colors: map<string, string>): State {
    var base := s.(destSearchTerm := name, destSuggestions := [], error := "", showShape := false);
    var failed := base.(error := "Failed to fetch route to selected stop.", routesInfo := [], selectedRouteId := None);
    if s.userPos.None? || resp.None? then failed
    else
      var data := resp.value;
      var shapes := ShapesOf(data, fetch);
      if shapes.None? then failed.(routeShapes := map[], routeColors := colors)
      else base.(routesInfo := data, routeShapes := shapes.value, routeColors := colors,
                 selectedRouteId := if data != [] then Some(data[0].routeId) else None,
                 showShape := data != [])
  }

  /** The completion of `searchDestByName`. */
  function Suggested(s: State, resp: Option<seq<Feature>>): State {
    if resp.None? then s.(error := "Failed to fetch suggestions.", destSuggestions := [])
    else if |resp.value| > 0 then s.(destSuggestions := Suggestions(resp.value))
    else s.(destSuggestions := [], error := "No matching location found.")
  }

  /** `handleUnifiedDestSearch`. */
  function DestInput(s: State, value: string, now: int, parseNum: NumberParser,
                     resp: Option<seq<Candidate>>, fetch: ShapeFetch, colors: map<string, string>): State {
    var typed := s.(destSearchTerm := value);
    match ParseLatLon(value, parseNum)
    case Coords(lat, lon) =>
      RoutesFetched(typed.(destination := Some(Place("manual", "Manual Destination", lat, lon))), resp, fetch, colors)
        .(destSuggestions := [])
    case _ =>
      if |value| >= 3 then typed.(search := Call(s.search, value, now)) else typed.(destSuggestions := [])
  }

  /** The debounce timer reads `now`; a released value runs `searchDestByName`. */
  function DebounceFired(s: State, now: int, resp: Option<seq<Feature>>): State {
    var polled := Poll(s.search, now);
    if polled.1.Some? then Suggested(s.(search := polled.0), resp) else s.(search := polled.0)
  }

  /** `handleManualSubmit`; the stops answer completes after `setError("")`. */
  function ManualSubmitted(s: State, parseNum: NumberParser, stopsResp: Option<seq<Stop>>): State {
    match ParseLatLon(s.manualLat, parseNum)
    case Coords(lat, lon) => StopsFetched(s.(userPos := Some(Coord(lat, lon)), error := ""), stopsResp)
    case NotNumeric => s.(error := "Please enter valid latitude and longitude.")
    case WrongCount => s.(error := "Please enter coordinates in format: lat,lon")
  }

  function Toggled(s: State, m: int): State {
    s.(visibleModes := Toggle(s.visibleModes, m))
  }

  /** A click on a route card. */
  function RouteSelected(s: State, routeId: string): State {
    s.(selectedRouteId := Some(routeId), showShape := true)
  }

  // ---------------------------------------------------------------------
  // Properties of the transitions

  lemma InitialConsistent()
    ensures Consistent(Initial)
  {
  }

  /** Reset clears the route search and the text inputs, keeps the position,
      the stops, the visible modes and the colours, draws no route, and a
      second reset changes nothing. */
  lemma ResetClears(s: State)
    ensures var r := Reset(s);
      r.routeShapes == map[] && r.routesInfo == [] && r.destSearchTerm == "" && r.destSuggestions == [] &&
      r.searchTerm == "" && r.selectedRouteId.None? && !r.showShape && r.destination.None? && r.error == ""
    ensures var r := Reset(s);
      r.userPos == s.userPos && r.stops == s.stops && r.visibleModes == s.visibleModes && r.routeColors == s.routeColors
    ensures ShownRoutes(Reset(s).routesInfo, Reset(s).selectedRouteId, Reset(s).showShape) == []
    ensures Reset(Reset(s)) == Reset(s)
  {
    ShownRoutesMeans(Reset(s).routesInfo, Reset(s).selectedRouteId, Reset(s).showShape);
  }

  /** A failed stops request keeps the stops already shown. */
  lemma StopsFailureKeepsStops(s: State)
    ensures StopsFetched(s, None).stops == s.stops
    ensures StopsFetched(s, None).error == "Failed to fetch stops."
  {
  }

  /** `fetchRoutes` does nothing without a position and never touches the
      selection; a failure keeps the drawn shapes; on success the routes
      are the answer, the error reports an empty answer and nothing else,
      and every route with a shape has one. */
  lemma RoutesFetchedMeans(s: State, resp: Option<seq<Candidate>>, fetch: ShapeFetch, colors: map<string, string>)
    ensures s.userPos.None? ==> RoutesFetched(s, resp, fetch, colors) == s
    ensures RoutesFetched(s, resp, fetch, colors).selectedRouteId == s.selectedRouteId
    ensures RoutesFetched(s, resp, fetch, colors).showShape == s.showShape
    ensures (resp.None? || ShapesOf(resp.value, fetch).None?) ==> RoutesFetched(s, resp, fetch, colors).routeShapes == s.routeShapes
    ensures s.userPos.Some? && resp.Some? && ShapesOf(resp.value, fetch).Some? ==>
      var r := RoutesFetched(s, resp, fetch, colors);
      r.routesInfo == resp.value &&
      (r.error == "No routes found between these locations" <==> resp.value == []) &&
      (resp.value != [] ==> r.error == "") &&
      r.routeShapes.Keys == ShapeRouteIds(resp.value)
    ensures s.userPos.Some? && resp.Some? && ShapesOf(resp.value, fetch).None? ==>
      RoutesFetched(s, resp, fetch, colors).error == "Failed to load routes"
  {
    if resp.Some? {
      ShapesOfMeans(resp.value, fetch);
    }
  }

  /** `handleSetDestination` always shows the chosen name in the input and
      closes the suggestions; the destination itself is never recorded. */
  lemma DestinationSetInput(s: State, name: string, resp: Option<seq<Candidate>>, fetch: ShapeFetch,
                            colors: map<string, string>)
    ensures var r := DestinationSet(s, name, resp, fetch, colors);
      r.destSearchTerm == name && r.destSuggestions == [] && r.destination == s.destination && r.userPos == s.userPos
  {
  }

  /** On success the answer becomes the route list, the shapes cover exactly
      the routes with a shape, and the first route is selected and drawn. */
  lemma DestinationSetSuccess(s: State, name: string, resp: Option<seq<Candidate>>, fetch: ShapeFetch,
                              colors: map<string, string>)
    requires s.userPos.Some? && resp.Some? && ShapesOf(resp.value, fetch).Some?
    ensures var r := DestinationSet(s, name, resp, fetch, colors);
      r.routesInfo == resp.value && r.error == "" && r.routeColors == colors &&
      r.routeShapes.Keys == ShapeRouteIds(resp.value) &&
      (resp.value != [] ==> r.selectedRouteId == Some(resp.value[0].routeId) && r.showShape &&
                            resp.value[0] in ShownRoutes(r.routesInfo, r.selectedRouteId, r.showShape)) &&
      (resp.value == [] ==> r.selectedRouteId.None? && !r.showShape)
  {
    ShapesOfMeans(resp.value, fetch);
    var r := DestinationSet(s, name, resp, fetch, colors);
    assert r == s.(destSearchTerm := name, destSuggestions := [], error := "", showShape := resp.value != [],
                   routesInfo := resp.value, routeShapes := ShapesOf(resp.value, fetch).value, routeColors := colors,
                   selectedRouteId := if resp.value != [] then Some(resp.value[0].routeId) else None);
    if resp.value != [] {
      ShownRoutesMeans(r.routesInfo, r.selectedRouteId, r.showShape);
    }
  }

  /** On any failure (no position, a failed request, a failed shape fetch)
      the list is empty, nothing is selected and the error says so. */
  lemma DestinationSetFailure(s: State, name: string, resp: Option<seq<Candidate>>, fetch: ShapeFetch,
                              colors: map<string, string>)
    requires !(s.userPos.Some? && resp.Some? && ShapesOf(resp.value, fetch).Some?)
    ensures var r := DestinationSet(s, name, resp, fetch, colors);
      r.routesInfo == [] && r.selectedRouteId.None? && !r.showShape && r.error == "Failed to fetch route to selected stop."
  {
  }

  /** The geocoder outcome: no features reports "No matching location
      found.", features that all fall outside Kerala leave the error alone,
      and a failed request reports it; the suggestions are always exactly the
      admissible mapped features (or none). */
  lemma SuggestedMeans(s: State, resp: Option<seq<Feature>>)
    ensures resp.None? ==> Suggested(s, resp).destSuggestions == [] && Suggested(s, resp).error == "Failed to fetch suggestions."
    ensures resp == Some([]) ==> Suggested(s, resp).destSuggestions == [] && Suggested(s, resp).error == "No matching location found."
    ensures resp.Some? && resp.value != [] ==>
      Suggested(s, resp).error == s.error &&
      forall x :: x in Suggested(s, resp).destSuggestions <==> x in Map(resp.value, ToSuggestion) && Admissible(x)
    ensures resp.Some? && resp.value != [] && (forall i :: 0 <= i < |resp.value| ==> !Admissible(ToSuggestion(resp.value[i]))) ==>
      Suggested(s, resp).destSuggestions == [] && Suggested(s, resp).error == s.error
  {
    if resp.Some? && resp.value != [] {
      var sugg := Suggestions(resp.value);
      if sugg != [] {
        SuggestionSource(resp.value, sugg[0]);
      }
    }
  }

  /** The destination input always keeps the typed text. */
  lemma DestInputKeepsText(s: State, value: string, now: int, parseNum: NumberParser,
                           resp: Option<seq<Candidate>>, fetch: ShapeFetch, colors: map<string, string>)
    ensures DestInput(s, value, now, parseNum, resp, fetch, colors).destSearchTerm == value
  {
    if ParseLatLon(value, parseNum).Coords? {
      var c := ParseLatLon(value, parseNum);
      var placed := s.(destSearchTerm := value).(destination := Some(Place("manual", "Manual Destination", c.lat, c.lon)));
      assert DestInput(s, value, now, parseNum, resp, fetch, colors) == RoutesFetched(placed, resp, fetch, colors).(destSuggestions := []);
    }
  }

  /** A "lat,lon" pair sets a manual destination, loads the routes to it,
      clears the suggestions and schedules no search. */
  lemma DestInputCoords(s: State, value: string, now: int, parseNum: NumberParser,
                        resp: Option<seq<Candidate>>, fetch: ShapeFetch, colors: map<string, string>)
    requires ParseLatLon(value, parseNum).Coords?
    ensures var r := DestInput(s, value, now, parseNum, resp, fetch, colors);
      var c := ParseLatLon(value, parseNum);
      r.destination == Some(Place("manual", "Manual Destination", c.lat, c.lon)) &&
      r.destSuggestions == [] && r.search == s.search && r.selectedRouteId == s.selectedRouteId &&
      (s.userPos.Some? && resp.Some? ==> r.routesInfo == resp.value)
  {
    var c := ParseLatLon(value, parseNum);
    var placed := s.(destSearchTerm := value).(destination := Some(Place("manual", "Manual Destination", c.lat, c.lon)));
    assert DestInput(s, value, now, parseNum, resp, fetch, colors) == RoutesFetched(placed, resp, fetch, colors).(destSuggestions := []);
    RoutesFetchedMeans(placed, resp, fetch, colors);
  }

  /** Other text of length three or more (re)schedules the search with that
      text, one debounce period from now, and changes nothing else. */
  lemma DestInputSchedules(s: State, value: string, now: int, parseNum: NumberParser,
                           resp: Option<seq<Candidate>>, fetch: ShapeFetch, colors: map<string, string>)
    requires !ParseLatLon(value, parseNum).Coords? && |value| >= 3
    ensures DestInput(s, value, now, parseNum, resp, fetch, colors) ==
      s.(destSearchTerm := value, search := Debouncer(Some(value), now + Wait))
  {
  }

  /** Shorter text clears the suggestions and schedules nothing. */
  lemma DestInputShort(s: State, value: string, now: int, parseNum: NumberParser,
                       resp: Option<seq<Candidate>>, fetch: ShapeFetch, colors: map<string, string>)
    requires !ParseLatLon(value, parseNum).Coords? && |value| < 3
    ensures DestInput(s, value, now, parseNum, resp, fetch, colors) == s.(destSearchTerm := value, destSuggestions := [])
  {
  }

  /** Manual location: a numeric pair sets the position and clears the
      error (unless the stops request then fails); a pair with a non-number
      and a wrong token count each report their own message and keep the
      position. */
  lemma ManualSubmittedMeans(s: State, parseNum: NumberParser, stopsResp: Option<seq<Stop>>)
    ensures ParseLatLon(s.manualLat, parseNum).Coords? ==>
      var c := ParseLatLon(s.manualLat, parseNum);
      var r := ManualSubmitted(s, parseNum, stopsResp);
      r.userPos == Some(Coord(c.lat, c.lon)) &&
      r.error == (if stopsResp.None? then "Failed to fetch stops." else "") &&
      (stopsResp.Some? ==> r.stops == stopsResp.value)
    ensures ParseLatLon(s.manualLat, parseNum).NotNumeric? ==>
      ManualSubmitted(s, parseNum, stopsResp) == s.(error := "Please enter valid latitude and longitude.")
    ensures Count(s.manualLat, ',') != 1 ==>
      ManualSubmitted(s, parseNum, stopsResp) == s.(error := "Please enter coordinates in format: lat,lon")
  {
    ParseLatLonCount(s.manualLat, parseNum);
  }

  /** A toggle keeps the visible modes distinct route types, and a reset
      restores the initial ones. */
  lemma ToggleConsistent(s: State, m: int)
    requires Consistent(s)
    requires 0 <= m <= 7
    ensures Consistent(Toggled(s, m))
    ensures Consistent(Reset(s))
  {
    ToggleNoDup(s.visibleModes, m);
  }

  /** The colours a route answer brings are palette colours. */
  lemma RoutesFetchedConsistent(s: State, routes: seq<Candidate>, fetch: ShapeFetch, colors: map<string, string>)
    requires Consistent(s)
    requires ColorsFor(colors, routes)
    ensures Consistent(RoutesFetched(s, Some(routes), fetch, colors))
  {
    var r := RoutesFetched(s, Some(routes), fetch, colors);
    assert r.visibleModes == s.visibleModes;
    assert r.routeColors == s.routeColors || r.routeColors == colors;
  }

  /** So are those of the routes to a named destination. */
  lemma DestinationSetConsistent(s: State, name: string, routes: seq<Candidate>, fetch: ShapeFetch,
                                 colors: map<string, string>)
    requires Consistent(s)
    requires ColorsFor(colors, routes)
    ensures Consistent(DestinationSet(s, name, Some(routes), fetch, colors))
  {
    var r := DestinationSet(s, name, Some(routes), fetch, colors);
    assert r.visibleModes == s.visibleModes;
    assert r.routeColors == s.routeColors || r.routeColors == colors;
  }

  // ---------------------------------------------------------------------
  // The component

  class App {
    /** The component's `useState` hooks; a setter call is a record update. */
    var state: State

    predicate Valid()
      reads this
    {
      Consistent(state)
    }

    constructor()
      ensures state == Initial && Valid()
    {
      state := Initial;
    }

    /** The mount effect: ask for the position, then load the stops around it. */
    method Geolocate(outcome: GeoOutcome, stopsResp: Option<seq<Stop>>) returns (q: Option<StopsQuery>)
      requires Valid()
      modifies this
      ensures Valid()
      ensures state == Geolocated(old(state), outcome, stopsResp)
      ensures q == if outcome.Located? then Some(StopsQuery(outcome.pos, 10.0)) else None
    {
      match outcome
      case Unsupported =>
        state := state.(error := "Geolocation not supported. Please enter manually.");
        q := None;
      case Denied =>
        state := state.(error := "Failed to get location. Please enter manually.");
        q := None;
      case Located(pos) =>
        state := state.(userPos := Some(pos));
        var sq := FetchStops(pos.lat, pos.lon, stopsResp);
        q := Some(sq);
    }

    method HandleReset()
      requires Valid()
      modifies this
      ensures Valid()
      ensures state == Reset(old(state))
    {
      state := state.(routeShapes := map[]);
      state := state.(routesInfo := []);
      state := state.(destSearchTerm := "");
      state := state.(destSuggestions := []);
      state := state.(searchTerm := "");
      state := state.(selectedRouteId := None);
      state := state.(showShape := false);
      state := state.(destination := None);
      state := state.(error := "");
    }

    method FetchStops(lat: real, lon: real, resp: Option<seq<Stop>>) returns (q: StopsQuery)
      requires Valid()
      modifies this
      ensures Valid()
      ensures state == StopsFetched(old(state), resp)
      ensures q == StopsQuery(Coord(lat, lon), 10.0)
    {
      q := StopsQuery(Coord(lat, lon), 10.0);
      if resp.None? {
        state := state.(error := "Failed to fetch stops.");
        return;
      }
      state := state.(stops := resp.value);
    }

    method FetchRoutes(lat: real, lon: real, resp: Option<seq<Candidate>>, fetch: ShapeFetch) returns (q: Option<RoutesQuery>)
      requires Valid()
      modifies this
      ensures Valid()
      ensures state == RoutesFetched(old(state), resp, fetch, state.routeColors)
      ensures old(state).userPos.Some? && resp.Some? ==> ColorsFor(state.routeColors, resp.value)
      ensures q == if old(state).userPos.Some? then Some(RoutesQuery(old(state).userPos.value, Coord(lat, lon), 1.5)) else None
    {
      if state.userPos.None? {
        return None;
      }
      q := Some(RoutesQuery(state.userPos.value, Coord(lat, lon), 1.5));
      if resp.None? {
        state := state.(error := "Failed to load routes");
        return;
      }
      var data := resp.value;
      state := state.(routesInfo := data);
      state := state.(error := if |data| == 0 then "No routes found between these locations" else "");
      var colorMap := AssignColors(data);
      state := state.(routeColors := colorMap);
      var shapeData := LoadShapes(data, fetch);
      if shapeData.None? {
        state := state.(error := "Failed to load routes");
        return;
      }
      state := state.(routeShapes := shapeData.value);
    }

    method SelectRoute(routeId: string)
      requires Valid()
      modifies this
      ensures Valid()
      ensures state == RouteSelected(old(state), routeId)
    {
      state := state.(selectedRouteId := Some(routeId));
      state := state.(showShape := true);
    }

    method HandleSetDestination(name: string, lat: real, lon: real, resp: Option<seq<Candidate>>, fetch: ShapeFetch)
      returns (q: Option<RoutesQuery>)
      requires Valid()
      modifies this
      ensures Valid()
      ensures state == DestinationSet(old(state), name, resp, fetch, state.routeColors)
      ensures old(state).userPos.Some? && resp.Some? ==> ColorsFor(state.routeColors, resp.value)
      ensures q == if old(state).userPos.Some? then Some(RoutesQuery(old(state).userPos.value, Coord(lat, lon), 1.5)) else None
    {
      state := state.(destSearchTerm := name);
      state := state.(destSuggestions := []);
      state := state.(error := "");
      state := state.(showShape := false);
      q := None;
      if state.userPos.Some? {
        q := Some(RoutesQuery(state.userPos.value, Coord(lat, lon), 1.5));
      }
      if state.userPos.None? || resp.None? {
        state := state.(error := "Failed to fetch route to selected stop.");
        state := state.(routesInfo := []);
        state := state.(selectedRouteId := None);
        return;
      }
      var data := resp.value;
      state := state.(routesInfo := data);
      state := state.(routeShapes := map[]);
      var colorMap := AssignColors(data);
      state := state.(routeColors := colorMap);
      var shapeData := LoadShapes(data, fetch);
      if shapeData.None? {
        state := state.(error := "Failed to fetch route to selected stop.");
        state := state.(routesInfo := []);
        state := state.(selectedRouteId := None);
        return;
      }
      state := state.(routeShapes := shapeData.value);
      if |data| > 0 {
        state := state.(selectedRouteId := Some(data[0].routeId));
        state := state.(showShape := true);
      } else {
        state := state.(selectedRouteId := None);
      }
    }

    method SearchDestByName(name: string, resp: Option<seq<Feature>>) returns (q: GeocodeQuery)
      requires Valid()
      modifies this
      ensures Valid()
      ensures state == Suggested(old(state), resp)
      ensures q == GeocodeQuery(name, "en", 10)
    {
      q := GeocodeQuery(name, "en", 10);
      if resp.None? {
        state := state.(error := "Failed to fetch suggestions.");
        state := state.(destSuggestions := []);
        return;
      }
      var features := resp.value;
      if |features| > 0 {
        state := state.(destSuggestions := Suggestions(features));
      } else {
        state := state.(destSuggestions := []);
        state := state.(error := "No matching location found.");
      }
    }

    method HandleUnifiedDestSearch(value: string, now: int, parseNum: NumberParser,
                                   resp: Option<seq<Candidate>>, fetch: ShapeFetch) returns (q: Option<RoutesQuery>)
      requires Valid()
      modifies this
      ensures Valid()
      ensures state == DestInput(old(state), value, now, parseNum, resp, fetch, state.routeColors)
      ensures ParseLatLon(value, parseNum).Coords? && old(state).userPos.Some? && resp.Some? ==>
        ColorsFor(state.routeColors, resp.value)
    {
      state := state.(destSearchTerm := value);
      var parsed := ParseLatLon(value, parseNum);
      if parsed.Coords? {
        state := state.(destination := Some(Place("manual", "Manual Destination", parsed.lat, parsed.lon)));
        q := FetchRoutes(parsed.lat, parsed.lon, resp, fetch);
        state := state.(destSuggestions := []);
        return;
      }
      q := None;
      if |value| >= 3 {
        state := state.(search := Call(state.search, value, now));
      } else {
        state := state.(destSuggestions := []);
      }
    }

    /** The debounce timer reads the clock; `resp` answers the search it may release. */
    method DebounceElapsed(now: int, resp: Option<seq<Feature>>) returns (q: Option<GeocodeQuery>)
      requires Valid()
      modifies this
      ensures Valid()
      ensures state == DebounceFired(old(state), now, resp)
      ensures var fired := Poll(old(state).search, now).1;
        q == if fired.Some? then Some(GeocodeQuery(fired.value, "en", 10)) else None
    {
      var polled := Poll(state.search, now);
      state := state.(search := polled.0);
      q := None;
      if polled.1.Some? {
        var sq := SearchDestByName(polled.1.value, resp);
        q := Some(sq);
      }
    }

    method SetManualLat(text: string)
      requires Valid()
      modifies this
      ensures Valid()
      ensures state == old(state).(manualLat := text)
    {
      state := state.(manualLat := text);
    }

    method HandleManualSubmit(parseNum: NumberParser, stopsResp: Option<seq<Stop>>) returns (q: Option<StopsQuery>)
      requires Valid()
      modifies this
      ensures Valid()
      ensures state == ManualSubmitted(old(state), parseNum, stopsResp)
      ensures q == match ParseLatLon(old(state).manualLat, parseNum)
        case Coords(lat, lon) => Some(StopsQuery(Coord(lat, lon), 10.0))
        case _ => None
    {
      var coords := ParseLatLon(state.manualLat, parseNum);
      q := None;
      match coords
      case Coords(lat, lon) =>
        state := state.(userPos := Some(Coord(lat, lon)));
        state := state.(error := "");
        var sq := FetchStops(lat, lon, stopsResp);
        q := Some(sq);
      case NotNumeric =>
        state := state.(error := "Please enter valid latitude and longitude.");
      case WrongCount =>
        state := state.(error := "Please enter coordinates in format: lat,lon");
    }

    /** A mode-filter button; the buttons carry the route types 0 to 7. */
    method ToggleMode(m: int)
      requires Valid() && 0 <= m <= 7
      modifies this
      ensures Valid()
      ensures state == Toggled(old(state), m)
    {
      ToggleNoDup(state.visibleModes, m);
      state := state.(visibleModes := Toggle(state.visibleModes, m));
    }
  }
}
