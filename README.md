# Transit route finder: a Dafny model

This project models a small trip planner for the transit network of Kerala. A
Flask service (`backend/app.py`) answers three queries over a GTFS feed:
- the stops near a point, each labelled with its transport mode;
- the routes between two points, with each route's next departures;
- one route's shape, cut between two stops.

A React page (`frontend/src/App.jsx`) lets the rider fix a position and pick
a destination. The destination is either a `lat,lon` pair, a place found
through a geocoder (debounced, restricted to Kerala) or a stop clicked on the
map. The page then lists the routes, colours them, fetches their shapes and
filters the stops shown.

Every endpoint's answer is a function of the feed and the query; the
service's debug output and its write to the global stops frame do not affect any answer.
The feed's tables are sequences of rows (`Gtfs`), geodesic distance is a
function parameter, and pandas frames become filtered and sorted sequences.
Two endpoints contain loops and are methods proved against those functions:
- `stops_nearby_with_mode` builds a per-stop mode map;
- `routes_from_to` builds candidates and removes duplicates.

The page is a class, `Controller.App`. Its field is the record of the
component's `useState` hooks, and each hook setter is a record update. Each
handler is a method that makes the same updates in the same order. Its
postcondition ties the new state to a transition function of the old state.
The lemmas beside the functions state what the page promises:
- which fields a reset clears;
- what each failure leaves behind;
- when a route is selected;
- which input schedules a geocoder search.

Network answers are parameters, with `None` standing for a call that throws.
Each handler runs to completion, its awaited answers included, before the next
event. The debounce runs on a virtual clock.

Modules:
- Shared: `Wrappers` (Option, Result), `Seqs` (filter, map, first, keep-first, subsequence), `Text` (split, trim, lowercase, contains), `Sorting` (stable sort by a real key).
- Backend: `Gtfs` (feed tables), `Wire` (JSON records), `GtfsTime`, `Departures`, `NearbyStops`, `Routes`, `Shapes`.
- Frontend: `Geocode`, `Display`, `Debounce`, `Controller`.

## Model

| member | source | states |
|---|---|---|
| GtfsTime.ParseTime | backend/app.py:32-39 | a parsed time has hour 0-23, minute and second 0-59, and came from exactly three ':'-separated fields |
| GtfsTime.ParseTimeWellFormed | backend/app.py:34-37 | a zero-padded "HH:MM:SS" with hour below 48 parses, with 24 taken off an hour of 24 or more |
| GtfsTime.ParseTimeRejectsLateHour | backend/app.py:35-37 | hours of 48 or more are rejected, because the reduction by 24 happens only once |
| GtfsTime.ParseTimeRejectsOutOfRange | backend/app.py:37-39 | minutes or seconds of 60 or more make strptime fail, so the result is None |
| GtfsTime.ParseTimeRejectsTwoFields | backend/app.py:34-39 | "H:M" with two fields fails to unpack into h, m, s, so the result is None |
| GtfsTime.ParseIntRejects | backend/app.py:34 | a field holding a character that is not a digit, a sign or a blank is not an integer for `int()` |
| GtfsTime.ParseTimeRejectsNonInteger | backend/app.py:34-39 | a time with three fields of which one is not an integer makes `int()` raise, so the result is None |
| Departures.Candidates | backend/app.py:22-25 | exactly the stop_times rows on one of the trips at the stop |
| Departures.WithParsedTime | backend/app.py:40 | definition; each candidate with the parse of its own departure time; see Departures.NextDepartures |
| Departures.Ordered | backend/app.py:41-44 | the rows are a permutation of the candidates in which rows with a parsed time come first, in time order, and rows without one come last |
| Departures.PrefixTimes | backend/app.py:41-46 | the first n times of the ordered rows are drawn from the candidates' times and hold every copy of each time that sorts before one of them |
| Departures.EarliestTimes | backend/app.py:40-46 | min(count, number of candidates) times, a sub-multiset of the candidates' times, non-decreasing, leaving out no copy of a time earlier than one returned |
| Departures.NextDepartures | backend/app.py:21-46 | min(count, number of matching rows) departure times drawn (as a multiset) from the matching rows, in parsed-time order, and no matching row left out departs before a returned time |
| NearbyStops.Measure | backend/app.py:65-69 | definition; each stop with its distance from the point; see NearbyStops.Nearby |
| NearbyStops.Nearby | backend/app.py:66-71 | a measured stop is kept exactly when its distance is at most the radius |
| NearbyStops.NearbyWithin | backend/app.py:71 | every stop kept by the radius mask is within the radius |
| NearbyStops.NearestStops | backend/app.py:49-55 | exactly the stops within the radius (as a multiset), sorted by distance, and every stop in range is present |
| NearbyStops.ServingRoutesMeans | backend/app.py:74-85 | the routes found through stop times and trips are exactly the routes with a trip calling at the stop |
| NearbyStops.RoutesInNarrow | backend/app.py:78-85 | picking a stop's routes out of the nearby subset equals picking them from all routes |
| NearbyStops.RoutesInHead | backend/app.py:85-88 | the first route of the pick is the first row in routes.txt order whose id is picked |
| NearbyStops.ModeOf | backend/app.py:80-88 | definition; the route_type of the first serving route, or -1; see NearbyStops.ModeOfFirstServing |
| NearbyStops.ModeOfFirstServing | backend/app.py:80-88 | the mode is -1 when no route serves the stop, and otherwise the route_type of the first serving routes.txt row |
| NearbyStops.SubsetsAgree | backend/app.py:74-85 | the stop_times, trips and routes subsets lose no serving route of a nearby stop |
| NearbyStops.StopModeAgrees | backend/app.py:81-88 | the mode read through the three subsets for a nearby stop is that stop's mode over the whole feed |
| NearbyStops.StopModes | backend/app.py:81-88 | every nearby stop id gets an entry, and each entry is that stop's mode |
| NearbyStops.LabelModes | backend/app.py:91-100 | one result per nearby row, in order, each the row with the mode the map holds for its stop id |
| NearbyStops.StopsNearbyWithMode | backend/app.py:58-102 | one result per nearby stop, in order, each the stop with its distance rounded to hundredths and its mode, and no returned distance exceeds the radius rounded to hundredths |
| Routes.RowOfStopFound | backend/app.py:147-148 | a stop id of the nearby list finds its row, and that row has the id |
| Routes.AtStopsServed | backend/app.py:136-140 | a stop time kept for a route is on a common trip of that route |
| Routes.ServedAt | backend/app.py:136-140 | a served nearby stop leaves a stop time in the route's subset |
| Routes.CandidateFor | backend/app.py:131-172 | definition; one route's lookup, candidate or nothing; see Routes.CandidateForFails, Routes.CandidateForNone, Routes.CandidateForSome |
| Routes.CandidateForFails | backend/app.py:132-135 | a lookup fails exactly when routes.txt has no row for the route or no common trip runs on it |
| Routes.CandidateForNone | backend/app.py:136-143 | no candidate exactly when the route serves no stop near the start, or none near the end |
| Routes.CandidateForSome | backend/app.py:143-172 | a candidate names the route's long name (or "") and two nearby stops a common trip of the route calls at, and has at most three departures |
| Routes.Collect | backend/app.py:131-172 | definition; the candidates of the route loop, or its first failure; see Routes.CollectMeans |
| Routes.CollectMeans | backend/app.py:131-172 | the loop fails exactly when one route fails, and otherwise holds exactly the candidates produced |
| Routes.CollectFailureSticks | backend/app.py:184-186 | once a route fails, the whole request fails |
| Routes.CollectStep | backend/app.py:131-172 | one more route extends the collected candidates by its candidate, leaves them as they are when it has none, and fails when its lookup fails |
| Routes.CollectStops | backend/app.py:184-186 | the first failed lookup is the answer of the whole loop |
| Routes.BuildCandidates | backend/app.py:131-172 | the loop's result equals the collected outcomes |
| Routes.Dedup | backend/app.py:175-181 | the loop keeps the first candidate of every (route, start stop, end stop) key, in order |
| Routes.RouteIdsOf | backend/app.py:128 | definition; the route ids of the common trips, without repeats; see Routes.RouteIdsOfMeans |
| Routes.RouteIdsOfMeans | backend/app.py:128-129 | the route ids are exactly those of the common trips |
| Routes.Found | backend/app.py:118-172 | definition; the candidates the route loop collects; see Routes.AnswerFails, Routes.AnswerComplete |
| Routes.Answer | backend/app.py:118-186 | definition; the found candidates deduplicated and sorted by the rounded start distance; see Routes.AnswerOrder, Routes.AnswerCandidate |
| Routes.AnswerFails | backend/app.py:118-186 | the request fails exactly when a common trip's route has no routes.txt row |
| Routes.AnswerOrder | backend/app.py:175-182 | the answer has distinct keys, is sorted by the start distance rounded to hundredths, is a permutation of the deduplicated candidates, and keeps candidates whose rounded distances are equal in the order found |
| Routes.AnswerComplete | backend/app.py:175-181 | every candidate found is represented by one with its key |
| Routes.AnswerCandidate | backend/app.py:118-172 | each answered candidate reports boarding and alighting distances that are stop distances within the radius rounded to hundredths, and so at most the radius rounded, from the two nearest-stop lists, served by a common trip of a routes.txt route, with at most three departures |
| Routes.RoutesFromTo | backend/app.py:108-186 | the endpoint's imperative body computes the answer |
| Wire.RoundHalfEven | backend/app.py:98 | the integer returned is within one half of the value, and is even when the value lies exactly halfway |
| Wire.Round2 | backend/app.py:98 | `round(x, 2)` is a multiple of 1/100 within 0.005 of x |
| Wire.Round2Monotone | backend/app.py:161 | a nearer distance never rounds to a larger one, so sorting on rounded distances never puts a strictly farther stop first unless both round equal |
| Wire.Round2Idempotent | backend/app.py:161-182 | rounding a rounded distance changes nothing |
| Wire.Round2Between | backend/app.py:161-182 | every distance strictly within half a hundredth of k/100 rounds to k/100, so all of them share one sort key |
| Wire.Round2Halfway | backend/app.py:161 | a distance exactly halfway between two hundredths rounds to the even one |
| Sorting.SortBy | backend/app.py:182 | the result is sorted by the key and is a permutation of the input |
| Sorting.SortStable | backend/app.py:182 | elements with equal keys keep their relative order |
| Shapes.RowsOfShape | backend/app.py:199 | the rows kept are exactly the rows of the shape |
| Shapes.ShapePoints | backend/app.py:199 | the rows are the shape's rows with their multiplicities (as a multiset), ordered by shape_pt_sequence |
| Shapes.ClosestIndex | backend/app.py:209-213 | the index is in range, its point is nearest to the target, and no earlier point is as near |
| Shapes.Segment | backend/app.py:215-218 | definition; the slice between the two indices, whichever comes first; see Shapes.SegmentMeans |
| Shapes.SegmentMeans | backend/app.py:215-218 | the slice runs contiguously from the lower index to the higher, whichever index comes first, and both ends are included |
| Shapes.RouteShapeErrors | backend/app.py:196-204 | missing parameters exactly when a parameter is absent or empty; a failed lookup exactly when a stop id has no stops.txt row; an empty shape yields an error |
| Shapes.RouteShape | backend/app.py:190-222 | definition; the endpoint's answer or error; see Shapes.RouteShapeErrors, Shapes.RouteShapeSegment |
| Shapes.RouteShapeSegment | backend/app.py:199-220 | the segment has Hi-Lo+1 points, runs along the shape, and ends at the shape points closest to the two stops |
| Shapes.RouteShapeSymmetric | backend/app.py:212-218 | swapping the two stops gives the same segment |
| Geocode.ToSuggestion | frontend/src/App.jsx:144-154 | definition; a feature mapped to a suggestion; see Geocode.SuggestionSource |
| Geocode.Suggestions | frontend/src/App.jsx:143-162 | definition; the mapped features that are admissible; see Geocode.SuggestionKept |
| Geocode.SuggestionKept | frontend/src/App.jsx:143-162 | a feature is suggested exactly when its point lies in the Kerala box (bounds inclusive) and its state names Kerala or its country names India |
| Geocode.SuggestionSource | frontend/src/App.jsx:143-162 | every suggestion is the mapping of some feature and is admissible |
| Geocode.SuggestionsInOrder | frontend/src/App.jsx:143-162 | suggestions keep the order of the features |
| Geocode.SuggestionsStable | frontend/src/App.jsx:155-162 | filtering the suggestions again drops nothing |
| Display.Toggle | frontend/src/App.jsx:389-394 | the toggled mode's membership flips and every other mode keeps its membership |
| Display.ToggleTwice | frontend/src/App.jsx:389-394 | toggling a mode twice restores membership |
| Display.ToggleTwiceHidden | frontend/src/App.jsx:389-394 | switching a hidden mode on and off again restores the list itself |
| Display.ToggleNoDup | frontend/src/App.jsx:389-394 | the toggle keeps the mode list free of duplicates |
| Display.ShownStops | frontend/src/App.jsx:510-513 | definition; see Display.ShownStopsMeans |
| Display.NearbyCount | frontend/src/App.jsx:474 | definition; see Display.NearbyCountBound |
| Display.ShownStopsMeans | frontend/src/App.jsx:510-513 | a stop is drawn exactly when it has a position, its lowercased name contains the lowercased search term and its mode is visible; the drawn stops keep their order |
| Display.UnservedStopsHidden | frontend/src/App.jsx:513 | with only GTFS route types visible, a stop of mode -1 is never drawn |
| Display.NearbyCountBound | frontend/src/App.jsx:474 | the nearby count is never below the number of drawn stops |
| Display.ShownRoutes | frontend/src/App.jsx:542-543 | definition; see Display.ShownRoutesMeans |
| Display.ShownRoutesMeans | frontend/src/App.jsx:542-543 | a route is drawn exactly when the shape is shown and its id is the selected one; nothing is drawn otherwise |
| Debounce.Call | frontend/src/App.jsx:129-134 | definition; a keystroke replaces the pending value and restarts the wait; see Debounce.BurstHolds |
| Debounce.Poll | frontend/src/App.jsx:129-134 | definition; the pending value is released once its deadline has passed; see Debounce.LastKeystrokeWins, Debounce.ReleasedOnce |
| Debounce.BurstHolds | frontend/src/App.jsx:129-134 | during keystrokes closer together than the wait, nothing is released, and the last keystroke is pending with its deadline |
| Debounce.LastKeystrokeWins | frontend/src/App.jsx:129-134 | once the wait has passed after a burst, exactly the last keystroke is released |
| Debounce.ReleasedOnce | frontend/src/App.jsx:129-134 | a released value is not released again |
| Controller.ParseLatLon | frontend/src/App.jsx:250-265 | definition; see Controller.ParseLatLonCount, Controller.ParseLatLonReads |
| Controller.ParseLatLonCount | frontend/src/App.jsx:250-265 | the token-count error arises exactly when the text has other than one comma |
| Controller.ParseLatLonReads | frontend/src/App.jsx:180-190 | two comma-free tokens with surrounding blanks read back as the two numbers they spell, or as not numeric |
| Controller.RandomColor | frontend/src/App.jsx:40-46 | the colour is one of the ten palette entries |
| Controller.AssignColors | frontend/src/App.jsx:105-109 | exactly one colour per route id of the answer, each a palette entry |
| Controller.ShapesOf | frontend/src/App.jsx:111-121 | definition; see Controller.ShapesOfMeans |
| Controller.ShapesOfMeans | frontend/src/App.jsx:111-121 | the shape loop fails exactly when a fetch it makes throws; otherwise it has an entry exactly for the routes with a shape id, each the answer fetched for such a route |
| Controller.ShapesOfFailureSticks | frontend/src/App.jsx:111-123 | after one throwing shape fetch no later route can rescue the batch |
| Controller.LoadShapes | frontend/src/App.jsx:111-121 | the loop with its early exit computes the shape map |
| Controller.Reset | frontend/src/App.jsx:69-79 | definition; see Controller.ResetClears |
| Controller.StopsFetched | frontend/src/App.jsx:81-94 | definition; see Controller.StopsFailureKeepsStops |
| Controller.Geolocated | frontend/src/App.jsx:49-67 | definition; see Controller.App.Geolocate |
| Controller.RoutesFetched | frontend/src/App.jsx:96-127 | definition; see Controller.RoutesFetchedMeans |
| Controller.DestinationSet | frontend/src/App.jsx:200-248 | definition; see Controller.DestinationSetSuccess, Controller.DestinationSetFailure |
| Controller.Suggested | frontend/src/App.jsx:136-176 | definition; see Controller.SuggestedMeans |
| Controller.DestInput | frontend/src/App.jsx:178-198 | definition; see Controller.DestInputCoords, Controller.DestInputSchedules, Controller.DestInputShort |
| Controller.DebounceFired | frontend/src/App.jsx:129-134 | definition; see Controller.App.DebounceElapsed |
| Controller.ManualSubmitted | frontend/src/App.jsx:250-265 | definition; see Controller.ManualSubmittedMeans |
| Controller.Toggled | frontend/src/App.jsx:389-394 | definition; see Controller.ToggleConsistent |
| Controller.RouteSelected | frontend/src/App.jsx:422-426 | definition; see Controller.App.SelectRoute |
| Controller.InitialConsistent | frontend/src/App.jsx:11-24 | the initial modes are distinct route types and there are no colours |
| Controller.ResetClears | frontend/src/App.jsx:69-79 | reset clears routes, shapes, inputs, suggestions, destination, selection and error; keeps position, stops, visible modes and colours; draws no route; a second reset changes nothing |
| Controller.StopsFailureKeepsStops | frontend/src/App.jsx:81-94 | a failed stops request keeps the stops and reports "Failed to fetch stops." |
| Controller.RoutesFetchedMeans | frontend/src/App.jsx:96-127 | no-op without a position; the selection never changes; a failure keeps the shapes; on success the routes are the answer, the empty-answer message appears exactly for an empty answer, and the shape keys are the routes with a shape |
| Controller.DestinationSetInput | frontend/src/App.jsx:200-204 | the chosen name fills the input, suggestions close, and the destination field is left as it was |
| Controller.DestinationSetSuccess | frontend/src/App.jsx:206-240 | the answer becomes the route list with fresh colours and a shape for exactly the routes with a shape id; the first route is selected and drawn, and an empty answer selects nothing |
| Controller.DestinationSetFailure | frontend/src/App.jsx:241-247 | with no position, a failed request or a failed shape fetch, the list is empty, nothing is selected and the error says so |
| Controller.SuggestedMeans | frontend/src/App.jsx:136-176 | a failed lookup and an empty answer each clear the suggestions with their own message; otherwise the suggestions are exactly the admissible mapped features and the error is untouched, even when none is admissible |
| Controller.DestInputKeepsText | frontend/src/App.jsx:178-179 | the typed text is always kept in the input |
| Controller.DestInputCoords | frontend/src/App.jsx:180-190 | a lat,lon pair sets the manual destination, loads routes to it, clears the suggestions and schedules no search |
| Controller.DestInputSchedules | frontend/src/App.jsx:193-194 | other text of three or more characters reschedules the search for that text one wait from now and changes nothing else |
| Controller.DestInputShort | frontend/src/App.jsx:195-197 | shorter text clears the suggestions and schedules nothing |
| Controller.ManualSubmittedMeans | frontend/src/App.jsx:250-265 | a numeric pair sets the position, loads the stops and clears the error unless the stops request fails; a non-number and a wrong token count each report their own message and leave the state otherwise unchanged |
| Controller.ToggleConsistent | frontend/src/App.jsx:389-394 | a toggle keeps the visible modes distinct route types, and so does a reset |
| Controller.RoutesFetchedConsistent | frontend/src/App.jsx:96-127 | a route answer with palette colours leaves every stored colour in the palette |
| Controller.DestinationSetConsistent | frontend/src/App.jsx:200-248 | so does the route answer for a chosen destination |
| Controller.App.constructor | frontend/src/App.jsx:11-24 | the hooks start at their initial values |
| Controller.App.Geolocate | frontend/src/App.jsx:49-67 | unsupported and denied geolocation report their messages; a position is stored and its stops loaded within 10 km |
| Controller.App.HandleReset | frontend/src/App.jsx:69-79 | the new state is the reset of the old one |
| Controller.App.FetchStops | frontend/src/App.jsx:81-94 | requests stops within 10 km of the point; the new state is the completion of that request |
| Controller.App.FetchRoutes | frontend/src/App.jsx:96-127 | requests routes from the position within 1.5 km; the new state is the routes transition with a palette colour per route |
| Controller.App.SelectRoute | frontend/src/App.jsx:422-426 | the clicked route is selected and its shape shown |
| Controller.App.HandleSetDestination | frontend/src/App.jsx:200-248 | the new state is the destination transition, with a palette colour per route |
| Controller.App.SearchDestByName | frontend/src/App.jsx:136-176 | asks the geocoder for ten English results; the new state is the suggestion transition |
| Controller.App.HandleUnifiedDestSearch | frontend/src/App.jsx:178-198 | the new state is the destination-input transition |
| Controller.App.DebounceElapsed | frontend/src/App.jsx:129-134 | a released search is issued for the released text, and only then |
| Controller.App.SetManualLat | frontend/src/App.jsx:341 | only the manual-location text changes |
| Controller.App.HandleManualSubmit | frontend/src/App.jsx:250-265 | a stops request is made exactly for a numeric pair; the new state is the manual-submit transition |
| Controller.App.ToggleMode | frontend/src/App.jsx:389-394 | the visible modes are toggled and stay distinct route types |

## Left out

- HTTP, Flask routing, CORS, JSON encoding, query-string parsing with `float()`, and the loading of the feed from disk. The endpoints take the feed and already-parsed numbers; the `{"error": ...}` replies become the `ApiError` cases.
- `services/gtfs_loader.py` is not part of this model; the feed is given as tables of rows.
- Every id (`stop_id`, `trip_id`, `route_id`, `shape_id`) is assumed to be read as text. The feed is read without column types, so an all-numeric id column becomes integers that never equal the query strings (backend/app.py:199, 203): the lookup raises, the endpoint answers 500, and the page's shape batch fails.
- Geodesic distance and `parseFloat`: both are function parameters, so the model assumes nothing about their values.
- `closest_index` measures in metres and the endpoints in kilometres. Multiplying every distance by 1000 does not move the minimum, so the model uses one distance function.
- `round(..., 2)` is modelled on the exact value (`Wire.Round2`, ties to even): floating point is not modelled, so a distance whose binary value lies just off a halfway point may round differently from the model.
- Routes.AnswerOrder, Routes.RoutesFromTo, Routes.AnswerCandidate: the answer is sorted on the rounded start distance, so stops whose distances round alike keep the order they were found in; the radius bound `distance <= radius` holds for the distances before rounding, and the returned rounded distances are bounded by the rounded radius.
- NearbyStops.StopsNearbyWithMode: the returned distances are rounded, so they are bounded by the rounded radius, not by the radius itself.
- pandas sorts are not stable by default. The model fixes one admissible order, a stable sort with unparsable times last. No contract about tie order is claimed for the pandas sorts; only the `sorted` call (line 182) is stable.
- NearestStops: the order of stops at equal distance is not stated, as noted above.
- `datetime.now()` is not modelled: the filter that would drop past departures is commented out in the source.
- Python's `int()` accepts Unicode digits and underscores. The model accepts ASCII digits with an optional sign; trimming covers space, tab, CR, LF, VT and FF only.
- `toLowerCase` is modelled on ASCII letters only, and JavaScript string lengths are counted in characters, not UTF-16 units.
- NaN from pandas is not modelled. An empty `shape_id` cell in trips.txt reads as NaN, `jsonify` writes it as the bare token `NaN`, and `res.json()` on the page then throws (frontend/src/App.jsx:101, 211): `fetchRoutes` reports "Failed to load routes" and `handleSetDestination` empties the route list (frontend/src/App.jsx:241-245). The model's absent shape id is a route listed without a shape, a case the page handles but that a CSV feed cannot produce.
- An empty `route_long_name` cell reads as NaN too, and `route.get` returns NaN rather than "" (backend/app.py:155), with the same failure on the page. The model cannot express it: a long name is either present as text or the column is absent.
- The write of `distance_km` into the global `stops_df` by `get_nearest_stops` is not modelled. Every call recomputes the column, so no model result depends on it.
- `isLoading`, `sidebarCollapsed`, icons, markers, popups, map fitting and other rendering are not modelled.
- Interleaving of overlapping asynchronous handlers is not modelled: each handler runs to completion, its awaited answers included, before the next event.
- Controller.App.FetchRoutes, Controller.App.HandleSetDestination: a backend error reply that parses as JSON is modelled as a thrown call, not as data. In `fetchRoutes` the code first stores the `{"error": ...}` object as the route list (frontend/src/App.jsx:102), and the colour loop then throws (frontend/src/App.jsx:106): the page shows "Failed to load routes" and keeps an error object it cannot render as a list, where the model keeps the previous list. In `handleSetDestination` the code empties the shapes (frontend/src/App.jsx:214) before the loop throws (frontend/src/App.jsx:217), where the model's thrown-call branch keeps the old shapes.
- Controller.App.FetchStops: a backend error object would be stored as the stop list; the model treats it as a failed request.

Behaviour of the code worth knowing:
- There is no generation counter. A later answer is simply the latest state.
- One failing shape fetch aborts the whole batch. It is not handled per route.
- `fetchRoutes` never touches the selection, so the selected id can name a route that is no longer listed.
- `handleSetDestination` never records the destination.
- Picking a suggestion does not cancel a pending debounced search.
- No input ever sets the stop-name search term; only reset writes it.
