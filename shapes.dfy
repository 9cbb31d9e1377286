/** The `route_shape` endpoint: the part of a shape's polyline between the
    shape points closest to two stops. */
module Shapes {
  import opened Wrappers
  import opened Seqs
  import opened Sorting
  import opened Gtfs
  import opened Wire
  import opened NearbyStops

  function SequenceKey(p: ShapePointRow): real {
    p.sequence as real
  }

  function PointOf(p: ShapePointRow): Coord {
    Coord(p.lat, p.lon)
  }

  /** `shapes_df[shapes_df["shape_id"] == shape_id]`: the shape's rows in file order. */
  function RowsOfShape(shapes: seq<ShapePointRow>, shapeId: string): (r: seq<ShapePointRow>)
    ensures forall p :: p in r <==> p in shapes && p.shapeId == shapeId
  {
    Filter(shapes, (p: ShapePointRow) => p.shapeId == shapeId)
  }

  /** The shapes.txt rows of one shape, ordered by `shape_pt_sequence`. */
  function ShapePoints(shapes: seq<ShapePointRow>, shapeId: string): (r: seq<ShapePointRow>)
    ensures SortedBy(r, SequenceKey)
    ensures multiset(r) == multiset(RowsOfShape(shapes, shapeId))
    ensures forall p :: p in r <==> p in shapes && p.shapeId == shapeId
  {
    var own := RowsOfShape(shapes, shapeId);
    var r := SortBy(own, SequenceKey);
    assert forall p :: p in r <==> p in own by {
      forall p ensures p in r <==> p in own {
        assert p in r <==> p in multiset(r);
      }
    }
    r
  }

  /** `shape_coords`: the shape's points as coordinates, in sequence order. */
  function ShapeCoords(shapes: seq<ShapePointRow>, shapeId: string): seq<Coord> {
    Map(ShapePoints(shapes, shapeId), PointOf)
  }

  /** `closest_index`: the first index whose point is nearest to `target`
      (Python's `min` keeps the first of equal keys). */
  function ClosestIndex(coords: seq<Coord>, target: Coord, dist: Distance): (k: nat)
    requires |coords| > 0
    ensures k < |coords|
    ensures forall j :: 0 <= j < |coords| ==> dist(target, coords[k]) <= dist(target, coords[j])
    ensures forall j :: 0 <= j < k ==> dist(target, coords[j]) > dist(target, coords[k])
  {
    if |coords| == 1 then 0
    else
      var n := |coords| - 1;
      var k := ClosestIndex(coords[..n], target, dist);
      if dist(target, coords[n]) < dist(target, coords[k]) then n else k
  }

  /** The slice between two indices, both ends included, whichever comes first. */
  function Segment<T>(coords: seq<T>, i: nat, j: nat): seq<T>
    requires i < |coords| && j < |coords|
  {
    if i > j then coords[j..i + 1] else coords[i..j + 1]
  }

  function Lo(i: nat, j: nat): nat {
    if i <= j then i else j
  }

  function Hi(i: nat, j: nat): nat {
    if i <= j then j else i
  }

  /** `seg` is the contiguous run of `coords` from index `i` to index `j`, in
      the shape's own order whichever of the two comes first. */
  ghost predicate SegmentBetween<T>(seg: seq<T>, coords: seq<T>, i: nat, j: nat)
    requires i < |coords| && j < |coords|
  {
    |seg| == Hi(i, j) - Lo(i, j) + 1 &&
    (forall k :: 0 <= k < |seg| ==> seg[k] == coords[Lo(i, j) + k]) &&
    ((seg[0] == coords[i] && seg[|seg| - 1] == coords[j]) || (seg[0] == coords[j] && seg[|seg| - 1] == coords[i]))
  }

  /** The segment runs contiguously from the lower index to the higher one,
      and it does not depend on which index is given first. */
  lemma SegmentMeans<T>(coords: seq<T>, i: nat, j: nat)
    requires i < |coords| && j < |coords|
    ensures |Segment(coords, i, j)| == Hi(i, j) - Lo(i, j) + 1
    ensures forall k :: 0 <= k < |Segment(coords, i, j)| ==> Segment(coords, i, j)[k] == coords[Lo(i, j) + k]
    ensures Segment(coords, i, j) == Segment(coords, j, i)
    ensures Segment(coords, i, j)[0] == coords[Lo(i, j)]
    ensures Segment(coords, i, j)[|Segment(coords, i, j)| - 1] == coords[Hi(i, j)]
    ensures SegmentBetween(Segment(coords, i, j), coords, i, j)
  {
  }

  function StopRowOf(stops: seq<StopRow>, stopId: string): Option<StopRow> {
    First(stops, (s: StopRow) => s.stopId == stopId)
  }

  /** `not x` for a query parameter: absent or empty. */
  predicate Missing(x: Option<string>) {
    x.None? || x.value == ""
  }

  /** The answer of `route_shape`: a missing parameter is answered before
      anything is looked up, an unknown stop before the shape is searched,
      and an unknown or empty shape makes `min()` fail. */
  function RouteShape(feed: Feed, shapeId: Option<string>, startStopId: Option<string>, endStopId: Option<string>,
                      dist: Distance): Result<seq<Coord>, ApiError>
  {
    if Missing(shapeId) || Missing(startStopId) || Missing(endStopId) then Failure(MissingParameters)
    else
      var coords := ShapeCoords(feed.shapes, shapeId.value);
      var startRow := StopRowOf(feed.stops, startStopId.value);
      var endRow := StopRowOf(feed.stops, endStopId.value);
      if startRow.None? || endRow.None? then Failure(LookupFailed)
      else if coords == [] then Failure(EmptyShape)
      else
        var startIndex := ClosestIndex(coords, Position(startRow.value), dist);
        var endIndex := ClosestIndex(coords, Position(endRow.value), dist);
        Success(Segment(coords, startIndex, endIndex))
  }

  /** Which error `route_shape` answers, and when. */
  lemma RouteShapeErrors(feed: Feed, shapeId: Option<string>, startStopId: Option<string>, endStopId: Option<string>,
                         dist: Distance)
    ensures RouteShape(feed, shapeId, startStopId, endStopId, dist) == Failure(MissingParameters) <==>
      Missing(shapeId) || Missing(startStopId) || Missing(endStopId)
    ensures RouteShape(feed, shapeId, startStopId, endStopId, dist) == Failure(LookupFailed) <==>
      !Missing(shapeId) && !Missing(startStopId) && !Missing(endStopId) &&
      ((forall s :: s in feed.stops ==> s.stopId != startStopId.value) ||
       (forall s :: s in feed.stops ==> s.stopId != endStopId.value))
    ensures RouteShape(feed, shapeId, startStopId, endStopId, dist) == Failure(EmptyShape) ==>
      forall p :: p in feed.shapes ==> p.shapeId != shapeId.value
  {
    if !Missing(shapeId) && !Missing(startStopId) && !Missing(endStopId) {
      var startRow := StopRowOf(feed.stops, startStopId.value);
      var endRow := StopRowOf(feed.stops, endStopId.value);
      if startRow.Some? {
        assert startRow.value in feed.stops;
      }
      if endRow.Some? {
        assert endRow.value in feed.stops;
      }
      var points := ShapePoints(feed.shapes, shapeId.value);
      if points != [] {
        assert points[0] in points;
      }
    }
  }

  lemma RouteShapeValue(feed: Feed, shapeId: Option<string>, startStopId: Option<string>, endStopId: Option<string>,
                        dist: Distance)
    requires RouteShape(feed, shapeId, startStopId, endStopId, dist).Success?
    ensures !Missing(shapeId) && !Missing(startStopId) && !Missing(endStopId)
    ensures StopRowOf(feed.stops, startStopId.value).Some? && StopRowOf(feed.stops, endStopId.value).Some?
    ensures ShapeCoords(feed.shapes, shapeId.value) != []
    ensures RouteShape(feed, shapeId, startStopId, endStopId, dist).value ==
      Segment(ShapeCoords(feed.shapes, shapeId.value),
              ClosestIndex(ShapeCoords(feed.shapes, shapeId.value), Position(StopRowOf(feed.stops, startStopId.value).value), dist),
              ClosestIndex(ShapeCoords(feed.shapes, shapeId.value), Position(StopRowOf(feed.stops, endStopId.value).value), dist))
  {
  }

  /** A shape segment is the contiguous run of the shape's points from the
      point closest to one stop to the point closest to the other. */
  lemma RouteShapeSegment(feed: Feed, shapeId: Option<string>, startStopId: Option<string>, endStopId: Option<string>,
                          dist: Distance)
    requires RouteShape(feed, shapeId, startStopId, endStopId, dist).Success?
    ensures var seg := RouteShape(feed, shapeId, startStopId, endStopId, dist).value;
      var coords := ShapeCoords(feed.shapes, shapeId.value);
      var si := ClosestIndex(coords, Position(StopRowOf(feed.stops, startStopId.value).value), dist);
      var ei := ClosestIndex(coords, Position(StopRowOf(feed.stops, endStopId.value).value), dist);
      SegmentBetween(seg, coords, si, ei)
  {
    var coords := ShapeCoords(feed.shapes, shapeId.value);
    var si := ClosestIndex(coords, Position(StopRowOf(feed.stops, startStopId.value).value), dist);
    var ei := ClosestIndex(coords, Position(StopRowOf(feed.stops, endStopId.value).value), dist);
    RouteShapeValue(feed, shapeId, startStopId, endStopId, dist);
    SegmentMeans(coords, si, ei);
  }

  /** Swapping the two stops gives the same answer. */
  lemma RouteShapeSymmetric(feed: Feed, shapeId: Option<string>, startStopId: Option<string>, endStopId: Option<string>,
                            dist: Distance)
    ensures RouteShape(feed, shapeId, startStopId, endStopId, dist) == RouteShape(feed, shapeId, endStopId, startStopId, dist)
  {
    if !Missing(shapeId) && !Missing(startStopId) && !Missing(endStopId) {
      var coords := ShapeCoords(feed.shapes, shapeId.value);
      var startRow := StopRowOf(feed.stops, startStopId.value);
      var endRow := StopRowOf(feed.stops, endStopId.value);
      if startRow.Some? && endRow.Some? && coords != [] {
        SegmentMeans(coords, ClosestIndex(coords, Position(startRow.value), dist), ClosestIndex(coords, Position(endRow.value), dist));
      }
    }
  }
}
