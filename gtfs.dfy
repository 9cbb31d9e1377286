/** The GTFS Schedule tables the service loads at start-up, one record per
    CSV row, each table a sequence in file order. */
module Gtfs {
  import opened Wrappers

  datatype StopRow = StopRow(stopId: string, stopName: string, lat: real, lon: real)

  /** `longName` is None when routes.txt has no `route_long_name` column.
      An empty cell, which pandas reads as NaN, is not represented. */
  datatype RouteRow = RouteRow(routeId: string, longName: Option<string>, routeType: int)

  /** `shapeId` is None for a trip the page treats as having no shape. An
      empty cell, which pandas reads as NaN, is not represented: the service
      would write it as a bare `NaN` that the page cannot parse. */
  datatype TripRow = TripRow(tripId: string, routeId: string, shapeId: Option<string>)

  datatype StopTimeRow = StopTimeRow(tripId: string, stopId: string, departureTime: string)

  datatype ShapePointRow = ShapePointRow(shapeId: string, lat: real, lon: real, sequence: int)

  datatype Feed = Feed(
    stops: seq<StopRow>,
    routes: seq<RouteRow>,
    trips: seq<TripRow>,
    stopTimes: seq<StopTimeRow>,
    shapes: seq<ShapePointRow>)
}
