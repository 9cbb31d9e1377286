/** The records that cross the HTTP boundary between the Flask service and
    the React client, and the service's error answers. */
module Wire {
  import opened Wrappers

  datatype Coord = Coord(lat: real, lon: real)

  /** The geodesic distance between two points, left abstract. */
  type Distance = (Coord, Coord) -> real

  /** The integer nearest to `y`, a tie going to the even one (Python's
      `round` on a value exactly halfway). */
  function RoundHalfEven(y: real): (n: int)
    ensures y - 0.5 <= n as real <= y + 0.5
    ensures n as real - y == 0.5 || y - n as real == 0.5 ==> n % 2 == 0
  {
    var f := y.Floor;
    var d := y - f as real;
    if d < 0.5 then f
    else if d > 0.5 then f + 1
    else if f % 2 == 0 then f
    else f + 1
  }

  /** `round(x, 2)`: the multiple of 1/100 nearest to `x`, ties to even.
      The value is rounded exactly, not as a binary float. */
  function Round2(x: real): (r: real)
    ensures x - 0.005 <= r <= x + 0.005
    ensures (r * 100.0).Floor as real == r * 100.0
  {
    RoundHalfEven(x * 100.0) as real / 100.0
  }

  /** Rounding never reverses two values: a nearer distance never rounds to
      a larger one. */
  lemma RoundHalfEvenMonotone(y: real, z: real)
    requires y <= z
    ensures RoundHalfEven(y) <= RoundHalfEven(z)
  {
    if y.Floor < z.Floor {
      assert RoundHalfEven(y) <= y.Floor + 1 <= z.Floor <= RoundHalfEven(z);
    }
  }

  lemma Round2Monotone(x: real, y: real)
    requires x <= y
    ensures Round2(x) <= Round2(y)
  {
    RoundHalfEvenMonotone(x * 100.0, y * 100.0);
  }

  /** A distance already in hundredths is returned unchanged, so rounding
      twice is rounding once. */
  lemma Round2Exact(k: int)
    ensures Round2(k as real / 100.0) == k as real / 100.0
  {
    assert (k as real / 100.0) * 100.0 == k as real;
  }

  lemma Round2Idempotent(x: real)
    ensures Round2(Round2(x)) == Round2(x)
  {
    Round2Exact(RoundHalfEven(x * 100.0));
  }

  /** Every value strictly within half a hundredth of k/100 rounds to k/100,
      so all such distances share one sort key. */
  lemma Round2Between(k: int, x: real)
    requires (2 * k - 1) as real / 200.0 < x < (2 * k + 1) as real / 200.0
    ensures Round2(x) == k as real / 100.0
  {
    var n := RoundHalfEven(x * 100.0);
    assert k as real - 0.5 < x * 100.0 < k as real + 0.5;
    assert -1 < n - k < 1;
  }

  /** A value exactly halfway between k/100 and (k+1)/100 rounds to the even
      one of the two. */
  lemma Round2Halfway(k: int)
    ensures Round2((2 * k + 1) as real / 200.0) == (if k % 2 == 0 then k else k + 1) as real / 100.0
  {
    var y := (2 * k + 1) as real / 200.0 * 100.0;
    assert y == k as real + 0.5;
    var n := RoundHalfEven(y);
    assert n == k || n == k + 1;
  }

  /** A stop as it appears inside a route candidate (`start_stop`, `end_stop`). */
  datatype StopRef = StopRef(stopName: string, stopId: string, distanceKm: real, lat: real, lon: real)

  /** One element of the `routes_from_to` answer. Its `routeId` holds the
      route's long name, the value the service writes under "route_id". */
  datatype Candidate = Candidate(
    routeId: string,
    shapeId: Option<string>,
    nextDepartures: seq<string>,
    startStop: StopRef,
    endStop: StopRef)

  /** One element of the `stops_nearby_with_mode` answer. */
  datatype NearbyStop = NearbyStop(stopId: string, stopName: string, lat: real, lon: real, distanceKm: real, mode: int)

  /** The service's error answers: a missing query parameter (HTTP 400), a
      `.iloc[0]` lookup on an empty frame (IndexError), and `min()` over an
      empty shape (ValueError). */
  datatype ApiError = MissingParameters | LookupFailed | EmptyShape
}
