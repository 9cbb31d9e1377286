/** `get_next_departures`: the departure times of the matching stop_times
    rows, ordered by parsed time, at most `count` of them. */
module Departures {
  import opened Wrappers
  import opened Seqs
  import opened Sorting
  import opened Gtfs
  import opened GtfsTime

  predicate Matches(st: StopTimeRow, tripIds: seq<string>, stopId: string) {
    st.tripId in tripIds && st.stopId == stopId
  }

  /** The `candidates` frame: rows on one of the trips, at the stop. */
  function Candidates(stopTimes: seq<StopTimeRow>, tripIds: seq<string>, stopId: string): (r: seq<StopTimeRow>)
    ensures forall st :: st in r <==> st in stopTimes && Matches(st, tripIds, stopId)
  {
    Filter(stopTimes, st => Matches(st, tripIds, stopId))
  }

  /** A candidate row with its `parsed_time` column. */
  datatype Parsed = Parsed(row: StopTimeRow, parsedTime: Option<Time>)

  function WithParsedTime(cands: seq<StopTimeRow>): (ps: seq<Parsed>)
    ensures |ps| == |cands|
    ensures forall i :: 0 <= i < |ps| ==> ps[i].row == cands[i] && ps[i].parsedTime == ParseTime(cands[i].departureTime)
  {
    Map(cands, (st: StopTimeRow) => Parsed(st, ParseTime(st.departureTime)))
  }

  predicate Timed(p: Parsed) { p.parsedTime.Some? }

  /** The `parsed_time` column as a sort key (only used on timed rows). */
  function TimeKey(p: Parsed): real {
    match p.parsedTime
    case Some(t) => Seconds(t) as real
    case None => 0.0
  }

  function Min(a: nat, b: nat): nat { if a <= b then a else b }

  /** Rows with a time, then rows without one: no row without a time comes
      before a row with one. */
  lemma MissingLast(sorted: seq<Parsed>, untimed: seq<Parsed>)
    requires forall p :: p in sorted ==> Timed(p)
    requires forall p :: p in untimed ==> !Timed(p)
    ensures forall i :: 0 <= i < |sorted + untimed| ==> (Timed((sorted + untimed)[i]) <==> i < |sorted|)
    ensures forall i, j :: 0 <= i < j < |sorted + untimed| && Timed((sorted + untimed)[j]) ==> Timed((sorted + untimed)[i])
  {
    var o := sorted + untimed;
    forall i | 0 <= i < |o| ensures Timed(o[i]) <==> i < |sorted| {
      if i < |sorted| { assert o[i] == sorted[i]; } else { assert o[i] == untimed[i - |sorted|]; }
    }
  }

  /** Rows whose time parses, sorted by it, then the rows whose time does
      not (pandas places missing values last). */
  function Ordered(ps: seq<Parsed>): (o: seq<Parsed>)
    ensures multiset(o) == multiset(ps)
    ensures forall i, j :: 0 <= i < j < |o| && Timed(o[i]) && Timed(o[j]) ==> TimeKey(o[i]) <= TimeKey(o[j])
    ensures forall i, j :: 0 <= i < j < |o| && Timed(o[j]) ==> Timed(o[i])
  {
    var timed := Filter(ps, Timed);
    var untimed := Reject(ps, Timed);
    var sorted := SortBy(timed, TimeKey);
    FilterPartition(ps, Timed);
    SortByKeeps(timed, TimeKey, Timed);
    var o := sorted + untimed;
    assert multiset(o) == multiset(ps);
    MissingLast(sorted, untimed);
    o
  }

  /** The parsed column agrees with the row it was computed from. */
  predicate Consistent(p: Parsed) {
    p.parsedTime == ParseTime(p.row.departureTime)
  }

  lemma OrderedRows(cands: seq<StopTimeRow>, ordered: seq<Parsed>)
    requires multiset(ordered) == multiset(WithParsedTime(cands))
    ensures forall i :: 0 <= i < |ordered| ==> ordered[i].row in cands && Consistent(ordered[i])
  {
    var ps := WithParsedTime(cands);
    forall i | 0 <= i < |ordered| ensures ordered[i].row in cands && Consistent(ordered[i]) {
      assert ordered[i] in multiset(ps);
      var k :| 0 <= k < |ps| && ps[k] == ordered[i];
    }
  }

  lemma OrderedTimes(ordered: seq<Parsed>, r: seq<string>)
    requires forall i, j :: 0 <= i < j < |ordered| && Timed(ordered[i]) && Timed(ordered[j]) ==> TimeKey(ordered[i]) <= TimeKey(ordered[j])
    requires forall i :: 0 <= i < |ordered| ==> Consistent(ordered[i])
    requires |r| <= |ordered| && forall i :: 0 <= i < |r| ==> r[i] == ordered[i].row.departureTime
    ensures forall i, j :: 0 <= i < j < |r| && ParseTime(r[i]).Some? && ParseTime(r[j]).Some? ==>
      Seconds(ParseTime(r[i]).value) <= Seconds(ParseTime(r[j]).value)
  {
    forall i, j | 0 <= i < j < |r| && ParseTime(r[i]).Some? && ParseTime(r[j]).Some?
      ensures Seconds(ParseTime(r[i]).value) <= Seconds(ParseTime(r[j]).value)
    {
      var a, b := ordered[i], ordered[j];
      assert a.parsedTime == ParseTime(r[i]) && b.parsedTime == ParseTime(r[j]);
      assert TimeKey(a) <= TimeKey(b);
    }
  }

  function DepartureOf(st: StopTimeRow): string {
    st.departureTime
  }

  /** The `departure_time` column of stop_times rows. */
  function DepartureTimes(rows: seq<StopTimeRow>): (r: seq<string>)
    ensures |r| == |rows| && forall i :: 0 <= i < |rows| ==> r[i] == rows[i].departureTime
  {
    Map(rows, DepartureOf)
  }

  function RowTime(p: Parsed): string {
    p.row.departureTime
  }

  /** The `departure_time` column of the parsed frame. */
  function TimesOf(ps: seq<Parsed>): (r: seq<string>)
    ensures |r| == |ps| && forall i :: 0 <= i < |ps| ==> r[i] == ps[i].row.departureTime
  {
    Map(ps, RowTime)
  }

  /** `x` sorts before `y` by parsed time: `x` parses, and `y` either does
      not (missing values go last) or parses to a later time. */
  predicate SortsBefore(x: string, y: string) {
    ParseTime(x).Some? && (ParseTime(y).None? || Seconds(ParseTime(x).value) < Seconds(ParseTime(y).value))
  }

  /** A time that sorts before the `i`-th ordered row is not that of a later row. */
  lemma NotLater(ordered: seq<Parsed>, i: nat, k: nat, x: string)
    requires forall i, j :: 0 <= i < j < |ordered| && Timed(ordered[i]) && Timed(ordered[j]) ==> TimeKey(ordered[i]) <= TimeKey(ordered[j])
    requires forall i, j :: 0 <= i < j < |ordered| && Timed(ordered[j]) ==> Timed(ordered[i])
    requires i < k < |ordered|
    requires Consistent(ordered[i]) && Consistent(ordered[k])
    requires SortsBefore(x, ordered[i].row.departureTime)
    ensures ordered[k].row.departureTime != x
  {
  }

  /** The first `n` ordered times are drawn from the candidates' times, and
      they include every copy of each time that sorts before one of them. */
  lemma PrefixTimes(cands: seq<StopTimeRow>, ordered: seq<Parsed>, n: nat)
    requires multiset(ordered) == multiset(WithParsedTime(cands))
    requires forall i, j :: 0 <= i < j < |ordered| && Timed(ordered[i]) && Timed(ordered[j]) ==> TimeKey(ordered[i]) <= TimeKey(ordered[j])
    requires forall i, j :: 0 <= i < j < |ordered| && Timed(ordered[j]) ==> Timed(ordered[i])
    requires forall i :: 0 <= i < |ordered| ==> Consistent(ordered[i])
    requires n <= |ordered|
    ensures multiset(TimesOf(ordered)[..n]) <= multiset(DepartureTimes(cands))
    ensures forall i, x :: 0 <= i < n && SortsBefore(x, TimesOf(ordered)[i]) ==>
      multiset(TimesOf(ordered)[..n])[x] == multiset(DepartureTimes(cands))[x]
  {
    var times := TimesOf(ordered);
    var ps := WithParsedTime(cands);
    MapPerm(ordered, ps, RowTime);
    assert TimesOf(ps) == DepartureTimes(cands);
    PrefixSub(times, n);
    forall i, x | 0 <= i < n && SortsBefore(x, times[i])
      ensures multiset(times[..n])[x] == multiset(DepartureTimes(cands))[x]
    {
      forall k | n <= k < |times| ensures times[k] != x {
        NotLater(ordered, i, k, x);
      }
      PrefixCount(times, n, x);
    }
  }

  /** `head(count)` of the `departure_time` column of the ordered candidates.
      The current-time filter is commented out in the source, so no row is
      dropped for lying in the past. */
  function NextDepartures(stopTimes: seq<StopTimeRow>, tripIds: seq<string>, stopId: string, count: nat): (r: seq<string>)
    ensures |r| == Min(count, |Candidates(stopTimes, tripIds, stopId)|)
    ensures multiset(r) <= multiset(DepartureTimes(Candidates(stopTimes, tripIds, stopId)))
    ensures forall i :: 0 <= i < |r| ==>
      exists st :: st in stopTimes && Matches(st, tripIds, stopId) && st.departureTime == r[i]
    ensures forall i, j :: 0 <= i < j < |r| && ParseTime(r[i]).Some? && ParseTime(r[j]).Some? ==>
      Seconds(ParseTime(r[i]).value) <= Seconds(ParseTime(r[j]).value)
    ensures forall i, x :: 0 <= i < |r| && SortsBefore(x, r[i]) ==>
      multiset(r)[x] == multiset(DepartureTimes(Candidates(stopTimes, tripIds, stopId)))[x]
  {
    var cands := Candidates(stopTimes, tripIds, stopId);
    var r := EarliestTimes(cands, count);
    forall i | 0 <= i < |r| ensures exists st :: st in stopTimes && Matches(st, tripIds, stopId) && st.departureTime == r[i] {
      TimeFrom(cands, r, i);
      var st :| st in cands && st.departureTime == r[i];
    }
    r
  }

  /** A time drawn from the candidates' times is the time of a candidate. */
  lemma TimeFrom(cands: seq<StopTimeRow>, r: seq<string>, i: nat)
    requires multiset(r) <= multiset(DepartureTimes(cands))
    requires i < |r|
    ensures exists st :: st in cands && st.departureTime == r[i]
  {
    assert r[i] in multiset(DepartureTimes(cands));
    var k :| 0 <= k < |cands| && DepartureTimes(cands)[k] == r[i];
    assert cands[k] in cands;
  }

  /** The first `count` departure times of `cands` in time order: drawn from
      the candidates, non-decreasing, and holding every copy of each time
      that sorts before one of them. */
  function EarliestTimes(cands: seq<StopTimeRow>, count: nat): (r: seq<string>)
    ensures |r| == Min(count, |cands|)
    ensures multiset(r) <= multiset(DepartureTimes(cands))
    ensures forall i, j :: 0 <= i < j < |r| && ParseTime(r[i]).Some? && ParseTime(r[j]).Some? ==>
      Seconds(ParseTime(r[i]).value) <= Seconds(ParseTime(r[j]).value)
    ensures forall i, x :: 0 <= i < |r| && SortsBefore(x, r[i]) ==>
      multiset(r)[x] == multiset(DepartureTimes(cands))[x]
  {
    var ordered := Ordered(WithParsedTime(cands));
    assert |ordered| == |multiset(ordered)| == |cands|;
    OrderedRows(cands, ordered);
    var n := Min(count, |ordered|);
    var r := TimesOf(ordered)[..n];
    OrderedTimes(ordered, r);
    PrefixTimes(cands, ordered, n);
    r
  }
}
