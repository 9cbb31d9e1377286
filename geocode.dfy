/** The destination search of the client: Photon geocoder features mapped to
    suggestions and kept only when they lie in Kerala. */
module Geocode {
  import opened Wrappers
  import opened Seqs
  import opened Text

  /** A Photon feature, reduced to the fields the client reads:
      `geometry.coordinates` (longitude first) and four `properties`. */
  datatype Feature = Feature(
    coordinates: seq<real>,
    osmId: Option<int>,
    name: Option<string>,
    country: Option<string>,
    state: Option<string>)

  /** `osm_id || name`: a zero or absent OSM id falls back to the name. */
  datatype PlaceId = OsmId(id: int) | NameId(name: Option<string>)

  /** A suggestion; `lat`/`lon` are None where the coordinate array is too short. */
  datatype Suggestion = Suggestion(
    stopId: PlaceId,
    stopName: Option<string>,
    lat: Option<real>,
    lon: Option<real>,
    country: Option<string>,
    state: string)

  function At(s: seq<real>, i: nat): Option<real> {
    if i < |s| then Some(s[i]) else None
  }

  /** The `.map` step: `const [lon, lat] = feature.geometry.coordinates`. */
  function ToSuggestion(f: Feature): Suggestion {
    Suggestion(
      if f.osmId.Some? && f.osmId.value != 0 then OsmId(f.osmId.value) else NameId(f.name),
      f.name,
      At(f.coordinates, 1),
      At(f.coordinates, 0),
      f.country,
      f.state.GetOr(""))
  }

  predicate WithinKeralaBounds(lat: real, lon: real) {
    8.0 <= lat <= 12.7 && 74.8 <= lon <= 77.5
  }

  /** A non-empty state naming Kerala, or a non-empty country naming India. */
  predicate NamesKerala(state: string, country: Option<string>) {
    (state != "" && Contains(ToLower(state), "kerala")) ||
    (country.Some? && country.value != "" && Contains(ToLower(country.value), "india"))
  }

  /** The `.filter` step. An undefined coordinate compares false. */
  predicate Admissible(s: Suggestion) {
    s.lat.Some? && s.lon.Some? && WithinKeralaBounds(s.lat.value, s.lon.value) && NamesKerala(s.state, s.country)
  }

  function Suggestions(features: seq<Feature>): seq<Suggestion> {
    Filter(Map(features, ToSuggestion), Admissible)
  }

  /** A feature yields a suggestion exactly when its second coordinate is a
      latitude and its first a longitude inside the Kerala box, and its state
      or country names the region. */
  lemma SuggestionKept(features: seq<Feature>, i: int)
    requires 0 <= i < |features|
    ensures var f := features[i];
      ToSuggestion(f) in Suggestions(features) <==>
        |f.coordinates| >= 2 && WithinKeralaBounds(f.coordinates[1], f.coordinates[0]) &&
        NamesKerala(f.state.GetOr(""), f.country)
  {
    assert Map(features, ToSuggestion)[i] == ToSuggestion(features[i]);
  }

  /** Every suggestion comes from some feature, through the mapping. */
  lemma SuggestionSource(features: seq<Feature>, s: Suggestion)
    requires s in Suggestions(features)
    ensures exists i :: 0 <= i < |features| && s == ToSuggestion(features[i]) && Admissible(s)
  {
    var m := Map(features, ToSuggestion);
    var k :| 0 <= k < |m| && m[k] == s;
  }

  /** The suggestions keep the order of the features they come from. */
  lemma SuggestionsInOrder(features: seq<Feature>)
    ensures IsSubseq(Suggestions(features), Map(features, ToSuggestion))
  {
    FilterIsSubseq(Map(features, ToSuggestion), Admissible);
  }

  /** Filtering the suggestions again changes nothing. */
  lemma SuggestionsStable(features: seq<Feature>)
    ensures Filter(Suggestions(features), Admissible) == Suggestions(features)
  {
    FilterIdempotent(Map(features, ToSuggestion), Admissible);
  }
}
