/**
 * `GeocodingController`: turning up to eight place names into coordinates
 * through Mapbox. The lookup is a parameter; doubles are modelled as reals
 * with an explicit NaN.
 */
module Geocoding {
  import opened Wrappers
  import opened JavaStrings

  const MaxLocations: nat := 8

  /** `asDouble(Double.NaN)` of a centre entry. */
  datatype Coordinate = Finite(value: real) | NaN

  /** `path("place_name")`: absent or JSON null, or a node with a text. */
  datatype PlaceName = NoPlaceName | PlaceText(text: string)

  /** The first feature: its centre (`None` when not an array) and its place name. */
  datatype Feature = Feature(center: Option<seq<Coordinate>>, placeName: PlaceName)

  /**
   * One Mapbox lookup: an exception (transport or JSON), or a status with
   * the `features` node (`None` when not an array).
   */
  datatype MapboxReply = LookupFailed | Reply(status: int, features: Option<seq<Feature>>)

  type Mapbox = string -> MapboxReply

  datatype GeoResult = GeoResult(query: string, lat: real, lng: real, displayName: string)

  /**
   * `geocodeSingle` with the exception handler around it: a result only
   * for a successful reply whose first feature has at least two finite
   * centre entries; longitude first, and the query as the default name.
   */
  function GeocodeSingle(query: string, reply: MapboxReply): (r: Option<GeoResult>)
    ensures r.Some? ==> r.value.query == query
    ensures r.Some? <==> && reply.Reply? && reply.status < 400
                         && reply.features.Some? && |reply.features.value| > 0
                         && var c := reply.features.value[0].center;
                            c.Some? && |c.value| >= 2 && c.value[0].Finite? && c.value[1].Finite?
    ensures r.Some? ==> var f := reply.features.value[0];
                        && r.value.lng == f.center.value[0].value
                        && r.value.lat == f.center.value[1].value
                        && r.value.displayName == (if f.placeName.PlaceText? then f.placeName.text else query)
  {
    match reply
    case LookupFailed => None
    case Reply(status, features) =>
      if status >= 400 then None
      else if features.None? || |features.value| == 0 then None
      else
        var first := features.value[0];
        if first.center.None? || |first.center.value| < 2 then None
        else
          var lng := first.center.value[0];
          var lat := first.center.value[1];
          if lat.NaN? || lng.NaN? then None
          else
            var name := match first.placeName
              case NoPlaceName => query
              case PlaceText(t) => t;
            Some(GeoResult(query, lat.value, lng.value, name))
  }

  /** The trimmed non-blank entries of the request, in order: what the loop considers. */
  function NonBlank(locations: seq<Option<string>>): (r: seq<string>)
    ensures |r| <= |locations|
    ensures forall i :: 0 <= i < |r| ==> r[i] != [] && IsTrimmed(r[i])
    decreases |locations|
  {
    if locations == [] then []
    else
      var init := NonBlank(locations[..|locations| - 1]);
      match TrimToNull(locations[|locations| - 1])
      case None => init
      case Some(t) => init + [t]
  }

  function Take<T>(s: seq<T>, n: nat): (r: seq<T>)
    ensures |r| == if |s| <= n then |s| else n
    ensures r == s[..|r|]
  {
    if |s| <= n then s else s[..n]
  }

  /** The queries actually sent: the first eight trimmed non-blank entries. */
  function Attempted(locations: seq<Option<string>>): seq<string> {
    Take(NonBlank(locations), MaxLocations)
  }

  /** The results of a list of queries, in order, failed lookups left out. */
  function Collect(queries: seq<string>, mapbox: Mapbox): (r: seq<GeoResult>)
    ensures |r| <= |queries|
    decreases |queries|
  {
    if queries == [] then []
    else
      var init := Collect(queries[..|queries| - 1], mapbox);
      var q := queries[|queries| - 1];
      match GeocodeSingle(q, mapbox(q))
      case None => init
      case Some(g) => init + [g]
  }

  /** The loop of `geocode`: stop after eight attempts, skip blanks, keep successes. */
  method GeocodeAll(locations: seq<Option<string>>, mapbox: Mapbox) returns (results: seq<GeoResult>)
    ensures results == Collect(Attempted(locations), mapbox)
    ensures |results| <= MaxLocations
  {
    results := [];
    var count := 0;
    var i := 0;
    ghost var sent: seq<string> := [];
    while i < |locations|
      invariant 0 <= i <= |locations|
      invariant sent == Attempted(locations[..i])
      invariant count == |sent|
      invariant results == Collect(sent, mapbox)
    {
      if count >= MaxLocations {
        TakeSaturates(locations, i);
        break;
      }
      AttemptedStep(locations, i);
      var trimmed := TrimToNull(locations[i]);
      if trimmed.Some? {
        CollectStep(sent, trimmed.value, mapbox);
        var single := GeocodeSingle(trimmed.value, mapbox(trimmed.value));
        if single.Some? {
          results := results + [single.value];
        }
        count := count + 1;
        sent := sent + [trimmed.value];
      }
      i := i + 1;
    }
    if i == |locations| {
      assert locations[..i] == locations;
    }
  }

  /** Before the cap, one more entry is attempted unless it is blank. */
  lemma AttemptedStep(locations: seq<Option<string>>, i: int)
    requires 0 <= i < |locations|
    requires |Attempted(locations[..i])| < MaxLocations
    ensures Attempted(locations[..i + 1]) ==
              Attempted(locations[..i]) + (if TrimToNull(locations[i]).Some? then [TrimToNull(locations[i]).value] else [])
  {
    NonBlankStep(locations, i);
  }

  /** One more entry adds its trimmed text to the non-blank entries, unless it is blank. */
  lemma NonBlankStep(locations: seq<Option<string>>, i: int)
    requires 0 <= i < |locations|
    ensures NonBlank(locations[..i + 1]) ==
              NonBlank(locations[..i]) + (if TrimToNull(locations[i]).Some? then [TrimToNull(locations[i]).value] else [])
  {
    var prefix := locations[..i + 1];
    assert prefix[..i] == locations[..i];
  }

  /** One more query adds its result, unless the lookup gives none. */
  lemma CollectStep(queries: seq<string>, q: string, mapbox: Mapbox)
    ensures Collect(queries + [q], mapbox) ==
              Collect(queries, mapbox) + (if GeocodeSingle(q, mapbox(q)).Some? then [GeocodeSingle(q, mapbox(q)).value] else [])
  {
    assert (queries + [q])[..|queries|] == queries;
  }

  /** Once eight queries are taken, later entries add none. */
  lemma {:induction false} TakeSaturates(locations: seq<Option<string>>, i: int)
    requires 0 <= i <= |locations|
    requires |Attempted(locations[..i])| >= MaxLocations
    ensures Attempted(locations) == Attempted(locations[..i])
    decreases |locations| - i
  {
    if i < |locations| {
      var prefix := locations[..i + 1];
      assert prefix[..i] == locations[..i];
      TakeSaturates(locations, i + 1);
    } else {
      assert locations[..i] == locations;
    }
  }

  datatype GeocodeResponse =
    | Unauthorized(message: string)
    | ServerError(message: string)
    | BadRequest(message: string)
    | Results(results: seq<GeoResult>)

  /**
   * `geocode`: 401 without a user id, 500 without a Mapbox token, 400 for a
   * missing or empty list, and otherwise 200 with the collected results.
   */
  method Geocode(userIdAttribute: Option<int>, token: Option<string>, locations: Option<seq<Option<string>>>,
                 mapbox: Mapbox) returns (r: GeocodeResponse)
    ensures userIdAttribute.None? ==> r == Unauthorized("Authentication required.")
    ensures userIdAttribute.Some? && (token.None? || IsBlank(token.value)) ==>
              r == ServerError("Mapbox API key is not configured.")
    ensures userIdAttribute.Some? && token.Some? && !IsBlank(token.value) && (locations.None? || locations.value == []) ==>
              r == BadRequest("Locations are required.")
    ensures userIdAttribute.Some? && token.Some? && !IsBlank(token.value) && locations.Some? && locations.value != [] ==>
              r == Results(Collect(Attempted(locations.value), mapbox))
  {
    if userIdAttribute.None? {
      return Unauthorized("Authentication required.");
    }
    if token.None? || IsBlank(token.value) {
      return ServerError("Mapbox API key is not configured.");
    }
    if locations.None? || locations.value == [] {
      return BadRequest("Locations are required.");
    }
    var results := GeocodeAll(locations.value, mapbox);
    return Results(results);
  }

  /** A null or blank entry changes nothing: it is neither sent nor counted. */
  lemma BlankEntryIgnored(a: seq<Option<string>>, blank: Option<string>, b: seq<Option<string>>)
    requires TrimToNull(blank).None?
    ensures NonBlank(a + [blank] + b) == NonBlank(a + b)
  {
    NonBlankConcat(a + [blank], b);
    NonBlankConcat(a, b);
    assert (a + [blank])[..|a|] == a;
  }

  lemma {:induction false} NonBlankConcat(a: seq<Option<string>>, b: seq<Option<string>>)
    ensures NonBlank(a + b) == NonBlank(a) + NonBlank(b)
    decreases |b|
  {
    if b == [] {
      assert a + b == a;
    } else {
      var init := b[..|b| - 1];
      assert (a + b)[..|a + b| - 1] == a + init;
      NonBlankConcat(a, init);
    }
  }

  /**
   * A failed lookup still uses up one of the eight attempts: with eight
   * failing entries first, a ninth good entry is never looked up.
   */
  lemma FailuresCountTowardCap(first: seq<string>, ninth: string, mapbox: Mapbox)
    requires |first| == MaxLocations
    requires forall i :: 0 <= i < |first| ==> first[i] != [] && IsTrimmed(first[i])
    requires forall i :: 0 <= i < |first| ==> GeocodeSingle(first[i], mapbox(first[i])).None?
    requires ninth != [] && IsTrimmed(ninth)
    ensures var locations := seq(|first|, i requires 0 <= i < |first| => Some(first[i])) + [Some(ninth)];
            Collect(Attempted(locations), mapbox) == []
  {
    var locations := seq(|first|, i requires 0 <= i < |first| => Some(first[i])) + [Some(ninth)];
    NonBlankOfTrimmed(first);
    NonBlankConcat(seq(|first|, i requires 0 <= i < |first| => Some(first[i])), [Some(ninth)]);
    TrimmedIsFixedPoint(ninth);
    NotAllTrim(ninth, 0);
    assert NonBlank([Some(ninth)]) == [ninth] by {
      assert [Some(ninth)][..0] == [];
    }
    assert Attempted(locations) == first;
    AllFail(first, mapbox);
  }

  lemma {:induction false} NonBlankOfTrimmed(qs: seq<string>)
    requires forall i :: 0 <= i < |qs| ==> qs[i] != [] && IsTrimmed(qs[i])
    ensures NonBlank(seq(|qs|, i requires 0 <= i < |qs| => Some(qs[i]))) == qs
    decreases |qs|
  {
    if qs != [] {
      var s := seq(|qs|, i requires 0 <= i < |qs| => Some(qs[i]));
      var init := qs[..|qs| - 1];
      assert s[..|s| - 1] == seq(|init|, i requires 0 <= i < |init| => Some(init[i]));
      NonBlankOfTrimmed(init);
      var last := qs[|qs| - 1];
      TrimmedIsFixedPoint(last);
      NotAllTrim(last, 0);
      assert qs == init + [last];
    }
  }

  lemma {:induction false} AllFail(qs: seq<string>, mapbox: Mapbox)
    requires forall i :: 0 <= i < |qs| ==> GeocodeSingle(qs[i], mapbox(qs[i])).None?
    ensures Collect(qs, mapbox) == []
    decreases |qs|
  {
    if qs != [] {
      AllFail(qs[..|qs| - 1], mapbox);
    }
  }

  /** Every result carries one of the queries that were sent. */
  lemma {:induction false} ResultsAnswerQueries(queries: seq<string>, mapbox: Mapbox, k: int)
    requires 0 <= k < |Collect(queries, mapbox)|
    ensures exists j :: 0 <= j < |queries| && Collect(queries, mapbox)[k].query == queries[j]
    decreases |queries|
  {
    var init := queries[..|queries| - 1];
    var q := queries[|queries| - 1];
    if k < |Collect(init, mapbox)| {
      ResultsAnswerQueries(init, mapbox, k);
      var j :| 0 <= j < |init| && Collect(init, mapbox)[k].query == init[j];
      assert queries[j] == init[j];
    } else {
      assert Collect(queries, mapbox)[k].query == queries[|queries| - 1];
    }
  }
}
