/**
 * The route endpoint of the server (`GET /api/route?dep=&arr=&simplify=`):
 * station identifiers become coordinate strings, one known-bad coordinate is
 * corrected, the pair names a cache file, and the routing engine's answer
 * (cached or fetched) becomes a feature or a 404.
 *
 * The cache directory is modelled as a map from file path to the stored
 * engine answer; the engine's answer to the request is a parameter, as are
 * the file system's acceptance of the write and the geometry simplifier, a
 * foreign library.
 */
module Route {
  import opened Wrappers
  import opened Polyline
  import opened Catalog

  /** The one station coordinate the server knows to be wrong, as
      "latitude,longitude", and what it is replaced with. */
  const KnownBadCoordinate := "48.841172,2.320514"
  const CorrectedCoordinate := "48.839526,2.318630"

  /** The base URL of the routing engine. */
  const EngineUrl := "http://raildar.fr/osrm-engine/viaroute?z=10&output=json&alt=false"

  /** Where cached engine answers live, and their extension. */
  const CacheDir := "./data/"
  const CacheExt := ".json"

  /** How a query parameter reads as an object key and in a template string:
      an absent parameter is `undefined`. */
  function QueryText(p: Option<string>): (r: string)
    ensures p.Some? ==> r == p.value
    ensures p.None? ==> r == "undefined"
  {
    p.GetOr("undefined")
  }

  /** A station's position as the engine expects it: "latitude,longitude",
      the two cells joined verbatim. */
  function Coordinates(st: Station): (r: string)
    ensures |r| == |st.latitude| + 1 + |st.longitude|
    ensures r[..|st.latitude|] == st.latitude && r[|st.latitude|] == ','
    ensures r[|st.latitude| + 1..] == st.longitude
  {
    st.latitude + "," + st.longitude
  }

  /** The hard-wired correction of one coordinate string; it matches only the
      exact "latitude,longitude" text and leaves every other string alone. */
  function Correct(c: string): (r: string)
    ensures r != c <==> c == KnownBadCoordinate
    ensures c == KnownBadCoordinate ==> r == CorrectedCoordinate
    ensures r != KnownBadCoordinate
  {
    if c == KnownBadCoordinate then CorrectedCoordinate else c
  }

  /** Correcting twice is correcting once. */
  lemma CorrectIdempotent(c: string)
    ensures Correct(Correct(c)) == Correct(c)
  {
  }

  /**
   * The endpoints the server works with: both tokens are replaced by their
   * stations' coordinates when both are known identifiers (neither when only
   * one is), and then each is corrected on its own.
   */
  function ResolveEndpoints(byId: map<string, Station>, dep: string, arr: string): (r: (string, string))
    ensures dep in byId && arr in byId ==>
      r == (Correct(Coordinates(byId[dep])), Correct(Coordinates(byId[arr])))
    ensures !(dep in byId && arr in byId) ==> r == (Correct(dep), Correct(arr))
  {
    var (d, a) := if dep in byId && arr in byId
      then (Coordinates(byId[dep]), Coordinates(byId[arr]))
      else (dep, arr);
    (Correct(d), Correct(a))
  }

  /** The cache key: origin, a dash, destination. Nothing is stripped. */
  function CacheKey(dep: string, arr: string): (key: string)
    ensures |key| == |dep| + 1 + |arr|
    ensures key[..|dep|] == dep && key[|dep|] == '-' && key[|dep| + 1..] == arr
  {
    dep + "-" + arr
  }

  /** The cache file named by a key. */
  function CacheFile(key: string): (path: string)
    ensures |path| == |CacheDir| + |key| + |CacheExt|
    ensures path[..|CacheDir|] == CacheDir
    ensures path[|CacheDir|..|CacheDir| + |key|] == key
    ensures path[|CacheDir| + |key|..] == CacheExt
  {
    CacheDir + key + CacheExt
  }

  /** The key a cache file name stands for. */
  function KeyOfFile(path: string): (key: string)
  {
    if |path| >= |CacheDir| + |CacheExt| then path[|CacheDir|..|path| - |CacheExt|] else path
  }

  /** The file name gives its key back: as strings, distinct keys name
      distinct paths. */
  lemma FileKeyRoundTrip(key: string)
    ensures KeyOfFile(CacheFile(key)) == key
  {
    var path := CacheFile(key);
    assert path[|CacheDir|..|path| - |CacheExt|] == key;
  }

  /** A string whose minus signs all lead a number: each '-' is first or right
      after the comma. Coordinate strings "lat,lon" are of this kind. */
  predicate SignsLeadNumbers(s: string)
  {
    forall k :: 0 < k < |s| && s[k] == '-' ==> s[k - 1] == ','
  }

  /** The first dash at or after `k` that cannot be a minus sign (it follows
      something other than a comma), or |key| when there is none. */
  function SeparatorFrom(key: string, k: nat): (p: nat)
    ensures k <= p <= |key| || (k > |key| && p == k)
    decreases |key| - k
  {
    if k >= |key| then k
    else if key[k] == '-' && k > 0 && key[k - 1] != ',' then k
    else SeparatorFrom(key, k + 1)
  }

  /** Splits a cache key back into origin and destination at its first
      dash that is not a minus sign. */
  function SplitKey(key: string): (r: (string, string))
  {
    var p := SeparatorFrom(key, 0);
    if p < |key| then (key[..p], key[p + 1..]) else (key, [])
  }

  lemma {:induction false} SeparatorAfterOrigin(dep: string, arr: string, k: nat)
    requires dep != [] && dep[|dep| - 1] != ',' && SignsLeadNumbers(dep)
    requires k <= |dep|
    ensures SeparatorFrom(CacheKey(dep, arr), k) == |dep|
    decreases |dep| - k
  {
    var key := CacheKey(dep, arr);
    if k < |dep| {
      assert key[k] == dep[k];
      if k > 0 {
        assert key[k - 1] == dep[k - 1];
      }
      SeparatorAfterOrigin(dep, arr, k + 1);
    } else {
      assert key[k - 1] == dep[|dep| - 1];
    }
  }

  /**
   * The key determines the endpoints when the origin's minus signs all lead
   * numbers and it does not end in a comma, as for coordinate strings; the
   * destination may be anything.
   */
  lemma KeyRecoversEndpoints(dep: string, arr: string)
    requires dep != [] && dep[|dep| - 1] != ',' && SignsLeadNumbers(dep)
    ensures SplitKey(CacheKey(dep, arr)) == (dep, arr)
  {
    SeparatorAfterOrigin(dep, arr, 0);
  }

  /** Without that condition two different raw pairs can share a key, and so a cache file. */
  lemma KeyCollision()
    ensures CacheKey("1,2-3", "4,5") == CacheKey("1,2", "3-4,5")
  {
  }

  /** How each endpoint is passed to the engine. */
  const LocParam := "&loc="

  /** The request sent to the routing engine on a cache miss. */
  function UpstreamUrl(dep: string, arr: string): (url: string)
    // the engine's base URL, then the origin and the destination as two
    // `loc` parameters, in that order and verbatim
    ensures |url| == |EngineUrl| + |LocParam| + |dep| + |LocParam| + |arr|
    ensures url[..|EngineUrl|] == EngineUrl
    ensures url[|EngineUrl|..|EngineUrl| + |LocParam|] == LocParam
    ensures url[|EngineUrl| + |LocParam|..|EngineUrl| + |LocParam| + |dep|] == dep
    ensures url[|url| - |arr| - |LocParam|..|url| - |arr|] == LocParam
    ensures url[|url| - |arr|..] == arr
  {
    EngineUrl + LocParam + dep + LocParam + arr
  }

  /** The engine's parsed JSON answer as the server sees it: `null`, or a
      value of which only the `route_geometry` field is read (absent for
      anything that has no such string field). */
  datatype Upstream = NullBody | Upstream(routeGeometry: Option<string>)

  /** What reading a field of `null` throws, as the error's message. */
  const NullReadMessage := "Cannot read properties of null (reading 'route_geometry')"

  /** A geometry as the server builds it: a polygon whose single ring is the
      decoded path (a path carried in an area container, ring left open). */
  datatype Geometry = Polygon(rings: seq<seq<LngLat>>)

  datatype Feature = Feature(geometry: Geometry)

  /** What the endpoint answers: 200 with a feature, 404, or 500 with a message. */
  datatype Response = Ok(feature: Feature) | NotFound | ServerError(message: string)

  /** The engine's answer to the request: its parsed body, or the error thrown. */
  datatype Fetch = Fetched(body: Upstream) | FetchFailed(message: string)

  /** The query: `dep`, `arr` and `simplify`, each possibly absent. */
  datatype Query = Query(dep: Option<string>, arr: Option<string>, simplify: Option<string>)

  /** The value of `simplify` that asks for a simplified geometry. */
  const SimplifyOn := "1"

  /** `data.route_geometry` is truthy: present and not the empty string. */
  function HasRoute(data: Upstream): (b: bool)
    // exactly the non-null answers whose geometry decodes to at least one vertex
    ensures b <==> data.Upstream? && data.routeGeometry.Some? && Decode(data.routeGeometry.value) != []
  {
    data.Upstream? && data.routeGeometry.Some? && data.routeGeometry.value != []
  }

  /** The feature for a polyline: one ring, the decoded vertices. */
  function RouteFeature(geometry: string): (f: Feature)
    ensures |f.geometry.rings| == 1
    ensures Encodes(f.geometry.rings[0], geometry)
  {
    DecodeIsPrefixSum(geometry);
    Feature(Polygon([Decode(geometry)]))
  }

  /** `ring` is what the polyline `geometry` stands for, vertex by vertex:
      the running sums of its changes, longitude first. */
  ghost predicate Encodes(ring: seq<LngLat>, geometry: string)
  {
    && |ring| == |Deltas(geometry)|
    && forall k :: 0 <= k < |ring| ==>
         ring[k] == LngLat(SumLng(Deltas(geometry)[..k + 1]), SumLat(Deltas(geometry)[..k + 1]))
  }

  /**
   * Turns an engine answer into the endpoint's response: with a route
   * geometry, the feature (simplified by the foreign `simplifier` when
   * `simplify` is "1"); without one, 404; for `null`, reading the field
   * throws and the handler answers 500.
   */
  function Classify(data: Upstream, simplify: Option<string>, simplifier: Feature -> Feature): (r: Response)
    ensures r.Ok? <==> HasRoute(data)
    ensures r.ServerError? <==> data.NullBody?
    ensures r.ServerError? ==> r.message == "Error " + NullReadMessage
    ensures r.Ok? && simplify != Some(SimplifyOn) ==>
      |r.feature.geometry.rings| == 1 && Encodes(r.feature.geometry.rings[0], data.routeGeometry.value)
    ensures r.Ok? && simplify == Some(SimplifyOn) ==>
      r.feature == simplifier(RouteFeature(data.routeGeometry.value))
  {
    if data.NullBody? then
      ServerError("Error " + NullReadMessage)
    else if HasRoute(data) then
      var geojson := RouteFeature(data.routeGeometry.value);
      Ok(if simplify == Some(SimplifyOn) then simplifier(geojson) else geojson)
    else
      NotFound
  }

  /** The response, the cache after the request, and the engine URL fetched, if any. */
  datatype Outcome = Outcome(response: Response, cache: map<string, Upstream>, fetched: Option<string>)

  /** How the write of a fetched answer goes: it lands, it fails later in the
      ignored callback, or it throws at once (Node rejects the path before
      opening the file) with an error message. */
  datatype Write = Written | Refused | WriteThrew(message: string)

  /**
   * The cache-or-engine step for one cache file and engine URL: a stored
   * answer is used as it is; otherwise the engine is asked and its answer is
   * stored when the write lands. A write failing in its callback is ignored;
   * one that throws ends the request in the handler's 500, whatever the
   * body, as does a failed fetch. Only a fetched answer is classified.
   */
  function Serve(file: string, url: string, cache: map<string, Upstream>, fetch: Fetch, write: Write,
                 simplify: Option<string>, simplifier: Feature -> Feature): (o: Outcome)
    // the cache only grows, and what it held stays as it was
    ensures cache.Keys <= o.cache.Keys
    ensures forall path :: path in cache ==> o.cache[path] == cache[path]
    // the engine is asked, at `url`, exactly when the file is missing
    ensures o.fetched.Some? <==> file !in cache
    ensures o.fetched.Some? ==> o.fetched.value == url
    // a hit answers from the stored file and changes nothing
    ensures file in cache ==> o.cache == cache && o.response == Classify(cache[file], simplify, simplifier)
    // a miss answers from the fetched body, which is stored exactly when the write lands
    ensures file !in cache && fetch.Fetched? && !write.WriteThrew? ==>
      && o.response == Classify(fetch.body, simplify, simplifier)
      && o.cache == (if write.Written? then cache[file := fetch.body] else cache)
    // a write that throws is a 500 carrying its message, and stores nothing
    ensures file !in cache && fetch.Fetched? && write.WriteThrew? ==>
      o.cache == cache && o.response == ServerError("Error " + write.message)
    // a failed fetch is a 500 carrying the error's message, and stores nothing
    ensures file !in cache && fetch.FetchFailed? ==>
      o.cache == cache && o.response == ServerError("Error " + fetch.message)
  {
    if file in cache then
      Outcome(Classify(cache[file], simplify, simplifier), cache, None)
    else
      match fetch
      case FetchFailed(message) => Outcome(ServerError("Error " + message), cache, Some(url))
      case Fetched(data) =>
        match write
        case WriteThrew(message) => Outcome(ServerError("Error " + message), cache, Some(url))
        case Written => Outcome(Classify(data, simplify, simplifier), cache[file := data], Some(url))
        case Refused => Outcome(Classify(data, simplify, simplifier), cache, Some(url))
  }

  /** The endpoints a query resolves to, after substitution and correction. */
  function QueryEndpoints(byId: map<string, Station>, q: Query): (string, string)
  {
    ResolveEndpoints(byId, QueryText(q.dep), QueryText(q.arr))
  }

  /** The cache file a query's endpoints name. */
  function QueryFile(byId: map<string, Station>, q: Query): string
  {
    var (dep, arr) := QueryEndpoints(byId, q);
    CacheFile(CacheKey(dep, arr))
  }

  /**
   * One request: resolve and correct the endpoints, then serve the pair's
   * cache file, asking the engine at the pair's URL on a miss.
   */
  function HandleRoute(byId: map<string, Station>, q: Query, cache: map<string, Upstream>,
                       fetch: Fetch, write: Write, simplifier: Feature -> Feature): (o: Outcome)
    // the cache only grows, and what it held stays as it was
    ensures cache.Keys <= o.cache.Keys
    ensures forall path :: path in cache ==> o.cache[path] == cache[path]
    // the engine is asked, at the endpoints' URL, exactly when the pair's file is missing
    ensures o.fetched.Some? <==> QueryFile(byId, q) !in cache
    ensures o.fetched.Some? ==>
      o.fetched.value == UpstreamUrl(QueryEndpoints(byId, q).0, QueryEndpoints(byId, q).1)
    // a hit answers from the stored file and changes nothing
    ensures QueryFile(byId, q) in cache ==>
      o.cache == cache && o.response == Classify(cache[QueryFile(byId, q)], q.simplify, simplifier)
    // a miss answers from the fetched body, which is stored exactly when the write lands
    ensures QueryFile(byId, q) !in cache && fetch.Fetched? && !write.WriteThrew? ==>
      && o.response == Classify(fetch.body, q.simplify, simplifier)
      && o.cache == (if write.Written? then cache[QueryFile(byId, q) := fetch.body] else cache)
    // a write that throws is a 500 carrying its message, and stores nothing
    ensures QueryFile(byId, q) !in cache && fetch.Fetched? && write.WriteThrew? ==>
      o.cache == cache && o.response == ServerError("Error " + write.message)
    // a failed fetch is a 500 carrying the error's message, and stores nothing
    ensures QueryFile(byId, q) !in cache && fetch.FetchFailed? ==>
      o.cache == cache && o.response == ServerError("Error " + fetch.message)
  {
    var (dep, arr) := QueryEndpoints(byId, q);
    Serve(QueryFile(byId, q), UpstreamUrl(dep, arr), cache, fetch, write, q.simplify, simplifier)
  }

  /** A 500 comes from a failed fetch or a throwing write on a miss, or from
      a `null` answer, fetched or stored. */
  lemma ServerErrorCauses(byId: map<string, Station>, q: Query, cache: map<string, Upstream>,
                          fetch: Fetch, write: Write, simplifier: Feature -> Feature)
    ensures HandleRoute(byId, q, cache, fetch, write, simplifier).response.ServerError? <==>
      if QueryFile(byId, q) in cache then cache[QueryFile(byId, q)].NullBody?
      else fetch.FetchFailed? || write.WriteThrew? || fetch.body.NullBody?
  {
  }

  /**
   * Asking again hits the cache: after a request answered from the cache,
   * or one whose fetched answer was written, the same request is answered
   * from the stored file, the same way, without asking the engine, whatever
   * the engine would say now.
   */
  lemma RepeatHitsCache(byId: map<string, Station>, q: Query, cache: map<string, Upstream>,
                        first: Fetch, write: Write, second: Fetch, write2: Write,
                        simplifier: Feature -> Feature)
    requires HandleRoute(byId, q, cache, first, write, simplifier).fetched.None?
          || (first.Fetched? && write.Written?)
    ensures var o := HandleRoute(byId, q, cache, first, write, simplifier);
      HandleRoute(byId, q, o.cache, second, write2, simplifier) == Outcome(o.response, o.cache, None)
  {
  }

  /** A fetched answer whose write did not land is not kept: the same
      request asks the engine again. */
  lemma RefusedWriteRefetches(byId: map<string, Station>, q: Query, cache: map<string, Upstream>,
                              first: Fetch, write: Write, second: Fetch, write2: Write,
                              simplifier: Feature -> Feature)
    requires !write.Written?
    requires HandleRoute(byId, q, cache, first, write, simplifier).fetched.Some?
    ensures var o := HandleRoute(byId, q, cache, first, write, simplifier);
      o.cache == cache && HandleRoute(byId, q, o.cache, second, write2, simplifier).fetched == o.fetched
  {
  }

  /** A station asked for as both ends is routed from and to its own
      (corrected) coordinates: they name the cache file and, on a miss, are
      both locations sent to the engine. */
  lemma SameStationBothEnds(byId: map<string, Station>, id: string, simplify: Option<string>,
                            cache: map<string, Upstream>, fetch: Fetch, write: Write,
                            simplifier: Feature -> Feature)
    requires id in byId
    ensures var c := Correct(Coordinates(byId[id]));
      var q := Query(Some(id), Some(id), simplify);
      var o := HandleRoute(byId, q, cache, fetch, write, simplifier);
      && ResolveEndpoints(byId, id, id) == (c, c)
      && QueryFile(byId, q) == CacheFile(CacheKey(c, c))
      && (o.fetched.Some? ==> o.fetched.value == UpstreamUrl(c, c))
  {
  }


  /** The known-bad coordinate never reaches the key or the engine, from
      either end. */
  lemma KnownBadNeverUsed(byId: map<string, Station>, dep: string, arr: string)
    ensures ResolveEndpoints(byId, dep, arr).0 != KnownBadCoordinate
    ensures ResolveEndpoints(byId, dep, arr).1 != KnownBadCoordinate
  {
  }

  /** An answer without a route is a 404 whatever `simplify` says, never a
      feature with an empty ring. */
  lemma NoRouteIsNotFound(data: Upstream, simplify: Option<string>, simplifier: Feature -> Feature)
    requires data.Upstream? && !HasRoute(data)
    ensures Classify(data, simplify, simplifier) == NotFound
  {
  }
}
