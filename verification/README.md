# trainmap route core in Dafny

This project models the logic at the centre of trainmap, a small web
application that draws the rail route between two train stations and lets
the user export the routes as GeoJSON. The model covers:

- the backend's polyline decoder (`decodepoly`). This is the decoding half of
  the Encoded Polyline Algorithm Format, up to the integer accumulators.
- the route endpoint's pure logic. Station identifiers are replaced by
  coordinates, one known-bad coordinate is corrected, and the cache key and
  cache file name are built. The engine answer becomes a Feature or a 404.
- the start-up fold that builds the station table from the parsed rows.
- the front end's trip list (`onAdd`, `onRemove`) and the export shape
  (`mergeGeojsons` over the trips' features).

Modules follow the program's structure:

- `Polyline` (polyline.dfy) is the decoder, with a loop-level method that
  mirrors the source.
- `PolylineEncoding` (polyline_encoding.dfy) is the matching encoder. It is
  the decoder's reference: decoding inverts it, and the format's published
  example decodes as published.
- `Catalog` (catalog.dfy) is the station table.
- `Route` (route.dfy) is the route endpoint. The cache directory is a map
  from file name to the stored engine answer.
- `Search` (search.dfy) is the cap on search results.
- `Trips` (trips.dfy) is the front end's list and export.
- `Wrappers` (wrappers.dfy) holds `Option`.

Behaviour of the code worth noting:

- The code strips no characters from the endpoints, so the key and the
  file name are built from the raw query text.
- The correction matches only the "latitude,longitude" order of one string.
- The decoder always uses 1e6 as its divisor.
- Only a top-level `route_geometry` field is read.
- The search has no country filter.

The model follows the code.

Inputs that the model takes as parameters:

- the routing engine's answer to a request: a parsed body (`null`, or a value
  summarised by its `route_geometry` field), or the error thrown by the HTTP
  client.
- how the write of a fetched answer goes: it lands, it fails in its ignored callback, or it throws at once with a message.
- the geometry simplifier, which is a foreign library.
- the parsed station rows.
- the fuzzy search's ranked result list.

## Model

| member | source | states |
|---|---|---|
| Polyline.ReadGroupStopsAtFirstStop | index.js:67-71 | a group runs up to and including the first character whose code minus 63 is below 0x20; every earlier character of the group has the flag |
| Polyline.ReadGroupLeavesSuffix | index.js:67-71 | the cursor only moves forward: what is left after a group is a suffix of the input |
| Polyline.ReadGroupBound | index.js:68-70 | a group of k characters has a value below 2^(5k), so groups of at most six characters stay below 2^30 |
| Polyline.Chunk | index.js:68-69 | `(code - 63) & 0x1f` is the one value below 32 that agrees with code - 63 in the low five bits, including for codes below 63 |
| Polyline.ReadGroup | index.js:67-71 | reading a group never moves the cursor backwards, and uses at least one character of a non-empty string |
| Polyline.ReadGroupAt | index.js:66-71 | the shift-and-or loop over the characters at the cursor computes the group value Σ chunk_k·2^(5k), and the cursor ends at the group's end as `Polyline.GroupEnd` defines it from the characters alone |
| Polyline.GroupEnd | index.js:66-71 | the cursor after a group moves forward by at least one, and at most to one past the end of the string (one past the start when the read began past the end) |
| Polyline.GroupEndPlace | index.js:66-71 | the cursor stops right after a stop character that lies inside the string, and reaches one past the end only when the string ran out mid-group or the read began past the end; so it is exactly one past the end when the last character still had the continuation flag |
| Polyline.ZigZag | index.js:72-73 | undoing the zig-zag fold: even codes are the non-negative changes res/2, odd codes the negative ones -(res+1)/2, and each code comes from exactly one change |
| Polyline.Deltas | index.js:65-85 | the string holds no change exactly when it is empty; each round reads two groups, so there are never more changes than characters |
| Polyline.Decode | index.js:58-89 | one vertex per round, and the empty string decodes to the empty list |
| Polyline.Accumulate | index.js:74-86 | the running totals give one vertex per change |
| Polyline.AccumulateIsPrefixSum | index.js:74-86 | the k-th vertex pushed is the start point plus the first k+1 changes, longitude first |
| Polyline.DecodeIsPrefixSum | index.js:74-86 | the k-th decoded latitude is the sum of the first k+1 latitude changes, the longitude likewise, and the pair is emitted longitude first |
| Polyline.DecodePoly | index.js:58-89 | the source's loop of two groups and one push per round yields exactly the decoded vertex list: empty for the empty string, and the running sums of the changes otherwise |
| PolylineEncoding.ZigZagEncode | index.js:72-73 | the zig-zag fold that the decoder inverts: every change is recovered from its code |
| PolylineEncoding.ReadEncodedGroup | index.js:67-71 | reading a group from an encoded value gives the value back and stops exactly at its end, leaving what follows untouched |
| PolylineEncoding.DeltasOfEncoding | index.js:65-85 | the latitude/longitude alternation: decoding the text of a list of changes gives that list back |
| PolylineEncoding.AccumulateDifferences | index.js:74-86 | summing the changes between consecutive vertices rebuilds the vertices |
| PolylineEncoding.DecodeEncode | index.js:58-89 | round trip: decoding the encoding of any vertex list gives the list back |
| PolylineEncoding.ReferenceVector | index.js:58-89 | the format's published example string decodes to [[-12020000, 3850000], [-12095000, 4070000]] in longitude-first order, before the division |
| Catalog.Augment | index.js:31-33 | the name gains " (info)" exactly when `info:fr` is non-empty; no other column changes |
| Catalog.Suggestables | index.js:35-37 | the suggestion list holds only rows flagged "t", and never more entries than there are rows |
| Catalog.SuggestablesMembers | index.js:35-37 | a station is offered exactly when some row flagged "t" augments to it |
| Catalog.SuggestablesAppend | index.js:30-38 | the suggestion list keeps file order: rows split in two give the first part's suggestions followed by the second's |
| Catalog.LoadStep | index.js:34 | storing one more row keeps the table's keys equal to the ids seen so far, and each id holds its latest row |
| Catalog.LoadStations | index.js:30-38 | the table's keys are exactly the rows' ids, each id holds its last row with the name augmented, and the suggestion list is the in-order selection of rows flagged "t" |
| Route.QueryText | index.js:115-128 | a missing parameter reads as "undefined" for the lookup and in the key |
| Route.Coordinates | index.js:117-118 | a station becomes its latitude cell, a comma, then its longitude cell, verbatim |
| Route.Correct | index.js:121-126 | the correction changes a string exactly when it is the known-bad "latitude,longitude" text, turns that text into "48.839526,2.318630", and never yields the bad text |
| Route.CorrectIdempotent | index.js:121-126 | correcting an already corrected endpoint changes nothing |
| Route.ResolveEndpoints | index.js:116-126 | both tokens become station coordinates only when both are known ids (one known id changes neither), and each is then corrected on its own |
| Route.CacheKey | index.js:128 | the key is the origin, then one dash, then the destination |
| Route.CacheFile | index.js:129 | the cache path is "./data/", then the key verbatim, then ".json" |
| Route.FileKeyRoundTrip | index.js:129 | the cache path string gives its key back, so distinct keys give distinct path strings |
| Route.KeyRecoversEndpoints | index.js:128 | when the origin's minus signs all lead numbers, as in coordinate text, the key splits back into origin and destination |
| Route.KeyCollision | index.js:128 | without that condition two different raw pairs share one key and therefore one cache file |
| Route.UpstreamUrl | index.js:136 | the engine URL is the base URL followed by the origin and then the destination, each after "&loc=", verbatim |
| Route.HasRoute | index.js:141 | `data.route_geometry` is truthy exactly when the body is not `null` and its geometry decodes to at least one vertex |
| Route.RouteFeature | index.js:142-149 | the feature's geometry has exactly one ring, and that ring is the decoded path vertex by vertex |
| Route.Classify | index.js:141-158 | a feature comes back exactly when `route_geometry` is truthy, with the decoded path as its one ring or passed through the simplifier when simplify is "1"; a `null` body throws on the field read and is a 500 with the error's message; every other answer is a 404 |
| Route.Serve | index.js:131-158 | for one file and URL: a stored answer is used and nothing changes. Otherwise the engine is asked at that URL; its body answers and is stored exactly when the write lands. A write that throws, or a failed fetch, is a 500 with "Error " and the message that stores nothing. Old entries are never altered |
| Route.HandleRoute | index.js:115-159 | the engine is asked, at the corrected endpoints' URL, exactly when the pair's file is missing; a hit answers from the stored answer and leaves the cache alone; a miss answers from the fetched body and stores it when the write lands; a write that throws or a failed fetch is a 500 with "Error " and the message, and stores nothing |
| Route.ServerErrorCauses | index.js:131-158 | a request answers 500 exactly when the fetch fails or the write throws on a miss, or when the answer used, stored or fetched, is `null` |
| Route.RepeatHitsCache | index.js:131-139 | after a request answered from the cache, or whose fetched answer was written, repeating it is answered from the cache the same way, without asking the engine |
| Route.RefusedWriteRefetches | index.js:133-139 | a fetched answer whose write does not land leaves the cache as it was, so the same request asks the engine again at the same URL |
| Route.SameStationBothEnds | index.js:116-136 | a station asked for at both ends is routed from and to its own corrected coordinates: both halves of the cache file's key and both locations of the engine URL are those coordinates |
| Route.KnownBadNeverUsed | index.js:116-128 | the known-bad coordinate never reaches the key or the engine, from either end |
| Route.NoRouteIsNotFound | index.js:141-154 | a non-null answer without a route is a 404 whatever simplify says, never a feature with an empty ring |
| Search.TopResults | index.js:111 | at most ten results are sent, the best-ranked ones in rank order, and all of them when there are fewer |
| Trips.MergeGeojsons | front/src/App.js:89-100 | no feature gives the empty export and one feature is sent unwrapped; two or more go into a collection; in every case the features come out all present and in order |
| Trips.MergeFeatures | front/src/App.js:89-100 | the export is determined by the features it carries |
| Trips.Geojsons | front/src/App.js:120 | the k-th feature is the k-th trip's geojson |
| Trips.ExportOf | front/src/App.js:120-130 | the export is empty exactly when there are no trips (so the download is disabled), and it carries each trip's feature in trip order |
| Trips.OnAdd | front/src/App.js:111-113 | the new trip goes last and the earlier trips are unchanged |
| Trips.SpliceStart | front/src/App.js:116 | `splice` starts at an in-range index as given, counts a negative one from the end, and clamps a start past the end to the length and one before the beginning to 0 |
| Trips.OnRemove | front/src/App.js:114-118 | for an in-range index the list shrinks by one: earlier trips stay and later ones move down by one in order; an index past the end removes nothing; a negative one counts from the end, and one reaching before the start removes the first trip |
| Trips.RemoveAfterAdd | front/src/App.js:111-118 | removing the trip just added gives the list back |
| Trips.RemoveKeepsOthers | front/src/App.js:114-118 | removal loses exactly the removed trip and keeps every other one |
| Trips.ExportAfterAdd | front/src/App.js:111-120 | after adding a trip, the export carries the old features followed by the new trip's feature |
| Trips.ExportAfterRemove | front/src/App.js:114-120 | removing trip i removes feature i from the export |

## Left out

- HTTP routing, CORS, static serving and server start-up (index.js:10-14, 91, 114, 162-164) are I/O. So is React rendering (front/src/App.js:6-87, 123-133).
- Reading and parsing the station file (index.js:21-29, 39-44) goes through the file system and a CSV library. Rows arrive already parsed, and a missing `info:fr` cell is the empty string.
- The HTTP client call to the routing engine (index.js:136) and the front end's `fetch` (front/src/App.js:15) are network calls. The engine's answer is a parameter of `Route.HandleRoute`.
- File-system cache access (index.js:46-56, 133-138) is modelled as a map from file name to the parsed answer.
  - A write that fails in its callback is ignored in the source. A write whose path Node rejects before opening the file (one holding a NUL character, as `dep=a%00b` gives) throws inside the `try`, and the request answers 500 whatever the body. How the write goes is a parameter of `Route.HandleRoute`.
  - A cached file that fails to parse (a 500 in the source) is not modelled either.
- Fuzzy matching (index.js:94-110) is done by a foreign library with opaque scoring. Only the cap on results is modelled.
- The geometry simplifier (index.js:150) is a foreign, floating-point library. It is a function parameter.
- The division by 1e6 (index.js:86) is floating point. Vertices are stated over the integer accumulators.
- Polyline.ReadGroupAt: the 32-bit `<<` and `|` of JavaScript are modelled as an unbounded sum of chunks. The two agree only while a group has at most six characters, which `Polyline.ReadGroupBound` shows keeps values below 2^30. Longer groups wrap in the source and are not modelled.
- Polyline.Chunk: each Dafny character stands for one UTF-16 code unit of a JavaScript string. A Dafny character is a Unicode scalar value, so the lone surrogate code units U+D800 to U+DFFF that a JavaScript string can hold have no counterpart. Characters outside the Basic Multilingual Plane are two code units in JavaScript and are not modelled.
- Route.Classify: `route_geometry` is modelled as an optional string. Non-string values (a number, an object) are not modelled. The 500 for a `null` body carries the message of current Node versions; older versions word it differently.
- Route.FileKeyRoundTrip: the cache is keyed by the path string. The file system can alias different path strings: the keys "./1-2" and "1-2" both reach ./data/1-2.json, and so do paths that differ only by ".." segments, doubled slashes or, on a case-insensitive file system, letter case. Such aliases hit one file in the source but are separate entries in the model.
- Route.HandleRoute: the same path aliasing is not modelled, so a request whose path aliases a stored file misses in the model and asks the engine. The write is also asynchronous in the source; a repeat that arrives before it lands misses, which is not modelled.
- Route.Serve: which paths make the write throw or fail is not derived from the path; the write's outcome is a parameter.
- Route.RepeatHitsCache: which writes the file system refuses is not modelled; the lemma assumes the first answer was written. In the source some keys are refused every time: an endpoint containing "/" names a file in a directory that does not exist, and a key longer than the file-name limit cannot be created. The error is swallowed, so such requests ask the engine on every repeat, as `Route.RefusedWriteRefetches` states.
- Route.QueryText: a parameter given more than once arrives as an array in the source. That case is not modelled.
- Route.ResolveEndpoints: the station table is a plain map. A JavaScript object lookup also finds inherited names such as `toString`, which are not modelled.
- `getFilename` (front/src/App.js:102-106) depends on the clock. `encodeURIComponent` and `JSON.stringify` are kept abstract: the export is described by its shape.
