/**
 * The station search endpoint (`GET /api/stations?name=`). The fuzzy
 * matching and ranking belong to a foreign library and arrive here as an
 * already ranked list; the server's own part is the cap on what it sends.
 */
module Search {

  /** At most this many matches are sent back. */
  const MaxResults := 10

  /** `result.slice(0, 10)`: the best-ranked matches, at most ten, in rank order. */
  function TopResults<T>(ranked: seq<T>): (r: seq<T>)
    ensures |r| <= MaxResults
    ensures |r| == MaxResults || r == ranked
    ensures |r| <= |ranked| && r == ranked[..|r|]
  {
    if |ranked| <= MaxResults then ranked else ranked[..MaxResults]
  }
}
