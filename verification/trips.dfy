/**
 * The front end's trip list and export: the trips the user added, each with
 * the feature the route endpoint returned for it, and the text offered for
 * download. JSON serialisation is kept abstract: the export is described by
 * its shape before `JSON.stringify`.
 */
module Trips {

  /** One added trip: the two texts typed and the returned feature. */
  datatype Trip<G> = Trip(fromText: string, toText: string, geojson: G)

  /** The export before serialisation: the empty string, one feature on its
      own, or a FeatureCollection holding all of them. */
  datatype Export<G> = Empty | Single(feature: G) | Collection(features: seq<G>)

  /** The features an export carries, in order. */
  function Features<G>(e: Export<G>): seq<G>
  {
    match e
    case Empty => []
    case Single(f) => [f]
    case Collection(fs) => fs
  }

  /**
   * `mergeGeojsons`: no feature gives the empty export, exactly one is sent
   * unwrapped, two or more go into one collection; either way nothing is
   * lost or reordered.
   */
  function MergeGeojsons<G>(geojsons: seq<G>): (e: Export<G>)
    ensures e.Empty? <==> |geojsons| == 0
    ensures e.Single? <==> |geojsons| == 1
    ensures e.Collection? ==> |e.features| >= 2
    ensures Features(e) == geojsons
  {
    if |geojsons| == 0 then Empty
    else if |geojsons| == 1 then Single(geojsons[0])
    else Collection(geojsons)
  }

  /** The export is determined by the features it carries. */
  lemma {:induction false} MergeFeatures<G>(e: Export<G>)
    requires e.Collection? ==> |e.features| >= 2
    ensures MergeGeojsons(Features(e)) == e
  {
    match e
    case Empty =>
    case Single(f) =>
    case Collection(fs) =>
  }

  /** `trips.map(trip => trip.geojson)`. */
  function Geojsons<G>(trips: seq<Trip<G>>): (r: seq<G>)
    ensures |r| == |trips|
    ensures forall k :: 0 <= k < |r| ==> r[k] == trips[k].geojson
  {
    if trips == [] then [] else [trips[0].geojson] + Geojsons(trips[1..])
  }

  /** The text behind the textarea and the download link. */
  function ExportOf<G>(trips: seq<Trip<G>>): (e: Export<G>)
    ensures e.Empty? <==> trips == []
    ensures |Features(e)| == |trips|
    ensures forall k :: 0 <= k < |trips| ==> Features(e)[k] == trips[k].geojson
  {
    MergeGeojsons(Geojsons(trips))
  }

  /** `onAdd`: the new trip goes last, the others stay as they were. */
  function OnAdd<G>(trips: seq<Trip<G>>, trip: Trip<G>): (r: seq<Trip<G>>)
    ensures |r| == |trips| + 1
    ensures r[..|trips|] == trips && r[|trips|] == trip
  {
    trips + [trip]
  }

  /** Where `splice(start, …)` starts on a list of `len` items: a negative
      start counts from the end, and both ends are clamped. */
  function SpliceStart(len: nat, start: int): (s: nat)
    ensures s <= len
    ensures 0 <= start <= len ==> s == start
    ensures start < 0 && len + start >= 0 ==> s == len + start
    ensures start > len ==> s == len
    ensures len + start < 0 ==> s == 0
  {
    if start < 0 then (if len + start < 0 then 0 else len + start)
    else if start > len then len
    else start
  }

  /** `onRemove`: a copy of the list with `splice(i, 1)` applied. Written for
      any list, so that it applies to the exported features too. */
  function OnRemove<T>(trips: seq<T>, i: int): (r: seq<T>)
    // an index in range: that trip goes, the earlier ones stay, the later
    // ones move down by one
    ensures 0 <= i < |trips| ==>
      && |r| == |trips| - 1
      && r[..i] == trips[..i]
      && (forall k :: i <= k < |r| ==> r[k] == trips[k + 1])
    // an index past the end removes nothing
    ensures i >= |trips| ==> r == trips
    // a negative index counts from the end
    ensures i < 0 && |trips| + i >= 0 ==>
      |r| == |trips| - 1 && r == trips[..|trips| + i] + trips[|trips| + i + 1..]
    // one reaching back before the start removes the first trip, if any
    ensures |trips| + i < 0 ==> r == (if trips == [] then [] else trips[1..])
  {
    var s := SpliceStart(|trips|, i);
    if s < |trips| then trips[..s] + trips[s + 1..] else trips
  }

  /** Removing the trip just added gives the list back. */
  lemma RemoveAfterAdd<G>(trips: seq<Trip<G>>, trip: Trip<G>)
    ensures OnRemove(OnAdd(trips, trip), |trips|) == trips
  {
    assert OnAdd(trips, trip)[..|trips|] == trips;
  }

  /** Removal loses exactly the removed trip. */
  lemma RemoveKeepsOthers<G>(trips: seq<Trip<G>>, i: int)
    requires 0 <= i < |trips|
    ensures multiset(OnRemove(trips, i)) + multiset{trips[i]} == multiset(trips)
  {
    assert trips == trips[..i] + [trips[i]] + trips[i + 1..];
  }

  /** After adding a trip, the export carries the old features and then its feature. */
  lemma {:induction false} ExportAfterAdd<G>(trips: seq<Trip<G>>, trip: Trip<G>)
    ensures Features(ExportOf(OnAdd(trips, trip))) == Features(ExportOf(trips)) + [trip.geojson]
  {
    var before, after := Features(ExportOf(trips)), Features(ExportOf(OnAdd(trips, trip)));
    assert |after| == |before| + 1;
    forall k | 0 <= k < |after|
      ensures after[k] == (before + [trip.geojson])[k]
    {
      if k < |trips| {
        assert OnAdd(trips, trip)[k] == trips[k];
      }
    }
  }

  /** Removing trip i from the list removes feature i from the export. */
  lemma {:induction false} ExportAfterRemove<G>(trips: seq<Trip<G>>, i: int)
    ensures Features(ExportOf(OnRemove(trips, i))) == OnRemove(Features(ExportOf(trips)), i)
  {
    var fs := Features(ExportOf(trips));
    var s := SpliceStart(|trips|, i);
    var after := Features(ExportOf(OnRemove(trips, i)));
    if s < |trips| {
      assert OnRemove(trips, i) == trips[..s] + trips[s + 1..];
      forall k | 0 <= k < |after|
        ensures after[k] == (fs[..s] + fs[s + 1..])[k]
      {
        if k < s {
          assert OnRemove(trips, i)[k] == trips[k];
        } else {
          assert OnRemove(trips, i)[k] == trips[k + 1];
        }
      }
    } else {
      assert OnRemove(trips, i) == trips;
    }
  }
}
