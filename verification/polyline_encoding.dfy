/**
 * The encoding half of the Encoded Polyline Algorithm Format. The server only
 * decodes; this is the reference the decoder is checked against: decoding an
 * encoded vertex list gives the list back, and the format's published example
 * decodes to the published vertices.
 */
module PolylineEncoding {
  import opened Polyline

  /** Zig-zag fold: non-negative v to 2v, negative v to -2v - 1. */
  function ZigZagEncode(v: int): (res: nat)
    ensures ZigZag(res) == v
  {
    if v >= 0 then 2 * v else -2 * v - 1
  }

  /** Every code is the fold of exactly one change. */
  lemma ZigZagEncodeOfDecode(res: nat)
    ensures ZigZagEncode(ZigZag(res)) == res
  {
  }

  /** A value as chunks of five bits, least significant first, each but the
      last flagged with 0x20, each offset by 63. */
  function EncodeGroup(n: nat): (s: string)
    ensures 1 <= |s|
  {
    if n < ChunkBase then [(n + Offset) as char]
    else [((n % ChunkBase) + ContinuationBit + Offset) as char] + EncodeGroup(n / ChunkBase)
  }

  /** Reading a group back from the front of an encoded group gives the value
      and leaves whatever followed untouched. */
  lemma {:induction false} ReadEncodedGroup(n: nat, rest: string)
    ensures ReadGroup(EncodeGroup(n) + rest) == Group(n, rest)
    decreases n
  {
    var s := EncodeGroup(n) + rest;
    if n >= ChunkBase {
      ReadEncodedGroup(n / ChunkBase, rest);
      assert s[1..] == EncodeGroup(n / ChunkBase) + rest;
      assert Chunk(s[0]) == n % ChunkBase && Continues(s[0]);
    } else {
      assert s[1..] == rest;
      assert Chunk(s[0]) == n && !Continues(s[0]);
    }
  }

  function EncodeValue(v: int): (s: string)
    ensures 1 <= |s|
  {
    EncodeGroup(ZigZagEncode(v))
  }

  /** The changes as text: per step the latitude change, then the longitude change. */
  function EncodeDeltas(ds: seq<Delta>): (s: string)
    ensures s == [] <==> ds == []
  {
    if ds == [] then []
    else EncodeValue(ds[0].dLat) + EncodeValue(ds[0].dLng) + EncodeDeltas(ds[1..])
  }

  /** The changes between consecutive vertices, starting from (lat, lng). */
  function Differences(pts: seq<LngLat>, lat: int, lng: int): (ds: seq<Delta>)
    ensures |ds| == |pts|
  {
    if pts == [] then []
    else [Delta(pts[0].lat - lat, pts[0].lng - lng)] + Differences(pts[1..], pts[0].lat, pts[0].lng)
  }

  function Encode(pts: seq<LngLat>): (s: string)
    ensures s == [] <==> pts == []
  {
    EncodeDeltas(Differences(pts, 0, 0))
  }

  lemma {:induction false} DeltasOfEncoding(ds: seq<Delta>)
    ensures Deltas(EncodeDeltas(ds)) == ds
  {
    if ds != [] {
      var lat, lng := EncodeValue(ds[0].dLat), EncodeValue(ds[0].dLng);
      var tail := EncodeDeltas(ds[1..]);
      assert EncodeDeltas(ds) == lat + (lng + tail);
      ReadEncodedGroup(ZigZagEncode(ds[0].dLat), lng + tail);
      ReadEncodedGroup(ZigZagEncode(ds[0].dLng), tail);
      DeltasOfEncoding(ds[1..]);
    }
  }

  lemma {:induction false} AccumulateDifferences(pts: seq<LngLat>, lat: int, lng: int)
    ensures Accumulate(Differences(pts, lat, lng), lat, lng) == pts
  {
    if pts != [] {
      AccumulateDifferences(pts[1..], pts[0].lat, pts[0].lng);
    }
  }

  /** Round trip: the decoder inverts the encoder on every vertex list. */
  lemma DecodeEncode(pts: seq<LngLat>)
    ensures Decode(Encode(pts)) == pts
  {
    DeltasOfEncoding(Differences(pts, 0, 0));
    AccumulateDifferences(pts, 0, 0);
  }

  /** The first vertex of the published example, group by group. */
  lemma ExampleFirstVertex()
    ensures EncodeValue(3850000) == "_p~iF"
    ensures EncodeValue(-12020000) == "~ps|U"
  {
    assert ZigZagEncode(3850000) == 7700000;
    assert EncodeGroup(7) == "F";
    assert EncodeGroup(234) == "i" + EncodeGroup(7);
    assert EncodeGroup(7519) == "~" + EncodeGroup(234);
    assert EncodeGroup(240625) == "p" + EncodeGroup(7519);
    assert EncodeGroup(7700000) == "_" + EncodeGroup(240625);
    assert ZigZagEncode(-12020000) == 24039999;
    assert EncodeGroup(22) == "U";
    assert EncodeGroup(733) == "|" + EncodeGroup(22);
    assert EncodeGroup(23476) == "s" + EncodeGroup(733);
    assert EncodeGroup(751249) == "p" + EncodeGroup(23476);
    assert EncodeGroup(24039999) == "~" + EncodeGroup(751249);
  }

  /** The change to the second vertex of the published example, group by group. */
  lemma ExampleSecondVertex()
    ensures EncodeValue(220000) == "_ulL"
    ensures EncodeValue(-75000) == "nnqC"
  {
    assert ZigZagEncode(220000) == 440000;
    assert EncodeGroup(13) == "L";
    assert EncodeGroup(429) == "l" + EncodeGroup(13);
    assert EncodeGroup(13750) == "u" + EncodeGroup(429);
    assert EncodeGroup(440000) == "_" + EncodeGroup(13750);
    assert ZigZagEncode(-75000) == 149999;
    assert EncodeGroup(4) == "C";
    assert EncodeGroup(146) == "q" + EncodeGroup(4);
    assert EncodeGroup(4687) == "n" + EncodeGroup(146);
    assert EncodeGroup(149999) == "n" + EncodeGroup(4687);
  }

  /** The example published with the format: (38.5, -120.2), (40.7, -120.95)
      at five decimal places, here in the server's longitude-first order. */
  lemma ReferenceEncoding()
    ensures Encode([LngLat(-12020000, 3850000), LngLat(-12095000, 4070000)])
         == "_p~iF~ps|U_ulLnnqC"
  {
    var pts := [LngLat(-12020000, 3850000), LngLat(-12095000, 4070000)];
    assert Differences(pts, 0, 0) == [Delta(3850000, -12020000), Delta(220000, -75000)];
    ReferenceDeltas();
  }

  /** The changes of the published example, emitted group by group. */
  lemma ReferenceDeltas()
    ensures EncodeDeltas([Delta(3850000, -12020000), Delta(220000, -75000)])
         == "_p~iF~ps|U_ulLnnqC"
  {
    var ds := [Delta(3850000, -12020000), Delta(220000, -75000)];
    ExampleFirstVertex();
    ExampleSecondVertex();
    assert EncodeDeltas(ds[1..]) == "_ulL" + "nnqC";
    assert EncodeDeltas(ds) == "_p~iF" + "~ps|U" + ("_ulL" + "nnqC");
  }

  /** Decoding the published example gives back its two vertices. */
  lemma ReferenceVector()
    ensures Decode("_p~iF~ps|U_ulLnnqC")
         == [LngLat(-12020000, 3850000), LngLat(-12095000, 4070000)]
  {
    ReferenceEncoding();
    DecodeEncode([LngLat(-12020000, 3850000), LngLat(-12095000, 4070000)]);
  }

}
