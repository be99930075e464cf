/**
 * The polyline decoder of the route server (`decodepoly`): the decoding half
 * of the Encoded Polyline Algorithm Format. Every vertex is stored as the
 * change from the previous one, latitude first, each change zig-zag folded
 * into a natural number and written as groups of 5-bit chunks, one chunk
 * per character, offset by 63, with 0x20 as the "another chunk follows" flag.
 *
 * The model stops at the integer accumulators: the server divides both by
 * 1e6 before sending them, which is floating point and left out.
 */
module Polyline {

  /** A decoded vertex in the integer units of the encoding, longitude first
      as the server emits it. */
  datatype LngLat = LngLat(lng: int, lat: int)

  /** One decoded step: the change in latitude and in longitude. */
  datatype Delta = Delta(dLat: int, dLng: int)

  /** Every character code is stored plus this offset. */
  const Offset := 63
  /** The bit of `code - 63` that says another chunk follows. */
  const ContinuationBit := 0x20
  /** Each character carries five bits: 2^5. */
  const ChunkBase := 32

  function Pow2(n: nat): (r: nat)
    ensures r >= 1
  {
    if n == 0 then 1 else 2 * Pow2(n - 1)
  }

  lemma {:induction false} Pow2Plus5(n: nat)
    ensures Pow2(n + 5) == ChunkBase * Pow2(n)
  {
    assert Pow2(n + 5) == 2 * Pow2(n + 4) == 4 * Pow2(n + 3) == 8 * Pow2(n + 2)
      == 16 * Pow2(n + 1) == 32 * Pow2(n);
  }

  /** A chunk moved up by `shift` bits: `chunk << shift` while that stays in range. */
  function Shifted(chunk: nat, shift: nat): nat
  {
    chunk * Pow2(shift)
  }

  /** The five payload bits of a character, `(code - 63) & 0x1f`. For codes
      below 63 the `&` works on a negative two's-complement number, whose
      low five bits are exactly the Euclidean remainder. */
  function Chunk(c: char): (r: nat)
    // the unique value below 32 that agrees with code - 63 in its low five bits
    ensures r < ChunkBase
    ensures ((c as int) - Offset - r) % ChunkBase == 0
  {
    ((c as int) - Offset) % ChunkBase
  }

  /** The loop condition `b >= 0x20`. */
  predicate Continues(c: char)
  {
    (c as int) - Offset >= ContinuationBit
  }

  /** A group's accumulated value and the input left after it. */
  datatype Group = Group(value: nat, rest: string)

  /**
   * Reads one group from the front of `s`: its accumulated value and the
   * unread rest. The empty string stands for reading past the end:
   * `charCodeAt` then gives NaN, whose chunk is 0 and which fails the
   * continuation test, so the group ends there with nothing added.
   */
  function ReadGroup(s: string): (r: Group)
    // what is left is a suffix of the input, and at least one character is used up
    ensures |r.rest| <= |s|
    ensures s != [] ==> |r.rest| < |s|
    decreases |s|
  {
    if s == [] then Group(0, [])
    else if Continues(s[0]) then
      var high := ReadGroup(s[1..]);
      Group(Chunk(s[0]) + ChunkBase * high.value, high.rest)
    else
      Group(Chunk(s[0]), s[1..])
  }

  /** What is left after a group is a suffix of the input. */
  lemma {:induction false} ReadGroupLeavesSuffix(s: string)
    ensures ReadGroup(s).rest == s[|s| - |ReadGroup(s).rest|..]
    decreases |s|
  {
    if s != [] && Continues(s[0]) {
      ReadGroupLeavesSuffix(s[1..]);
    }
  }

  /**
   * A group that uses up k characters holds at most 5k bits. So a group of at
   * most six characters stays below 2^30, where the source's 32-bit `<<` and
   * `|` agree with the unbounded sum used here.
   */
  lemma {:induction false} ReadGroupBound(s: string)
    ensures ReadGroup(s).value < Pow2(5 * (|s| - |ReadGroup(s).rest|))
    decreases |s|
  {
    if s != [] && Continues(s[0]) {
      var high, rest := ReadGroup(s[1..]).value, ReadGroup(s[1..]).rest;
      ReadGroupBound(s[1..]);
      var n := 5 * (|s| - 1 - |rest|);
      Pow2Plus5(n);
      assert high + 1 <= Pow2(n);
      assert ChunkBase * (high + 1) <= ChunkBase * Pow2(n);
    }
  }

  /** The group ends at the first character without the continuation flag:
      all the consumed characters before it carry the flag. */
  lemma {:induction false} ReadGroupStopsAtFirstStop(s: string)
    ensures forall k :: 0 <= k < |s| - |ReadGroup(s).rest| - 1 ==> Continues(s[k])
    ensures ReadGroup(s).rest != [] ==> !Continues(s[|s| - |ReadGroup(s).rest| - 1])
    decreases |s|
  {
    if s != [] && Continues(s[0]) {
      var rest := ReadGroup(s[1..]).rest;
      ReadGroupStopsAtFirstStop(s[1..]);
      forall k | 1 <= k < |s| - |rest| - 1
        ensures Continues(s[k])
      {
        assert s[k] == s[1..][k - 1];
      }
      if rest != [] {
        assert s[|s| - |rest| - 1] == s[1..][|s| - 1 - |rest| - 1];
      }
    }
  }

  /** Undoes the zig-zag fold: `res >> 1`, complemented (`~x == -x - 1`)
      when the low bit of `res` is set. */
  function ZigZag(res: nat): (delta: int)
    // even codes are the non-negative changes, odd codes the negative ones
    ensures res % 2 == 0 <==> delta >= 0
    ensures res == (if delta >= 0 then 2 * delta else -2 * delta - 1)
  {
    var half := res / 2;
    if res % 2 == 1 then -half - 1 else half
  }

  /**
   * The changes the string holds, one per loop round: each round reads a
   * latitude group and then a longitude group, both from the same cursor.
   */
  function Deltas(s: string): (ds: seq<Delta>)
    ensures ds == [] <==> s == []
    ensures |ds| <= |s|
    decreases |s|
  {
    if s == [] then []
    else
      var lat := ReadGroup(s);
      var lng := ReadGroup(lat.rest);
      [Delta(ZigZag(lat.value), ZigZag(lng.value))] + Deltas(lng.rest)
  }

  /** Adds each change to the running totals and emits the totals, longitude first. */
  function Accumulate(ds: seq<Delta>, lat: int, lng: int): (pts: seq<LngLat>)
    ensures |pts| == |ds|
  {
    if ds == [] then []
    else
      var lat' := lat + ds[0].dLat;
      var lng' := lng + ds[0].dLng;
      [LngLat(lng', lat')] + Accumulate(ds[1..], lat', lng')
  }

  /** The vertices a polyline string denotes, before the division by 1e6. */
  function Decode(s: string): (pts: seq<LngLat>)
    ensures |pts| == |Deltas(s)|
    ensures pts == [] <==> s == []
  {
    Accumulate(Deltas(s), 0, 0)
  }

  /** The sums of the latitude and of the longitude changes. */
  function SumLat(ds: seq<Delta>): int
  {
    if ds == [] then 0 else ds[0].dLat + SumLat(ds[1..])
  }

  function SumLng(ds: seq<Delta>): int
  {
    if ds == [] then 0 else ds[0].dLng + SumLng(ds[1..])
  }

  /** The k-th emitted vertex is the start point plus the first k+1 changes. */
  lemma {:induction false} AccumulateIsPrefixSum(ds: seq<Delta>, lat: int, lng: int, k: nat)
    requires k < |ds|
    ensures Accumulate(ds, lat, lng)[k]
         == LngLat(lng + SumLng(ds[..k + 1]), lat + SumLat(ds[..k + 1]))
  {
    var lat', lng' := lat + ds[0].dLat, lng + ds[0].dLng;
    if k > 0 {
      AccumulateIsPrefixSum(ds[1..], lat', lng', k - 1);
      assert ds[..k + 1][1..] == ds[1..][..k];
    }
  }

  /** Decoding: the k-th vertex's latitude is the sum of the first k+1 latitude
      changes, its longitude likewise, and longitude comes first. */
  lemma DecodeIsPrefixSum(s: string)
    ensures forall k :: 0 <= k < |Decode(s)| ==>
      Decode(s)[k] == LngLat(SumLng(Deltas(s)[..k + 1]), SumLat(Deltas(s)[..k + 1]))
  {
    forall k | 0 <= k < |Decode(s)|
      ensures Decode(s)[k] == LngLat(SumLng(Deltas(s)[..k + 1]), SumLat(Deltas(s)[..k + 1]))
    {
      AccumulateIsPrefixSum(Deltas(s), 0, 0, k);
    }
  }

  /** The rest of the input from cursor `i`; empty once the cursor has passed the end. */
  function Suffix(s: string, i: nat): (r: string)
    ensures i <= |s| ==> r == s[i..]
    ensures i >= |s| ==> r == []
  {
    if i <= |s| then s[i..] else []
  }

  /** One character of the group read at cursor `i`, in terms of the rest after it. */
  lemma ReadGroupStep(geom: string, i: nat)
    ensures i < |geom| && Continues(geom[i]) ==>
      ReadGroup(Suffix(geom, i))
        == Group(Chunk(geom[i]) + ChunkBase * ReadGroup(Suffix(geom, i + 1)).value,
                 ReadGroup(Suffix(geom, i + 1)).rest)
    ensures i < |geom| && !Continues(geom[i]) ==>
      ReadGroup(Suffix(geom, i)) == Group(Chunk(geom[i]), Suffix(geom, i + 1))
    ensures i >= |geom| ==> ReadGroup(Suffix(geom, i)) == Group(0, Suffix(geom, i + 1))
  {
    if i < |geom| {
      assert Suffix(geom, i)[1..] == Suffix(geom, i + 1);
    }
  }

  /** Reading a group from cursor `i` with `res` already gathered at `shift`
      bits would complete the group `want` that started earlier. */
  ghost predicate GroupPending(geom: string, i: nat, res: nat, shift: nat, want: Group)
  {
    && res + Pow2(shift) * ReadGroup(Suffix(geom, i)).value == want.value
    && ReadGroup(Suffix(geom, i)).rest == want.rest
  }

  lemma Distribute(res: nat, chunk: nat, p: nat, high: nat)
    ensures res + chunk * p + (ChunkBase * p) * high == res + p * (chunk + ChunkBase * high)
  {
  }

  /** One round of the inner loop keeps the group pending, or finishes it. */
  lemma GroupLoopStep(geom: string, i: nat, res: nat, shift: nat, want: Group)
    requires GroupPending(geom, i, res, shift, want)
    ensures i < |geom| && Continues(geom[i]) ==>
      GroupPending(geom, i + 1, res + Shifted(Chunk(geom[i]), shift), shift + 5, want)
    ensures i < |geom| && !Continues(geom[i]) ==>
      res + Shifted(Chunk(geom[i]), shift) == want.value && Suffix(geom, i + 1) == want.rest
    ensures i >= |geom| ==> res == want.value && Suffix(geom, i + 1) == want.rest
  {
    ReadGroupStep(geom, i);
    if i < |geom| && Continues(geom[i]) {
      var high := ReadGroup(Suffix(geom, i + 1)).value;
      var p := Pow2(shift);
      Pow2Plus5(shift);
      Distribute(res, Chunk(geom[i]), p, high);
    }
  }

  /** The last cursor position a group read from `start` can continue from:
      the end of the string, or `start` itself when it is already past it. */
  function Limit(geom: string, start: nat): nat
  {
    if start < |geom| then |geom| else start
  }

  /** Where the cursor stands after reading a group from `i`: just past the
      first character without the continuation flag, or one past the first
      read beyond the end of the string. */
  function GroupEnd(geom: string, i: nat): (e: nat)
    ensures i < e <= Limit(geom, i) + 1
    decreases |geom| - i
  {
    if i < |geom| && Continues(geom[i]) then GroupEnd(geom, i + 1) else i + 1
  }

  /** The cursor stops just past a stop character inside the string, and runs
      one past the end only when the string ran out mid-group (or the read
      began past the end). */
  lemma {:induction false} GroupEndPlace(geom: string, i: nat)
    ensures GroupEnd(geom, i) <= |geom| ==> !Continues(geom[GroupEnd(geom, i) - 1])
    ensures GroupEnd(geom, i) > |geom| ==> i >= |geom| || Continues(geom[|geom| - 1])
    decreases |geom| - i
  {
    if i < |geom| && Continues(geom[i]) {
      GroupEndPlace(geom, i + 1);
    }
  }

  /** `(geom.charCodeAt(i) - 63) & 0x1f`: past the end `charCodeAt` gives
      NaN, which contributes no bits. */
  function ChunkAt(geom: string, i: nat): (r: nat)
    ensures r < ChunkBase
  {
    if i < |geom| then Chunk(geom[i]) else 0
  }

  /** `geom.charCodeAt(i) - 63 >= 0x20`: NaN past the end fails the test. */
  predicate ContinuesAt(geom: string, i: nat)
  {
    i < |geom| && Continues(geom[i])
  }

  /** The state of the inner loop reading the group `want` from `start`:
      what is still to come while it goes on, the result once it stops, and
      the cursor, which heads for the group's end. */
  ghost predicate Reading(geom: string, start: nat, want: Group, i: nat, res: nat, shift: nat, more: bool)
  {
    && (more ==> GroupPending(geom, i, res, shift, want) && GroupEnd(geom, i) == GroupEnd(geom, start))
    && (!more ==> res == want.value && Suffix(geom, i) == want.rest && i == GroupEnd(geom, start))
  }

  /** One round of the inner loop, reading `chunk` and testing the flag. */
  lemma ReadingStep(geom: string, start: nat, want: Group, i: nat, res: nat, shift: nat,
                    chunk: nat, more: bool)
    requires Reading(geom, start, want, i, res, shift, true)
    requires chunk == ChunkAt(geom, i)
    requires more == ContinuesAt(geom, i)
    ensures Reading(geom, start, want, i + 1, res + Shifted(chunk, shift), shift + 5, more)
  {
    GroupLoopStep(geom, i, res, shift, want);
  }

  /**
   * One inner `do … while (b >= 0x20)` loop of the source: reads a group
   * starting at cursor `start` by or-ing each chunk in at the current shift,
   * and returns the value and the advanced cursor. The chunks land in
   * disjoint 5-bit slots, so the or is their sum.
   */
  method ReadGroupAt(geom: string, start: nat) returns (res: nat, next: nat)
    ensures Group(res, Suffix(geom, next)) == ReadGroup(Suffix(geom, start))
    ensures next == GroupEnd(geom, start)
  {
    ghost var want := ReadGroup(Suffix(geom, start));
    var i: nat := start;
    res := 0;
    var shift: nat := 0;
    var more := true;
    while more
      invariant Reading(geom, start, want, i, res, shift, more)
      decreases more, |geom| - i
    {
      ghost var i0, res0, shift0 := i, res, shift;
      var chunk := ChunkAt(geom, i);
      more := ContinuesAt(geom, i);
      res := res + Shifted(chunk, shift);
      shift := shift + 5;
      i := i + 1;
      ReadingStep(geom, start, want, i0, res0, shift0, chunk, more);
    }
    next := i;
  }

  /** One round of the outer loop: two groups make the first change. */
  lemma DeltasStep(s: string, mid: string, rest: string, latRes: nat, lngRes: nat)
    requires s != []
    requires ReadGroup(s) == Group(latRes, mid)
    requires ReadGroup(mid) == Group(lngRes, rest)
    ensures Deltas(s) == [Delta(ZigZag(latRes), ZigZag(lngRes))] + Deltas(rest)
  {
  }

  /** The first change moves the running totals and emits them. */
  lemma AccumulateStep(d: Delta, ds: seq<Delta>, lat0: int, lng0: int, lat: int, lng: int)
    requires lat == lat0 + d.dLat && lng == lng0 + d.dLng
    ensures Accumulate([d] + ds, lat0, lng0) == [LngLat(lng, lat)] + Accumulate(ds, lat, lng)
  {
    assert ([d] + ds)[1..] == ds;
  }

  /** Moving the first element of the pending part onto the emitted part keeps the whole. */
  lemma MoveFirst<T>(done: seq<T>, x: T, later: seq<T>, pending: seq<T>, whole: seq<T>)
    requires pending == [x] + later
    requires done + pending == whole
    ensures (done + [x]) + later == whole
  {
    assert (done + [x]) + later == done + ([x] + later);
  }

  /** One round of the outer loop emits the first vertex of what is left. */
  lemma DecodeLoopStep(s: string, mid: string, rest: string, latRes: nat, lngRes: nat,
                       lat0: int, lng0: int, lat: int, lng: int,
                       latlngs0: seq<LngLat>, latlngs: seq<LngLat>, whole: seq<LngLat>)
    requires s != []
    requires Group(latRes, mid) == ReadGroup(s)
    requires Group(lngRes, rest) == ReadGroup(mid)
    requires lat == lat0 + ZigZag(latRes) && lng == lng0 + ZigZag(lngRes)
    requires latlngs == latlngs0 + [LngLat(lng, lat)]
    requires latlngs0 + Accumulate(Deltas(s), lat0, lng0) == whole
    ensures |rest| < |s|
    ensures latlngs + Accumulate(Deltas(rest), lat, lng) == whole
  {
    var d := Delta(ZigZag(latRes), ZigZag(lngRes));
    DeltasStep(s, mid, rest, latRes, lngRes);
    AccumulateStep(d, Deltas(rest), lat0, lng0, lat, lng);
    MoveFirst(latlngs0, LngLat(lng, lat), Accumulate(Deltas(rest), lat, lng),
              Accumulate(Deltas(s), lat0, lng0), whole);
  }

  /**
   * The source's decoder loop: while the cursor is inside the string, read a
   * latitude group and a longitude group, undo the zig-zag fold on each, add
   * them to the running totals and push the pair longitude first.
   */
  method DecodePoly(geom: string) returns (latlngs: seq<LngLat>)
    ensures latlngs == Decode(geom)
    ensures geom == [] ==> latlngs == []
    ensures forall k :: 0 <= k < |latlngs| ==>
      latlngs[k] == LngLat(SumLng(Deltas(geom)[..k + 1]), SumLat(Deltas(geom)[..k + 1]))
  {
    var lat, lng := 0, 0;
    latlngs := [];
    var i: nat := 0;
    while i < |geom|
      invariant latlngs + Accumulate(Deltas(Suffix(geom, i)), lat, lng) == Decode(geom)
      decreases |Suffix(geom, i)|
    {
      ghost var lat0, lng0, i0, latlngs0 := lat, lng, i, latlngs;
      var res, delta;
      res, i := ReadGroupAt(geom, i);
      ghost var latRes, i1 := res, i;
      delta := ZigZag(res);
      lat := lat + delta;

      res, i := ReadGroupAt(geom, i);
      delta := ZigZag(res);
      lng := lng + delta;

      latlngs := latlngs + [LngLat(lng, lat)];
      DecodeLoopStep(Suffix(geom, i0), Suffix(geom, i1), Suffix(geom, i), latRes, res, lat0, lng0, lat, lng, latlngs0, latlngs, Decode(geom));
    }
    assert Suffix(geom, i) == [];
    DecodeIsPrefixSum(geom);
  }
}
