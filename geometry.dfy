/**
 * Annotation geometry reconstruction: the part of `fetchAnnotationSource` that does not fetch
 * (`src/app/viewer/_hooks/annotation/layer.ts` and its older, identical copy in
 * `src/app/viewer/annotation.ts`). The decoded points of a group are scaled to the pyramid
 * resolution, paired into coordinates `[x, -y]`, and cut into points, polylines, polygon
 * rings, rectangles and ellipses following the group's graphic type and its point index
 * list; the pieces are added to the vector source in batches.
 *
 * The shapes follow DICOM Microscopy Bulk Simple Annotations (DICOM PS3.3, the Microscopy
 * Bulk Simple Annotations module): a flat list of point values and a list of 1-based
 * indices that start each primitive.
 */
module Geometry {
  import opened Wrappers
  import Js

  /** 2^32: the values of a `Uint32Array` are taken modulo this. */
  const Uint32Modulus: int := 0x1_0000_0000

  type Uint32 = x: int | 0 <= x < 0x1_0000_0000

  /** A coordinate `[x, -y]`; `y` is `None` (NaN) for a trailing point value without a partner. */
  datatype Coordinate = Coordinate(x: real, y: Option<real>)

  /**
   * A polygon ring: the points of a polygon or rectangle, or the ellipse through four
   * boundary points (the points `calculateEllipsePoints` samples along it are not modelled).
   */
  datatype Ring = Ring(points: seq<Coordinate>) | Ellipse(corners: seq<Coordinate>)

  /** The OpenLayers geometries that end up in a vector source or a feature list. */
  datatype Geometry =
    | MultiPoint(points: seq<Coordinate>)
    | MultiLineString(lines: seq<seq<Coordinate>>)
    | MultiPolygon(polygons: seq<seq<Ring>>)
    | LineString(line: seq<Coordinate>)
    | Polygon(rings: seq<Ring>)

  // ---------------------------------------------------------------- points and indices

  /** `points.map((point) => point * resolution)`. */
  function Scaled(points: seq<real>, resolution: real): (r: seq<real>)
    ensures |r| == |points| && forall i :: 0 <= i < |points| ==> r[i] == points[i] * resolution
  {
    seq(|points|, i requires 0 <= i < |points| => points[i] * resolution)
  }

  /** Scaling by one changes nothing, and scaling twice is scaling by the product. */
  lemma ScaledLaws(points: seq<real>, a: real, b: real)
    ensures Scaled(points, 1.0) == points
    ensures Scaled(Scaled(points, a), b) == Scaled(points, a * b)
  {
    forall i | 0 <= i < |points|
      ensures Scaled(Scaled(points, a), b)[i] == Scaled(points, a * b)[i]
    {
      assert points[i] * a * b == points[i] * (a * b);
    }
  }

  /**
   * `indexes.map((index) => index - 1)` on a `Uint32Array`: the result is stored modulo 2^32,
   * so it is the value that, incremented, gives the index back.
   */
  function Decremented(indexes: seq<Uint32>): (r: seq<Uint32>)
    ensures |r| == |indexes|
    ensures forall i :: 0 <= i < |indexes| ==> (r[i] + 1) % Uint32Modulus == indexes[i]
  {
    seq(|indexes|, i requires 0 <= i < |indexes| => (indexes[i] - 1) % Uint32Modulus)
  }

  /** A 1-based index becomes 0-based; index 0 wraps to 2^32 - 1. */
  lemma DecrementedValues(indexes: seq<Uint32>, i: nat)
    requires i < |indexes|
    ensures indexes[i] > 0 ==> Decremented(indexes)[i] == indexes[i] - 1
    ensures indexes[i] == 0 ==> Decremented(indexes)[i] == Uint32Modulus - 1
  {
  }

  /** The `k`-th coordinate: values `2k` and `2k + 1`, the second negated. */
  function CoordinateAt(points: seq<real>, k: nat): Coordinate
    requires 2 * k < |points|
  {
    Coordinate(points[2 * k], if 2 * k + 1 < |points| then Some(-points[2 * k + 1]) else None)
  }

  /** The coordinates paired from the point values. */
  function Coordinates(points: seq<real>): (r: seq<Coordinate>)
    ensures |r| == (|points| + 1) / 2
    ensures forall k :: 0 <= k < |r| ==> r[k] == CoordinateAt(points, k)
  {
    seq((|points| + 1) / 2, k requires 0 <= k < (|points| + 1) / 2 => CoordinateAt(points, k))
  }

  /** The loop that pairs the point values, two at a time. */
  method CoordinatesOf(points: seq<real>) returns (coordinates: seq<Coordinate>)
    ensures coordinates == Coordinates(points)
  {
    coordinates := [];
    var i := 0;
    while i < |points|
      invariant 0 <= i && i % 2 == 0 && i <= |points| + 1
      invariant |coordinates| == i / 2
      invariant forall k :: 0 <= k < i / 2 ==> coordinates[k] == CoordinateAt(points, k)
    {
      coordinates := coordinates + [CoordinateAt(points, i / 2)];
      i := i + 2;
    }
  }

  /** The point values a list of coordinates stands for: `x`, then `y` negated back when present. */
  function PointsOf(coordinates: seq<Coordinate>): seq<real> {
    if coordinates == [] then []
    else
      var c := coordinates[0];
      [c.x] + (if c.y.Some? then [-c.y.value] else []) + PointsOf(coordinates[1..])
  }

  /** Pairing loses nothing: the point values can be read back from the coordinates. */
  lemma {:induction false} CoordinatesRoundTrip(points: seq<real>)
    ensures PointsOf(Coordinates(points)) == points
    decreases |points|
  {
    if |points| == 1 {
      assert Coordinates(points)[1..] == [];
    } else if |points| >= 2 {
      var cs := Coordinates(points);
      assert cs[1..] == Coordinates(points[2..]);
      CoordinatesRoundTrip(points[2..]);
      assert points == [points[0], points[1]] + points[2..];
    }
  }

  // ---------------------------------------------------------------- polylines

  /** `indexes[i + 1] || coordinates.length`: a missing or zero next index means "to the end". */
  function SegmentEnd(indexes: seq<Uint32>, i: nat, n: nat): nat
    requires i < |indexes|
  {
    if i + 1 < |indexes| && indexes[i + 1] != 0 then indexes[i + 1] else n
  }

  /** `coordinates.slice(indexes[i], indexes[i + 1] || coordinates.length)`. */
  function Segment(coordinates: seq<Coordinate>, indexes: seq<Uint32>, i: nat): seq<Coordinate>
    requires i < |indexes|
  {
    Js.Slice(coordinates, indexes[i], SegmentEnd(indexes, i, |coordinates|))
  }

  /** The segments of the first `n` indices that are kept: those with more than one point. */
  function Polylines(coordinates: seq<Coordinate>, indexes: seq<Uint32>, n: nat): seq<seq<Coordinate>>
    requires n <= |indexes|
  {
    if n == 0 then []
    else
      var line := Segment(coordinates, indexes, n - 1);
      Polylines(coordinates, indexes, n - 1) + (if |line| > 1 then [line] else [])
  }

  /** The `length` coordinates from position `a` on. */
  function Run(coordinates: seq<Coordinate>, a: nat, length: nat): seq<Coordinate>
    requires a + length <= |coordinates|
  {
    coordinates[a..a + length]
  }

  /** `line` is a run of consecutive coordinates. */
  predicate IsRun(coordinates: seq<Coordinate>, line: seq<Coordinate>) {
    exists a: nat :: a + |line| <= |coordinates| && line == Run(coordinates, a, |line|)
  }

  /** Every kept polyline is a run of at least two consecutive coordinates, and there is at most one per index. */
  lemma {:induction false} PolylinesShape(coordinates: seq<Coordinate>, indexes: seq<Uint32>, n: nat)
    requires n <= |indexes|
    ensures |Polylines(coordinates, indexes, n)| <= n
    ensures forall j :: 0 <= j < |Polylines(coordinates, indexes, n)| ==>
      (|Polylines(coordinates, indexes, n)[j]| > 1 && IsRun(coordinates, Polylines(coordinates, indexes, n)[j]))
  {
    if n > 0 {
      PolylinesShape(coordinates, indexes, n - 1);
      var line := Segment(coordinates, indexes, n - 1);
      var a, b := Js.RelativeIndex(indexes[n - 1], |coordinates|), Js.RelativeIndex(SegmentEnd(indexes, n - 1, |coordinates|), |coordinates|);
      if a < b {
        assert line == Run(coordinates, a, |line|);
      }
    }
  }

  /** Indices in range and in increasing order, each starting a run of at least two points. */
  predicate WellFormedIndexes(indexes: seq<Uint32>, n: nat) {
    |indexes| > 0
    && (forall i :: 0 <= i < |indexes| ==> indexes[i] < n)
    && (forall i :: 0 <= i < |indexes| - 1 ==> indexes[i] as int + 2 <= indexes[i + 1] as int)
    && indexes[|indexes| - 1] as int + 2 <= n
  }

  /** With well-formed indices the polylines are consecutive and together cover the coordinates from the first index on. */
  lemma PolylinesPartition(coordinates: seq<Coordinate>, indexes: seq<Uint32>)
    requires WellFormedIndexes(indexes, |coordinates|)
    ensures |Polylines(coordinates, indexes, |indexes|)| == |indexes|
    ensures Js.Flatten(Polylines(coordinates, indexes, |indexes|)) == coordinates[indexes[0]..]
  {
    PolylinesPrefix(coordinates, indexes, |indexes|);
  }

  /** Under well-formed indices each segment is the plain run from its index to the next (or to the end), at least two long. */
  lemma SegmentWithin(coordinates: seq<Coordinate>, indexes: seq<Uint32>, i: nat)
    requires WellFormedIndexes(indexes, |coordinates|) && i < |indexes|
    ensures indexes[i] as int + 2 <= SegmentEnd(indexes, i, |coordinates|) <= |coordinates|
    ensures Segment(coordinates, indexes, i) == coordinates[indexes[i]..SegmentEnd(indexes, i, |coordinates|)]
  {
    Js.SliceWithin(coordinates, indexes[i], SegmentEnd(indexes, i, |coordinates|));
  }

  lemma {:induction false} PolylinesPrefix(coordinates: seq<Coordinate>, indexes: seq<Uint32>, n: nat)
    requires WellFormedIndexes(indexes, |coordinates|) && 0 < n <= |indexes|
    ensures indexes[0] <= indexes[n - 1] && SegmentEnd(indexes, n - 1, |coordinates|) <= |coordinates|
    ensures |Polylines(coordinates, indexes, n)| == n
    ensures Js.Flatten(Polylines(coordinates, indexes, n)) == coordinates[indexes[0]..SegmentEnd(indexes, n - 1, |coordinates|)]
  {
    var e := SegmentEnd(indexes, n - 1, |coordinates|);
    var line := Segment(coordinates, indexes, n - 1);
    SegmentWithin(coordinates, indexes, n - 1);
    assert Polylines(coordinates, indexes, n) == Polylines(coordinates, indexes, n - 1) + [line];
    if n == 1 {
      Js.FlattenAppend([], line);
    } else {
      PolylinesPrefix(coordinates, indexes, n - 1);
      var a, b := indexes[0] as int, indexes[n - 1] as int;
      assert SegmentEnd(indexes, n - 2, |coordinates|) == b;
      Js.FlattenAppend(Polylines(coordinates, indexes, n - 1), line);
      assert coordinates[a..b] + coordinates[b..e] == coordinates[a..e];
    }
  }

  // ---------------------------------------------------------------- polygons

  /** `Math.floor(indexes[i] / 2)`: the polygon indices count point values, two per coordinate. */
  function RingStart(indexes: seq<Uint32>, i: nat): nat
    requires i < |indexes|
  {
    indexes[i] / 2
  }

  /** `Math.floor(indexes[i + 1] / 2) || coordinates.length`. */
  function RingEnd(indexes: seq<Uint32>, i: nat, n: nat): nat
    requires i < |indexes|
  {
    if i + 1 < |indexes| && indexes[i + 1] / 2 != 0 then indexes[i + 1] / 2 else n
  }

  /**
   * The ring of index `i`: the slice closed with its first coordinate again, or `None` when the
   * slice is empty (the ring would be the one element `coordinates[start]`, and is dropped).
   */
  function PolygonRing(coordinates: seq<Coordinate>, indexes: seq<Uint32>, i: nat): Option<seq<Coordinate>>
    requires i < |indexes|
  {
    var s, e := RingStart(indexes, i), RingEnd(indexes, i, |coordinates|);
    var end := if e < |coordinates| then e else |coordinates|;
    if s < end then Some(coordinates[s..end] + [coordinates[s]]) else None
  }

  /** The ring is `coordinates.slice(start, end).concat([coordinates[start]])`, kept exactly when the slice is non-empty. */
  lemma PolygonRingIsSlice(coordinates: seq<Coordinate>, indexes: seq<Uint32>, i: nat)
    requires i < |indexes|
    ensures Js.Slice(coordinates, RingStart(indexes, i), RingEnd(indexes, i, |coordinates|)) != [] ==> RingStart(indexes, i) < |coordinates|
    ensures var slice := Js.Slice(coordinates, RingStart(indexes, i), RingEnd(indexes, i, |coordinates|));
      && (PolygonRing(coordinates, indexes, i).Some? <==> slice != [])
      && (slice != [] ==> PolygonRing(coordinates, indexes, i) == Some(slice + [coordinates[RingStart(indexes, i)]]))
  {
  }

  /** The polygons of the first `n` indices, each a single ring. */
  function Polygons(coordinates: seq<Coordinate>, indexes: seq<Uint32>, n: nat): seq<seq<Ring>>
    requires n <= |indexes|
  {
    if n == 0 then []
    else
      var ring := PolygonRing(coordinates, indexes, n - 1);
      Polygons(coordinates, indexes, n - 1) + (if ring.Some? then [[Ring(ring.value)]] else [])
  }

  /** A ring of at least two points whose last point is its first, around a run of coordinates. */
  predicate ClosedRing(coordinates: seq<Coordinate>, ring: seq<Coordinate>) {
    |ring| >= 2 && ring[|ring| - 1] == ring[0] && IsRun(coordinates, ring[..|ring| - 1])
  }

  /** A polygon of one closed ring around a run of consecutive coordinates. */
  predicate ClosedPolygon(coordinates: seq<Coordinate>, polygon: seq<Ring>) {
    |polygon| == 1 && polygon[0].Ring? && ClosedRing(coordinates, polygon[0].points)
  }

  /** A run closed with its own first coordinate is a closed ring. */
  lemma RunClosed(coordinates: seq<Coordinate>, s: nat, end: nat)
    requires s < end <= |coordinates|
    ensures ClosedRing(coordinates, coordinates[s..end] + [coordinates[s]])
  {
    var r := coordinates[s..end] + [coordinates[s]];
    assert r[..|r| - 1] == Run(coordinates, s, end - s);
  }

  /** A kept polygon ring is closed. */
  lemma PolygonRingClosed(coordinates: seq<Coordinate>, indexes: seq<Uint32>, i: nat)
    requires i < |indexes|
    ensures PolygonRing(coordinates, indexes, i).Some? ==> ClosedRing(coordinates, PolygonRing(coordinates, indexes, i).value)
  {
    var s, e := RingStart(indexes, i), RingEnd(indexes, i, |coordinates|);
    var end := if e < |coordinates| then e else |coordinates|;
    if s < end {
      RunClosed(coordinates, s, end);
    }
  }

  /** Every polygon is one closed ring around a run of consecutive coordinates, at most one per index. */
  lemma {:induction false} PolygonsClosed(coordinates: seq<Coordinate>, indexes: seq<Uint32>, n: nat)
    requires n <= |indexes|
    ensures |Polygons(coordinates, indexes, n)| <= n
    ensures forall j :: 0 <= j < |Polygons(coordinates, indexes, n)| ==> ClosedPolygon(coordinates, Polygons(coordinates, indexes, n)[j])
  {
    if n > 0 {
      var ps, all := Polygons(coordinates, indexes, n - 1), Polygons(coordinates, indexes, n);
      var ring := PolygonRing(coordinates, indexes, n - 1);
      PolygonsClosed(coordinates, indexes, n - 1);
      PolygonRingClosed(coordinates, indexes, n - 1);
      forall j | 0 <= j < |all|
        ensures ClosedPolygon(coordinates, all[j])
      {
        if j < |ps| {
          assert all[j] == ps[j];
        } else {
          assert all[j] == [Ring(ring.value)];
        }
      }
    }
  }

  // ---------------------------------------------------------------- rectangles and ellipses

  /** `coordinates.slice(i, i + 4).concat([coordinates[i]])` for the `k`-th chunk, `i = 4k`. */
  function RectangleRing(coordinates: seq<Coordinate>, k: nat): seq<Coordinate>
    requires 4 * k < |coordinates|
  {
    coordinates[4 * k..if 4 * k + 4 < |coordinates| then 4 * k + 4 else |coordinates|] + [coordinates[4 * k]]
  }

  lemma RectangleRingIsSlice(coordinates: seq<Coordinate>, k: nat)
    requires 4 * k < |coordinates|
    ensures RectangleRing(coordinates, k) == Js.Slice(coordinates, 4 * k, 4 * k + 4) + [coordinates[4 * k]]
  {
  }

  /** The rectangles of the first `k` chunks of four coordinates, each a single ring. */
  function Rectangles(coordinates: seq<Coordinate>, k: nat): seq<seq<Ring>>
    requires 4 * k < |coordinates| + 4
  {
    if k == 0 then [] else Rectangles(coordinates, k - 1) + [[Ring(RectangleRing(coordinates, k - 1))]]
  }

  /** The number of chunks of at most four coordinates: the iterations of `i += 4`. */
  function ChunkCount(n: nat): (c: nat)
    ensures 4 * c >= n && 4 * c < n + 4
  {
    (n + 3) / 4
  }

  /** A rectangle ring is the chunk closed with its first coordinate: two to five points. */
  lemma RectangleRingClosed(coordinates: seq<Coordinate>, k: nat)
    requires 4 * k < |coordinates|
    ensures ClosedRing(coordinates, RectangleRing(coordinates, k))
    ensures 2 <= |RectangleRing(coordinates, k)| <= 5
    ensures RectangleRing(coordinates, k)[..|RectangleRing(coordinates, k)| - 1]
      == coordinates[4 * k..if 4 * k + 4 < |coordinates| then 4 * k + 4 else |coordinates|]
  {
    RunClosed(coordinates, 4 * k, if 4 * k + 4 < |coordinates| then 4 * k + 4 else |coordinates|);
  }

  /**
   * The `j`-th rectangle is the `j`-th chunk of (up to) four coordinates, closed: the rectangles
   * cover the coordinates chunk by chunk, in order.
   */
  lemma {:induction false} RectanglesChunks(coordinates: seq<Coordinate>, k: nat)
    requires 4 * k < |coordinates| + 4
    ensures |Rectangles(coordinates, k)| == k
    ensures forall j :: 0 <= j < k ==> Rectangles(coordinates, k)[j] == [Ring(RectangleRing(coordinates, j))]
  {
    if k > 0 {
      RectanglesChunks(coordinates, k - 1);
      var rs, all := Rectangles(coordinates, k - 1), Rectangles(coordinates, k);
      forall j | 0 <= j < k - 1
        ensures all[j] == [Ring(RectangleRing(coordinates, j))]
      {
        assert all[j] == rs[j];
      }
    }
  }

  /** The ellipses of the first `k` chunks, each of exactly four coordinates. */
  function Ellipses(coordinates: seq<Coordinate>, k: nat): seq<seq<Ring>>
    requires 4 * k <= |coordinates|
  {
    if k == 0 then [] else Ellipses(coordinates, k - 1) + [[Ellipse(coordinates[4 * (k - 1)..4 * k])]]
  }

  /** The corners of the ellipses, laid end to end, are the coordinates of the chunks. */
  lemma {:induction false} EllipsesCorners(coordinates: seq<Coordinate>, k: nat)
    requires 4 * k <= |coordinates|
    ensures |Ellipses(coordinates, k)| == k
    ensures forall j :: 0 <= j < k ==> Ellipses(coordinates, k)[j] == [Ellipse(coordinates[4 * j..4 * j + 4])]
    ensures Js.Flatten(Corners(Ellipses(coordinates, k))) == coordinates[..4 * k]
  {
    if k > 0 {
      EllipsesCorners(coordinates, k - 1);
      var es := Ellipses(coordinates, k - 1);
      var c := coordinates[4 * (k - 1)..4 * k];
      assert Corners(es + [[Ellipse(c)]]) == Corners(es) + [c];
      Js.FlattenAppend(Corners(es), c);
      assert coordinates[..4 * (k - 1)] + c == coordinates[..4 * k];
    }
  }

  /** The four boundary points of each single-ellipse polygon. */
  function Corners(polygons: seq<seq<Ring>>): (r: seq<seq<Coordinate>>)
    ensures |r| == |polygons|
  {
    seq(|polygons|, j requires 0 <= j < |polygons| =>
      if |polygons[j]| == 1 && polygons[j][0].Ellipse? then polygons[j][0].corners else [])
  }

  // ---------------------------------------------------------------- batches

  /** A batch is flushed once it holds more than this many items. */
  const BatchLimit: nat := 10000

  /** The size of a flushed batch. */
  const BatchSize: nat := BatchLimit + 1

  /** Every batch is a flushed, full one. */
  predicate Full<T>(batches: seq<seq<T>>) {
    forall j :: 0 <= j < |batches| ==> |batches[j]| == BatchSize
  }

  /** The batches a list of items is added in: full batches, then the rest if any. */
  function Batches<T>(items: seq<T>): seq<seq<T>>
    decreases |items|
  {
    if |items| == 0 then []
    else if |items| <= BatchSize then [items]
    else [items[..BatchSize]] + Batches(items[BatchSize..])
  }

  /** Only the full batches of a list of items. */
  function FullBatches<T>(items: seq<T>): seq<seq<T>>
    decreases |items|
  {
    if |items| < BatchSize then [] else [items[..BatchSize]] + FullBatches(items[BatchSize..])
  }

  /** The batches hold the items in order; each holds one to 10001 items, and all but the last are full. */
  lemma {:induction false} BatchesSpec<T>(items: seq<T>)
    ensures Js.Flatten(Batches(items)) == items
    ensures forall j :: 0 <= j < |Batches(items)| ==> 1 <= |Batches(items)[j]| <= BatchSize
    ensures Full(Batches(items)[..if |Batches(items)| > 0 then |Batches(items)| - 1 else 0])
    decreases |items|
  {
    if |items| > BatchSize {
      var rest := Batches(items[BatchSize..]);
      BatchesSpec(items[BatchSize..]);
      assert Batches(items) == [items[..BatchSize]] + rest;
      assert items == items[..BatchSize] + items[BatchSize..];
      assert Batches(items)[1..] == rest;
    } else if |items| > 0 {
      Js.AppendEmpty(items);
    }
  }

  /** Full batches followed by a last, partial one are the batches of their items. */
  lemma {:induction false} BatchesOfFull<T>(batches: seq<seq<T>>, last: seq<T>)
    requires Full(batches) && |last| <= BatchLimit
    ensures Batches(Js.Flatten(batches) + last) == batches + (if last == [] then [] else [last])
    decreases |batches|
  {
    if batches == [] {
      assert Js.Flatten(batches) + last == last;
    } else {
      var items := Js.Flatten(batches) + last;
      BatchesOfFull(batches[1..], last);
      assert items == batches[0] + (Js.Flatten(batches[1..]) + last);
      FlattenLength(batches[1..]);
      if batches[1..] == [] && last == [] {
        assert items == batches[0];
      } else {
        assert |Js.Flatten(batches[1..])| + |last| > 0;
        assert items[..BatchSize] == batches[0];
        assert items[BatchSize..] == Js.Flatten(batches[1..]) + last;
      }
    }
  }

  /** Full batches followed by fewer than a batch of items are the full batches of their items. */
  lemma {:induction false} FullBatchesOf<T>(batches: seq<seq<T>>, last: seq<T>)
    requires Full(batches) && |last| <= BatchLimit
    ensures FullBatches(Js.Flatten(batches) + last) == batches
    decreases |batches|
  {
    if batches == [] {
      assert Js.Flatten(batches) + last == last;
    } else {
      var items := Js.Flatten(batches) + last;
      FullBatchesOf(batches[1..], last);
      assert items == batches[0] + (Js.Flatten(batches[1..]) + last);
      assert items[..BatchSize] == batches[0];
      assert items[BatchSize..] == Js.Flatten(batches[1..]) + last;
    }
  }

  lemma {:induction false} FlattenLength<T>(ss: seq<seq<T>>)
    ensures |Js.Flatten(ss)| >= |ss| * 0
    ensures Full(ss) ==> |Js.Flatten(ss)| == BatchSize * |ss|
  {
    if ss != [] {
      FlattenLength(ss[1..]);
    }
  }

  /** `acc.push(item)`, then `if (acc.length > 10000)` the batch is added and a fresh one started. */
  method Push<T>(batches: seq<seq<T>>, acc: seq<T>, item: T) returns (batches': seq<seq<T>>, acc': seq<T>)
    requires Full(batches) && |acc| <= BatchLimit
    ensures Full(batches') && |acc'| <= BatchLimit
    ensures Js.Flatten(batches') + acc' == Js.Flatten(batches) + acc + [item]
  {
    batches', acc' := batches, acc + [item];
    if |acc'| > BatchLimit {
      Js.FlattenAppend(batches, acc');
      Js.AppendEmpty(Js.Flatten(batches) + acc');
      batches', acc' := batches + [acc'], [];
    }
  }

  /** `if (acc.length > 0)` the last batch is added. */
  method Flush<T>(batches: seq<seq<T>>, acc: seq<T>) returns (r: seq<seq<T>>)
    requires Full(batches) && |acc| <= BatchLimit
    ensures r == Batches(Js.Flatten(batches) + acc)
  {
    BatchesOfFull(batches, acc);
    r := batches;
    if |acc| > 0 {
      r := batches + [acc];
    }
  }

  // ---------------------------------------------------------------- the vector source

  /** One `MultiLineString` per batch of polylines. */
  function MultiLineStrings(batches: seq<seq<seq<Coordinate>>>): seq<Geometry> {
    seq(|batches|, j requires 0 <= j < |batches| => MultiLineString(batches[j]))
  }

  /** One `MultiPolygon` per batch of polygons. */
  function MultiPolygons(batches: seq<seq<seq<Ring>>>): seq<Geometry> {
    seq(|batches|, j requires 0 <= j < |batches| => MultiPolygon(batches[j]))
  }

  /**
   * What `fetchAnnotationSource` adds to the source, and whether it throws, for coordinates and
   * (0-based) indices: every shape but the point list goes in batches; a POLYLINE or POLYGON
   * without an index list throws before adding anything; an ELLIPSE whose last chunk has fewer
   * than four points throws at that chunk, after the full batches before it were added.
   */
  function SourceGeometries(graphicType: string, coordinates: seq<Coordinate>, indexes: Option<seq<Uint32>>): (seq<Geometry>, bool) {
    match graphicType
    case "POINT" => ([MultiPoint(coordinates)], false)
    case "POLYLINE" =>
      if indexes.None? then ([], true)
      else (MultiLineStrings(Batches(Polylines(coordinates, indexes.value, |indexes.value|))), false)
    case "POLYGON" =>
      if indexes.None? then ([], true)
      else (MultiPolygons(Batches(Polygons(coordinates, indexes.value, |indexes.value|))), false)
    case "ELLIPSE" =>
      var ellipses := Ellipses(coordinates, |coordinates| / 4);
      if |coordinates| % 4 == 0 then (MultiPolygons(Batches(ellipses)), false)
      else (MultiPolygons(FullBatches(ellipses)), true)
    case "RECTANGLE" => (MultiPolygons(Batches(Rectangles(coordinates, ChunkCount(|coordinates|)))), false)
    case _ => ([], false)
  }

  /**
   * What `fetchAnnotationSource` adds and whether it throws, from the decoded point values and
   * 1-based indices: nothing when there are no points.
   */
  function Source(graphicType: string, points: Option<seq<real>>, indexes: Option<seq<Uint32>>, resolution: real): (seq<Geometry>, bool) {
    if points.None? || |points.value| == 0 then ([], false)
    else
      var decremented := if indexes.Some? then Some(Decremented(indexes.value)) else None;
      SourceGeometries(graphicType, Coordinates(Scaled(points.value, resolution)), decremented)
  }

  /**
   * The source throws exactly for a POLYLINE or POLYGON without indices and for an ELLIPSE
   * whose point count is not a multiple of eight (four coordinates); with no points it does
   * nothing at all.
   */
  lemma SourceThrows(graphicType: string, points: Option<seq<real>>, indexes: Option<seq<Uint32>>, resolution: real)
    ensures (points.None? || points.value == []) ==> Source(graphicType, points, indexes, resolution) == ([], false)
    ensures Source(graphicType, points, indexes, resolution).1 <==>
      (points.Some? && points.value != []
        && (((graphicType == "POLYLINE" || graphicType == "POLYGON") && indexes.None?)
          || (graphicType == "ELLIPSE" && ((|points.value| + 1) / 2) % 4 != 0)))
  {
  }

  /** Each batch the source receives holds one to 10001 shapes, all but the last exactly 10001, and together they are the shapes in order. */
  lemma SourceBatches<T>(items: seq<T>)
    ensures Js.Flatten(Batches(items)) == items
    ensures forall j :: 0 <= j < |Batches(items)| ==> 1 <= |Batches(items)[j]| <= BatchSize
    ensures forall j :: 0 <= j < |Batches(items)| - 1 ==> |Batches(items)[j]| == BatchSize
    ensures var f := Js.Flatten(FullBatches(items));
      |f| <= |items| && f == items[..|f|] && |items| - |f| <= BatchLimit
  {
    BatchesSpec(items);
    FullBatchesSpec(items);
  }

  lemma {:induction false} FullBatchesSpec<T>(items: seq<T>)
    ensures var f := Js.Flatten(FullBatches(items));
      |f| <= |items| && f == items[..|f|] && |items| - |f| <= BatchLimit
    decreases |items|
  {
    if |items| >= BatchSize {
      var rest := items[BatchSize..];
      FullBatchesSpec(rest);
      var f := Js.Flatten(FullBatches(rest));
      assert FullBatches(items) == [items[..BatchSize]] + FullBatches(rest);
      assert Js.Flatten(FullBatches(items)) == items[..BatchSize] + f;
      assert items[..BatchSize] + rest[..|f|] == items[..BatchSize + |f|];
    }
  }

  /** `fetchAnnotationSource` after the fetch: the geometries added to the source, and whether it threw. */
  method FetchAnnotationSource(graphicType: string, points: Option<seq<real>>, indexes: Option<seq<Uint32>>, resolution: real)
    returns (added: seq<Geometry>, thrown: bool)
    ensures (added, thrown) == Source(graphicType, points, indexes, resolution)
  {
    var scaled := if points.Some? then Some(Scaled(points.value, resolution)) else None;
    var decremented := if indexes.Some? then Some(Decremented(indexes.value)) else None;
    if scaled.None? || |scaled.value| == 0 {
      return [], false;
    }
    var coordinates := CoordinatesOf(scaled.value);
    match graphicType
    case "POINT" =>
      added, thrown := [MultiPoint(coordinates)], false;
    case "POLYLINE" =>
      if decremented.None? {
        return [], true;
      }
      var lines := PolylineBatches(coordinates, decremented.value);
      added, thrown := MultiLineStrings(lines), false;
    case "POLYGON" =>
      if decremented.None? {
        return [], true;
      }
      var polygons := PolygonBatches(coordinates, decremented.value);
      added, thrown := MultiPolygons(polygons), false;
    case "ELLIPSE" =>
      var ellipses;
      ellipses, thrown := EllipseBatches(coordinates);
      added := MultiPolygons(ellipses);
    case "RECTANGLE" =>
      var rectangles := RectangleBatches(coordinates);
      added, thrown := MultiPolygons(rectangles), false;
    case _ =>
      added, thrown := [], false;
  }

  /** The POLYLINE loop: kept segments, batched. */
  method PolylineBatches(coordinates: seq<Coordinate>, indexes: seq<Uint32>) returns (batches: seq<seq<seq<Coordinate>>>)
    ensures batches == Batches(Polylines(coordinates, indexes, |indexes|))
  {
    batches := [];
    var acc := [];
    for i := 0 to |indexes|
      invariant Full(batches) && |acc| <= BatchLimit
      invariant Js.Flatten(batches) + acc == Polylines(coordinates, indexes, i)
    {
      var line := Js.Slice(coordinates, indexes[i], SegmentEnd(indexes, i, |coordinates|));
      if |line| > 1 {
        batches, acc := Push(batches, acc, line);
      }
    }
    batches := Flush(batches, acc);
  }

  /** The POLYGON loop: non-empty rings closed with their first point, batched. */
  method PolygonBatches(coordinates: seq<Coordinate>, indexes: seq<Uint32>) returns (batches: seq<seq<seq<Ring>>>)
    ensures batches == Batches(Polygons(coordinates, indexes, |indexes|))
  {
    batches := [];
    var acc := [];
    for i := 0 to |indexes|
      invariant Full(batches) && |acc| <= BatchLimit
      invariant Js.Flatten(batches) + acc == Polygons(coordinates, indexes, i)
    {
      var start, end := RingStart(indexes, i), RingEnd(indexes, i, |coordinates|);
      var slice := Js.Slice(coordinates, start, end);
      PolygonRingIsSlice(coordinates, indexes, i);
      if |slice| > 0 {
        batches, acc := Push(batches, acc, [Ring(slice + [coordinates[start]])]);
      }
    }
    batches := Flush(batches, acc);
  }

  /** The ELLIPSE loop over chunks of four; a shorter last chunk throws. */
  method EllipseBatches(coordinates: seq<Coordinate>) returns (batches: seq<seq<seq<Ring>>>, thrown: bool)
    ensures !thrown <==> |coordinates| % 4 == 0
    ensures !thrown ==> batches == Batches(Ellipses(coordinates, |coordinates| / 4))
    ensures thrown ==> batches == FullBatches(Ellipses(coordinates, |coordinates| / 4))
  {
    batches := [];
    var acc := [];
    var i := 0;
    while i < |coordinates|
      invariant 0 <= i <= |coordinates| && i % 4 == 0
      invariant Full(batches) && |acc| <= BatchLimit
      invariant Js.Flatten(batches) + acc == Ellipses(coordinates, i / 4)
    {
      var chunk := Js.Slice(coordinates, i, i + 4);
      if |chunk| < 4 {
        // `rightmost` is undefined
        FullBatchesOf(batches, acc);
        return batches, true;
      }
      Js.SliceWithin(coordinates, i, i + 4);
      batches, acc := Push(batches, acc, [Ellipse(chunk)]);
      i := i + 4;
    }
    batches := Flush(batches, acc);
    thrown := false;
  }

  /** The RECTANGLE loop over chunks of (up to) four, each closed with its first point. */
  method RectangleBatches(coordinates: seq<Coordinate>) returns (batches: seq<seq<seq<Ring>>>)
    ensures batches == Batches(Rectangles(coordinates, ChunkCount(|coordinates|)))
  {
    batches := [];
    var acc := [];
    var i := 0;
    ghost var k := 0;
    while i < |coordinates|
      invariant i == 4 * k && i < |coordinates| + 4
      invariant Full(batches) && |acc| <= BatchLimit
      invariant Js.Flatten(batches) + acc == Rectangles(coordinates, k)
    {
      var ring := Js.Slice(coordinates, i, i + 4) + [coordinates[i]];
      RectangleRingIsSlice(coordinates, k);
      batches, acc := Push(batches, acc, [Ring(ring)]);
      i, k := i + 4, k + 1;
    }
    batches := Flush(batches, acc);
  }

  /**
   * `createEllipse`: 64 points sampled around the centre, then the first again to close the ring.
   * The trigonometry is a parameter: `sample(i)` is the `i`-th point.
   */
  method CreateEllipse(sample: nat -> Coordinate) returns (ring: seq<Coordinate>)
    ensures |ring| == 65
    ensures forall i :: 0 <= i < 64 ==> ring[i] == sample(i)
    ensures ring[64] == ring[0]
  {
    var points := [];
    for i := 0 to 64
      invariant |points| == i
      invariant forall j :: 0 <= j < i ==> points[j] == sample(j)
    {
      points := points + [sample(i)];
    }
    ring := points + [points[0]];
  }
}
