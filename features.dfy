/**
 * The microscopy viewer's annotation reader (`src/lib/microscopy-viewer/annotation.ts`):
 * `decodeCoordinatesData`, `decodeIndexesData` and `computeAnnotationFeatures` without the
 * fetch. Unlike the layer hook's `fetchAnnotationSource` it makes one feature per shape,
 * skips a POLYLINE or POLYGON without indices instead of throwing, and throws away the
 * whole result when any annotation throws.
 */
module Features {
  import opened Wrappers
  import Js
  import Base64
  import Multipart
  import Vr
  import G = Geometry

  type Byte = Js.Byte

  /** The `encodedData` argument: inline base64 text, or the buffers of a decoded multipart body. */
  datatype EncodedData = InlineBinary(text: string) | Buffers(buffers: seq<seq<Byte>>)

  /** What can be thrown: by `atob`, by a typed array over a misaligned buffer, or by reading a field of `undefined`. */
  datatype Thrown = InvalidCharacterError | RangeError | TypeError

  // ---------------------------------------------------------------- decoding

  /** The buffer a typed array is built over; a missing first buffer gives an empty array. */
  function BufferOf(encoded: EncodedData): Result<seq<Byte>, Thrown> {
    match encoded
    case InlineBinary(text) =>
      (match Base64.Atob(text)
       case Failure(_) => Failure(InvalidCharacterError)
       case Success(bytes) => Success(bytes))
    case Buffers(buffers) => Success(if |buffers| > 0 then buffers[0] else [])
  }

  /** The element width of the coordinate array: eight bytes for OD, four otherwise. */
  function CoordinateWidth(vr: string): (w: nat)
    ensures w == 4 || w == 8
  {
    if vr == "OD" then 8 else 4
  }

  /** `decodeCoordinatesData`: the byte groups of a `Float64Array` (OD) or `Float32Array` (any other VR). */
  function CoordinatesData(encoded: EncodedData, vr: string): (r: Result<seq<seq<Byte>>, Thrown>)
    ensures r.Failure? <==> BufferOf(encoded).Failure? || |BufferOf(encoded).value| % CoordinateWidth(vr) != 0
    ensures r.Success? ==> Js.Flatten(r.value) == BufferOf(encoded).value
    ensures r.Success? ==> forall k :: 0 <= k < |r.value| ==> |r.value[k]| == CoordinateWidth(vr)
  {
    match BufferOf(encoded)
    case Failure(e) => Failure(e)
    case Success(buffer) =>
      var width := CoordinateWidth(vr);
      if |buffer| % width != 0 then Failure(RangeError)
      else
        Vr.GroupsFlatten(buffer, width);
        Success(Vr.Groups(buffer, width))
  }

  /** `decodeIndexesData`: the words of a `Uint32Array`. */
  function IndexesData(encoded: EncodedData): (r: Result<seq<G.Uint32>, Thrown>)
    ensures r.Failure? <==> BufferOf(encoded).Failure? || |BufferOf(encoded).value| % 4 != 0
    ensures r.Success? ==> 4 * |r.value| == |BufferOf(encoded).value|
    ensures r.Success? ==> forall k :: 0 <= k < |r.value| ==> r.value[k] == Vr.Word(BufferOf(encoded).value[4 * k..4 * k + 4])
  {
    match BufferOf(encoded)
    case Failure(e) => Failure(e)
    case Success(buffer) =>
      if |buffer| % 4 != 0 then Failure(RangeError)
      else
        var words := Vr.Words32(buffer);
        Success(seq(|words|, k requires 0 <= k < |words| => words[k] as G.Uint32))
  }

  /** Inline data decodes to the bytes it encodes: the coordinate reader inverts base64 encoding. */
  lemma CoordinatesDataOfEncoded(bytes: seq<Byte>, vr: string)
    requires |bytes| % CoordinateWidth(vr) == 0
    ensures CoordinatesData(InlineBinary(Base64.Encode(bytes)), vr).Success?
    ensures Js.Flatten(CoordinatesData(InlineBinary(Base64.Encode(bytes)), vr).value) == bytes
  {
    Base64.AtobEncode(bytes);
  }

  /** Inline data decodes to the words of the bytes it encodes. */
  lemma IndexesDataOfEncoded(bytes: seq<Byte>)
    requires |bytes| % 4 == 0
    ensures IndexesData(InlineBinary(Base64.Encode(bytes))).Success?
    ensures IndexesData(InlineBinary(Base64.Encode(bytes))).value == Vr.Words32(bytes)
  {
    Base64.AtobEncode(bytes);
    var r := IndexesData(InlineBinary(Base64.Encode(bytes))).value;
    assert |r| == |Vr.Words32(bytes)|;
  }

  /** The loop that copies a binary string's character codes into a `Uint8Array`. */
  method BinaryBuffer(decodedData: string) returns (buffer: seq<Byte>)
    ensures buffer == Multipart.CharCodes(decodedData)
  {
    var byteArray := new Byte[|decodedData|](_ => 0);
    for i := 0 to |decodedData|
      invariant forall j :: 0 <= j < i ==> byteArray[j] == (decodedData[j] as int) % 0x100
    {
      byteArray[i] := (decodedData[i] as int) % 0x100;
    }
    buffer := byteArray[..];
  }

  /** The buffer of the encoded data, through `atob` and the character-code loop for inline text. */
  method Buffer(encoded: EncodedData) returns (r: Result<seq<Byte>, Thrown>)
    ensures r == BufferOf(encoded)
  {
    match encoded
    case InlineBinary(text) =>
      var decoded := Base64.Atob(text);
      if decoded.Failure? {
        return Failure(InvalidCharacterError);
      }
      var buffer := BinaryBuffer(Vr.BinaryString(decoded.value));
      Vr.CharCodesOfBinaryString(decoded.value);
      r := Success(buffer);
    case Buffers(buffers) =>
      r := Success(if |buffers| > 0 then buffers[0] else []);
  }

  method DecodeCoordinatesData(encoded: EncodedData, vr: string) returns (r: Result<seq<seq<Byte>>, Thrown>)
    ensures r == CoordinatesData(encoded, vr)
  {
    var buffer := Buffer(encoded);
    if buffer.Failure? {
      return Failure(buffer.error);
    }
    var width := CoordinateWidth(vr);
    if |buffer.value| % width != 0 {
      return Failure(RangeError);
    }
    r := Success(Vr.Groups(buffer.value, width));
  }

  method DecodeIndexesData(encoded: EncodedData) returns (r: Result<seq<G.Uint32>, Thrown>)
    ensures r == IndexesData(encoded)
  {
    var buffer := Buffer(encoded);
    if buffer.Failure? {
      return Failure(buffer.error);
    }
    if |buffer.value| % 4 != 0 {
      return Failure(RangeError);
    }
    var words := Vr.Words32(buffer.value);
    r := Success(seq(|words|, k requires 0 <= k < |words| => words[k] as G.Uint32));
  }

  // ---------------------------------------------------------------- annotations

  /**
   * Where an annotation's data comes from: inline base64 text (`""` when absent, which is
   * falsy), else the buffers of the multipart body fetched from the bulk-data URI, if any.
   */
  datatype BulkData = BulkData(inlineBinary: string, fetched: Option<seq<seq<Byte>>>)

  /** The fields of an `AnnotationInfo` that are read. */
  datatype AnnotationInfo = AnnotationInfo(
    instanceUID: string, pointsVr: string, pointsData: BulkData, indexesData: Option<BulkData>, graphicType: string)

  datatype InstanceResolution = InstanceResolution(instanceUID: string, resolution: real)

  /** The encoded data the source reads, or `None` when it reads nothing. */
  function Encoding(data: BulkData): Option<EncodedData> {
    if data.inlineBinary != "" then Some(InlineBinary(data.inlineBinary))
    else if data.fetched.Some? then Some(Buffers(data.fetched.value))
    else None
  }

  /** The point values, each group of bytes read as an IEEE number by `toNumber`. */
  function DecodedPoints(a: AnnotationInfo, toNumber: seq<Byte> -> real): (r: Result<Option<seq<real>>, Thrown>)
    ensures Encoding(a.pointsData).None? <==> r == Success(None)
    ensures Encoding(a.pointsData).Some? ==> (r.Failure? <==> CoordinatesData(Encoding(a.pointsData).value, a.pointsVr).Failure?)
  {
    match Encoding(a.pointsData)
    case None => Success(None)
    case Some(encoded) =>
      match CoordinatesData(encoded, a.pointsVr)
      case Failure(e) => Failure(e)
      case Success(groups) => Success(Some(seq(|groups|, k requires 0 <= k < |groups| => toNumber(groups[k]))))
  }

  /** The index words, when there is index data. */
  function DecodedIndexes(a: AnnotationInfo): Result<Option<seq<G.Uint32>>, Thrown> {
    if a.indexesData.None? then Success(None)
    else match Encoding(a.indexesData.value)
      case None => Success(None)
      case Some(encoded) =>
        match IndexesData(encoded)
        case Failure(e) => Failure(e)
        case Success(words) => Success(Some(words))
  }

  /** `resolutions.find((res) => res.instanceUID === instanceUID)?.resolution`. */
  function FindResolution(resolutions: seq<InstanceResolution>, instanceUID: string): Option<real> {
    if resolutions == [] then None
    else if resolutions[0].instanceUID == instanceUID then Some(resolutions[0].resolution)
    else FindResolution(resolutions[1..], instanceUID)
  }

  /** `find` returns the resolution of the first entry for the instance, and nothing when there is none. */
  lemma {:induction false} FindResolutionSpec(resolutions: seq<InstanceResolution>, instanceUID: string)
    ensures FindResolution(resolutions, instanceUID).None? <==> forall i :: 0 <= i < |resolutions| ==> resolutions[i].instanceUID != instanceUID
    ensures FindResolution(resolutions, instanceUID).Some? ==> exists i :: (0 <= i < |resolutions|
      && resolutions[i].instanceUID == instanceUID && FindResolution(resolutions, instanceUID).value == resolutions[i].resolution
      && forall j :: 0 <= j < i ==> resolutions[j].instanceUID != instanceUID)
  {
    if resolutions != [] && resolutions[0].instanceUID != instanceUID {
      var rest := resolutions[1..];
      FindResolutionSpec(rest, instanceUID);
      if FindResolution(rest, instanceUID).Some? {
        var i :| 0 <= i < |rest| && rest[i].instanceUID == instanceUID && FindResolution(rest, instanceUID).value == rest[i].resolution
          && forall j :: 0 <= j < i ==> rest[j].instanceUID != instanceUID;
        assert resolutions[i + 1] == rest[i];
      }
    }
  }

  /**
   * The scale of an annotation: the resolution found for its instance unless it is missing or
   * zero, then the last entry's; `None` (a `TypeError`) when the list is empty.
   */
  function ScaleFor(resolutions: seq<InstanceResolution>, instanceUID: string): (r: Option<real>)
    ensures r.None? <==> resolutions == []
    ensures r.Some? ==> r.value != 0.0 || r.value == resolutions[|resolutions| - 1].resolution
  {
    var found := FindResolution(resolutions, instanceUID);
    if found.Some? && found.value != 0.0 then found
    else if resolutions == [] then None
    else Some(resolutions[|resolutions| - 1].resolution)
  }

  /** The scale is the first entry's for the instance when that is non-zero, and the last entry's otherwise. */
  lemma ScaleForSpec(resolutions: seq<InstanceResolution>, instanceUID: string, i: nat)
    requires i < |resolutions| && resolutions[i].instanceUID == instanceUID
    requires forall j :: 0 <= j < i ==> resolutions[j].instanceUID != instanceUID
    ensures resolutions[i].resolution != 0.0 ==> ScaleFor(resolutions, instanceUID) == Some(resolutions[i].resolution)
    ensures resolutions[i].resolution == 0.0 ==> ScaleFor(resolutions, instanceUID) == Some(resolutions[|resolutions| - 1].resolution)
  {
    FindResolutionSpec(resolutions, instanceUID);
  }

  /** One `LineString` feature per polyline. */
  function LineStrings(lines: seq<seq<G.Coordinate>>): seq<G.Geometry> {
    seq(|lines|, j requires 0 <= j < |lines| => G.LineString(lines[j]))
  }

  /** One `Polygon` feature per polygon. */
  function PolygonFeatures(polygons: seq<seq<G.Ring>>): seq<G.Geometry> {
    seq(|polygons|, j requires 0 <= j < |polygons| => G.Polygon(polygons[j]))
  }

  /**
   * The features of one annotation from its coordinates and 0-based indices: a POLYLINE or
   * POLYGON without indices gives none; an ELLIPSE whose last chunk is short throws.
   */
  function ShapeFeatures(graphicType: string, coordinates: seq<G.Coordinate>, indexes: Option<seq<G.Uint32>>): Result<seq<G.Geometry>, Thrown> {
    if (graphicType == "POLYLINE" || graphicType == "POLYGON") && indexes.None? then Success([])
    else match graphicType
      case "POINT" => Success([G.MultiPoint(coordinates)])
      case "POLYLINE" => Success(LineStrings(G.Polylines(coordinates, indexes.value, |indexes.value|)))
      case "POLYGON" => Success(PolygonFeatures(G.Polygons(coordinates, indexes.value, |indexes.value|)))
      case "ELLIPSE" =>
        if |coordinates| % 4 != 0 then Failure(TypeError)
        else Success(PolygonFeatures(G.Ellipses(coordinates, |coordinates| / 4)))
      case "RECTANGLE" => Success(PolygonFeatures(G.Rectangles(coordinates, G.ChunkCount(|coordinates|))))
      case _ => Success([])
  }

  /**
   * The features of one annotation: the points are decoded, the scale looked up and the indices
   * decoded, in that order, each of which may throw; then no points means no features.
   */
  function AnnotationFeatures(a: AnnotationInfo, resolutions: seq<InstanceResolution>, toNumber: seq<Byte> -> real): Result<seq<G.Geometry>, Thrown> {
    match DecodedPoints(a, toNumber)
    case Failure(e) => Failure(e)
    case Success(points) =>
      match ScaleFor(resolutions, a.instanceUID)
      case None => Failure(TypeError)
      case Some(scale) =>
        match DecodedIndexes(a)
        case Failure(e) => Failure(e)
        case Success(indexes) =>
          if points.None? || points.value == [] then Success([])
          else
            var decremented := if indexes.Some? then Some(G.Decremented(indexes.value)) else None;
            ShapeFeatures(a.graphicType, G.Coordinates(G.Scaled(points.value, scale)), decremented)
  }

  /** The outputs of the first `n` items laid end to end, or the first thing thrown. */
  function Collected<T, R, E>(items: seq<T>, f: T -> Result<seq<R>, E>, n: nat): Result<seq<R>, E>
    requires n <= |items|
  {
    if n == 0 then Success([])
    else match Collected(items, f, n - 1)
      case Failure(e) => Failure(e)
      case Success(previous) =>
        match f(items[n - 1])
        case Failure(e) => Failure(e)
        case Success(outputs) => Success(previous + outputs)
  }

  /** The outputs of each of the first `n` items (nothing for one that throws). */
  function Outputs<T, R, E>(items: seq<T>, f: T -> Result<seq<R>, E>, n: nat): (r: seq<seq<R>>)
    requires n <= |items|
    ensures |r| == n
  {
    if n == 0 then [] else Outputs(items, f, n - 1) + [if f(items[n - 1]).Success? then f(items[n - 1]).value else []]
  }

  /** Collecting throws exactly when some item throws, the first one's error; otherwise it is all outputs in order. */
  lemma {:induction false} CollectedSpec<T, R, E>(items: seq<T>, f: T -> Result<seq<R>, E>, n: nat)
    requires n <= |items|
    ensures Collected(items, f, n).Failure? <==> exists i :: 0 <= i < n && f(items[i]).Failure?
    ensures Collected(items, f, n).Failure? ==> exists i :: (0 <= i < n && f(items[i]).Failure?
      && Collected(items, f, n).error == f(items[i]).error && forall j :: 0 <= j < i ==> f(items[j]).Success?)
    ensures Collected(items, f, n).Success? ==> Collected(items, f, n).value == Js.Flatten(Outputs(items, f, n))
  {
    if n > 0 {
      CollectedSpec(items, f, n - 1);
      if Collected(items, f, n - 1).Success? {
        Js.FlattenAppend(Outputs(items, f, n - 1), if f(items[n - 1]).Success? then f(items[n - 1]).value else []);
      }
    }
  }

  lemma CollectedStep<T, R, E>(items: seq<T>, f: T -> Result<seq<R>, E>, n: nat, previous: seq<R>)
    requires n < |items| && Collected(items, f, n) == Success(previous)
    ensures f(items[n]).Success? ==> Collected(items, f, n + 1) == Success(previous + f(items[n]).value)
    ensures f(items[n]).Failure? ==> Collected(items, f, |items|) == Failure(f(items[n]).error)
  {
    if f(items[n]).Failure? {
      CollectedFailed(items, f, n + 1, f(items[n]).error);
    }
  }

  /** Once collecting has thrown, it stays thrown with the same error. */
  lemma {:induction false} CollectedFailed<T, R, E>(items: seq<T>, f: T -> Result<seq<R>, E>, n: nat, e: E)
    requires n <= |items| && Collected(items, f, n) == Failure(e)
    ensures Collected(items, f, |items|) == Failure(e)
    decreases |items| - n
  {
    if n < |items| {
      CollectedFailed(items, f, n + 1, e);
    }
  }

  /** What `computeAnnotationFeatures` resolves to, or the error it rejects with. */
  function ComputedFeatures(annotations: seq<AnnotationInfo>, resolutions: seq<InstanceResolution>, toNumber: seq<Byte> -> real): Result<seq<G.Geometry>, Thrown> {
    Collected(annotations, a => AnnotationFeatures(a, resolutions, toNumber), |annotations|)
  }

  /**
   * The result rejects exactly when some annotation throws; otherwise it holds every
   * annotation's features, annotation by annotation, in order.
   */
  lemma ComputedFeaturesSpec(annotations: seq<AnnotationInfo>, resolutions: seq<InstanceResolution>, toNumber: seq<Byte> -> real)
    ensures ComputedFeatures(annotations, resolutions, toNumber).Failure?
      <==> exists i :: 0 <= i < |annotations| && AnnotationFeatures(annotations[i], resolutions, toNumber).Failure?
    ensures ComputedFeatures(annotations, resolutions, toNumber).Success? ==>
      ComputedFeatures(annotations, resolutions, toNumber).value
        == Js.Flatten(Outputs(annotations, a => AnnotationFeatures(a, resolutions, toNumber), |annotations|))
  {
    CollectedSpec(annotations, a => AnnotationFeatures(a, resolutions, toNumber), |annotations|);
  }

  /**
   * An annotation whose points are missing or empty, or whose POLYLINE or POLYGON lacks
   * indices, contributes nothing once decoding and the scale lookup succeed; an empty
   * resolution list rejects every annotation.
   */
  lemma AnnotationFeaturesSkips(a: AnnotationInfo, resolutions: seq<InstanceResolution>, toNumber: seq<Byte> -> real)
    ensures resolutions == [] && DecodedPoints(a, toNumber).Success? ==> AnnotationFeatures(a, resolutions, toNumber) == Failure(TypeError)
    ensures resolutions != [] && DecodedPoints(a, toNumber) == Success(None) && DecodedIndexes(a).Success?
      ==> AnnotationFeatures(a, resolutions, toNumber) == Success([])
    ensures resolutions != [] && DecodedPoints(a, toNumber).Success? && DecodedIndexes(a) == Success(None)
      && (a.graphicType == "POLYLINE" || a.graphicType == "POLYGON")
      ==> AnnotationFeatures(a, resolutions, toNumber) == Success([])
  {
  }

  /** Every LineString of a POLYLINE has at least two points, consecutive in the coordinates, and there is at most one per index. */
  lemma PolylineFeaturesShape(coordinates: seq<G.Coordinate>, indexes: seq<G.Uint32>)
    ensures var fs := ShapeFeatures("POLYLINE", coordinates, Some(indexes)).value;
      |fs| <= |indexes| && forall g :: g in fs ==> (g.LineString? && |g.line| > 1 && G.IsRun(coordinates, g.line))
  {
    G.PolylinesShape(coordinates, indexes, |indexes|);
  }

  /** Every Polygon of a POLYGON is one closed ring, and there is at most one per index. */
  lemma PolygonFeaturesClosed(coordinates: seq<G.Coordinate>, indexes: seq<G.Uint32>)
    ensures var fs := ShapeFeatures("POLYGON", coordinates, Some(indexes)).value;
      |fs| <= |indexes| && forall g :: g in fs ==> (g.Polygon? && G.ClosedPolygon(coordinates, g.rings))
  {
    G.PolygonsClosed(coordinates, indexes, |indexes|);
  }

  /** A RECTANGLE gives one Polygon per chunk of four coordinates: the chunk, closed. */
  lemma RectangleFeaturesShape(coordinates: seq<G.Coordinate>, indexes: Option<seq<G.Uint32>>)
    ensures var fs := ShapeFeatures("RECTANGLE", coordinates, indexes).value;
      |fs| == G.ChunkCount(|coordinates|)
      && forall j :: 0 <= j < |fs| ==> fs[j] == G.Polygon([G.Ring(G.RectangleRing(coordinates, j))])
  {
    G.RectanglesChunks(coordinates, G.ChunkCount(|coordinates|));
  }

  /** An ELLIPSE gives one Polygon per four coordinates, or throws when they do not come in fours. */
  lemma EllipseFeaturesShape(coordinates: seq<G.Coordinate>, indexes: Option<seq<G.Uint32>>)
    ensures ShapeFeatures("ELLIPSE", coordinates, indexes).Failure? <==> |coordinates| % 4 != 0
    ensures ShapeFeatures("ELLIPSE", coordinates, indexes).Success? ==>
      var fs := ShapeFeatures("ELLIPSE", coordinates, indexes).value;
      4 * |fs| == |coordinates| && forall j :: 0 <= j < |fs| ==> fs[j] == G.Polygon([G.Ellipse(coordinates[4 * j..4 * j + 4])])
  {
    if |coordinates| % 4 == 0 {
      G.EllipsesCorners(coordinates, |coordinates| / 4);
    }
  }

  // ---------------------------------------------------------------- the loops

  /** `computeAnnotationFeatures` without the fetch: the features, or the error the promise rejects with. */
  method ComputeAnnotationFeatures(annotations: seq<AnnotationInfo>, resolutions: seq<InstanceResolution>, toNumber: seq<Byte> -> real)
    returns (r: Result<seq<G.Geometry>, Thrown>)
    ensures r == ComputedFeatures(annotations, resolutions, toNumber)
  {
    if |annotations| == 0 {
      return Success([]);
    }
    ghost var f := a => AnnotationFeatures(a, resolutions, toNumber);
    var features := [];
    for n := 0 to |annotations|
      invariant Collected(annotations, f, n) == Success(features)
    {
      var added := AnnotationFeaturesOf(annotations[n], resolutions, toNumber);
      CollectedStep(annotations, f, n, features);
      if added.Failure? {
        return Failure(added.error);
      }
      features := features + added.value;
    }
    r := Success(features);
  }

  /** The body of the loop for one annotation. */
  method AnnotationFeaturesOf(a: AnnotationInfo, resolutions: seq<InstanceResolution>, toNumber: seq<Byte> -> real)
    returns (r: Result<seq<G.Geometry>, Thrown>)
    ensures r == AnnotationFeatures(a, resolutions, toNumber)
  {
    var points := DecodePoints(a, toNumber);
    if points.Failure? {
      return Failure(points.error);
    }
    var scale := ScaleFor(resolutions, a.instanceUID);
    if scale.None? {
      return Failure(TypeError);
    }
    var scaled := if points.value.Some? then Some(G.Scaled(points.value.value, scale.value)) else None;
    var indexes := DecodeIndexes(a);
    if indexes.Failure? {
      return Failure(indexes.error);
    }
    var decremented := if indexes.value.Some? then Some(G.Decremented(indexes.value.value)) else None;
    if scaled.None? || |scaled.value| == 0 {
      return Success([]);
    }
    var coordinates := G.CoordinatesOf(scaled.value);
    r := ShapeFeaturesOf(a.graphicType, coordinates, decremented);
  }

  /** The decoded point values of an annotation, when it has any. */
  method DecodePoints(a: AnnotationInfo, toNumber: seq<Byte> -> real) returns (r: Result<Option<seq<real>>, Thrown>)
    ensures r == DecodedPoints(a, toNumber)
  {
    var encoded := Encoding(a.pointsData);
    if encoded.None? {
      return Success(None);
    }
    var groups := DecodeCoordinatesData(encoded.value, a.pointsVr);
    if groups.Failure? {
      return Failure(groups.error);
    }
    r := Success(Some(seq(|groups.value|, k requires 0 <= k < |groups.value| => toNumber(groups.value[k]))));
  }

  /** The decoded index words of an annotation, when it has any. */
  method DecodeIndexes(a: AnnotationInfo) returns (r: Result<Option<seq<G.Uint32>>, Thrown>)
    ensures r == DecodedIndexes(a)
  {
    if a.indexesData.None? {
      return Success(None);
    }
    var encoded := Encoding(a.indexesData.value);
    if encoded.None? {
      return Success(None);
    }
    var words := DecodeIndexesData(encoded.value);
    if words.Failure? {
      return Failure(words.error);
    }
    r := Success(Some(words.value));
  }

  /** The `switch` over the graphic type. */
  method ShapeFeaturesOf(graphicType: string, coordinates: seq<G.Coordinate>, indexes: Option<seq<G.Uint32>>)
    returns (r: Result<seq<G.Geometry>, Thrown>)
    ensures r == ShapeFeatures(graphicType, coordinates, indexes)
  {
    if (graphicType == "POLYLINE" || graphicType == "POLYGON") && indexes.None? {
      return Success([]);
    }
    match graphicType
    case "POINT" =>
      r := Success([G.MultiPoint(coordinates)]);
    case "POLYLINE" =>
      var lines := PolylineFeatures(coordinates, indexes.value);
      r := Success(lines);
    case "POLYGON" =>
      var polygons := PolygonRingFeatures(coordinates, indexes.value);
      r := Success(polygons);
    case "ELLIPSE" =>
      r := EllipseFeatures(coordinates);
    case "RECTANGLE" =>
      var rectangles := RectangleFeatures(coordinates);
      r := Success(rectangles);
    case _ =>
      r := Success([]);
  }

  /** One `LineString` per kept segment. */
  method PolylineFeatures(coordinates: seq<G.Coordinate>, indexes: seq<G.Uint32>) returns (features: seq<G.Geometry>)
    ensures features == LineStrings(G.Polylines(coordinates, indexes, |indexes|))
  {
    features := [];
    for i := 0 to |indexes|
      invariant features == LineStrings(G.Polylines(coordinates, indexes, i))
    {
      var line := Js.Slice(coordinates, indexes[i], G.SegmentEnd(indexes, i, |coordinates|));
      if |line| > 1 {
        features := features + [G.LineString(line)];
      }
    }
  }

  /** One `Polygon` per non-empty ring, closed with its first point. */
  method PolygonRingFeatures(coordinates: seq<G.Coordinate>, indexes: seq<G.Uint32>) returns (features: seq<G.Geometry>)
    ensures features == PolygonFeatures(G.Polygons(coordinates, indexes, |indexes|))
  {
    features := [];
    for i := 0 to |indexes|
      invariant features == PolygonFeatures(G.Polygons(coordinates, indexes, i))
    {
      var start, end := G.RingStart(indexes, i), G.RingEnd(indexes, i, |coordinates|);
      var slice := Js.Slice(coordinates, start, end);
      G.PolygonRingIsSlice(coordinates, indexes, i);
      if |slice| > 0 {
        features := features + [G.Polygon([G.Ring(slice + [coordinates[start]])])];
      }
    }
  }

  /** One `Polygon` per chunk of four; a shorter last chunk throws. */
  method EllipseFeatures(coordinates: seq<G.Coordinate>) returns (r: Result<seq<G.Geometry>, Thrown>)
    ensures r.Failure? <==> |coordinates| % 4 != 0
    ensures r.Failure? ==> r.error == TypeError
    ensures r.Success? ==> r.value == PolygonFeatures(G.Ellipses(coordinates, |coordinates| / 4))
  {
    var features := [];
    var i := 0;
    ghost var k := 0;
    while i < |coordinates|
      invariant i == 4 * k <= |coordinates|
      invariant features == PolygonFeatures(G.Ellipses(coordinates, k))
    {
      var chunk := Js.Slice(coordinates, i, i + 4);
      if |chunk| < 4 {
        // `rightmost` is undefined
        return Failure(TypeError);
      }
      Js.SliceWithin(coordinates, i, i + 4);
      features := features + [G.Polygon([G.Ellipse(chunk)])];
      i, k := i + 4, k + 1;
    }
    r := Success(features);
  }

  /** One `Polygon` per chunk of (up to) four, closed with its first point. */
  method RectangleFeatures(coordinates: seq<G.Coordinate>) returns (features: seq<G.Geometry>)
    ensures features == PolygonFeatures(G.Rectangles(coordinates, G.ChunkCount(|coordinates|)))
  {
    features := [];
    var i := 0;
    ghost var k := 0;
    while i < |coordinates|
      invariant i == 4 * k < |coordinates| + 4
      invariant features == PolygonFeatures(G.Rectangles(coordinates, k))
    {
      var ring := Js.Slice(coordinates, i, i + 4) + [coordinates[i]];
      G.RectangleRingIsSlice(coordinates, k);
      features := features + [G.Polygon([G.Ring(ring)])];
      i, k := i + 4, k + 1;
    }
  }
}
