/**
 * The tile pyramid of a whole-slide image (`src/lib/microscopy-viewer/pyramid.ts`, and the
 * same arithmetic in `src/app/viewer/map.ts`): one level per image, with its tile size, its
 * grid of tiles, its zoom factor relative to the last (base) image, and the frame a tile is
 * read from.
 */
module Pyramid {
  import opened Wrappers
  import Js
  import Series

  // ---------------------------------------------------------------- arithmetic

  /** `Math.ceil(x)`: the least integer not below `x`. */
  function Ceil(x: real): (r: int)
    ensures (r - 1) as real < x <= r as real
  {
    var f := x.Floor;
    if f as real == x then f else f + 1
  }

  /** `Math.round(x)`: the nearest integer, halves rounded up. */
  function Round(x: real): (r: int)
    ensures x - 0.5 < r as real <= x + 0.5
  {
    (x + 0.5).Floor
  }

  /** Rounding keeps the order of its arguments. */
  lemma RoundMonotone(x: real, y: real)
    requires x <= y
    ensures Round(x) <= Round(y)
  {
  }

  // ---------------------------------------------------------------- levels

  /** What a level of the pyramid reads of its image. */
  datatype Level = Level(
    instanceUid: string,
    columns: real,
    rows: real,
    totalColumns: real,
    totalRows: real,
    pixelSpacing: Option<(real, real)>)

  /** Tile and image sizes are positive, as DICOM requires of Columns, Rows and the totals. */
  predicate Positive(l: Level) {
    l.columns > 0.0 && l.rows > 0.0 && l.totalColumns > 0.0 && l.totalRows > 0.0
  }

  predicate AllPositive(levels: seq<Level>) {
    forall j :: 0 <= j < |levels| ==> Positive(levels[j])
  }

  /** `[Math.ceil(totalColumns / columns), Math.ceil(totalRows / rows)]`. */
  function GridSize(l: Level): (r: (int, int))
    requires Positive(l)
  {
    (Ceil(l.totalColumns / l.columns), Ceil(l.totalRows / l.rows))
  }

  /** The grid is the fewest tiles that cover the image: one tile fewer falls short. */
  lemma GridCovers(l: Level)
    requires Positive(l)
    ensures var (nColumns, nRows) := GridSize(l);
      nColumns as real * l.columns >= l.totalColumns > (nColumns - 1) as real * l.columns
      && nRows as real * l.rows >= l.totalRows > (nRows - 1) as real * l.rows
      && nColumns >= 1 && nRows >= 1
  {
    var (nColumns, nRows) := GridSize(l);
    CeilTimes(l.totalColumns, l.columns);
    CeilTimes(l.totalRows, l.rows);
  }

  lemma CeilTimes(total: real, size: real)
    requires total > 0.0 && size > 0.0
    ensures var n := Ceil(total / size);
      n as real * size >= total > (n - 1) as real * size && n >= 1
  {
    var q := total / size;
    var n := Ceil(q);
    var hi, lo := n as real, (n - 1) as real;
    assert lo < q <= hi;
    assert q * size == total;
    RealMulMonotone(q, hi, size);
    assert hi * size >= total;
    RealMulStrict(lo, q, size, total);
  }

  lemma RealMulMonotone(a: real, b: real, c: real)
    requires a <= b && c > 0.0
    ensures a * c <= b * c
  {
    assert b * c - a * c == (b - a) * c;
  }

  lemma RealMulStrict(a: real, b: real, c: real, product: real)
    requires a < b && c > 0.0 && b * c == product
    ensures a * c < product
  {
    assert b * c - a * c == (b - a) * c;
  }

  /** `Math.round(baseTotalPixelMatrixColumns / totalPixelMatrixColumns)`. */
  function ZoomFactor(baseColumns: real, l: Level): int
    requires Positive(l)
  {
    Round(baseColumns / l.totalColumns)
  }

  /** The base image itself has zoom factor 1. */
  lemma BaseZoomIsOne(l: Level)
    requires Positive(l)
    ensures ZoomFactor(l.totalColumns, l) == 1
  {
    assert l.totalColumns / l.totalColumns == 1.0;
  }

  /** A narrower image has a zoom factor at least as large. */
  lemma ZoomAntitone(baseColumns: real, a: Level, b: Level)
    requires Positive(a) && Positive(b) && baseColumns > 0.0
    requires a.totalColumns <= b.totalColumns
    ensures ZoomFactor(baseColumns, a) >= ZoomFactor(baseColumns, b)
  {
    var x, y := baseColumns / a.totalColumns, baseColumns / b.totalColumns;
    assert x * a.totalColumns == baseColumns;
    assert y * b.totalColumns == baseColumns;
    assert y * a.totalColumns <= y * b.totalColumns;
    assert y <= x;
    RoundMonotone(y, x);
  }

  /** `offset`: the origin of every level's tile grid. */
  const Origin: (int, int) := (0, -1)

  /** `pixelSpacing?.[i] || 1`: a spacing component, 1 where there is none. */
  function SpacingOr1(spacing: Option<(real, real)>, i: nat): real
    requires i < 2
  {
    if spacing.None? then 1.0
    else
      var v := if i == 0 then spacing.value.0 else spacing.value.1;
      if v != 0.0 then v else 1.0
  }

  /** The physical size before it is formatted: columns times column spacing, rows times row spacing. */
  function PhysicalSize(l: Level): (real, real) {
    (l.totalColumns * SpacingOr1(l.pixelSpacing, 1), l.totalRows * SpacingOr1(l.pixelSpacing, 0))
  }

  // ---------------------------------------------------------------- the arrays

  /** What the arrays hold for one level, read across all seven of them. */
  datatype Entry = Entry(
    resolution: int,
    tileSize: (real, real),
    gridSize: (int, int),
    origin: (int, int),
    pixelSpacing: Option<(real, real)>,
    imageSize: (real, real),
    physicalSize: (real, real))

  /** The entry the loop pushes for level `l`. */
  function EntryOf(l: Level, baseColumns: real): Entry
    requires Positive(l)
  {
    Entry(ZoomFactor(baseColumns, l), (l.columns, l.rows), GridSize(l), Origin, l.pixelSpacing,
      (l.totalColumns, l.totalRows), PhysicalSize(l))
  }

  /** Level `k` counted from the end. */
  function Back(levels: seq<Level>, k: nat): Level
    requires k < |levels|
  {
    levels[|levels| - 1 - k]
  }

  /** The arrays `computePyramidInfo` returns, one entry per level. */
  datatype PyramidInfo = PyramidInfo(
    resolutions: seq<int>,
    tileSizes: seq<(real, real)>,
    gridSizes: seq<(int, int)>,
    origins: seq<(int, int)>,
    pixelSpacings: seq<Option<(real, real)>>,
    imageSizes: seq<(real, real)>,
    physicalSizes: seq<(real, real)>)
  {
    predicate HasLength(n: nat) {
      |resolutions| == |tileSizes| == |gridSizes| == |origins| == n
      && |pixelSpacings| == |imageSizes| == |physicalSizes| == n
    }

    /** Entry `k` read across the seven arrays. */
    function At(k: nat): Entry
      requires HasLength(|resolutions|) && k < |resolutions|
    {
      Entry(resolutions[k], tileSizes[k], gridSizes[k], origins[k], pixelSpacings[k], imageSizes[k],
        physicalSizes[k])
    }

    /** Entry `j` describes level `j`, for every level. */
    predicate Describes(levels: seq<Level>, baseColumns: real)
      requires AllPositive(levels)
    {
      HasLength(|levels|) && forall j :: 0 <= j < |levels| ==> At(j) == EntryOf(levels[j], baseColumns)
    }

    /** Entry `k` describes level `|levels| - 1 - k`, for the last `|levels| - from` levels. */
    predicate DescribesBackwards(levels: seq<Level>, baseColumns: real, from: nat)
      requires AllPositive(levels) && from <= |levels|
    {
      HasLength(|levels| - from)
      && forall k :: 0 <= k < |levels| - from ==> At(k) == EntryOf(Back(levels, k), baseColumns)
    }

    /** One entry appended to every array. */
    function Push(e: Entry): (r: PyramidInfo)
      requires HasLength(|resolutions|)
      ensures r.HasLength(|resolutions| + 1)
      ensures r.At(|resolutions|) == e
      ensures forall k :: 0 <= k < |resolutions| ==> r.At(k) == At(k)
    {
      PyramidInfo(resolutions + [e.resolution], tileSizes + [e.tileSize], gridSizes + [e.gridSize],
        origins + [e.origin], pixelSpacings + [e.pixelSpacing], imageSizes + [e.imageSize],
        physicalSizes + [e.physicalSize])
    }

    /** Every array reversed. */
    function Reversed(): (r: PyramidInfo)
      requires HasLength(|resolutions|)
      ensures r.HasLength(|resolutions|)
      ensures forall j :: 0 <= j < |resolutions| ==> r.At(j) == At(|resolutions| - 1 - j)
    {
      PyramidInfo(Js.Reversed(resolutions), Js.Reversed(tileSizes), Js.Reversed(gridSizes),
        Js.Reversed(origins), Js.Reversed(pixelSpacings), Js.Reversed(imageSizes),
        Js.Reversed(physicalSizes))
    }
  }

  /** Reversing arrays that list all the levels back to front lists them front to back. */
  lemma ReversedDescribes(info: PyramidInfo, levels: seq<Level>, baseColumns: real)
    requires AllPositive(levels) && info.DescribesBackwards(levels, baseColumns, 0)
    ensures info.Reversed().Describes(levels, baseColumns)
  {
    var r := info.Reversed();
    var n := |levels|;
    forall j | 0 <= j < n ensures r.At(j) == EntryOf(levels[j], baseColumns) {
      assert r.At(j) == info.At(n - 1 - j);
      assert Back(levels, n - 1 - j) == levels[j];
    }
  }

  /** Pushing the next lower level keeps the arrays listing the levels back to front. */
  lemma PushBackwards(info: PyramidInfo, levels: seq<Level>, baseColumns: real, j: nat)
    requires AllPositive(levels) && j < |levels|
    requires info.DescribesBackwards(levels, baseColumns, j + 1)
    ensures info.Push(EntryOf(levels[j], baseColumns)).DescribesBackwards(levels, baseColumns, j)
  {
    var r := info.Push(EntryOf(levels[j], baseColumns));
    var n := |levels|;
    forall k | 0 <= k < n - j ensures r.At(k) == EntryOf(Back(levels, k), baseColumns) {
      if k == n - j - 1 {
        assert Back(levels, k) == levels[j];
      } else {
        assert r.At(k) == info.At(k);
      }
    }
  }

  /** The seven arrays the loop pushes onto and then reverses in place. */
  class PyramidArrays {
    var resolutions: seq<int>
    var tileSizes: seq<(real, real)>
    var gridSizes: seq<(int, int)>
    var origins: seq<(int, int)>
    var pixelSpacings: seq<Option<(real, real)>>
    var imageSizes: seq<(real, real)>
    var physicalSizes: seq<(real, real)>

    /** The arrays as they stand. */
    function Info(): PyramidInfo
      reads this
    {
      PyramidInfo(resolutions, tileSizes, gridSizes, origins, pixelSpacings, imageSizes, physicalSizes)
    }

    constructor ()
      ensures Info() == PyramidInfo([], [], [], [], [], [], [])
    {
      resolutions, tileSizes, gridSizes, origins := [], [], [], [];
      pixelSpacings, imageSizes, physicalSizes := [], [], [];
    }

    /** The pushes of one iteration of the loop: level `l`'s entry at the end of every array. */
    method Push(l: Level, baseColumns: real)
      requires Positive(l) && Info().HasLength(|resolutions|)
      modifies this
      ensures Info() == old(Info()).Push(EntryOf(l, baseColumns))
    {
      tileSizes := tileSizes + [(l.columns, l.rows)];
      gridSizes := gridSizes + [GridSize(l)];
      pixelSpacings := pixelSpacings + [l.pixelSpacing];
      imageSizes := imageSizes + [(l.totalColumns, l.totalRows)];
      physicalSizes := physicalSizes + [PhysicalSize(l)];
      resolutions := resolutions + [ZoomFactor(baseColumns, l)];
      origins := origins + [Origin];
    }

    /** The seven `reverse()` calls. */
    method ReverseAll()
      requires Info().HasLength(|resolutions|)
      modifies this
      ensures Info() == old(Info()).Reversed()
    {
      resolutions := Js.Reversed(resolutions);
      tileSizes := Js.Reversed(tileSizes);
      gridSizes := Js.Reversed(gridSizes);
      origins := Js.Reversed(origins);
      pixelSpacings := Js.Reversed(pixelSpacings);
      imageSizes := Js.Reversed(imageSizes);
      physicalSizes := Js.Reversed(physicalSizes);
    }
  }

  /**
   * The loop of `computePyramidInfo` in pyramid.ts: from the last (base) level down to the
   * first, push each level's entries, then reverse every array. Afterwards entry `j`
   * describes level `j`, with zoom factors relative to the last level.
   */
  method ComputePyramid(levels: seq<Level>) returns (arrays: PyramidArrays)
    requires levels != [] && AllPositive(levels)
    ensures fresh(arrays)
    ensures arrays.Info().Describes(levels, levels[|levels| - 1].totalColumns)
  {
    var baseColumns := levels[|levels| - 1].totalColumns;
    arrays := new PyramidArrays();
    var j := |levels|;
    while j > 0
      invariant 0 <= j <= |levels|
      invariant arrays.Info().DescribesBackwards(levels, baseColumns, j)
    {
      j := j - 1;
      PushBackwards(arrays.Info(), levels, baseColumns, j);
      arrays.Push(levels[j], baseColumns);
    }
    ReversedDescribes(arrays.Info(), levels, baseColumns);
    arrays.ReverseAll();
  }

  /** The last resolution, the base image's, is 1. */
  lemma LastResolutionIsOne(info: PyramidInfo, levels: seq<Level>)
    requires levels != [] && AllPositive(levels)
    requires info.Describes(levels, levels[|levels| - 1].totalColumns)
    ensures info.resolutions[|levels| - 1] == 1
  {
    assert info.At(|levels| - 1) == EntryOf(levels[|levels| - 1], levels[|levels| - 1].totalColumns);
    BaseZoomIsOne(levels[|levels| - 1]);
  }

  /** Total columns that never decrease along the levels give resolutions that never increase. */
  lemma ResolutionsNonIncreasing(info: PyramidInfo, levels: seq<Level>, i: nat, j: nat)
    requires levels != [] && AllPositive(levels)
    requires info.Describes(levels, levels[|levels| - 1].totalColumns)
    requires forall p, q :: 0 <= p < q < |levels| ==> levels[p].totalColumns <= levels[q].totalColumns
    requires i < j < |levels|
    ensures info.resolutions[i] >= info.resolutions[j]
  {
    var base := levels[|levels| - 1].totalColumns;
    assert info.At(i) == EntryOf(levels[i], base) && info.At(j) == EntryOf(levels[j], base);
    ZoomAntitone(base, levels[i], levels[j]);
  }

  // ---------------------------------------------------------------- extent and frames

  /** `[minX, minY, maxX, maxY]` of the pyramid. */
  datatype Extent = Extent(minX: real, minY: real, maxX: real, maxY: real)

  /** `[0, -(baseTotalPixelMatrixRows + 1), baseTotalPixelMatrixColumns, -1]`. */
  function ExtentOf(baseColumns: real, baseRows: real): (r: Extent)
    ensures r.maxX - r.minX == baseColumns && r.maxY - r.minY == baseRows
    ensures r.minX == 0.0 && r.maxY == -1.0
  {
    Extent(0.0, -(baseRows + 1.0), baseColumns, -1.0)
  }

  /** `x + y * nColumns + 1`: the row-major, 1-based frame of tile `(x, y)`. */
  function FrameNumber(x: int, y: int, nColumns: int): int {
    x + y * nColumns + 1
  }

  /** The frame of a tile inside the grid lies in `1 .. nColumns * nRows`. */
  lemma FrameInRange(x: int, y: int, nColumns: int, nRows: int)
    requires 0 <= x < nColumns && 0 <= y < nRows
    ensures 1 <= FrameNumber(x, y, nColumns) <= nColumns * nRows
  {
    assert y * nColumns <= (nRows - 1) * nColumns by {
      MulMonotone(y, nRows - 1, nColumns);
    }
  }

  lemma MulMonotone(a: int, b: int, c: int)
    requires a <= b && c >= 0
    ensures a * c <= b * c
  {
    assert b * c - a * c == (b - a) * c;
  }

  /** The tile a frame addresses: the inverse of `FrameNumber`. */
  function TileOf(frame: int, nColumns: int): (r: (int, int))
    requires nColumns > 0
    ensures 0 <= r.0 < nColumns
    ensures FrameNumber(r.0, r.1, nColumns) == frame
  {
    ((frame - 1) % nColumns, (frame - 1) / nColumns)
  }

  /** Distinct tiles of a grid have distinct frames: the tile is recovered from its frame. */
  lemma TileOfFrame(x: int, y: int, nColumns: int)
    requires 0 <= x < nColumns
    ensures TileOf(FrameNumber(x, y, nColumns), nColumns) == (x, y)
  {
    var (x', y') := TileOf(FrameNumber(x, y, nColumns), nColumns);
    assert x' + y' * nColumns == x + y * nColumns;
    if y' < y {
      MulMonotone(y' + 1, y, nColumns);
    } else if y < y' {
      MulMonotone(y + 1, y', nColumns);
    }
  }

  /** Two tiles of one grid with the same frame are the same tile. */
  lemma FrameInjective(x1: int, y1: int, x2: int, y2: int, nColumns: int)
    requires 0 <= x1 < nColumns && 0 <= x2 < nColumns
    requires FrameNumber(x1, y1, nColumns) == FrameNumber(x2, y2, nColumns)
    ensures x1 == x2 && y1 == y2
  {
    TileOfFrame(x1, y1, nColumns);
    TileOfFrame(x2, y2, nColumns);
  }

  /** `tileUrlFunction([z, x, y])`: the frame of tile `(x, y)` of level `z`. */
  function TileFrame(levels: seq<Level>, z: nat, x: int, y: int): int
    requires z < |levels| && Positive(levels[z])
  {
    FrameNumber(x, y, GridSize(levels[z]).0)
  }

  /** Every tile of a level's grid is a frame of that level's image, and no two tiles share one. */
  lemma TileFramesOfLevel(levels: seq<Level>, z: nat, x: int, y: int)
    requires z < |levels| && Positive(levels[z])
    requires 0 <= x < GridSize(levels[z]).0 && 0 <= y < GridSize(levels[z]).1
    ensures 1 <= TileFrame(levels, z, x, y) <= GridSize(levels[z]).0 * GridSize(levels[z]).1
    ensures TileOf(TileFrame(levels, z, x, y), GridSize(levels[z]).0) == (x, y)
  {
    FrameInRange(x, y, GridSize(levels[z]).0, GridSize(levels[z]).1);
    TileOfFrame(x, y, GridSize(levels[z]).0);
  }

  // ---------------------------------------------------------------- the levels of pyramid.ts

  /**
   * `Math.ceil(total / size)` where `total` and `size` may be `undefined`: the quotient is
   * then NaN, here `None`.
   */
  function CeilQuotient(total: Option<real>, size: Option<real>): (r: Option<int>)
    requires size.Some? ==> size.value > 0.0
    ensures r.Some? <==> total.Some? && size.Some?
    ensures r.Some? ==> r.value == Ceil(total.value / size.value)
  {
    if total.None? || size.None? then None else Some(Ceil(total.value / size.value))
  }

  /** The `rows` that pyramid.ts reads of an `ImagingInfo`, which has no such field. */
  function InfoRows(info: Series.ImagingInfo): Option<real> {
    None
  }

  /**
   * As written, pyramid.ts computes the row count of every level's grid from an absent field:
   * the column count is a number when the instance defines its sizes, the row count never is.
   */
  lemma InfoGridRowsUndefined(info: Series.ImagingInfo)
    requires info.columns.Some? && info.columns.value > 0.0 && info.totalColumns.Some?
    ensures CeilQuotient(info.totalColumns, info.columns).Some?
    ensures CeilQuotient(info.totalRows, InfoRows(info)).None?
  {
  }

  /** The numbers a level reads of an `ImagingInfo` are defined. */
  predicate InfoSized(info: Series.ImagingInfo) {
    info.columns.Some? && info.totalColumns.Some? && info.totalRows.Some?
  }

  /**
   * The level pyramid.ts evidently means to read of an `ImagingInfo` whose numbers are
   * defined: its row size is supplied (the instance's Rows attribute), and the spacing is always
   * `[1, 1]`, so the physical size is the pixel size.
   */
  function LevelOfInfo(info: Series.ImagingInfo, rows: real): (l: Level)
    requires InfoSized(info)
    ensures l.pixelSpacing == Some((1.0, 1.0)) && PhysicalSize(l) == (info.totalColumns.value, info.totalRows.value)
    ensures l.instanceUid == info.instanceUid && l.columns == info.columns.value && l.rows == rows
  {
    Level(info.instanceUid, info.columns.value, rows, info.totalColumns.value, info.totalRows.value, Some((1.0, 1.0)))
  }

  /** With the row size read, every level's grid covers its image in both directions. */
  lemma InfoGridCovers(info: Series.ImagingInfo, rows: real)
    requires InfoSized(info) && info.columns.value > 0.0 && rows > 0.0
    requires info.totalColumns.value > 0.0 && info.totalRows.value > 0.0
    ensures var l := LevelOfInfo(info, rows);
      Positive(l) && GridSize(l).1 as real * rows >= info.totalRows.value > (GridSize(l).1 - 1) as real * rows
  {
    GridCovers(LevelOfInfo(info, rows));
  }
}
