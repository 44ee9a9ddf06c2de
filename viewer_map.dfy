/**
 * The slide viewer's map (`src/app/viewer/map.ts`): the pixel spacing of a volume image, the
 * order of the volume images, and the pyramid computed from their metadata, with the zoom
 * factor of every instance.
 */
module ViewerMap {
  import opened Wrappers
  import opened DicomJson
  import Series
  import Pyramid

  // ---------------------------------------------------------------- getPixelSpacing

  /** `Number(pixelMeasures[PixelSpacing]?.Value?.[i]) || 1`. */
  function SpacingComponent(pixelMeasures: Dataset, i: nat): (r: real)
    ensures r != 0.0
    ensures SpacingValue(pixelMeasures, i).Some? && SpacingValue(pixelMeasures, i).value != 0.0
      ==> r == SpacingValue(pixelMeasures, i).value
    ensures SpacingValue(pixelMeasures, i).None? || SpacingValue(pixelMeasures, i).value == 0.0 ==> r == 1.0
  {
    match SpacingValue(pixelMeasures, i)
    case Some(n) => if n != 0.0 then n else 1.0
    case None => 1.0
  }

  /** Value `i` of the PixelSpacing attribute, when it is a number. */
  function SpacingValue(pixelMeasures: Dataset, i: nat): Option<real> {
    if PixelSpacing in pixelMeasures && pixelMeasures[PixelSpacing].values.Some?
      && i < |pixelMeasures[PixelSpacing].values.value|
    then
      match pixelMeasures[PixelSpacing].values.value[i]
      case Num(n, _) => Some(n)
      case _ => None
    else None
  }

  /**
   * `getPixelSpacing`: undefined when the shared functional group or its pixel measures item
   * is missing; otherwise both components, each falling back to 1.
   */
  function GetPixelSpacing(d: Dataset): (r: Option<(real, real)>)
    ensures r.None? <==> (FirstItem(d, SharedFunctionalGroupsSequence).None?
      || FirstItem(FirstItem(d, SharedFunctionalGroupsSequence).value, PixelMeasuresSequence).None?)
    ensures r.Some? ==> r.value.0 != 0.0 && r.value.1 != 0.0
  {
    match FirstItem(d, SharedFunctionalGroupsSequence)
    case None => None
    case Some(group) =>
      match FirstItem(group, PixelMeasuresSequence)
      case None => None
      case Some(pixelMeasures) => Some((SpacingComponent(pixelMeasures, 0), SpacingComponent(pixelMeasures, 1)))
  }

  /** A dataset whose shared functional group records the spacing `(rowSpacing, columnSpacing)`. */
  function SpacingDataset(rowSpacing: real, columnSpacing: real): Dataset {
    var pixelMeasures := map[PixelSpacing := Attribute("DS", Some([Num(rowSpacing, ""), Num(columnSpacing, "")]), None, None)];
    var group := map[PixelMeasuresSequence := Attribute("SQ", Some([Item(pixelMeasures)]), None, None)];
    map[SharedFunctionalGroupsSequence := Attribute("SQ", Some([Item(group)]), None, None)]
  }

  /** A recorded spacing with non-zero components is read back as it is. */
  lemma GetPixelSpacingRoundTrip(rowSpacing: real, columnSpacing: real)
    requires rowSpacing != 0.0 && columnSpacing != 0.0
    ensures GetPixelSpacing(SpacingDataset(rowSpacing, columnSpacing)) == Some((rowSpacing, columnSpacing))
  {
    var d := SpacingDataset(rowSpacing, columnSpacing);
    var group := FirstItem(d, SharedFunctionalGroupsSequence).value;
    var pixelMeasures := FirstItem(group, PixelMeasuresSequence).value;
    assert SpacingValue(pixelMeasures, 0) == Some(rowSpacing);
    assert SpacingValue(pixelMeasures, 1) == Some(columnSpacing);
  }

  /** A zero component is replaced by 1. */
  lemma GetPixelSpacingZero(columnSpacing: real)
    requires columnSpacing != 0.0
    ensures GetPixelSpacing(SpacingDataset(0.0, columnSpacing)) == Some((1.0, columnSpacing))
  {
    var d := SpacingDataset(0.0, columnSpacing);
    var pixelMeasures := FirstItem(FirstItem(d, SharedFunctionalGroupsSequence).value, PixelMeasuresSequence).value;
    assert SpacingValue(pixelMeasures, 0) == Some(0.0);
    assert SpacingValue(pixelMeasures, 1) == Some(columnSpacing);
  }

  // ---------------------------------------------------------------- sortImagingInfo

  /** What `sortImagingInfo` of map.ts can throw. */
  datatype Thrown = TypeError

  /** The three attributes the comparator dereferences with `!`. */
  predicate HasSizeAttributes(d: Dataset) {
    TotalPixelMatrixColumns in d && TotalPixelMatrixRows in d && NumberOfFrames in d
  }

  /**
   * The `sortImagingInfo` comparator of map.ts: 0 when either side is undefined; a TypeError
   * when a dataset lacks one of the attributes it dereferences; otherwise the comparison of
   * series.ts on the first values read, NaN (`None`) where one of them is undefined.
   */
  function CompareVolumes(a: Option<Dataset>, b: Option<Dataset>): (r: Result<Option<real>, Thrown>)
    ensures a.None? || b.None? ==> r == Success(Some(0.0))
    ensures a.Some? && b.Some? ==> (r.Failure? <==> !HasSizeAttributes(a.value) || !HasSizeAttributes(b.value))
    ensures a.Some? && b.Some? && r.Success? ==>
      r.value == Series.CompareSizes(
        FirstNumber(a.value, TotalPixelMatrixColumns), FirstNumber(a.value, TotalPixelMatrixRows), FirstNumber(a.value, NumberOfFrames),
        FirstNumber(b.value, TotalPixelMatrixColumns), FirstNumber(b.value, TotalPixelMatrixRows), FirstNumber(b.value, NumberOfFrames))
  {
    if a.None? || b.None? then Success(Some(0.0))
    else if !HasSizeAttributes(a.value) || !HasSizeAttributes(b.value) then Failure(TypeError)
    else
      var (x, y) := (a.value, b.value);
      Success(Series.CompareSizes(
        FirstNumber(x, TotalPixelMatrixColumns), FirstNumber(x, TotalPixelMatrixRows), FirstNumber(x, NumberOfFrames),
        FirstNumber(y, TotalPixelMatrixColumns), FirstNumber(y, TotalPixelMatrixRows), FirstNumber(y, NumberOfFrames)))
  }

  /**
   * On SM instances that carry the attributes it orders exactly as `sortImagingInfo` of
   * series.ts orders their infos; on complete numbers, smaller area and then fewer frames first.
   */
  lemma CompareVolumesAgrees(a: Dataset, b: Dataset)
    requires FirstString(a, Modality) == Some("SM") && FirstString(b, Modality) == Some("SM")
    requires HasSizeAttributes(a) && HasSizeAttributes(b)
    ensures CompareVolumes(Some(a), Some(b)) == Success(Series.Compare(Series.InfoOf(a), Series.InfoOf(b)))
    ensures Series.SizesDefined(a) && Series.SizesDefined(b) ==>
      (CompareVolumes(Some(a), Some(b)).value.value < 0.0 <==>
        Series.KeyBefore(Series.KeyOf(Series.InfoOf(a).value), Series.KeyOf(Series.InfoOf(b).value)))
  {
    var (ia, ib) := (Series.InfoOf(a).value, Series.InfoOf(b).value);
    assert Series.Compare(Some(ia), Some(ib)) == Series.CompareSizes(ia.totalColumns, ia.totalRows, ia.numberOfFrames,
      ib.totalColumns, ib.totalRows, ib.numberOfFrames);
  }

  // ---------------------------------------------------------------- computePyramidInfo

  /**
   * A number attribute as the pyramid reads it. The pyramid is built only from positive
   * numbers, so a missing one, read as 0, makes the image unusable rather than NaN.
   */
  function Number(d: Dataset, tag: Tag): real {
    FirstNumber(d, tag).GetOr(0.0)
  }

  /** What the loop reads of one image. */
  function LevelOf(d: Dataset): (l: Pyramid.Level)
    ensures l.pixelSpacing == GetPixelSpacing(d)
    ensures l.instanceUid == FirstString(d, SOPInstanceUID).GetOr("")
  {
    Pyramid.Level(FirstString(d, SOPInstanceUID).GetOr(""), Number(d, Columns), Number(d, Rows),
      Number(d, TotalPixelMatrixColumns), Number(d, TotalPixelMatrixRows), GetPixelSpacing(d))
  }

  function Levels(images: seq<Dataset>): (r: seq<Pyramid.Level>)
    ensures |r| == |images| && forall j :: 0 <= j < |images| ==> r[j] == LevelOf(images[j])
  {
    seq(|images|, j requires 0 <= j < |images| => LevelOf(images[j]))
  }

  /**
   * `instanceResolutions` after the loop: written from the last level down, so an instance UID
   * listed twice keeps the zoom factor of its first level.
   */
  function ResolutionTable(levels: seq<Pyramid.Level>, baseColumns: real): (r: map<string, int>)
    requires Pyramid.AllPositive(levels)
  {
    if levels == [] then map[]
    else ResolutionTable(levels[1..], baseColumns)[levels[0].instanceUid := Pyramid.ZoomFactor(baseColumns, levels[0])]
  }

  /** The table's keys are the levels' instance UIDs. */
  lemma {:induction false} ResolutionTableKeys(levels: seq<Pyramid.Level>, baseColumns: real)
    requires Pyramid.AllPositive(levels)
    ensures ResolutionTable(levels, baseColumns).Keys == set j | 0 <= j < |levels| :: levels[j].instanceUid
  {
    if levels != [] {
      ResolutionTableKeys(levels[1..], baseColumns);
      var rest := set j | 0 <= j < |levels[1..]| :: levels[1..][j].instanceUid;
      var all := set j | 0 <= j < |levels| :: levels[j].instanceUid;
      assert all == rest + {levels[0].instanceUid} by {
        forall u | u in all ensures u in rest + {levels[0].instanceUid} {
          var j :| 0 <= j < |levels| && levels[j].instanceUid == u;
          if j > 0 {
            assert levels[1..][j - 1].instanceUid == u;
          }
        }
        forall u | u in rest ensures u in all {
          var j :| 0 <= j < |levels[1..]| && levels[1..][j].instanceUid == u;
          assert levels[j + 1].instanceUid == u;
        }
      }
    }
  }

  /** An instance maps to the zoom factor of the first level with its UID. */
  lemma {:induction false} ResolutionTableAt(levels: seq<Pyramid.Level>, baseColumns: real, i: nat)
    requires Pyramid.AllPositive(levels) && i < |levels|
    requires forall k :: 0 <= k < i ==> levels[k].instanceUid != levels[i].instanceUid
    ensures levels[i].instanceUid in ResolutionTable(levels, baseColumns)
    ensures ResolutionTable(levels, baseColumns)[levels[i].instanceUid] == Pyramid.ZoomFactor(baseColumns, levels[i])
  {
    if i > 0 {
      assert levels[1..][i - 1] == levels[i];
      ResolutionTableAt(levels[1..], baseColumns, i - 1);
    }
  }

  /** The table of the levels from `j` on is that of the levels after `j`, with level `j` written last. */
  lemma ResolutionTableStep(levels: seq<Pyramid.Level>, baseColumns: real, j: nat)
    requires Pyramid.AllPositive(levels) && j < |levels|
    ensures ResolutionTable(levels[j..], baseColumns)
      == ResolutionTable(levels[j + 1..], baseColumns)[levels[j].instanceUid := Pyramid.ZoomFactor(baseColumns, levels[j])]
  {
    assert levels[j..][1..] == levels[j + 1..];
  }

  /**
   * `computePyramidInfo` of map.ts: from the last (base) image down to the first, push each
   * image's entries and record its zoom factor under its instance UID, then reverse every
   * array. Afterwards entry `j` describes image `j`, and the table maps each UID to the zoom
   * factor of the first image with it.
   */
  method ComputePyramidInfo(images: seq<Dataset>)
    returns (arrays: Pyramid.PyramidArrays, instanceResolutions: map<string, int>, baseColumns: real, baseRows: real)
    requires images != [] && Pyramid.AllPositive(Levels(images))
    ensures fresh(arrays)
    ensures baseColumns == Number(images[|images| - 1], TotalPixelMatrixColumns)
    ensures baseRows == Number(images[|images| - 1], TotalPixelMatrixRows)
    ensures arrays.Info().Describes(Levels(images), baseColumns)
    ensures instanceResolutions == ResolutionTable(Levels(images), baseColumns)
  {
    ghost var levels := Levels(images);
    arrays := new Pyramid.PyramidArrays();
    instanceResolutions := map[];
    baseColumns := Number(images[|images| - 1], TotalPixelMatrixColumns);
    baseRows := Number(images[|images| - 1], TotalPixelMatrixRows);
    var j := |images|;
    while j > 0
      invariant 0 <= j <= |images|
      invariant arrays.Info().DescribesBackwards(levels, baseColumns, j)
      invariant instanceResolutions == ResolutionTable(levels[j..], baseColumns)
    {
      j := j - 1;
      var level := LevelOf(images[j]);
      Pyramid.PushBackwards(arrays.Info(), levels, baseColumns, j);
      arrays.Push(level, baseColumns);
      instanceResolutions := instanceResolutions[level.instanceUid := Pyramid.ZoomFactor(baseColumns, level)];
      ResolutionTableStep(levels, baseColumns, j);
    }
    Pyramid.ReversedDescribes(arrays.Info(), levels, baseColumns);
    arrays.ReverseAll();
  }

  /** With distinct instance UIDs, an instance's recorded zoom factor is its level's resolution. */
  lemma InstanceResolutionIsResolution(info: Pyramid.PyramidInfo, levels: seq<Pyramid.Level>, baseColumns: real, i: nat)
    requires Pyramid.AllPositive(levels) && i < |levels|
    requires info.Describes(levels, baseColumns)
    requires forall p, q :: 0 <= p < q < |levels| ==> levels[p].instanceUid != levels[q].instanceUid
    ensures levels[i].instanceUid in ResolutionTable(levels, baseColumns)
    ensures ResolutionTable(levels, baseColumns)[levels[i].instanceUid] == info.resolutions[i]
  {
    ResolutionTableAt(levels, baseColumns, i);
    assert info.At(i) == Pyramid.EntryOf(levels[i], baseColumns);
  }

  /** `[0, -(baseRows + 1), baseColumns, -1]`: the extent spans the base image. */
  lemma MapExtent(images: seq<Dataset>)
    requires images != []
    ensures var base := images[|images| - 1];
      var e := Pyramid.ExtentOf(Number(base, TotalPixelMatrixColumns), Number(base, TotalPixelMatrixRows));
      e.maxX - e.minX == Number(base, TotalPixelMatrixColumns)
      && e.maxY - e.minY == Number(base, TotalPixelMatrixRows)
  {
  }

  /**
   * `tileUrlFunction([z, x, y])` requests frame `x + y * ceil(totalColumns / columns) + 1` of
   * image `z`: inside the grid it is a frame of that image, and the tile is recovered from it.
   */
  lemma TileFrame(images: seq<Dataset>, z: nat, x: int, y: int)
    requires z < |images| && Pyramid.AllPositive(Levels(images))
    requires 0 <= x < Pyramid.GridSize(LevelOf(images[z])).0 && 0 <= y < Pyramid.GridSize(LevelOf(images[z])).1
    ensures var (nColumns, nRows) := Pyramid.GridSize(LevelOf(images[z]));
      var frame := Pyramid.FrameNumber(x, y, nColumns);
      1 <= frame <= nColumns * nRows && Pyramid.TileOf(frame, nColumns) == (x, y)
  {
    Pyramid.TileFramesOfLevel(Levels(images), z, x, y);
  }
}
