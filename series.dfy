/**
 * Series and instance classification (`src/lib/dicom-web/series.ts`): what kind of series a
 * metadata record describes, and the slide's SM instances in ascending size order. The
 * order by pixel area, then frame count, is shared with the viewer's own comparators.
 */
module Series {
  import opened Wrappers
  import opened DicomJson

  // ---------------------------------------------------------------- the size order

  /**
   * The size key every comparator of the viewer reads: total pixel area and frame count.
   * Values are JavaScript numbers.
   */
  datatype SizeKey = SizeKey(area: real, frames: real)

  /** `aSize === bSize ? aFrames - bFrames : aSize - bSize`. */
  function CompareKeys(a: SizeKey, b: SizeKey): (r: real)
    ensures r < 0.0 <==> KeyBefore(a, b)
    ensures r == 0.0 <==> a == b
  {
    if a.area == b.area then a.frames - b.frames else a.area - b.area
  }

  /** Strictly smaller area, or the same area and fewer frames. */
  predicate KeyBefore(a: SizeKey, b: SizeKey) {
    a.area < b.area || (a.area == b.area && a.frames < b.frames)
  }

  /** Swapping the arguments negates the comparison. */
  lemma CompareKeysAntisymmetric(a: SizeKey, b: SizeKey)
    ensures CompareKeys(b, a) == -CompareKeys(a, b)
  {
  }

  /** "Not after" is transitive and total: the comparator is a consistent total preorder. */
  lemma CompareKeysPreorder(a: SizeKey, b: SizeKey, c: SizeKey)
    ensures CompareKeys(a, b) <= 0.0 || CompareKeys(b, a) <= 0.0
    ensures CompareKeys(a, b) <= 0.0 && CompareKeys(b, c) <= 0.0 ==> CompareKeys(a, c) <= 0.0
  {
  }

  // ---------------------------------------------------------------- ImagingInfo

  /**
   * `ImagingInfo`: what the viewer keeps of one SM instance. A number is read with
   * `?.Value?.[0]`, so it is `undefined` (`None`) when the attribute or its value is missing.
   */
  datatype ImagingInfo = ImagingInfo(
    modality: string,
    imageType: Option<seq<Value>>,
    instanceUid: string,
    numberOfFrames: Option<real>,
    columns: Option<real>,
    totalColumns: Option<real>,
    totalRows: Option<real>)

  /**
   * JavaScript arithmetic on numbers that may be `undefined`: any `undefined` operand makes
   * the result NaN, here `None`, and NaN propagates.
   */
  function Times(a: Option<real>, b: Option<real>): (r: Option<real>)
    ensures r.Some? <==> a.Some? && b.Some?
  {
    if a.Some? && b.Some? then Some(a.value * b.value) else None
  }

  function Minus(a: Option<real>, b: Option<real>): (r: Option<real>)
    ensures r.Some? <==> a.Some? && b.Some?
  {
    if a.Some? && b.Some? then Some(a.value - b.value) else None
  }

  /**
   * `aSize === bSize ? aFrames - bFrames : aSize - bSize` on numbers that may be `undefined`.
   * NaN is not `===` to anything, itself included, so a NaN size always takes the second arm.
   */
  function CompareSizes(aColumns: Option<real>, aRows: Option<real>, aFrames: Option<real>,
                        bColumns: Option<real>, bRows: Option<real>, bFrames: Option<real>): (r: Option<real>)
    ensures r.None? <==> (Times(aColumns, aRows).None? || Times(bColumns, bRows).None?
      || (Times(aColumns, aRows) == Times(bColumns, bRows) && (aFrames.None? || bFrames.None?)))
    ensures aColumns.Some? && aRows.Some? && aFrames.Some? && bColumns.Some? && bRows.Some? && bFrames.Some? ==>
      r == Some(CompareKeys(SizeKey(aColumns.value * aRows.value, aFrames.value),
                            SizeKey(bColumns.value * bRows.value, bFrames.value)))
  {
    var aSize := Times(aColumns, aRows);
    var bSize := Times(bColumns, bRows);
    if aSize.Some? && bSize.Some? && aSize.value == bSize.value then Minus(aFrames, bFrames)
    else Minus(aSize, bSize)
  }

  /** Both pixel-matrix sizes are numbers, so the area is not NaN. */
  predicate Sized(info: ImagingInfo) {
    info.totalColumns.Some? && info.totalRows.Some?
  }

  /** Every number the comparator reads is defined. */
  predicate Complete(info: ImagingInfo) {
    Sized(info) && info.numberOfFrames.Some?
  }

  function KeyOf(info: ImagingInfo): SizeKey
    requires Complete(info)
  {
    SizeKey(info.totalColumns.value * info.totalRows.value, info.numberOfFrames.value)
  }

  /**
   * `sortImagingInfo(a, b)`: 0 when either side is undefined; NaN (`None`) when an area is NaN,
   * or when the areas are equal and a frame count is undefined; on complete infos, negative
   * exactly when `a` is smaller by area, then by frame count, and 0 exactly when both keys agree.
   */
  function Compare(a: Option<ImagingInfo>, b: Option<ImagingInfo>): (r: Option<real>)
    ensures a.None? || b.None? ==> r == Some(0.0)
    ensures a.Some? && b.Some? ==> (r.None? <==> (!Sized(a.value) || !Sized(b.value)
      || (a.value.totalColumns.value * a.value.totalRows.value == b.value.totalColumns.value * b.value.totalRows.value
          && (a.value.numberOfFrames.None? || b.value.numberOfFrames.None?))))
    ensures a.Some? && b.Some? && Complete(a.value) && Complete(b.value) ==>
      r.Some? && (r.value < 0.0 <==> KeyBefore(KeyOf(a.value), KeyOf(b.value)))
      && (r.value == 0.0 <==> KeyOf(a.value) == KeyOf(b.value))
      && r.value == CompareKeys(KeyOf(a.value), KeyOf(b.value))
  {
    if a.None? || b.None? then Some(0.0)
    else
      CompareSizes(a.value.totalColumns, a.value.totalRows, a.value.numberOfFrames,
        b.value.totalColumns, b.value.totalRows, b.value.numberOfFrames)
  }

  /**
   * How `toSorted` reads a comparator's result: NaN counts as +0, "equal". (SortCompare of
   * ECMAScript's Array.prototype.sort.)
   */
  function SortValue(r: Option<real>): real {
    r.GetOr(0.0)
  }

  /** `a` may stand before `b` in a list sorted with `sortImagingInfo`. */
  predicate NotAfter(a: ImagingInfo, b: ImagingInfo) {
    SortValue(Compare(Some(a), Some(b))) <= 0.0
  }

  predicate Sorted(s: seq<ImagingInfo>) {
    forall i, j :: 0 <= i < j < |s| ==> NotAfter(s[i], s[j])
  }

  predicate AllComplete(s: seq<ImagingInfo>) {
    forall i :: 0 <= i < |s| ==> Complete(s[i])
  }

  /**
   * With an undefined number the comparator is not a consistent order: here `a` may precede
   * `b` and `b` may precede `c`, yet `a` must follow `c`. `toSorted`'s result is then
   * implementation-defined.
   */
  lemma IncompleteNotTransitive()
    ensures var a := ImagingInfo("SM", None, "a", Some(1.0), Some(1.0), Some(2.0), Some(2.0));
      var b := ImagingInfo("SM", None, "b", Some(1.0), Some(1.0), Some(3.0), None);
      var c := ImagingInfo("SM", None, "c", Some(1.0), Some(1.0), Some(1.0), Some(1.0));
      Complete(a) && Complete(c) && !Complete(b)
      && NotAfter(a, b) && NotAfter(b, c) && !NotAfter(a, c)
  {
    var a := ImagingInfo("SM", None, "a", Some(1.0), Some(1.0), Some(2.0), Some(2.0));
    var c := ImagingInfo("SM", None, "c", Some(1.0), Some(1.0), Some(1.0), Some(1.0));
    assert Compare(Some(a), Some(c)) == Some(3.0);
  }

  /** Inserting after every element not after `x`: the step of a stable sort. */
  function Insert(x: ImagingInfo, s: seq<ImagingInfo>): (r: seq<ImagingInfo>)
    ensures multiset(r) == multiset(s) + multiset{x}
  {
    if s == [] then [x]
    else if NotAfter(s[0], x) then
      assert s == [s[0]] + s[1..];
      [s[0]] + Insert(x, s[1..])
    else [x] + s
  }

  lemma {:induction false} InsertSorted(x: ImagingInfo, s: seq<ImagingInfo>)
    requires Sorted(s) && AllComplete(s) && Complete(x)
    ensures Sorted(Insert(x, s))
  {
    if s == [] {
    } else if NotAfter(s[0], x) {
      InsertSorted(x, s[1..]);
      var r := Insert(x, s);
      forall j | 0 < j < |r| ensures NotAfter(r[0], r[j]) {
        assert r[j] in multiset(Insert(x, s[1..]));
        if r[j] != x {
          var k :| 0 <= k < |s[1..]| && s[1..][k] == r[j];
          assert s[k + 1] == r[j];
        }
      }
    } else {
      var r := Insert(x, s);
      forall j | 0 < j < |r| ensures NotAfter(x, r[j]) {
        assert r[j] == s[j - 1];
        CompareKeysPreorder(KeyOf(x), KeyOf(s[0]), KeyOf(r[j]));
        CompareKeysPreorder(KeyOf(s[0]), KeyOf(x), KeyOf(r[j]));
      }
    }
  }

  /** A permutation of complete infos holds complete infos only. */
  lemma AllCompletePermuted(s: seq<ImagingInfo>, r: seq<ImagingInfo>)
    requires multiset(r) == multiset(s) && AllComplete(s)
    ensures AllComplete(r)
  {
    forall i | 0 <= i < |r| ensures Complete(r[i]) {
      assert r[i] in multiset(s);
      var k :| 0 <= k < |s| && s[k] == r[i];
    }
  }

  /** `toSorted(sortImagingInfo)`: a stable insertion sort. */
  function SortInfos(s: seq<ImagingInfo>): (r: seq<ImagingInfo>)
    ensures multiset(r) == multiset(s)
    decreases |s|
  {
    if s == [] then []
    else
      assert s == s[..|s| - 1] + [s[|s| - 1]];
      Insert(s[|s| - 1], SortInfos(s[..|s| - 1]))
  }

  /** When every number is defined, the sort's output is in ascending size order. */
  lemma {:induction false} SortInfosSorted(s: seq<ImagingInfo>)
    requires AllComplete(s)
    ensures Sorted(SortInfos(s))
    decreases |s|
  {
    if s != [] {
      var init := s[..|s| - 1];
      assert AllComplete(init);
      SortInfosSorted(init);
      AllCompletePermuted(init, SortInfos(init));
      InsertSorted(s[|s| - 1], SortInfos(init));
    }
  }

  /**
   * With an undefined number the order is left to `toSorted`; this model keeps, for example,
   * a large complete info ahead of one whose row count is undefined, as a stable sort reading
   * NaN as "equal" does.
   */
  lemma IncompleteKeepsOrder()
    ensures var big := ImagingInfo("SM", None, "big", Some(1.0), Some(256.0), Some(1000.0), Some(1000.0));
      var small := ImagingInfo("SM", None, "small", Some(1.0), Some(256.0), Some(10.0), None);
      SortInfos([big, small]) == [big, small] && Compare(Some(big), Some(small)).None?
  {
    var big := ImagingInfo("SM", None, "big", Some(1.0), Some(256.0), Some(1000.0), Some(1000.0));
    var small := ImagingInfo("SM", None, "small", Some(1.0), Some(256.0), Some(10.0), None);
    assert [big, small][..1] == [big];
    assert SortInfos([big]) == [big] by {
      assert [big][..0] == [];
    }
  }

  // ---------------------------------------------------------------- getImagingInfo

  /** The `ImagingInfo` of an instance's metadata when its modality is SM, and undefined otherwise. */
  function InfoOf(d: Dataset): (r: Option<ImagingInfo>)
    ensures r.Some? <==> FirstString(d, Modality) == Some("SM")
    ensures r.Some? ==> r.value.modality == "SM" && r.value.instanceUid == FirstString(d, SOPInstanceUID).GetOr("")
    ensures r.Some? ==> (r.value.numberOfFrames == FirstNumber(d, NumberOfFrames) && r.value.columns == FirstNumber(d, Columns)
      && r.value.totalColumns == FirstNumber(d, TotalPixelMatrixColumns) && r.value.totalRows == FirstNumber(d, TotalPixelMatrixRows))
  {
    if FirstString(d, Modality) == Some("SM") then
      var imageType := if ImageType in d then d[ImageType].values else None;
      Some(ImagingInfo("SM", imageType, FirstString(d, SOPInstanceUID).GetOr(""), FirstNumber(d, NumberOfFrames),
        FirstNumber(d, Columns), FirstNumber(d, TotalPixelMatrixColumns), FirstNumber(d, TotalPixelMatrixRows)))
    else None
  }

  /** `metadata.map(...).filter(Boolean)`: the infos of the SM instances, in input order. */
  function SmInfos(metadata: seq<Dataset>): (r: seq<ImagingInfo>)
    ensures |r| <= |metadata|
    ensures forall info :: info in r ==> info.modality == "SM"
  {
    if metadata == [] then []
    else
      (match InfoOf(metadata[0]) case Some(info) => [info] case None => [])
      + SmInfos(metadata[1..])
  }

  /** An info is kept exactly when some SM instance's metadata produces it. */
  lemma SmInfosMember(metadata: seq<Dataset>, info: ImagingInfo)
    ensures info in SmInfos(metadata) <==> exists i :: 0 <= i < |metadata| && InfoOf(metadata[i]) == Some(info)
  {
    if info in SmInfos(metadata) {
      var i := SmInfosSource(metadata, info);
    }
    if exists i :: 0 <= i < |metadata| && InfoOf(metadata[i]) == Some(info) {
      var i :| 0 <= i < |metadata| && InfoOf(metadata[i]) == Some(info);
      SmInfosKeeps(metadata, i);
    }
  }

  /** The info of every SM instance is kept. */
  lemma {:induction false} SmInfosKeeps(metadata: seq<Dataset>, i: nat)
    requires i < |metadata| && InfoOf(metadata[i]).Some?
    ensures InfoOf(metadata[i]).value in SmInfos(metadata)
  {
    var head := match InfoOf(metadata[0]) case Some(x) => [x] case None => [];
    assert SmInfos(metadata) == head + SmInfos(metadata[1..]);
    if i > 0 {
      SmInfosKeeps(metadata[1..], i - 1);
    }
  }

  /** Every info kept comes from some SM instance. */
  lemma {:induction false} SmInfosSource(metadata: seq<Dataset>, info: ImagingInfo) returns (i: nat)
    requires info in SmInfos(metadata)
    ensures i < |metadata| && InfoOf(metadata[i]) == Some(info)
  {
    var head := match InfoOf(metadata[0]) case Some(x) => [x] case None => [];
    assert SmInfos(metadata) == head + SmInfos(metadata[1..]);
    if info in head {
      i := 0;
    } else {
      var k := SmInfosSource(metadata[1..], info);
      i := k + 1;
    }
  }

  /** When every SM instance defines its sizes and frame count, so does every info kept. */
  lemma {:induction false} SmInfosComplete(metadata: seq<Dataset>)
    requires forall i :: 0 <= i < |metadata| && FirstString(metadata[i], Modality) == Some("SM") ==> SizesDefined(metadata[i])
    ensures AllComplete(SmInfos(metadata))
  {
    if metadata != [] {
      var rest := metadata[1..];
      forall i | 0 <= i < |rest| && FirstString(rest[i], Modality) == Some("SM") ensures SizesDefined(rest[i]) {
        assert rest[i] == metadata[i + 1];
      }
      SmInfosComplete(rest);
      var head := match InfoOf(metadata[0]) case Some(x) => [x] case None => [];
      assert SmInfos(metadata) == head + SmInfos(rest);
    }
  }

  /** `getImagingInfo` once the metadata is fetched: the SM instances, sorted by `sortImagingInfo`. */
  function GetImagingInfo(metadata: seq<Dataset>): (r: seq<ImagingInfo>)
    ensures multiset(r) == multiset(SmInfos(metadata))
  {
    SortInfos(SmInfos(metadata))
  }

  /** The three numbers the comparator reads are defined in an instance's metadata. */
  predicate SizesDefined(d: Dataset) {
    FirstNumber(d, TotalPixelMatrixColumns).Some? && FirstNumber(d, TotalPixelMatrixRows).Some?
    && FirstNumber(d, NumberOfFrames).Some?
  }

  /**
   * The result holds exactly the SM instances, each as often as it occurs, and only SM
   * modality; when every SM instance defines its sizes and frame count, in ascending size order.
   */
  lemma GetImagingInfoSpec(metadata: seq<Dataset>)
    ensures (forall i :: 0 <= i < |metadata| && FirstString(metadata[i], Modality) == Some("SM") ==> SizesDefined(metadata[i]))
      ==> Sorted(GetImagingInfo(metadata))
    ensures forall info :: info in GetImagingInfo(metadata) <==>
      exists i :: 0 <= i < |metadata| && InfoOf(metadata[i]) == Some(info)
    ensures forall k :: 0 <= k < |GetImagingInfo(metadata)| ==> GetImagingInfo(metadata)[k].modality == "SM"
  {
    var r := GetImagingInfo(metadata);
    var infos := SmInfos(metadata);
    SameMembers(infos, r);
    forall info ensures info in r <==> exists i :: 0 <= i < |metadata| && InfoOf(metadata[i]) == Some(info) {
      SmInfosMember(metadata, info);
    }
    if forall i :: 0 <= i < |metadata| && FirstString(metadata[i], Modality) == Some("SM") ==> SizesDefined(metadata[i]) {
      SmInfosComplete(metadata);
      SortInfosSorted(infos);
    }
    forall k | 0 <= k < |r| ensures r[k].modality == "SM" {
      assert r[k] in infos;
    }
  }

  /** A permutation has the same members. */
  lemma SameMembers(s: seq<ImagingInfo>, r: seq<ImagingInfo>)
    requires multiset(r) == multiset(s)
    ensures forall x :: x in r <==> x in s
  {
    forall x ensures x in r <==> x in s {
      assert x in r <==> x in multiset(r);
      assert x in s <==> x in multiset(s);
    }
  }

  // ---------------------------------------------------------------- getSeriesInfo

  /** `SeriesInfo`: an SM series with its image type, or an ANN series with a series UID. */
  datatype SeriesInfo =
    | SmSeries(imageType: Option<seq<Value>>)
    | AnnSeries(referencedSeriesUid: string)

  /**
   * `getSeriesInfo` once the metadata is fetched: null for no metadata and for modalities
   * other than SM and ANN; an ANN series reports its own SeriesInstanceUID, or ''.
   */
  function GetSeriesInfo(metadata: seq<Dataset>): (r: Option<SeriesInfo>)
    ensures metadata == [] ==> r.None?
    ensures metadata != [] ==> (r.Some? && r.value.SmSeries? <==> FirstString(metadata[0], Modality) == Some("SM"))
    ensures metadata != [] ==> (r.Some? && r.value.AnnSeries? <==> FirstString(metadata[0], Modality) == Some("ANN"))
    ensures r.Some? && r.value.AnnSeries? ==>
      r.value.referencedSeriesUid == FirstString(metadata[0], SeriesInstanceUID).GetOr("")
  {
    if metadata == [] then None
    else
      var d := metadata[0];
      var modality := FirstString(d, Modality);
      if modality == Some("SM") then Some(SmSeries(if ImageType in d then d[ImageType].values else None))
      else if modality == Some("ANN") then Some(AnnSeries(FirstString(d, SeriesInstanceUID).GetOr("")))
      else None
  }
}
