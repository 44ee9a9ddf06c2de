/**
 * `loadAnnotationGroups` (`src/app/viewer/_hooks/annotation/index.ts`): the loops that build
 * the annotation map from the ANN series of a study, once their metadata is fetched.
 */
module AnnotationLoad {
  import opened Wrappers
  import opened DicomJson
  import opened AnnotationState
  import DicomWeb
  import Vr

  /**
   * `loadAnnotationGroups` once the ANN series are fetched: one entry per series, one group per
   * item of its AnnotationGroupSequence. `None` when `$dicom` throws on a series UID or a group
   * label, or a series' reference throws; the promise then rejects and no `reset` is dispatched.
   */
  method LoadAnnotationGroups(annotations: seq<Dataset>, toHex: Value -> string) returns (r: Option<AnnotationMap>)
    ensures r == LoadedMap(annotations, toHex)
  {
    var m: AnnotationMap := map[];
    for i := 0 to |annotations|
      invariant LoadedPrefix(annotations, toHex, i) == Some(m)
    {
      var annotation := annotations[i];
      LoadedPrefixStep(annotations, toHex, i, m);
      var seriesUid := DicomWeb.Dicom(Some(annotation), [SeriesInstanceUID]);
      if seriesUid.TypeError? {
        return None;
      }
      var groupMap := LoadGroups(seriesUid, Groups(annotation), toHex);
      if groupMap.None? {
        GroupMapOfThrows(seriesUid, Groups(annotation), toHex);
        return None;
      }
      var reference := GetReferenceInstanceUid(annotation);
      if reference.Throws? {
        return None;
      }
      GroupMapOfThrows(seriesUid, Groups(annotation), toHex);
      m := m[KeyText(seriesUid) := SeriesEntry(false, reference.uid, groupMap.value)];
    }
    r := Some(m);
  }

  /**
   * The inner loop of `loadAnnotationGroups`: one group per item, keyed by its UID; `None` when
   * `$dicom` throws on a label.
   */
  method LoadGroups(seriesUid: Vr.Shown, groups: seq<Dataset>, toHex: Value -> string) returns (groupMap: Option<map<string, Annotation>>)
    ensures groupMap == GroupMapOf(seriesUid, groups, toHex)
  {
    var built: map<string, Annotation> := map[];
    for k := 0 to |groups|
      invariant GroupMapPrefix(seriesUid, groups, toHex, k) == Some(built)
    {
      var shownName := DicomWeb.Dicom(Some(groups[k]), [AnnotationGroupLabel]);
      if shownName.TypeError? {
        GroupMapOfThrows(seriesUid, groups, toHex);
        return None;
      }
      built := built[GroupKey(groups[k]) := LoadedGroup(seriesUid, groups[k], toHex).value];
    }
    groupMap := Some(built);
  }
}
