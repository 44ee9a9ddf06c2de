/**
 * The annotation map of the viewer (`src/app/viewer/_hooks/annotation/index.ts`): annotation
 * groups keyed by series UID and then by group UID, the reducer that creates, updates,
 * deletes, resets and refreshes them, and the map loaded from the server's ANN series.
 *
 * A group is a JavaScript object whose properties may be absent (a partial group) or present
 * with the value `undefined`; the object spread `{...a, ...b}` takes each property of `b`
 * that is present and the rest from `a`.
 */
module AnnotationState {
  import opened Wrappers
  import opened DicomJson
  import DicomWeb
  import Js
  import Vr


  /** `defaultColor`. */
  const DefaultColor: string := "#3399CC"

  datatype Status = Initialized | Ready | Loading | Error

  /** One property of an object: absent, present with the value `undefined`, or holding a value. */
  datatype Prop<T> = Absent | Undefined | Is(value: T)

  /** The property of `{...a, ...b}`: `b`'s when present, `a`'s otherwise. */
  function Over<T>(a: Prop<T>, b: Prop<T>): Prop<T> {
    if b.Absent? then a else b
  }

  /** An annotation group, or a partial one (`Partial<Annotation>`). */
  datatype Annotation = Annotation(
    seriesUid: Prop<string>,
    groupUid: Prop<string>,
    name: Prop<string>,
    status: Prop<Status>,
    color: Prop<string>,
    graphicType: Prop<string>,
    numberOfAnnotations: Prop<real>,
    dicomJson: Prop<Dataset>,
    editable: Prop<bool>,
    visible: Prop<bool>)

  /** `{}`. */
  const NoProps: Annotation := Annotation(Absent, Absent, Absent, Absent, Absent, Absent, Absent, Absent, Absent, Absent)

  /** `{...a, ...b}`. */
  function Spread(a: Annotation, b: Annotation): Annotation {
    Annotation(Over(a.seriesUid, b.seriesUid), Over(a.groupUid, b.groupUid), Over(a.name, b.name),
      Over(a.status, b.status), Over(a.color, b.color), Over(a.graphicType, b.graphicType),
      Over(a.numberOfAnnotations, b.numberOfAnnotations), Over(a.dicomJson, b.dicomJson),
      Over(a.editable, b.editable), Over(a.visible, b.visible))
  }

  /** Spreading is associative, `{}` is its unit, and spreading an object over itself changes nothing. */
  lemma SpreadLaws(a: Annotation, b: Annotation, c: Annotation)
    ensures Spread(Spread(a, b), c) == Spread(a, Spread(b, c))
    ensures Spread(NoProps, a) == a && Spread(a, NoProps) == a
    ensures Spread(a, a) == a
    ensures Spread(Spread(a, b), b) == Spread(a, b)
  {
  }

  datatype SeriesEntry = SeriesEntry(editable: bool, referenceInstanceUid: Option<string>, groupMap: map<string, Annotation>)

  type AnnotationMap = map<string, SeriesEntry>

  /** The seed of `create`: a name, a color and a graphic type. */
  datatype Seed = Seed(name: string, color: string, graphicType: string)

  /** Every series holds at least one group. */
  predicate NoEmptySeries(m: AnnotationMap) {
    forall s :: s in m ==> m[s].groupMap != map[]
  }

  // ---------------------------------------------------------------- create

  /** `action.seriesUid || draft-series-…`. */
  function CreatedSeriesUid(seriesUid: Option<string>, freshSeries: string): (r: string)
    ensures DicomWeb.Given(seriesUid) ==> r == seriesUid.value
    ensures !DicomWeb.Given(seriesUid) ==> r == "draft-series-" + freshSeries
  {
    if DicomWeb.Given(seriesUid) then seriesUid.value else "draft-series-" + freshSeries
  }

  /** The group `create` adds: the seed's fields, ready, empty, editable and visible. */
  function NewGroup(seed: Seed, seriesUid: string, groupUid: string): (a: Annotation)
    ensures a.name == Is(seed.name) && a.color == Is(seed.color) && a.graphicType == Is(seed.graphicType)
    ensures a.seriesUid == Is(seriesUid) && a.groupUid == Is(groupUid)
    ensures a.status == Is(Ready) && a.numberOfAnnotations == Is(0.0)
    ensures a.editable == Is(true) && a.visible == Is(true) && a.dicomJson.Absent?
  {
    Annotation(Is(seriesUid), Is(groupUid), Is(seed.name), Is(Ready), Is(seed.color), Is(seed.graphicType),
      Is(0.0), Absent, Is(true), Is(true))
  }

  /** The map after adding group `g` to series `s`, the series created editable when absent. */
  function CreateMap(m: AnnotationMap, s: string, g: string, a: Annotation): AnnotationMap {
    var entry := if s in m then m[s] else SeriesEntry(true, None, map[]);
    m[s := entry.(groupMap := entry.groupMap[g := a])]
  }

  /**
   * `create` adds the group under its series and leaves everything else alone; an existing
   * series keeps its flags, a new one is editable.
   */
  lemma CreateMapSpec(m: AnnotationMap, s: string, g: string, a: Annotation)
    ensures var r := CreateMap(m, s, g, a);
      r.Keys == m.Keys + {s} && g in r[s].groupMap && r[s].groupMap[g] == a
      && r[s].groupMap.Keys == (if s in m then m[s].groupMap.Keys else {}) + {g}
      && (forall h :: h in r[s].groupMap && h != g ==> r[s].groupMap[h] == m[s].groupMap[h])
      && (s in m ==> r[s].editable == m[s].editable && r[s].referenceInstanceUid == m[s].referenceInstanceUid)
      && (s !in m ==> r[s].editable)
      && (forall t :: t in m && t != s ==> r[t] == m[t])
      && (NoEmptySeries(m) ==> NoEmptySeries(r))
  {
  }

  // ---------------------------------------------------------------- update

  /** `{...groupMap[g], ...patch}`: the group's properties overridden by the patch's. */
  function Merged(m: AnnotationMap, s: string, g: string, patch: Annotation): (a: Annotation)
    requires s in m
    ensures g in m[s].groupMap ==> a == Spread(m[s].groupMap[g], patch)
    ensures g !in m[s].groupMap ==> a == patch
  {
    Spread(if g in m[s].groupMap then m[s].groupMap[g] else NoProps, patch)
  }

  /** `update`: throws (here `None`) when the series is missing; replaces one group otherwise. */
  function UpdateMap(m: AnnotationMap, s: string, g: string, patch: Annotation): (r: Option<AnnotationMap>)
    ensures r.None? <==> s !in m
  {
    if s !in m then None
    else Some(m[s := m[s].(groupMap := m[s].groupMap[g := Merged(m, s, g, patch)])])
  }

  /** `update` changes one group of one series and nothing else, and keeps every series non-empty. */
  lemma UpdateMapSpec(m: AnnotationMap, s: string, g: string, patch: Annotation)
    requires s in m
    ensures var r := UpdateMap(m, s, g, patch).value;
      r.Keys == m.Keys && r[s].groupMap.Keys == m[s].groupMap.Keys + {g}
      && r[s].groupMap[g] == Merged(m, s, g, patch)
      && r[s].editable == m[s].editable && r[s].referenceInstanceUid == m[s].referenceInstanceUid
      && (forall h :: h in m[s].groupMap && h != g ==> r[s].groupMap[h] == m[s].groupMap[h])
      && (forall t :: t in m && t != s ==> r[t] == m[t])
      && (NoEmptySeries(m) ==> NoEmptySeries(r))
  {
  }

  /** The selection `update` leaves: the merged group when it is the selected one. */
  function SelectionAfterUpdate(m: AnnotationMap, current: Option<Annotation>, s: string, g: string,
                                patch: Annotation): (r: Option<Annotation>)
    requires s in m
    ensures r != current ==> r == Some(Merged(m, s, g, patch))
    ensures (current.Some? && current.value.seriesUid == Is(s) && current.value.groupUid == Is(g))
      ==> r == Some(Merged(m, s, g, patch))
    ensures !(current.Some? && current.value.seriesUid == Is(s) && current.value.groupUid == Is(g))
      ==> r == current
  {
    if current.Some? && current.value.seriesUid == Is(s) && current.value.groupUid == Is(g)
    then Some(Merged(m, s, g, patch))
    else current
  }

  // ---------------------------------------------------------------- delete

  /**
   * `delete`: without a (truthy) group UID the series goes; with one, that group goes, which
   * throws (here `None`) when the series is missing. A series left without groups goes too.
   */
  function DeleteMap(m: AnnotationMap, s: string, g: Option<string>): (r: Option<AnnotationMap>)
    ensures r.None? <==> DicomWeb.Given(g) && s !in m
  {
    if DicomWeb.Given(g) && s !in m then None
    else
      var removed := if DicomWeb.Given(g) then m[s := m[s].(groupMap := m[s].groupMap - {g.value})] else m - {s};
      Some(if s !in removed || removed[s].groupMap == map[] then removed - {s} else removed)
  }

  /**
   * After `delete` the series is present exactly when a group was named and others remain,
   * and then it has lost exactly that group; other series are untouched.
   */
  lemma DeleteMapSpec(m: AnnotationMap, s: string, g: Option<string>)
    requires !DicomWeb.Given(g) || s in m
    ensures var r := DeleteMap(m, s, g).value;
      (s in r <==> DicomWeb.Given(g) && m[s].groupMap - {g.value} != map[])
      && (s in r ==> r[s] == m[s].(groupMap := m[s].groupMap - {g.value}))
      && (forall t :: t != s ==> (t in r <==> t in m))
      && (forall t :: t in m && t != s ==> r[t] == m[t])
      && (NoEmptySeries(m) ==> NoEmptySeries(r))
  {
  }

  /** `delete` clears the selection exactly when it lies in the deleted series or group. */
  predicate DeleteClears(current: Option<Annotation>, s: string, g: Option<string>) {
    current.Some? && current.value.seriesUid == Is(s)
    && (!DicomWeb.Given(g) || current.value.groupUid == Is(g.value))
  }

  // ---------------------------------------------------------------- refresh

  function RefreshedGroup(a: Annotation): Annotation {
    a.(status := Is(Initialized))
  }

  function RefreshedEntry(e: SeriesEntry): SeriesEntry {
    e.(groupMap := map g | g in e.groupMap :: RefreshedGroup(e.groupMap[g]))
  }

  /** Every group's status set to initialized. */
  function RefreshedMap(m: AnnotationMap): AnnotationMap {
    map s | s in m :: RefreshedEntry(m[s])
  }

  /** `refresh` keeps every series, with its keys and fields, and every group key. */
  lemma RefreshedMapKeys(m: AnnotationMap)
    ensures var r := RefreshedMap(m);
      r.Keys == m.Keys
      && forall s :: s in m ==> (r[s].groupMap.Keys == m[s].groupMap.Keys
            && r[s].editable == m[s].editable && r[s].referenceInstanceUid == m[s].referenceInstanceUid)
  {
  }

  /** `refresh` sets every group's status to initialized and keeps its other properties. */
  lemma RefreshedMapGroups(m: AnnotationMap)
    ensures var r := RefreshedMap(m);
      forall s, g :: s in m && g in m[s].groupMap ==>
        (s in r && g in r[s].groupMap && r[s].groupMap[g].status == Is(Initialized)
         && r[s].groupMap[g].(status := m[s].groupMap[g].status) == m[s].groupMap[g])
  {
  }

  /** `refresh` keeps every series non-empty. */
  lemma RefreshedMapKeepsNoEmptySeries(m: AnnotationMap)
    requires NoEmptySeries(m)
    ensures NoEmptySeries(RefreshedMap(m))
  {
    var r := RefreshedMap(m);
    forall s | s in r ensures r[s].groupMap != map[] {
      var g :| g in m[s].groupMap;
      assert g in r[s].groupMap;
    }
  }

  /** A second `refresh` changes nothing. */
  lemma RefreshedMapIdempotent(m: AnnotationMap)
    ensures RefreshedMap(RefreshedMap(m)) == RefreshedMap(m)
  {
    var r := RefreshedMap(m);
    forall s | s in r ensures RefreshedEntry(r[s]) == r[s] {
      var e := r[s];
      assert forall g :: g in e.groupMap ==> RefreshedGroup(e.groupMap[g]) == e.groupMap[g];
    }
  }

  // ---------------------------------------------------------------- the reducer

  /** The reducer's map and the selection and draw type it sets. */
  class AnnotationStore {
    var annotationMap: AnnotationMap
    var currentAnnotation: Option<Annotation>
    var drawType: Option<string>

    constructor ()
      ensures annotationMap == map[] && currentAnnotation.None? && drawType.None?
    {
      annotationMap, currentAnnotation, drawType := map[], None, None;
    }

    /**
     * `create`: adds a fresh group to the given series, or to a fresh draft series, selects
     * it and draws its graphic type. `freshSeries` and `freshGroup` stand for the random UIDs.
     */
    method Create(seriesUid: Option<string>, seed: Seed, freshSeries: string, freshGroup: string)
      modifies this
      ensures var s := CreatedSeriesUid(seriesUid, freshSeries);
        var a := NewGroup(seed, s, "draft-group-" + freshGroup);
        annotationMap == CreateMap(old(annotationMap), s, "draft-group-" + freshGroup, a)
        && currentAnnotation == Some(a) && drawType == Some(seed.graphicType)
    {
      var s := if DicomWeb.Given(seriesUid) then seriesUid.value else "draft-series-" + freshSeries;
      var g := "draft-group-" + freshGroup;
      if s !in annotationMap {
        annotationMap := annotationMap[s := SeriesEntry(true, None, map[])];
      }
      var a := NewGroup(seed, s, g);
      var entry := annotationMap[s];
      annotationMap := annotationMap[s := entry.(groupMap := entry.groupMap[g := a])];
      currentAnnotation := Some(a);
      drawType := Some(seed.graphicType);
    }

    /** `update`: merges the patch into the group, and into the selection when it is that group. */
    method Update(s: string, g: string, patch: Annotation) returns (thrown: bool)
      modifies this
      ensures thrown <==> s !in old(annotationMap)
      ensures thrown ==> annotationMap == old(annotationMap) && currentAnnotation == old(currentAnnotation)
      ensures !thrown ==> (Some(annotationMap) == UpdateMap(old(annotationMap), s, g, patch)
        && currentAnnotation == SelectionAfterUpdate(old(annotationMap), old(currentAnnotation), s, g, patch))
      ensures drawType == old(drawType)
    {
      if s !in annotationMap {
        return true;
      }
      var entry := annotationMap[s];
      var updated := Spread(if g in entry.groupMap then entry.groupMap[g] else NoProps, patch);
      annotationMap := annotationMap[s := entry.(groupMap := entry.groupMap[g := updated])];
      if currentAnnotation.Some? && currentAnnotation.value.seriesUid == Is(s) && currentAnnotation.value.groupUid == Is(g) {
        currentAnnotation := Some(updated);
      }
      thrown := false;
    }

    /** `delete`: removes the group or the series, drops an emptied series, clears a deleted selection. */
    method Delete(s: string, g: Option<string>) returns (thrown: bool)
      modifies this
      ensures thrown <==> DicomWeb.Given(g) && s !in old(annotationMap)
      ensures thrown ==> annotationMap == old(annotationMap) && currentAnnotation == old(currentAnnotation)
      ensures !thrown ==> (Some(annotationMap) == DeleteMap(old(annotationMap), s, g)
        && currentAnnotation == (if DeleteClears(old(currentAnnotation), s, g) then None else old(currentAnnotation)))
      ensures drawType == old(drawType)
    {
      if DicomWeb.Given(g) {
        if s !in annotationMap {
          return true;
        }
        var entry := annotationMap[s];
        annotationMap := annotationMap[s := entry.(groupMap := entry.groupMap - {g.value})];
      } else {
        annotationMap := annotationMap - {s};
      }
      if s !in annotationMap || annotationMap[s].groupMap == map[] {
        annotationMap := annotationMap - {s};
      }
      if currentAnnotation.Some? && currentAnnotation.value.seriesUid == Is(s)
        && (!DicomWeb.Given(g) || currentAnnotation.value.groupUid == Is(g.value)) {
        currentAnnotation := None;
      }
      thrown := false;
    }

    /** `reset`: the given map, as it is. */
    method Reset(m: AnnotationMap)
      modifies this
      ensures annotationMap == m && currentAnnotation == old(currentAnnotation) && drawType == old(drawType)
    {
      annotationMap := m;
    }

    /** `refresh`: the nested loop that sets every group's status to initialized. */
    method Refresh()
      modifies this
      ensures annotationMap == RefreshedMap(old(annotationMap))
      ensures currentAnnotation == old(currentAnnotation) && drawType == old(drawType)
    {
      ghost var start := annotationMap;
      var pending := annotationMap.Keys;
      while pending != {}
        invariant pending <= start.Keys && annotationMap.Keys == start.Keys
        invariant forall s :: s in start ==> annotationMap[s] == (if s in pending then start[s] else RefreshedEntry(start[s]))
        invariant currentAnnotation == old(currentAnnotation) && drawType == old(drawType)
        decreases pending
      {
        var s :| s in pending;
        var entry := annotationMap[s];
        var groups := RefreshGroups(entry.groupMap);
        annotationMap := annotationMap[s := entry.(groupMap := groups)];
        pending := pending - {s};
      }
      assert annotationMap == RefreshedMap(start);
    }

    /** The inner loop of `refresh`: every group of one series set to initialized. */
    static method RefreshGroups(groupMap: map<string, Annotation>) returns (groups: map<string, Annotation>)
      ensures groups == map g | g in groupMap :: RefreshedGroup(groupMap[g])
    {
      groups := groupMap;
      var todo := groups.Keys;
      while todo != {}
        invariant todo <= groupMap.Keys && groups.Keys == groupMap.Keys
        invariant forall g :: g in groupMap ==>
          groups[g] == (if g in todo then groupMap[g] else RefreshedGroup(groupMap[g]))
        decreases todo
      {
        var g :| g in todo;
        groups := groups[g := groups[g].(status := Is(Initialized))];
        todo := todo - {g};
      }
    }
  }

  /** A state whose every series has a group keeps that through create, update and delete. */
  lemma ReducerKeepsNoEmptySeries(m: AnnotationMap, s: string, g: string, a: Annotation, gd: Option<string>)
    requires NoEmptySeries(m)
    ensures NoEmptySeries(CreateMap(m, s, g, a))
    ensures s in m ==> NoEmptySeries(UpdateMap(m, s, g, a).value)
    ensures (!DicomWeb.Given(gd) || s in m) ==> NoEmptySeries(DeleteMap(m, s, gd).value)
  {
    CreateMapSpec(m, s, g, a);
    if s in m {
      UpdateMapSpec(m, s, g, a);
    }
    if !DicomWeb.Given(gd) || s in m {
      DeleteMapSpec(m, s, gd);
    }
  }

  // ---------------------------------------------------------------- loading from the server

  /** `getRecommendedColor`: `#` and the converted color, or the default for no value or no hex. */
  function RecommendedColor(lab: Option<Value>, toHex: Value -> string): (r: string)
    ensures (lab.None? || !Truthy(lab.value) || toHex(lab.value) == "") ==> r == DefaultColor
    ensures !(lab.None? || !Truthy(lab.value) || toHex(lab.value) == "") ==> r == "#" + toHex(lab.value)
    ensures |r| >= 2 && r[0] == '#'
  {
    if lab.Some? && Truthy(lab.value) && toHex(lab.value) != "" then "#" + toHex(lab.value) else DefaultColor
  }

  /** The first ReferencedInstanceSequence value of the first ReferencedSeriesSequence item. */
  function ReferencedInstance(series: Dataset): Option<Value> {
    match FirstValue(series, ReferencedSeriesSequence)
    case Some(Item(rs)) => FirstValue(rs, ReferencedInstanceSequence)
    // A property of a string, a number or a missing value is `undefined`.
    case _ => None
  }

  /** The outcome of `getReferenceInstanceUid`: a UID or `undefined`, or a thrown TypeError. */
  datatype Reference = Reference(uid: Option<string>) | Throws

  /**
   * `getReferenceInstanceUid`: the first ReferencedSOPInstanceUID of the first referenced
   * instance of the first referenced series. The chain stops at a missing value, but a
   * referenced instance without that attribute throws.
   */
  function GetReferenceInstanceUid(series: Dataset): (r: Reference)
    ensures ReferencedInstance(series).None? ==> r == Reference(None)
    ensures r.Throws? <==> (ReferencedInstance(series).Some?
      && !(ReferencedInstance(series).value.Item? && ReferencedSOPInstanceUID in ReferencedInstance(series).value.dataset))
    ensures r.Reference? && r.uid.Some? ==>
      r.uid == FirstString(ReferencedInstance(series).value.dataset, ReferencedSOPInstanceUID)
  {
    match ReferencedInstance(series)
    case None => Reference(None)
    case Some(ri) =>
      if ri.Item? && ReferencedSOPInstanceUID in ri.dataset then Reference(FirstString(ri.dataset, ReferencedSOPInstanceUID))
      else Throws
  }

  /**
   * A `$dicom(...)` result used as a property value: its text, or `undefined`. The loader fails
   * before it stores a `$dicom` that threw, so a TypeError never reaches a stored value.
   */
  function ShownProp(shown: Vr.Shown): Prop<string> {
    if shown.Shown? then Is(shown.text) else Undefined
  }

  /** A `$dicom(...)` result used as an object key: its text, `"undefined"` for none. */
  function KeyText(shown: Vr.Shown): string {
    if shown.Shown? then shown.text else "undefined"
  }

  /** `Value?.[0] as string`. */
  function StringProp(d: Dataset, tag: Tag): Prop<string> {
    match FirstString(d, tag)
    case Some(s) => Is(s)
    case None => Undefined
  }

  /** `Value?.[0] as number`. */
  function NumberProp(d: Dataset, tag: Tag): Prop<real> {
    match FirstNumber(d, tag)
    case Some(n) => Is(n)
    case None => Undefined
  }

  /** The key of a loaded group: its AnnotationGroupUID, `"undefined"` when it has none. */
  function GroupKey(group: Dataset): string {
    match FirstString(group, AnnotationGroupUID)
    case Some(u) => u
    case None => "undefined"
  }

  /** `$dicom(group, AnnotationGroupLabel)` throws: its first value is a truthy non-string DA or TM. */
  predicate LabelThrows(group: Dataset) {
    DicomWeb.Dicom(Some(group), [AnnotationGroupLabel]).TypeError?
  }

  /**
   * A group loaded from the server: initialized, not editable, visible, with its own dataset;
   * `None` when `$dicom` throws on its label, which rejects the whole load.
   */
  function LoadedGroup(seriesUid: Vr.Shown, group: Dataset, toHex: Value -> string): (r: Option<Annotation>)
    ensures r.None? <==> LabelThrows(group)
    ensures r.Some? ==> var a := r.value;
      && a.status == Is(Initialized) && a.editable == Is(false) && a.visible == Is(true)
      && a.dicomJson == Is(group) && a.seriesUid == ShownProp(seriesUid)
      && a.name == ShownProp(DicomWeb.Dicom(Some(group), [AnnotationGroupLabel]))
      && (a.name.Is? <==> DicomWeb.Dicom(Some(group), [AnnotationGroupLabel]).Shown?)
      && a.color == Is(RecommendedColor(FirstValue(group, RecommendedDisplayCIELabValue), toHex))
      && (a.groupUid.Is? ==> a.groupUid.value == GroupKey(group))
  {
    var shownName := DicomWeb.Dicom(Some(group), [AnnotationGroupLabel]);
    if shownName.TypeError? then None
    else Some(Annotation(ShownProp(seriesUid), StringProp(group, AnnotationGroupUID),
      ShownProp(shownName), Is(Initialized),
      Is(RecommendedColor(FirstValue(group, RecommendedDisplayCIELabValue), toHex)),
      StringProp(group, GraphicType), NumberProp(group, NumberOfAnnotations), Is(group), Is(false), Is(true)))
  }

  /** The items of the AnnotationGroupSequence; a value that is not an item has no properties. */
  function Groups(series: Dataset): seq<Dataset> {
    if AnnotationGroupSequence in series && series[AnnotationGroupSequence].values.Some? then
      var values := series[AnnotationGroupSequence].values.value;
      seq(|values|, i requires 0 <= i < |values| => if values[i].Item? then values[i].dataset else map[])
    else []
  }

  /** The group map after the first `n` groups of a series; `None` once a label has thrown. */
  function GroupMapPrefix(seriesUid: Vr.Shown, groups: seq<Dataset>, toHex: Value -> string, n: nat): Option<map<string, Annotation>>
    requires n <= |groups|
  {
    Js.AssignedUnlessThrown(groups, GroupKey, g => LoadedGroup(seriesUid, g, toHex), n)
  }

  /** The group map of one series, a later group replacing an earlier one with the same key. */
  function GroupMapOf(seriesUid: Vr.Shown, groups: seq<Dataset>, toHex: Value -> string): Option<map<string, Annotation>> {
    GroupMapPrefix(seriesUid, groups, toHex, |groups|)
  }

  /** Some label of the groups makes `$dicom` throw. */
  predicate SomeLabelThrows(groups: seq<Dataset>) {
    exists i :: 0 <= i < |groups| && LabelThrows(groups[i])
  }

  /** Building a series' group map fails exactly when `$dicom` throws on one of the labels. */
  lemma GroupMapOfThrows(seriesUid: Vr.Shown, groups: seq<Dataset>, toHex: Value -> string)
    ensures GroupMapOf(seriesUid, groups, toHex).None? <==> SomeLabelThrows(groups)
  {
    Js.AssignedUnlessThrownThrows(groups, GroupKey, g => LoadedGroup(seriesUid, g, toHex), |groups|);
  }

  /** A group of a loaded series: initialized, not editable, visible. */
  predicate LoadedState(a: Annotation) {
    a.status == Is(Initialized) && a.editable == Is(false) && a.visible == Is(true)
  }

  /** A series' group map is keyed by the UIDs of its groups. */
  lemma GroupMapOfKeys(seriesUid: Vr.Shown, groups: seq<Dataset>, toHex: Value -> string)
    ensures var r := GroupMapOf(seriesUid, groups, toHex);
      r.Some? ==> forall g :: g in r.value <==> exists i :: 0 <= i < |groups| && GroupKey(groups[i]) == g
  {
    Js.AssignedUnlessThrownKeys(groups, GroupKey, g => LoadedGroup(seriesUid, g, toHex), |groups|);
  }

  /** Each entry of a series' group map is the loaded form of the last group with that UID. */
  lemma GroupMapOfValue(seriesUid: Vr.Shown, groups: seq<Dataset>, toHex: Value -> string, g: string)
    requires GroupMapOf(seriesUid, groups, toHex).Some? && g in GroupMapOf(seriesUid, groups, toHex).value
    ensures exists i :: (0 <= i < |groups| && GroupKey(groups[i]) == g
      && LoadedGroup(seriesUid, groups[i], toHex) == Some(GroupMapOf(seriesUid, groups, toHex).value[g])
      && forall j :: i < j < |groups| ==> GroupKey(groups[j]) != g)
  {
    Js.AssignedUnlessThrownLast(groups, GroupKey, g => LoadedGroup(seriesUid, g, toHex), |groups|, g);
  }

  /** Every group of a loaded series is initialized, not editable and visible. */
  lemma GroupMapOfLoaded(seriesUid: Vr.Shown, groups: seq<Dataset>, toHex: Value -> string)
    ensures var r := GroupMapOf(seriesUid, groups, toHex);
      r.Some? ==> forall g :: g in r.value ==> LoadedState(r.value[g])
  {
    Js.AssignedUnlessThrownAll(groups, GroupKey, g => LoadedGroup(seriesUid, g, toHex), |groups|, LoadedState);
  }

  /** The series key of an ANN series: its SeriesInstanceUID as `$dicom` renders it. */
  function SeriesKey(series: Dataset): string {
    KeyText(DicomWeb.Dicom(Some(series), [SeriesInstanceUID]))
  }

  /**
   * One of the three reads of a series throws: `$dicom` on its SeriesInstanceUID, `$dicom` on
   * one of its group labels, or `getReferenceInstanceUid`.
   */
  predicate SeriesThrows(series: Dataset) {
    || DicomWeb.Dicom(Some(series), [SeriesInstanceUID]).TypeError?
    || SomeLabelThrows(Groups(series))
    || GetReferenceInstanceUid(series).Throws?
  }

  /** The entry of one ANN series, or `None` when one of its reads throws. */
  function LoadedEntry(series: Dataset, toHex: Value -> string): Option<SeriesEntry> {
    var seriesUid := DicomWeb.Dicom(Some(series), [SeriesInstanceUID]);
    if seriesUid.TypeError? then None
    else match GroupMapOf(seriesUid, Groups(series), toHex)
      case None => None
      case Some(groupMap) =>
        match GetReferenceInstanceUid(series)
        case Throws => None
        case Reference(uid) => Some(SeriesEntry(false, uid, groupMap))
  }

  /** The entry fails exactly when one of the series' reads throws. */
  lemma LoadedEntryThrows(series: Dataset, toHex: Value -> string)
    ensures LoadedEntry(series, toHex).None? <==> SeriesThrows(series)
  {
    GroupMapOfThrows(DicomWeb.Dicom(Some(series), [SeriesInstanceUID]), Groups(series), toHex);
  }

  /** The map after the first `n` series; `None` once a series' read has thrown. */
  function LoadedPrefix(annotations: seq<Dataset>, toHex: Value -> string, n: nat): Option<AnnotationMap>
    requires n <= |annotations|
  {
    Js.AssignedUnlessThrown(annotations, SeriesKey, s => LoadedEntry(s, toHex), n)
  }

  /**
   * The map `loadAnnotationGroups` builds: one entry per series, a later series replacing an
   * earlier one with the same UID; `None` when one of the series' reads throws.
   */
  function LoadedMap(annotations: seq<Dataset>, toHex: Value -> string): Option<AnnotationMap> {
    LoadedPrefix(annotations, toHex, |annotations|)
  }

  /**
   * Loading fails exactly when one of the series throws: `$dicom` on its SeriesInstanceUID or
   * on a group label, or reading its reference.
   */
  lemma LoadedMapThrows(annotations: seq<Dataset>, toHex: Value -> string)
    ensures LoadedMap(annotations, toHex).None? <==>
      exists i :: 0 <= i < |annotations| && SeriesThrows(annotations[i])
  {
    forall i | 0 <= i < |annotations|
      ensures LoadedEntry(annotations[i], toHex).None? <==> SeriesThrows(annotations[i])
    {
      LoadedEntryThrows(annotations[i], toHex);
    }
    Js.AssignedUnlessThrownThrows(annotations, SeriesKey, s => LoadedEntry(s, toHex), |annotations|);
  }

  /** One more series either makes loading fail or adds its entry under its UID. */
  lemma LoadedPrefixStep(annotations: seq<Dataset>, toHex: Value -> string, i: nat, m: AnnotationMap)
    requires i < |annotations| && LoadedPrefix(annotations, toHex, i) == Some(m)
    ensures SeriesThrows(annotations[i]) ==> LoadedMap(annotations, toHex) == None
    ensures var series := annotations[i];
      !SeriesThrows(series) ==>
        && GroupMapOf(DicomWeb.Dicom(Some(series), [SeriesInstanceUID]), Groups(series), toHex).Some?
        && LoadedPrefix(annotations, toHex, i + 1) == Some(m[SeriesKey(series) :=
          SeriesEntry(false, GetReferenceInstanceUid(series).uid,
            GroupMapOf(DicomWeb.Dicom(Some(series), [SeriesInstanceUID]), Groups(series), toHex).value)])
  {
    LoadedEntryThrows(annotations[i], toHex);
    if SeriesThrows(annotations[i]) {
      LoadedMapThrows(annotations, toHex);
    }
  }

  /** The loaded map is keyed by the series' UIDs. */
  lemma LoadedMapKeys(annotations: seq<Dataset>, toHex: Value -> string)
    ensures LoadedMap(annotations, toHex).Some? ==>
      forall s :: s in LoadedMap(annotations, toHex).value <==> exists i :: 0 <= i < |annotations| && SeriesKey(annotations[i]) == s
  {
    Js.AssignedUnlessThrownKeys(annotations, SeriesKey, s => LoadedEntry(s, toHex), |annotations|);
  }

  /** A loaded series is not editable, and each of its groups is in the loaded state. */
  lemma LoadedMapLoaded(annotations: seq<Dataset>, toHex: Value -> string)
    ensures var r := LoadedMap(annotations, toHex);
      r.Some? ==> forall s :: s in r.value ==> EntryLoaded(r.value[s])
  {
    forall i | 0 <= i < |annotations| && LoadedEntry(annotations[i], toHex).Some?
      ensures EntryLoaded(LoadedEntry(annotations[i], toHex).value)
    {
      GroupMapOfLoaded(DicomWeb.Dicom(Some(annotations[i]), [SeriesInstanceUID]), Groups(annotations[i]), toHex);
    }
    Js.AssignedUnlessThrownAll(annotations, SeriesKey, s => LoadedEntry(s, toHex), |annotations|, EntryLoaded);
  }

  /** A series as loaded: not editable, every group initialized, not editable and visible. */
  predicate EntryLoaded(e: SeriesEntry) {
    !e.editable && forall g :: g in e.groupMap ==> LoadedState(e.groupMap[g])
  }
}
