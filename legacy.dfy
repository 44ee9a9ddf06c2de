/**
 * The older copy of the viewer's annotation hooks (`src/app/viewer/annotation.ts`): the same
 * annotation-map reducer and layer pass as the newer hooks, with these differences:
 * `create` does not pick a draw type, `update` leaves the selection alone, loaded groups get
 * the colour '', the layer pass stops at an empty map and never sets a style, and the draw
 * effect's cleanup also clears the draw type. Its `fetchAnnotationSource` is the one of
 * module `Geometry`.
 */
module LegacyViewer {
  import opened Wrappers
  import opened DicomJson
  import opened AnnotationState
  import L = AnnotationLayers
  import DicomWeb
  import Vr

  // ---------------------------------------------------------------- the reducer

  /** The reducer's map and the selection it sets. */
  class LegacyStore {
    var annotationMap: AnnotationMap
    var currentAnnotation: Option<Annotation>

    constructor ()
      ensures annotationMap == map[] && currentAnnotation.None?
    {
      annotationMap, currentAnnotation := map[], None;
    }

    /**
     * `create`: adds a fresh group to the given series, or to a fresh draft series, and selects
     * it. `freshSeries` and `freshGroup` stand for the random UIDs.
     */
    method Create(seriesUid: Option<string>, seed: Seed, freshSeries: string, freshGroup: string)
      modifies this
      ensures var s := CreatedSeriesUid(seriesUid, freshSeries);
        var a := NewGroup(seed, s, "draft-group-" + freshGroup);
        annotationMap == CreateMap(old(annotationMap), s, "draft-group-" + freshGroup, a)
        && currentAnnotation == Some(a)
    {
      var s := if DicomWeb.Given(seriesUid) then seriesUid.value else "draft-series-" + freshSeries;
      var g := "draft-group-" + freshGroup;
      if s !in annotationMap {
        annotationMap := annotationMap[s := SeriesEntry(true, None, map[])];
      }
      var a := NewGroup(seed, s, g);
      var entry := annotationMap[s];
      annotationMap := annotationMap[s := entry.(groupMap := entry.groupMap[g := a])];
      currentAnnotation := Some(a);
    }

    /** `update`: merges the patch into the group; the selection keeps its old copy. */
    method Update(s: string, g: string, patch: Annotation) returns (thrown: bool)
      modifies this
      ensures thrown <==> s !in old(annotationMap)
      ensures thrown ==> annotationMap == old(annotationMap)
      ensures !thrown ==> Some(annotationMap) == UpdateMap(old(annotationMap), s, g, patch)
      ensures currentAnnotation == old(currentAnnotation)
    {
      if s !in annotationMap {
        return true;
      }
      var entry := annotationMap[s];
      var updated := Spread(if g in entry.groupMap then entry.groupMap[g] else NoProps, patch);
      annotationMap := annotationMap[s := entry.(groupMap := entry.groupMap[g := updated])];
      thrown := false;
    }

    /** `delete`: removes the group or the series, drops an emptied series, clears a deleted selection. */
    method Delete(s: string, g: Option<string>) returns (thrown: bool)
      modifies this
      ensures thrown <==> DicomWeb.Given(g) && s !in old(annotationMap)
      ensures thrown ==> annotationMap == old(annotationMap) && currentAnnotation == old(currentAnnotation)
      ensures !thrown ==> (Some(annotationMap) == DeleteMap(old(annotationMap), s, g)
        && currentAnnotation == (if DeleteClears(old(currentAnnotation), s, g) then None else old(currentAnnotation)))
    {
      if DicomWeb.Given(g) {
        if s !in annotationMap {
          return true;
        }
        var entry := annotationMap[s];
        annotationMap := annotationMap[s := entry.(groupMap := entry.groupMap - {g.value})];
      } else {
        annotationMap := annotationMap - {s};
      }
      if s !in annotationMap || annotationMap[s].groupMap == map[] {
        annotationMap := annotationMap - {s};
      }
      if currentAnnotation.Some? && currentAnnotation.value.seriesUid == Is(s)
        && (!DicomWeb.Given(g) || currentAnnotation.value.groupUid == Is(g.value)) {
        currentAnnotation := None;
      }
      thrown := false;
    }

    /** `reset`: the given map, as it is. */
    method Reset(m: AnnotationMap)
      modifies this
      ensures annotationMap == m && currentAnnotation == old(currentAnnotation)
    {
      annotationMap := m;
    }

    /** `refresh`: the nested loop that sets every group's status to initialized. */
    method Refresh()
      modifies this
      ensures annotationMap == RefreshedMap(old(annotationMap))
      ensures currentAnnotation == old(currentAnnotation)
    {
      ghost var start := annotationMap;
      var pending := annotationMap.Keys;
      while pending != {}
        invariant pending <= start.Keys && annotationMap.Keys == start.Keys
        invariant forall s :: s in start ==> annotationMap[s] == (if s in pending then start[s] else RefreshedEntry(start[s]))
        invariant currentAnnotation == old(currentAnnotation)
        decreases pending
      {
        var s :| s in pending;
        var entry := annotationMap[s];
        var groups := AnnotationStore.RefreshGroups(entry.groupMap);
        annotationMap := annotationMap[s := entry.(groupMap := groups)];
        pending := pending - {s};
      }
      assert annotationMap == RefreshedMap(start);
    }
  }

  /**
   * After `update` the older selection can be stale: a selected group whose fields the patch
   * changes differs from its copy in the map, which the newer reducer keeps equal.
   */
  lemma StaleSelection(m: AnnotationMap, current: Annotation, s: string, g: string, patch: Annotation)
    requires s in m && g in m[s].groupMap && current == m[s].groupMap[g]
    requires current.seriesUid == Is(s) && current.groupUid == Is(g)
    ensures UpdateMap(m, s, g, patch).value[s].groupMap[g] == SelectionAfterUpdate(m, Some(current), s, g, patch).value
    ensures Spread(current, patch) != current ==> UpdateMap(m, s, g, patch).value[s].groupMap[g] != current
  {
    UpdateMapSpec(m, s, g, patch);
  }

  // ---------------------------------------------------------------- loading from the server

  /**
   * A group as the older loader builds it: initialized, not editable, visible, colour '';
   * `None` when `$dicom` throws on its label, which rejects the load.
   */
  function LegacyLoadedGroup(seriesUid: Vr.Shown, group: Dataset): (r: Option<Annotation>)
    ensures r.None? <==> LabelThrows(group)
    ensures r.Some? ==> (LoadedState(r.value) && r.value.color == Is("")
      && r.value.dicomJson == Is(group) && r.value.seriesUid == ShownProp(seriesUid)
      && r.value.name == ShownProp(DicomWeb.Dicom(Some(group), [AnnotationGroupLabel])))
  {
    var shownName := DicomWeb.Dicom(Some(group), [AnnotationGroupLabel]);
    if shownName.TypeError? then None
    else Some(Annotation(ShownProp(seriesUid), StringProp(group, AnnotationGroupUID),
      ShownProp(shownName), Is(Initialized), Is(""),
      StringProp(group, GraphicType), NumberProp(group, NumberOfAnnotations), Is(group), Is(false), Is(true)))
  }

  /**
   * The older loader fails on the same groups as the newer one, and otherwise builds the same
   * group except for the colour.
   */
  lemma LegacyLoadedGroupColour(seriesUid: Vr.Shown, group: Dataset, toHex: Value -> string)
    ensures LegacyLoadedGroup(seriesUid, group).None? <==> LoadedGroup(seriesUid, group, toHex).None?
    ensures LegacyLoadedGroup(seriesUid, group).Some? ==>
      && LegacyLoadedGroup(seriesUid, group).value == LoadedGroup(seriesUid, group, toHex).value.(color := Is(""))
      && LegacyLoadedGroup(seriesUid, group).value.color != LoadedGroup(seriesUid, group, toHex).value.color
  {
    var c := RecommendedColor(FirstValue(group, RecommendedDisplayCIELabValue), toHex);
    assert c[0] == '#';
  }

  // ---------------------------------------------------------------- the layers

  /** The state of the older `useAnnotationLayers`, the part of the map it touches, and the draw type it clears. */
  class LegacyLayerHook {
    /** `annotationLayersRef.current`. */
    var layers: seq<L.Layer>
    /** The annotation layers on the map; a rebuilt map holds none until a pass adds them back. */
    var attached: set<L.Key>
    /**
     * Whether a pass's `filter` has replaced `annotationLayersRef.current` since the mount
     * effect captured it: the unmount cleanup empties the captured array only.
     */
    var replaced: bool
    /** `drawInteractionRef.current`. */
    var interaction: Option<nat>
    /** The draw interactions on the map. */
    var interactions: seq<L.Draw>
    /** The identity the next `Draw` gets. */
    var nextId: nat
    /** The draw type state the hook is handed, which its cleanup sets to `null`. */
    var drawType: Option<L.GraphicType>

    /** One layer per key, and at most one draw interaction: the stored one. */
    ghost predicate Valid()
      reads this
    {
      L.Distinct(layers)
      && |interactions| <= 1
      && (forall d :: d in interactions ==> interaction == Some(d.id) && d.id < nextId)
    }

    constructor(drawType: Option<L.GraphicType>)
      ensures Valid()
      ensures layers == [] && attached == {} && !replaced && interaction == None && interactions == [] && this.drawType == drawType
    {
      layers, attached, replaced, interaction, interactions, nextId := [], {}, false, None, [], 0;
      this.drawType := drawType;
    }

    /**
     * The effect's cleanup on unmount: the map is disposed, the layer array captured at mount is
     * emptied, and a refresh dispatched. When a pass has replaced that array, the current layer
     * list is a different array and keeps its layers.
     */
    method Unmount() returns (d: L.Dispatch)
      requires Valid()
      modifies this
      ensures Valid()
      ensures layers == (if old(replaced) then old(layers) else []) && attached == {} && d == L.Refresh
      ensures replaced == old(replaced) && interaction == old(interaction) && interactions == old(interactions) && nextId == old(nextId)
      ensures drawType == old(drawType)
    {
      if !replaced {
        layers := [];
      }
      attached := {};
      d := L.Refresh;
    }

    /**
     * `setLayers([layer])` when useMap loads a slide into its map: only the new image layer is
     * on the map, so none of the annotation layers is, while the hook still holds them.
     */
    method SetMapLayers()
      requires Valid()
      modifies this
      ensures Valid()
      ensures attached == {} && layers == old(layers)
      ensures replaced == old(replaced) && interaction == old(interaction) && interactions == old(interactions) && nextId == old(nextId)
      ensures drawType == old(drawType)
    {
      attached := {};
    }

    /**
     * The older reconciliation pass. Without a map, with an empty annotation map or without
     * resolutions nothing happens, so the layers of a map that became empty stay. Otherwise as
     * the newer pass, except that no layer's style is set.
     */
    method Reconcile(hasMap: bool, m: AnnotationMap, resolutions: map<string, real>) returns (dispatched: seq<L.Dispatch>, fetches: seq<L.Fetch>)
      requires Valid()
      modifies this
      ensures Valid()
      ensures interaction == old(interaction) && interactions == old(interactions) && nextId == old(nextId) && drawType == old(drawType)
      ensures !hasMap || |m| == 0 || |resolutions| == 0 ==>
        layers == old(layers) && attached == old(attached) && replaced == old(replaced) && dispatched == [] && fetches == []
      ensures hasMap && |m| > 0 && |resolutions| > 0 ==> attached == (old(attached) - L.KeysOf(old(layers))) + L.KeysOf(layers)
      ensures hasMap && |m| > 0 && |resolutions| > 0 ==> replaced == (old(replaced) || L.Pruned(old(layers), m) != old(layers))
      ensures hasMap && |m| > 0 && |resolutions| > 0 ==> L.ReconciledLayers(old(layers), layers, m, false)
      ensures hasMap && |m| > 0 && |resolutions| > 0 ==> L.Fetched(fetches, dispatched, L.GroupKeys(m), m, resolutions)
    {
      if !hasMap || |m| == 0 || |resolutions| == 0 {
        return [], [];
      }
      dispatched, fetches := Pass(m, resolutions);
    }

    /** The pass proper, once the map and the resolutions are there. */
    method Pass(m: AnnotationMap, resolutions: map<string, real>) returns (dispatched: seq<L.Dispatch>, fetches: seq<L.Fetch>)
      requires Valid()
      modifies this
      ensures Valid()
      ensures interaction == old(interaction) && interactions == old(interactions) && nextId == old(nextId) && drawType == old(drawType)
      ensures attached == (old(attached) - L.KeysOf(old(layers))) + L.KeysOf(layers)
      ensures replaced == (old(replaced) || L.Pruned(old(layers), m) != old(layers))
      ensures L.ReconciledLayers(old(layers), layers, m, false)
      ensures L.Fetched(fetches, dispatched, L.GroupKeys(m), m, resolutions)
    {
      Prune(m);
      ghost var pruned := layers;
      L.PassStart(old(layers), m, resolutions, false);
      dispatched, fetches := AddAll(m, resolutions, pruned);
      L.AttachedAfterPass(old(attached), L.KeysOf(old(layers)), L.KeysOf(pruned), L.KeysOf(layers));
      L.ExtendedComplete(old(layers), layers, m, false);
    }

    /** The second loop: every group of every series gets its layer, and is fetched when 'initialized'. */
    method AddAll(m: AnnotationMap, resolutions: map<string, real>, ghost pruned: seq<L.Layer>) returns (dispatched: seq<L.Dispatch>, fetches: seq<L.Fetch>)
      requires Valid() && L.Extended(pruned, layers, {}, m, false)
      modifies this
      ensures Valid()
      ensures replaced == old(replaced) && interaction == old(interaction) && interactions == old(interactions) && nextId == old(nextId) && drawType == old(drawType)
      ensures attached == old(attached) + L.GroupKeys(m)
      ensures L.Extended(pruned, layers, L.GroupKeys(m), m, false)
      ensures L.Fetched(fetches, dispatched, L.GroupKeys(m), m, resolutions)
    {
      dispatched, fetches := [], [];
      ghost var done: set<L.Key> := {};
      var seriesLeft := m.Keys;
      while seriesLeft != {}
        invariant Valid() && seriesLeft <= m.Keys
        invariant replaced == old(replaced) && interaction == old(interaction) && interactions == old(interactions) && nextId == old(nextId) && drawType == old(drawType)
        invariant done == L.DoneKeys(m, seriesLeft)
        invariant attached == old(attached) + done
        invariant L.Extended(pruned, layers, done, m, false)
        invariant L.Fetched(fetches, dispatched, done, m, resolutions)
        decreases seriesLeft
      {
        var s :| s in seriesLeft;
        dispatched, fetches := AddSeries(s, m, resolutions, pruned, done, dispatched, fetches);
        L.DoneStep(m, seriesLeft, s);
        L.UnionStep(old(attached), done, L.SeriesKeys(m, s));
        done := done + L.SeriesKeys(m, s);
        seriesLeft := seriesLeft - {s};
      }
      L.DoneAll(m);
    }

    /** The first loop: each layer whose group is gone is disposed, taken off the map and filtered out. */
    method Prune(m: AnnotationMap)
      requires Valid()
      modifies this
      ensures Valid()
      ensures layers == L.Pruned(old(layers), m)
      ensures attached == old(attached) - (L.KeysOf(old(layers)) - L.KeysOf(layers))
      ensures replaced == (old(replaced) || layers != old(layers))
      ensures interaction == old(interaction) && interactions == old(interactions) && nextId == old(nextId) && drawType == old(drawType)
    {
      var current := layers;
      ghost var attached0 := attached;
      L.PruneEnds(current, m);
      for i := 0 to |current|
        invariant Valid()
        invariant layers == L.PrunedUpTo(current, i, m)
        invariant attached == attached0 - (L.KeysOf(current) - L.KeysOf(layers))
        invariant replaced == (old(replaced) || layers != current)
        invariant interaction == old(interaction) && interactions == old(interactions) && nextId == old(nextId) && drawType == old(drawType)
      {
        var layer := current[i];
        L.PruneStep(current, i, m);
        if !L.HasGroup(m, layer.key) {
          L.PruneAttachedStep(current, i, layers, attached0, attached);
          Filter(layer.key);
        }
      }
    }

    /** `removeLayer` and `filter` for one layer: it leaves the map and the list is a new array. */
    method Filter(k: L.Key)
      requires Valid()
      modifies this
      ensures Valid()
      ensures layers == L.WithoutKey(old(layers), k) && attached == old(attached) - {k} && replaced
      ensures interaction == old(interaction) && interactions == old(interactions) && nextId == old(nextId) && drawType == old(drawType)
    {
      L.WithoutKeySpec(layers, k);
      layers, attached, replaced := L.WithoutKey(layers, k), attached - {k}, true;
    }

    /** The second loop's body for one series: the inner loop over its groups. */
    method AddSeries(s: string, m: AnnotationMap, resolutions: map<string, real>, ghost pruned: seq<L.Layer>, ghost done: set<L.Key>,
                     dispatched0: seq<L.Dispatch>, fetches0: seq<L.Fetch>) returns (dispatched: seq<L.Dispatch>, fetches: seq<L.Fetch>)
      requires Valid() && s in m
      requires forall k :: k in done ==> k.seriesUid != s
      requires L.Extended(pruned, layers, done, m, false) && L.Fetched(fetches0, dispatched0, done, m, resolutions)
      modifies this
      ensures Valid()
      ensures attached == old(attached) + L.SeriesKeys(m, s)
      ensures replaced == old(replaced) && interaction == old(interaction) && interactions == old(interactions) && nextId == old(nextId) && drawType == old(drawType)
      ensures L.Extended(pruned, layers, done + L.SeriesKeys(m, s), m, false)
      ensures L.Fetched(fetches, dispatched, done + L.SeriesKeys(m, s), m, resolutions)
    {
      dispatched, fetches := dispatched0, fetches0;
      var groupsLeft := m[s].groupMap.Keys;
      ghost var attached0 := attached;
      ghost var now := done;
      L.VisitedEnds(m, s);
      while groupsLeft != {}
        invariant Valid() && groupsLeft <= m[s].groupMap.Keys
        invariant replaced == old(replaced) && interaction == old(interaction) && interactions == old(interactions) && nextId == old(nextId) && drawType == old(drawType)
        invariant now == done + L.Visited(m, s, groupsLeft)
        invariant attached == attached0 + L.Visited(m, s, groupsLeft)
        invariant L.Extended(pruned, layers, now, m, false)
        invariant L.Fetched(fetches, dispatched, now, m, resolutions)
        decreases groupsLeft
      {
        var g :| g in groupsLeft;
        var k := L.Key(s, g);
        L.VisitedStep(m, s, groupsLeft, g, done, now);
        L.UnionStep(attached0, L.Visited(m, s, groupsLeft), {k});
        ghost var before := layers;
        var d, f := AddGroup(k, m[s].groupMap[g], L.Scale(resolutions, m[s].referenceInstanceUid));
        L.GroupStep(pruned, before, layers, fetches, dispatched, f, now, m, resolutions, k, false);
        dispatched, fetches := dispatched + d, fetches + f;
        now := now + {k};
        groupsLeft := groupsLeft - {g};
      }
    }

    /** The inner loop's body for one group: as in the newer pass, without `setStyle`. */
    method AddGroup(k: L.Key, group: Annotation, scale: real) returns (d: seq<L.Dispatch>, f: seq<L.Fetch>)
      requires Valid()
      modifies this
      ensures Valid()
      ensures attached == old(attached) + {k}
      ensures replaced == old(replaced) && interaction == old(interaction) && interactions == old(interactions) && nextId == old(nextId) && drawType == old(drawType)
      ensures L.GroupAdded(old(layers), layers, k, group, false)
      ensures group.status == Is(Initialized) ==> f == [L.Fetch(k, scale)]
      ensures group.status != Is(Initialized) ==> f == []
      ensures d == L.Loadings(f)
    {
      var list := layers;
      L.FindLayerKeys(list, k);
      var i := L.FindLayer(list, k);
      if i < 0 {
        L.AddedAppend(list, k, group, false);
        list := list + [L.NewLayer(k, group, false)];
        i := |list| - 1;
      } else {
        L.AddedInPlace(list, i, group, false);
      }
      var r := L.Fetching(k, group, scale);
      d, f := r.0, r.1;
      layers, attached := list[i := L.Styled(list[i], group, false)], attached + {k};
    }

    /**
     * The older draw effect: with a map, a layer for the current annotation and a draw type,
     * the stored interaction is removed and a new unstyled one added and stored.
     */
    method DrawEffect(hasMap: bool, current: Option<Annotation>) returns (cleanup: Option<nat>)
      requires Valid()
      modifies this
      ensures Valid()
      ensures layers == old(layers) && attached == old(attached) && replaced == old(replaced) && drawType == old(drawType)
      ensures var active := if current.Some? then L.ActiveKey(current.value) else None;
        if !hasMap || active.None? || active.value !in L.KeysOf(layers) || drawType.None? then
          cleanup.None? && interaction == old(interaction) && interactions == old(interactions)
        else
          cleanup == Some(old(nextId)) && interaction == cleanup
          && interactions == [L.Draw(old(nextId), active.value, L.OlDrawType(drawType.value), true, Absent)]
    {
      var active := if current.Some? then L.ActiveKey(current.value) else None;
      if active.Some? {
        L.FindLayerKeys(layers, active.value);
      }
      if !hasMap || active.None? || L.FindLayer(layers, active.value) < 0 || drawType.None? {
        return None;
      }
      if interaction.Some? {
        interactions := L.RemoveDraw(interactions, interaction.value);
      }
      var draw := L.Draw(nextId, active.value, L.OlDrawType(drawType.value), true, Absent);
      interactions := interactions + [draw];
      interaction := Some(draw.id);
      nextId := nextId + 1;
      cleanup := Some(draw.id);
    }

    /** The older draw effect's cleanup: `setDrawType(null)`, then `map.removeInteraction(drawInteraction)`. */
    method Cleanup(id: nat)
      requires Valid()
      modifies this
      ensures Valid()
      ensures layers == old(layers) && attached == old(attached) && replaced == old(replaced) && interaction == old(interaction)
      ensures drawType.None?
      ensures interactions == L.RemoveDraw(old(interactions), id)
      ensures forall d :: d in interactions ==> d.id != id
    {
      drawType := None;
      interactions := L.RemoveDraw(interactions, id);
    }
  }
}
