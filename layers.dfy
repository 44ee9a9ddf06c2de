/**
 * The annotation layers of the viewer (`useAnnotationLayers` in
 * `src/app/viewer/_hooks/annotation/layer.ts`): one vector layer per annotation group, kept in
 * step with the annotation map by a reconciliation pass, and at most one draw interaction on the
 * map. OpenLayers objects are modelled by their keys and the properties the hook sets.
 */
module AnnotationLayers {
  import opened Wrappers
  import opened AnnotationState

  /** Above this many annotations a group gets a `VectorImageLayer` (`imageLayerThreshold`). */
  const ImageLayerThreshold: real := 10000.0

  /** The `seriesUid` and `groupUid` properties that identify a layer. */
  datatype Key = Key(seriesUid: string, groupUid: string)

  /** An annotation layer: its key, whether it is image-backed, and the visibility and colour last set on it. */
  datatype Layer = Layer(key: Key, isImage: bool, visible: bool, color: Prop<string>)

  /** An action dispatched to the annotation map. */
  datatype Dispatch = SetStatus(key: Key, status: Status) | Refresh

  /** A started `fetchAnnotationSource` for a group, with the resolution it scales by. */
  datatype Fetch = Fetch(key: Key, resolution: real)

  // ---------------------------------------------------------------- the annotation map

  /** `annotationMap[seriesUid]?.groupMap?.[groupUid]` is a group. */
  predicate HasGroup(m: AnnotationMap, k: Key) {
    k.seriesUid in m && k.groupUid in m[k.seriesUid].groupMap
  }

  function GroupOf(m: AnnotationMap, k: Key): Annotation
    requires HasGroup(m, k)
  {
    m[k.seriesUid].groupMap[k.groupUid]
  }

  /** The keys of all groups of the map. */
  function GroupKeys(m: AnnotationMap): set<Key> {
    set s, g | s in m && g in m[s].groupMap :: Key(s, g)
  }

  /** The keys of the groups of one series. */
  function SeriesKeys(m: AnnotationMap, s: string): set<Key>
    requires s in m
  {
    set g | g in m[s].groupMap :: Key(s, g)
  }

  lemma GroupKeysSpec(m: AnnotationMap, k: Key)
    ensures k in GroupKeys(m) <==> HasGroup(m, k)
  {
    if HasGroup(m, k) {
      assert Key(k.seriesUid, k.groupUid) in GroupKeys(m);
    }
  }

  /** The groups a pass fetches: those whose status is 'initialized'. */
  function ToFetch(m: AnnotationMap, keys: set<Key>): set<Key> {
    set k | k in keys && HasGroup(m, k) && GroupOf(m, k).status == Is(Initialized)
  }

  /** `resolutions[series.referenceInstanceUid] || 1`. */
  function Scale(resolutions: map<string, real>, reference: Option<string>): (r: real)
    ensures r != 0.0
    ensures reference.Some? && reference.value in resolutions && resolutions[reference.value] != 0.0 ==> r == resolutions[reference.value]
    ensures reference.None? || reference.value !in resolutions || resolutions[reference.value] == 0.0 ==> r == 1.0
  {
    if reference.Some? && reference.value in resolutions && resolutions[reference.value] != 0.0 then resolutions[reference.value] else 1.0
  }

  // ---------------------------------------------------------------- layers

  /** The keys of the layers. */
  function KeysOf(layers: seq<Layer>): set<Key> {
    if layers == [] then {} else KeysOf(layers[..|layers| - 1]) + {layers[|layers| - 1].key}
  }

  /** A key is among the layers' keys exactly when some layer carries it. */
  lemma {:induction false} KeysOfSpec(layers: seq<Layer>, k: Key)
    ensures k in KeysOf(layers) <==> exists i :: 0 <= i < |layers| && layers[i].key == k
  {
    if layers != [] {
      var init := layers[..|layers| - 1];
      KeysOfSpec(init, k);
      if exists i :: 0 <= i < |init| && init[i].key == k {
        var i :| 0 <= i < |init| && init[i].key == k;
        assert layers[i].key == k;
      }
      if exists i :: 0 <= i < |layers| && layers[i].key == k {
        var i :| 0 <= i < |layers| && layers[i].key == k;
        if i < |init| {
          assert init[i].key == k;
        }
      }
    }
  }

  lemma KeyAt(layers: seq<Layer>, i: int)
    requires 0 <= i < |layers|
    ensures layers[i].key in KeysOf(layers)
  {
    KeysOfSpec(layers, layers[i].key);
  }

  lemma {:induction false} KeysOfAppend(a: seq<Layer>, b: seq<Layer>)
    ensures KeysOf(a + b) == KeysOf(a) + KeysOf(b)
    decreases |b|
  {
    if b == [] {
      assert a + b == a;
    } else {
      var init := b[..|b| - 1];
      assert (a + b)[..|a + b| - 1] == a + init;
      KeysOfAppend(a, init);
    }
  }

  /** No key occurs twice: each layer's key is new among the layers before it. */
  predicate Distinct(layers: seq<Layer>) {
    layers == [] || (Distinct(layers[..|layers| - 1]) && layers[|layers| - 1].key !in KeysOf(layers[..|layers| - 1]))
  }

  /** Distinct layers carry pairwise different keys. */
  lemma {:induction false} DistinctKeys(layers: seq<Layer>)
    requires Distinct(layers)
    ensures forall i, j :: 0 <= i < j < |layers| ==> layers[i].key != layers[j].key
  {
    if layers != [] {
      var init := layers[..|layers| - 1];
      DistinctKeys(init);
      forall i, j | 0 <= i < j < |layers|
        ensures layers[i].key != layers[j].key
      {
        assert layers[i] == init[i];
        if j == |init| {
          KeyAt(init, i);
        } else {
          assert layers[j] == init[j];
        }
      }
    }
  }

  /** The front part of distinct layers is distinct, and shares no key with the rest. */
  lemma {:induction false} DistinctPrefix(a: seq<Layer>, b: seq<Layer>)
    requires Distinct(a + b)
    ensures Distinct(a) && KeysOf(a) !! KeysOf(b)
    decreases |b|
  {
    if b == [] {
      assert a + b == a;
    } else {
      var init := b[..|b| - 1];
      assert (a + b)[..|a + b| - 1] == a + init;
      DistinctPrefix(a, init);
      KeysOfAppend(a, init);
    }
  }

  /** Replacing one layer by one with the same key keeps the keys, and keeps them distinct. */
  lemma {:induction false} RestyleKeeps(layers: seq<Layer>, i: int, x: Layer)
    requires 0 <= i < |layers| && x.key == layers[i].key
    ensures KeysOf(layers[i := x]) == KeysOf(layers)
    ensures Distinct(layers) ==> Distinct(layers[i := x])
  {
    var n := |layers| - 1;
    if i == n {
      assert layers[i := x][..n] == layers[..n];
    } else {
      assert layers[i := x][..n] == layers[..n][i := x];
      RestyleKeeps(layers[..n], i, x);
    }
  }

  /**
   * The layer after `setVisible(group.visible)` and, in a pass that `setsStyle`,
   * `setStyle(createStyle(group.color))`. A `visible` of `undefined` hides the layer.
   */
  function Styled(layer: Layer, group: Annotation, setsStyle: bool): (r: Layer)
    ensures r.key == layer.key && r.isImage == layer.isImage
    ensures r.visible <==> group.visible == Is(true)
    ensures r.color == if setsStyle then group.color else layer.color
  {
    layer.(visible := group.visible == Is(true), color := if setsStyle then group.color else layer.color)
  }

  /**
   * A new layer for a group: image-backed iff the group has more than 10000 annotations, styled
   * from the group's colour when the pass `setsStyle`, unstyled otherwise.
   */
  function NewLayer(k: Key, group: Annotation, setsStyle: bool): (r: Layer)
    ensures r.key == k
    ensures r.isImage <==> group.numberOfAnnotations.Is? && group.numberOfAnnotations.value > ImageLayerThreshold
    ensures r.color == if setsStyle then group.color else Absent
    ensures r == Styled(r, group, setsStyle)
  {
    Layer(k, group.numberOfAnnotations.Is? && group.numberOfAnnotations.value > ImageLayerThreshold,
      group.visible == Is(true), if setsStyle then group.color else Absent)
  }

  /** The layers whose group is still in the map, in order. */
  function Pruned(layers: seq<Layer>, m: AnnotationMap): (r: seq<Layer>)
    ensures |r| <= |layers|
  {
    if layers == [] then []
    else
      var last := layers[|layers| - 1];
      Pruned(layers[..|layers| - 1], m) + (if HasGroup(m, last.key) then [last] else [])
  }

  /** Pruning keeps exactly the keys whose group is in the map. */
  lemma {:induction false} PrunedKeys(layers: seq<Layer>, m: AnnotationMap, k: Key)
    ensures k in KeysOf(Pruned(layers, m)) <==> k in KeysOf(layers) && HasGroup(m, k)
  {
    if layers != [] {
      var init, last := layers[..|layers| - 1], layers[|layers| - 1];
      PrunedKeys(init, m, k);
      KeysOfAppend(Pruned(init, m), if HasGroup(m, last.key) then [last] else []);
      assert KeysOf([last]) == {last.key} by {
        assert [last][..0] == [];
      }
    }
  }

  /** Every pruned layer's group is in the map. */
  lemma {:induction false} PrunedInMap(layers: seq<Layer>, m: AnnotationMap)
    ensures forall i :: 0 <= i < |Pruned(layers, m)| ==> HasGroup(m, Pruned(layers, m)[i].key)
  {
    if layers != [] {
      PrunedInMap(layers[..|layers| - 1], m);
    }
  }

  /** When every layer's group is in the map, pruning changes nothing. */
  lemma {:induction false} PrunedAll(layers: seq<Layer>, m: AnnotationMap)
    requires forall i :: 0 <= i < |layers| ==> HasGroup(m, layers[i].key)
    ensures Pruned(layers, m) == layers
  {
    if layers != [] {
      PrunedAll(layers[..|layers| - 1], m);
    }
  }

  /** `layers.filter((l) => l !== layer)`: with one layer per key, dropping that key. */
  function WithoutKey(layers: seq<Layer>, k: Key): (r: seq<Layer>)
    ensures |r| <= |layers|
  {
    if layers == [] then []
    else
      var last := layers[|layers| - 1];
      WithoutKey(layers[..|layers| - 1], k) + (if last.key == k then [] else [last])
  }

  lemma KeysOfSnoc(layers: seq<Layer>, x: Layer)
    ensures KeysOf(layers + [x]) == KeysOf(layers) + {x.key}
  {
    assert (layers + [x])[..|layers|] == layers;
  }

  /** Dropping a key removes just that key from the layers' keys. */
  lemma {:induction false} WithoutKeyKeys(layers: seq<Layer>, k: Key)
    ensures KeysOf(WithoutKey(layers, k)) == KeysOf(layers) - {k}
  {
    if layers != [] {
      var init, last := layers[..|layers| - 1], layers[|layers| - 1];
      WithoutKeyKeys(init, k);
      assert KeysOf(layers) == KeysOf(init) + {last.key};
      var w := WithoutKey(init, k);
      if last.key != k {
        assert WithoutKey(layers, k) == w + [last];
        KeysOfSnoc(w, last);
      } else {
        assert WithoutKey(layers, k) == w;
      }
    }
  }

  /** Dropping a key from distinct layers leaves them distinct, with just that key gone. */
  lemma {:induction false} WithoutKeySpec(layers: seq<Layer>, k: Key)
    requires Distinct(layers)
    ensures Distinct(WithoutKey(layers, k))
    ensures KeysOf(WithoutKey(layers, k)) == KeysOf(layers) - {k}
  {
    WithoutKeyKeys(layers, k);
    if layers != [] {
      var init, last := layers[..|layers| - 1], layers[|layers| - 1];
      WithoutKeySpec(init, k);
      var w := WithoutKey(init, k);
      if last.key != k {
        assert WithoutKey(layers, k) == w + [last];
        AppendFresh(w, last);
      } else {
        assert WithoutKey(layers, k) == w;
      }
    }
  }

  /** Appending a layer with a new key keeps the layers distinct and adds just that key. */
  lemma AppendFresh(layers: seq<Layer>, x: Layer)
    requires Distinct(layers) && x.key !in KeysOf(layers)
    ensures Distinct(layers + [x]) && KeysOf(layers + [x]) == KeysOf(layers) + {x.key}
  {
    assert (layers + [x])[..|layers|] == layers;
  }

  lemma {:induction false} WithoutKeyAppend(a: seq<Layer>, b: seq<Layer>, k: Key)
    ensures WithoutKey(a + b, k) == WithoutKey(a, k) + WithoutKey(b, k)
    decreases |b|
  {
    if b == [] {
      assert a + b == a;
    } else {
      var init := b[..|b| - 1];
      assert (a + b)[..|a + b| - 1] == a + init;
      WithoutKeyAppend(a, init, k);
    }
  }

  lemma {:induction false} WithoutAbsentKey(layers: seq<Layer>, k: Key)
    requires k !in KeysOf(layers)
    ensures WithoutKey(layers, k) == layers
  {
    if layers != [] {
      WithoutAbsentKey(layers[..|layers| - 1], k);
    }
  }

  /** The layer list while the first loop of the pass is at `i`: the visited part pruned, the rest untouched. */
  function PrunedUpTo(current: seq<Layer>, i: int, m: AnnotationMap): seq<Layer>
    requires 0 <= i <= |current|
  {
    Pruned(current[..i], m) + current[i..]
  }

  /**
   * One step of the first loop: a layer whose group is in the map stays, and one whose group is
   * gone is filtered out by its key.
   */
  lemma PruneStep(current: seq<Layer>, i: int, m: AnnotationMap)
    requires 0 <= i < |current| && Distinct(PrunedUpTo(current, i, m))
    ensures HasGroup(m, current[i].key) ==> PrunedUpTo(current, i + 1, m) == PrunedUpTo(current, i, m)
    ensures !HasGroup(m, current[i].key) ==> PrunedUpTo(current, i + 1, m) == WithoutKey(PrunedUpTo(current, i, m), current[i].key)
  {
    var p, x, rest := Pruned(current[..i], m), current[i], current[i + 1..];
    assert current[..i + 1][..i] == current[..i];
    assert current[i..] == [x] + rest;
    assert PrunedUpTo(current, i, m) == (p + [x]) + rest;
    if !HasGroup(m, x.key) {
      DistinctPrefix(p + [x], rest);
      assert (p + [x])[..|p|] == p;
      KeysOfAppend(p, [x]);
      assert x.key in KeysOf([x]) by {
        KeyAt([x], 0);
      }
      WithoutKeyAppend(p + [x], rest, x.key);
      WithoutKeyAppend(p, [x], x.key);
      WithoutAbsentKey(p, x.key);
      WithoutAbsentKey(rest, x.key);
      assert WithoutKey([x], x.key) == [] by {
        assert [x][..0] == [];
      }
    }
  }

  /** The first loop starts from the whole list and ends with it pruned. */
  lemma PruneEnds(current: seq<Layer>, m: AnnotationMap)
    ensures PrunedUpTo(current, 0, m) == current
    ensures PrunedUpTo(current, |current|, m) == Pruned(current, m)
  {
    assert current[..0] == [];
    assert current[..|current|] == current;
  }

  /**
   * One filtering step of the first loop: the layer's key leaves the map's layers, and the
   * list is no longer the array the loop started from.
   */
  lemma PruneAttachedStep(current: seq<Layer>, i: int, layers: seq<Layer>, attached0: set<Key>, attached: set<Key>)
    requires 0 <= i < |current| && Distinct(layers)
    requires attached == attached0 - (KeysOf(current) - KeysOf(layers))
    ensures Distinct(WithoutKey(layers, current[i].key))
    ensures KeysOf(WithoutKey(layers, current[i].key)) == KeysOf(layers) - {current[i].key}
    ensures attached - {current[i].key} == attached0 - (KeysOf(current) - KeysOf(WithoutKey(layers, current[i].key)))
    ensures WithoutKey(layers, current[i].key) != current
  {
    var k := current[i].key;
    WithoutKeySpec(layers, k);
    KeyAt(current, i);
  }

  /**
   * After a pass the map holds what it held, less the old layers' keys, plus the new layers':
   * a pruned layer is taken off, and every kept or added one is on.
   */
  lemma AttachedAfterPass(attached: set<Key>, oldKeys: set<Key>, prunedKeys: set<Key>, keys: set<Key>)
    requires prunedKeys <= keys
    ensures (attached - (oldKeys - prunedKeys)) + keys == (attached - oldKeys) + keys
  {
  }

  lemma UnionStep(base: set<Key>, done: set<Key>, more: set<Key>)
    ensures (base + done) + more == base + (done + more)
  {
  }

  /** `find` by key: the index of the first layer with that key, or -1. */
  function FindLayer(layers: seq<Layer>, k: Key): (r: int)
    ensures -1 <= r < |layers|
    ensures r == -1 ==> forall i :: 0 <= i < |layers| ==> layers[i].key != k
    ensures r >= 0 ==> layers[r].key == k && forall i :: 0 <= i < r ==> layers[i].key != k
  {
    if layers == [] then -1
    else if layers[0].key == k then 0
    else
      var r := FindLayer(layers[1..], k);
      if r == -1 then -1 else r + 1
  }

  /** `find` succeeds exactly for the keys among the layers. */
  lemma FindLayerKeys(layers: seq<Layer>, k: Key)
    ensures FindLayer(layers, k) >= 0 <==> k in KeysOf(layers)
  {
    KeysOfSpec(layers, k);
  }

  // ---------------------------------------------------------------- drawing

  datatype GraphicType = Point | Polyline | Polygon | Ellipse | Rectangle

  /** The geometry functions handed to `Draw`: the viewer's `createEllipse` and OpenLayers' `createBox`. */
  datatype GeometryFunction = EllipseFunction | BoxFunction

  /** An entry of `olDrawTypes`: the OpenLayers geometry type and the optional geometry function. */
  datatype DrawType = DrawType(kind: string, geometryFunction: Option<GeometryFunction>)

  /** `olDrawTypes[drawType]`. */
  function OlDrawType(t: GraphicType): DrawType {
    match t
    case Point => DrawType("Point", None)
    case Polyline => DrawType("LineString", None)
    case Polygon => DrawType("Polygon", None)
    case Ellipse => DrawType("Circle", Some(EllipseFunction))
    case Rectangle => DrawType("Circle", Some(BoxFunction))
  }

  /** Distinct graphic types draw differently; 'Circle' is drawn exactly for ellipses and rectangles, each with its geometry function. */
  lemma OlDrawTypeInjective(s: GraphicType, t: GraphicType)
    ensures OlDrawType(s) == OlDrawType(t) ==> s == t
    ensures OlDrawType(t).kind == "Circle" <==> OlDrawType(t).geometryFunction.Some?
    ensures OlDrawType(t).kind == "Circle" <==> (t == Ellipse || t == Rectangle)
  {
  }

  /** A freehand `Draw` interaction: an identity, the layer it draws into, its type and colour. */
  datatype Draw = Draw(id: nat, layer: Key, drawType: DrawType, freehand: bool, color: Prop<string>)

  /** The key of the layer for the current annotation, when it has one. */
  function ActiveKey(current: Annotation): Option<Key> {
    if current.seriesUid.Is? && current.groupUid.Is? then Some(Key(current.seriesUid.value, current.groupUid.value)) else None
  }

  // ---------------------------------------------------------------- the hook

  /** The state of `useAnnotationLayers` and the part of the map it touches. */
  class LayerHook {
    /** `annotationLayersRef.current`. */
    var layers: seq<Layer>
    /** The annotation layers on the map; a rebuilt map holds none until a pass adds them back. */
    var attached: set<Key>
    /**
     * Whether a pass's `filter` has replaced `annotationLayersRef.current` since the mount
     * effect captured it: the unmount cleanup empties the captured array only.
     */
    var replaced: bool
    /** `drawInteractionRef.current`. */
    var interaction: Option<nat>
    /** The draw interactions on the map. */
    var interactions: seq<Draw>
    /** The identity the next `Draw` gets. */
    var nextId: nat

    /** One layer per key, and at most one draw interaction: the stored one. */
    ghost predicate Valid()
      reads this
    {
      Distinct(layers)
      && |interactions| <= 1
      && (forall d :: d in interactions ==> interaction == Some(d.id) && d.id < nextId)
    }

    constructor()
      ensures Valid()
      ensures layers == [] && attached == {} && !replaced && interaction == None && interactions == []
    {
      layers, attached, replaced, interaction, interactions, nextId := [], {}, false, None, [], 0;
    }

    /**
     * The effect's cleanup on unmount: the map is disposed, the layer array captured at mount is
     * emptied, and a refresh dispatched. When a pass has replaced that array, the current layer
     * list is a different array and keeps its layers.
     */
    method Unmount() returns (d: Dispatch)
      requires Valid()
      modifies this
      ensures Valid()
      ensures layers == (if old(replaced) then old(layers) else []) && attached == {} && d == Refresh
      ensures replaced == old(replaced) && interaction == old(interaction) && interactions == old(interactions) && nextId == old(nextId)
    {
      if !replaced {
        layers := [];
      }
      attached := {};
      d := Refresh;
    }

    /**
     * `setLayers([layer])` when useMap loads a slide into its map: only the new image layer is
     * on the map, so none of the annotation layers is, while the hook still holds them.
     */
    method SetMapLayers()
      requires Valid()
      modifies this
      ensures Valid()
      ensures attached == {} && layers == old(layers)
      ensures replaced == old(replaced) && interaction == old(interaction) && interactions == old(interactions) && nextId == old(nextId)
    {
      attached := {};
    }

    /**
     * The reconciliation pass. Without a map or resolutions nothing happens. Otherwise the
     * layers of vanished groups go, the others keep their place and kind, each group without
     * a layer gets a new one at the end, every layer is restyled from its group, and every
     * 'initialized' group is set 'loading' and fetched once.
     */
    method Reconcile(hasMap: bool, m: AnnotationMap, resolutions: map<string, real>) returns (dispatched: seq<Dispatch>, fetches: seq<Fetch>)
      requires Valid()
      modifies this
      ensures Valid()
      ensures interaction == old(interaction) && interactions == old(interactions) && nextId == old(nextId)
      ensures !hasMap || |resolutions| == 0 ==>
        layers == old(layers) && attached == old(attached) && replaced == old(replaced) && dispatched == [] && fetches == []
      ensures hasMap && |resolutions| > 0 ==> attached == (old(attached) - KeysOf(old(layers))) + KeysOf(layers)
      ensures hasMap && |resolutions| > 0 ==> replaced == (old(replaced) || Pruned(old(layers), m) != old(layers))
      ensures hasMap && |resolutions| > 0 ==> ReconciledLayers(old(layers), layers, m, true)
      ensures hasMap && |resolutions| > 0 && KeysOf(old(layers)) == GroupKeys(m) ==> (
        |layers| == |old(layers)|
        && forall i :: 0 <= i < |layers| ==> HasGroup(m, layers[i].key) && layers[i] == Styled(old(layers)[i], GroupOf(m, layers[i].key), true))
      ensures hasMap && |resolutions| > 0 ==> Fetched(fetches, dispatched, GroupKeys(m), m, resolutions)
    {
      if !hasMap || |resolutions| == 0 {
        return [], [];
      }
      dispatched, fetches := Pass(m, resolutions);
    }

    /** The pass proper, once the map and the resolutions are there. */
    method Pass(m: AnnotationMap, resolutions: map<string, real>) returns (dispatched: seq<Dispatch>, fetches: seq<Fetch>)
      requires Valid()
      modifies this
      ensures Valid()
      ensures interaction == old(interaction) && interactions == old(interactions) && nextId == old(nextId)
      ensures attached == (old(attached) - KeysOf(old(layers))) + KeysOf(layers)
      ensures replaced == (old(replaced) || Pruned(old(layers), m) != old(layers))
      ensures ReconciledLayers(old(layers), layers, m, true)
      ensures KeysOf(old(layers)) == GroupKeys(m) ==> (
        |layers| == |old(layers)|
        && forall i :: 0 <= i < |layers| ==> HasGroup(m, layers[i].key) && layers[i] == Styled(old(layers)[i], GroupOf(m, layers[i].key), true))
      ensures Fetched(fetches, dispatched, GroupKeys(m), m, resolutions)
    {
      Prune(m);
      ghost var pruned := layers;
      PassStart(old(layers), m, resolutions, true);
      dispatched, fetches := AddAll(m, resolutions, pruned);
      AttachedAfterPass(old(attached), KeysOf(old(layers)), KeysOf(pruned), KeysOf(layers));
      ExtendedComplete(old(layers), layers, m, true);
      if KeysOf(old(layers)) == GroupKeys(m) {
        ExtendedUnchanged(old(layers), layers, m, true);
      }
    }

    /** The second loop: every group of every series gets its layer, restyled, and fetched when 'initialized'. */
    method AddAll(m: AnnotationMap, resolutions: map<string, real>, ghost pruned: seq<Layer>) returns (dispatched: seq<Dispatch>, fetches: seq<Fetch>)
      requires Valid() && Extended(pruned, layers, {}, m, true)
      modifies this
      ensures Valid()
      ensures replaced == old(replaced) && interaction == old(interaction) && interactions == old(interactions) && nextId == old(nextId)
      ensures attached == old(attached) + GroupKeys(m)
      ensures Extended(pruned, layers, GroupKeys(m), m, true)
      ensures Fetched(fetches, dispatched, GroupKeys(m), m, resolutions)
    {
      dispatched, fetches := [], [];
      ghost var done: set<Key> := {};
      var seriesLeft := m.Keys;
      while seriesLeft != {}
        invariant Valid() && seriesLeft <= m.Keys
        invariant replaced == old(replaced) && interaction == old(interaction) && interactions == old(interactions) && nextId == old(nextId)
        invariant done == DoneKeys(m, seriesLeft)
        invariant attached == old(attached) + done
        invariant Extended(pruned, layers, done, m, true)
        invariant Fetched(fetches, dispatched, done, m, resolutions)
        decreases seriesLeft
      {
        var s :| s in seriesLeft;
        dispatched, fetches := AddSeries(s, m, resolutions, pruned, done, dispatched, fetches);
        DoneStep(m, seriesLeft, s);
        UnionStep(old(attached), done, SeriesKeys(m, s));
        done := done + SeriesKeys(m, s);
        seriesLeft := seriesLeft - {s};
      }
      DoneAll(m);
    }

    /** The first loop: each layer whose group is gone is disposed, taken off the map and filtered out. */
    method Prune(m: AnnotationMap)
      requires Valid()
      modifies this
      ensures Valid()
      ensures layers == Pruned(old(layers), m)
      ensures attached == old(attached) - (KeysOf(old(layers)) - KeysOf(layers))
      ensures replaced == (old(replaced) || layers != old(layers))
      ensures interaction == old(interaction) && interactions == old(interactions) && nextId == old(nextId)
    {
      var current := layers;
      ghost var attached0 := attached;
      PruneEnds(current, m);
      for i := 0 to |current|
        invariant Valid()
        invariant layers == PrunedUpTo(current, i, m)
        invariant attached == attached0 - (KeysOf(current) - KeysOf(layers))
        invariant replaced == (old(replaced) || layers != current)
        invariant interaction == old(interaction) && interactions == old(interactions) && nextId == old(nextId)
      {
        var layer := current[i];
        PruneStep(current, i, m);
        if !HasGroup(m, layer.key) {
          PruneAttachedStep(current, i, layers, attached0, attached);
          Filter(layer.key);
        }
      }
    }

    /** `removeLayer` and `filter` for one layer: it leaves the map and the list is a new array. */
    method Filter(k: Key)
      requires Valid()
      modifies this
      ensures Valid()
      ensures layers == WithoutKey(old(layers), k) && attached == old(attached) - {k} && replaced
      ensures interaction == old(interaction) && interactions == old(interactions) && nextId == old(nextId)
    {
      WithoutKeySpec(layers, k);
      layers, attached, replaced := WithoutKey(layers, k), attached - {k}, true;
    }

    /** The second loop's body for one series: the inner loop over its groups. */
    method AddSeries(s: string, m: AnnotationMap, resolutions: map<string, real>, ghost pruned: seq<Layer>, ghost done: set<Key>,
                     dispatched0: seq<Dispatch>, fetches0: seq<Fetch>) returns (dispatched: seq<Dispatch>, fetches: seq<Fetch>)
      requires Valid() && s in m
      requires forall k :: k in done ==> k.seriesUid != s
      requires Extended(pruned, layers, done, m, true) && Fetched(fetches0, dispatched0, done, m, resolutions)
      modifies this
      ensures Valid()
      ensures attached == old(attached) + SeriesKeys(m, s)
      ensures replaced == old(replaced) && interaction == old(interaction) && interactions == old(interactions) && nextId == old(nextId)
      ensures Extended(pruned, layers, done + SeriesKeys(m, s), m, true)
      ensures Fetched(fetches, dispatched, done + SeriesKeys(m, s), m, resolutions)
    {
      dispatched, fetches := dispatched0, fetches0;
      var groupsLeft := m[s].groupMap.Keys;
      ghost var attached0 := attached;
      ghost var now := done;
      VisitedEnds(m, s);
      while groupsLeft != {}
        invariant Valid() && groupsLeft <= m[s].groupMap.Keys
        invariant replaced == old(replaced) && interaction == old(interaction) && interactions == old(interactions) && nextId == old(nextId)
        invariant now == done + Visited(m, s, groupsLeft)
        invariant attached == attached0 + Visited(m, s, groupsLeft)
        invariant Extended(pruned, layers, now, m, true)
        invariant Fetched(fetches, dispatched, now, m, resolutions)
        decreases groupsLeft
      {
        var g :| g in groupsLeft;
        var k := Key(s, g);
        VisitedStep(m, s, groupsLeft, g, done, now);
        UnionStep(attached0, Visited(m, s, groupsLeft), {k});
        ghost var before := layers;
        var d, f := AddGroup(k, m[s].groupMap[g], Scale(resolutions, m[s].referenceInstanceUid));
        GroupStep(pruned, before, layers, fetches, dispatched, f, now, m, resolutions, k, true);
        dispatched, fetches := dispatched + d, fetches + f;
        now := now + {k};
        groupsLeft := groupsLeft - {g};
      }
      assert now == done + SeriesKeys(m, s);
    }

    /** The inner loop's body for one group. */
    method AddGroup(k: Key, group: Annotation, scale: real) returns (d: seq<Dispatch>, f: seq<Fetch>)
      requires Valid()
      modifies this
      ensures Valid()
      ensures attached == old(attached) + {k}
      ensures replaced == old(replaced) && interaction == old(interaction) && interactions == old(interactions) && nextId == old(nextId)
      ensures GroupAdded(old(layers), layers, k, group, true)
      ensures group.status == Is(Initialized) ==> f == [Fetch(k, scale)]
      ensures group.status != Is(Initialized) ==> f == []
      ensures d == Loadings(f)
    {
      var list := layers;
      FindLayerKeys(list, k);
      var i := FindLayer(list, k);
      if i < 0 {
        AddedAppend(list, k, group, true);
        list := list + [NewLayer(k, group, true)];
        i := |list| - 1;
      } else {
        AddedInPlace(list, i, group, true);
      }
      var r := Fetching(k, group, scale);
      d, f := r.0, r.1;
      layers, attached := list[i := Styled(list[i], group, true)], attached + {k};
    }

    /** The draw effect: the stored interaction is removed before a new one is added and stored. */
    method DrawEffect(hasMap: bool, current: Option<Annotation>, drawType: Option<GraphicType>) returns (cleanup: Option<nat>)
      requires Valid()
      modifies this
      ensures Valid()
      ensures layers == old(layers) && attached == old(attached)
      ensures var active := if current.Some? then ActiveKey(current.value) else None;
        if !hasMap || active.None? || active.value !in KeysOf(layers) || drawType.None? then
          cleanup.None? && interaction == old(interaction) && interactions == old(interactions)
        else
          cleanup == Some(old(nextId)) && interaction == cleanup
          && interactions == [Draw(old(nextId), active.value, OlDrawType(drawType.value), true, current.value.color)]
    {
      var active := if current.Some? then ActiveKey(current.value) else None;
      if active.Some? {
        FindLayerKeys(layers, active.value);
      }
      if !hasMap || active.None? || FindLayer(layers, active.value) < 0 || drawType.None? {
        return None;
      }
      if interaction.Some? {
        interactions := RemoveDraw(interactions, interaction.value);
      }
      var draw := Draw(nextId, active.value, OlDrawType(drawType.value), true, current.value.color);
      interactions := interactions + [draw];
      interaction := Some(draw.id);
      nextId := nextId + 1;
      cleanup := Some(draw.id);
    }

    /** The draw effect's cleanup: `map.removeInteraction(drawInteraction)`. */
    method RemoveInteraction(id: nat)
      requires Valid()
      modifies this
      ensures Valid()
      ensures layers == old(layers) && attached == old(attached) && replaced == old(replaced) && interaction == old(interaction)
      ensures interactions == RemoveDraw(old(interactions), id)
      ensures forall d :: d in interactions ==> d.id != id
    {
      interactions := RemoveDraw(interactions, id);
    }
  }

  /** `map.removeInteraction(d)`: the interactions without that one. */
  function RemoveDraw(interactions: seq<Draw>, id: nat): (r: seq<Draw>)
    ensures forall d :: d in r <==> d in interactions && d.id != id
    ensures |r| <= |interactions|
  {
    if interactions == [] then []
    else (if interactions[0].id == id then [] else [interactions[0]]) + RemoveDraw(interactions[1..], id)
  }

  // ---------------------------------------------------------------- what a pass leaves behind

  /** The 'loading' update and the fetch for a group, when its status is 'initialized'. */
  function Fetching(k: Key, group: Annotation, scale: real): (r: (seq<Dispatch>, seq<Fetch>))
    ensures group.status == Is(Initialized) ==> r.1 == [Fetch(k, scale)]
    ensures group.status != Is(Initialized) ==> r.1 == []
    ensures r.0 == Loadings(r.1)
  {
    if group.status == Is(Initialized) then
      var f := [Fetch(k, scale)];
      assert f[..0] == [];
      ([SetStatus(k, Loading)], f)
    else ([], [])
  }

  /** The keys of the fetched groups. */
  function FetchKeys(fetches: seq<Fetch>): set<Key> {
    if fetches == [] then {} else FetchKeys(fetches[..|fetches| - 1]) + {fetches[|fetches| - 1].key}
  }

  /** The 'loading' updates announcing the fetches, one per fetch and in the same order. */
  function Loadings(fetches: seq<Fetch>): (r: seq<Dispatch>)
    ensures |r| == |fetches|
    ensures forall j :: 0 <= j < |fetches| ==> r[j] == SetStatus(fetches[j].key, Loading)
  {
    if fetches == [] then [] else Loadings(fetches[..|fetches| - 1]) + [SetStatus(fetches[|fetches| - 1].key, Loading)]
  }

  /**
   * The layers after a pass: the pruned ones restyled in place, then one new layer for each group
   * that had none, and exactly the map's groups among their keys.
   */
  ghost predicate ReconciledLayers(old_: seq<Layer>, layers: seq<Layer>, m: AnnotationMap, setsStyle: bool) {
    var pruned := Pruned(old_, m);
    && KeysOf(layers) == GroupKeys(m)
    && |pruned| <= |layers|
    && (forall i :: 0 <= i < |pruned| ==> HasGroup(m, pruned[i].key) && layers[i] == Styled(pruned[i], GroupOf(m, pruned[i].key), setsStyle))
    && (forall i :: |pruned| <= i < |layers| ==>
          layers[i].key !in KeysOf(old_) && HasGroup(m, layers[i].key) && layers[i] == NewLayer(layers[i].key, GroupOf(m, layers[i].key), setsStyle))
  }

  /** The fetches: one per done 'initialized' group, scaled by its series' resolution, each announced by a 'loading' update. */
  ghost predicate Fetched(fetches: seq<Fetch>, dispatched: seq<Dispatch>, done: set<Key>, m: AnnotationMap, resolutions: map<string, real>) {
    && FetchKeys(fetches) == ToFetch(m, done)
    && (forall i, j :: 0 <= i < j < |fetches| ==> fetches[i].key != fetches[j].key)
    && (forall i :: 0 <= i < |fetches| ==> (
          fetches[i].key in done && HasGroup(m, fetches[i].key)
          && fetches[i].resolution == Scale(resolutions, m[fetches[i].key.seriesUid].referenceInstanceUid)))
    && dispatched == Loadings(fetches)
  }

  // ---------------------------------------------------------------- invariants of the second loop

  /** The groups of the series already visited. */
  ghost function DoneKeys(m: AnnotationMap, seriesLeft: set<string>): set<Key> {
    set k | k in GroupKeys(m) && k.seriesUid !in seriesLeft
  }

  lemma DoneStep(m: AnnotationMap, seriesLeft: set<string>, s: string)
    requires s in seriesLeft && s in m
    ensures DoneKeys(m, seriesLeft) + SeriesKeys(m, s) == DoneKeys(m, seriesLeft - {s})
  {
    forall k | k in DoneKeys(m, seriesLeft - {s})
      ensures k in DoneKeys(m, seriesLeft) + SeriesKeys(m, s)
    {
      GroupKeysSpec(m, k);
      if k.seriesUid == s {
        assert k == Key(s, k.groupUid);
      }
    }
    forall k | k in SeriesKeys(m, s)
      ensures k in DoneKeys(m, seriesLeft - {s})
    {
      GroupKeysSpec(m, k);
    }
  }

  /** Before the second loop: no series visited, the pruned layers untouched, nothing fetched. */
  lemma PassStart(old_: seq<Layer>, m: AnnotationMap, resolutions: map<string, real>, setsStyle: bool)
    ensures DoneKeys(m, m.Keys) == {}
    ensures Extended(Pruned(old_, m), Pruned(old_, m), {}, m, setsStyle)
    ensures Fetched([], [], {}, m, resolutions)
  {
    PrunedInMap(old_, m);
    forall k | k in GroupKeys(m)
      ensures k.seriesUid in m.Keys
    {
      GroupKeysSpec(m, k);
    }
    assert FetchKeys([]) == {} == ToFetch(m, {});
  }

  lemma DoneAll(m: AnnotationMap)
    ensures DoneKeys(m, {}) == GroupKeys(m)
  {
  }

  /** The layers extend the pruned ones: those restyled once their group is done, then new ones for done groups. */
  ghost predicate Extended(pruned: seq<Layer>, layers: seq<Layer>, done: set<Key>, m: AnnotationMap, setsStyle: bool) {
    && |pruned| <= |layers|
    && (forall i :: 0 <= i < |pruned| ==> (
          HasGroup(m, pruned[i].key)
          && layers[i] == if pruned[i].key in done then Styled(pruned[i], GroupOf(m, pruned[i].key), setsStyle) else pruned[i]))
    && (forall i :: |pruned| <= i < |layers| ==> (
          layers[i].key in done && layers[i].key !in KeysOf(pruned) && HasGroup(m, layers[i].key)
          && layers[i] == NewLayer(layers[i].key, GroupOf(m, layers[i].key), setsStyle)))
    && KeysOf(layers) == KeysOf(pruned) + done
  }

  /** Handling one more group keeps the layers an extension of the pruned ones. */
  lemma ExtendedStep(pruned: seq<Layer>, before: seq<Layer>, after: seq<Layer>, done: set<Key>, m: AnnotationMap, k: Key, setsStyle: bool)
    requires Extended(pruned, before, done, m, setsStyle) && k !in done && HasGroup(m, k)
    requires GroupAdded(before, after, k, GroupOf(m, k), setsStyle)
    ensures Extended(pruned, after, done + {k}, m, setsStyle)
  {
    if k in KeysOf(before) {
      assert k in KeysOf(pruned);
      forall i | |pruned| <= i < |after|
        ensures after[i] == before[i]
      {
        assert before[i].key in done;
      }
    } else {
      assert k !in KeysOf(pruned);
      forall i | 0 <= i < |pruned|
        ensures after[i] == before[i] && pruned[i].key != k
      {
        KeyAt(pruned, i);
      }
    }
  }

  /** The inner loop's body for one more group keeps both invariants of the second loop. */
  lemma GroupStep(pruned: seq<Layer>, before: seq<Layer>, after: seq<Layer>, fetches: seq<Fetch>, dispatched: seq<Dispatch>,
                  f: seq<Fetch>, done: set<Key>, m: AnnotationMap, resolutions: map<string, real>, k: Key, setsStyle: bool)
    requires Extended(pruned, before, done, m, setsStyle) && Fetched(fetches, dispatched, done, m, resolutions)
    requires k !in done && HasGroup(m, k)
    requires GroupAdded(before, after, k, GroupOf(m, k), setsStyle)
    requires GroupOf(m, k).status == Is(Initialized) ==> f == [Fetch(k, Scale(resolutions, m[k.seriesUid].referenceInstanceUid))]
    requires GroupOf(m, k).status != Is(Initialized) ==> f == []
    ensures Extended(pruned, after, done + {k}, m, setsStyle)
    ensures Fetched(fetches + f, dispatched + Loadings(f), done + {k}, m, resolutions)
  {
    ExtendedStep(pruned, before, after, done, m, k, setsStyle);
    FetchedStep(fetches, dispatched, f, done, m, resolutions, k);
  }

  /** Handling one more group keeps the fetches one per done 'initialized' group. */
  lemma FetchedStep(fetches: seq<Fetch>, dispatched: seq<Dispatch>, f: seq<Fetch>,
                    done: set<Key>, m: AnnotationMap, resolutions: map<string, real>, k: Key)
    requires Fetched(fetches, dispatched, done, m, resolutions) && k !in done && HasGroup(m, k)
    requires GroupOf(m, k).status == Is(Initialized) ==> f == [Fetch(k, Scale(resolutions, m[k.seriesUid].referenceInstanceUid))]
    requires GroupOf(m, k).status != Is(Initialized) ==> f == []
    ensures Fetched(fetches + f, dispatched + Loadings(f), done + {k}, m, resolutions)
  {
    assert ToFetch(m, done + {k}) == ToFetch(m, done) + (if GroupOf(m, k).status == Is(Initialized) then {k} else {});
    if f != [] {
      var all := fetches + f;
      assert all[..|fetches|] == fetches;
      assert Loadings(all) == Loadings(fetches) + Loadings(f) by {
        assert f[..0] == [];
      }
    } else {
      assert fetches + f == fetches;
    }
  }

  /** Once every group is done, the extension is exactly the reconciled layer list. */
  lemma ExtendedComplete(old_: seq<Layer>, layers: seq<Layer>, m: AnnotationMap, setsStyle: bool)
    requires Extended(Pruned(old_, m), layers, GroupKeys(m), m, setsStyle)
    ensures ReconciledLayers(old_, layers, m, setsStyle)
  {
    var pruned := Pruned(old_, m);
    forall i | 0 <= i < |pruned|
      ensures pruned[i].key in GroupKeys(m)
    {
      GroupKeysSpec(m, pruned[i].key);
    }
    forall i | |pruned| <= i < |layers|
      ensures layers[i].key !in KeysOf(old_)
    {
      PrunedKeys(old_, m, layers[i].key);
    }
    forall k | k in KeysOf(pruned)
      ensures k in GroupKeys(m)
    {
      PrunedKeys(old_, m, k);
      GroupKeysSpec(m, k);
    }
  }

  /** A pass over layers that already match the map's groups only restyles them. */
  lemma ExtendedUnchanged(old_: seq<Layer>, layers: seq<Layer>, m: AnnotationMap, setsStyle: bool)
    requires Extended(Pruned(old_, m), layers, GroupKeys(m), m, setsStyle)
    requires KeysOf(old_) == GroupKeys(m)
    ensures |layers| == |old_|
    ensures forall i :: 0 <= i < |layers| ==> HasGroup(m, layers[i].key) && layers[i] == Styled(old_[i], GroupOf(m, layers[i].key), setsStyle)
  {
    forall i | 0 <= i < |old_|
      ensures HasGroup(m, old_[i].key)
    {
      KeyAt(old_, i);
      GroupKeysSpec(m, old_[i].key);
    }
    PrunedAll(old_, m);
    assert |layers| == |old_|;
    forall i | 0 <= i < |layers|
      ensures layers[i] == Styled(old_[i], GroupOf(m, layers[i].key), setsStyle)
    {
      GroupKeysSpec(m, old_[i].key);
    }
  }

  // ---------------------------------------------------------------- the inner loop's body

  /**
   * The layers after the inner loop's body for group `k`: still distinct, with `k` among their
   * keys; an existing layer for `k` restyled in place, otherwise a new one appended.
   */
  ghost predicate GroupAdded(before: seq<Layer>, after: seq<Layer>, k: Key, group: Annotation, setsStyle: bool) {
    && Distinct(after)
    && KeysOf(after) == KeysOf(before) + {k}
    && (k in KeysOf(before) ==> (
          |after| == |before|
          && forall i :: 0 <= i < |after| ==> after[i] == if before[i].key == k then Styled(before[i], group, setsStyle) else before[i]))
    && (k !in KeysOf(before) ==> after == before + [NewLayer(k, group, setsStyle)])
  }

  /** Appending a new layer for an absent key, then restyling it, adds that group. */
  lemma AddedAppend(layers: seq<Layer>, k: Key, group: Annotation, setsStyle: bool)
    requires Distinct(layers) && k !in KeysOf(layers)
    ensures var list := layers + [NewLayer(k, group, setsStyle)];
      GroupAdded(layers, list[|layers| := Styled(list[|layers|], group, setsStyle)], k, group, setsStyle)
  {
    var x := NewLayer(k, group, setsStyle);
    var list := layers + [x];
    assert list[|layers|] == x;
    assert list[|layers| := Styled(x, group, setsStyle)] == list;
    AppendFresh(layers, x);
    assert GroupAdded(layers, list, k, group, setsStyle);
  }

  /** Restyling the one layer with a key touches no other layer, and keeps the keys. */
  lemma AddedInPlace(layers: seq<Layer>, i: int, group: Annotation, setsStyle: bool)
    requires Distinct(layers) && 0 <= i < |layers|
    ensures GroupAdded(layers, layers[i := Styled(layers[i], group, setsStyle)], layers[i].key, group, setsStyle)
  {
    var k, after := layers[i].key, layers[i := Styled(layers[i], group, setsStyle)];
    KeyAt(layers, i);
    RestyleKeeps(layers, i, Styled(layers[i], group, setsStyle));
    assert KeysOf(after) == KeysOf(layers) + {k};
    forall j | 0 <= j < |after|
      ensures after[j] == if layers[j].key == k then Styled(layers[j], group, setsStyle) else layers[j]
    {
      if j != i {
        DistinctPair(layers, i, j);
      }
    }
  }

  lemma DistinctPair(layers: seq<Layer>, i: int, j: int)
    requires Distinct(layers) && 0 <= i < |layers| && 0 <= j < |layers| && i != j
    ensures layers[i].key != layers[j].key
  {
    DistinctKeys(layers);
  }

  // ---------------------------------------------------------------- the inner loop's bookkeeping

  /** The groups of series `s` already visited by the inner loop. */
  ghost function Visited(m: AnnotationMap, s: string, groupsLeft: set<string>): set<Key>
    requires s in m
  {
    set g | g in m[s].groupMap && g !in groupsLeft :: Key(s, g)
  }

  /** Visiting group `g` of series `s` adds its key, which was not yet among those done. */
  lemma VisitedStep(m: AnnotationMap, s: string, groupsLeft: set<string>, g: string, done: set<Key>, now: set<Key>)
    requires s in m && g in groupsLeft && groupsLeft <= m[s].groupMap.Keys
    requires forall k :: k in done ==> k.seriesUid != s
    requires now == done + Visited(m, s, groupsLeft)
    ensures Key(s, g) !in now
    ensures now + {Key(s, g)} == done + Visited(m, s, groupsLeft - {g})
    ensures Visited(m, s, groupsLeft) + {Key(s, g)} == Visited(m, s, groupsLeft - {g})
  {
    assert Key(s, g) !in done;
    assert Visited(m, s, groupsLeft) + {Key(s, g)} == Visited(m, s, groupsLeft - {g});
  }

  lemma VisitedEnds(m: AnnotationMap, s: string)
    requires s in m
    ensures Visited(m, s, m[s].groupMap.Keys) == {}
    ensures Visited(m, s, {}) == SeriesKeys(m, s)
  {
  }
}
