/** When undoing a command restores exactly the sheet it was applied to
    (packages/editor/src/history.ts). */
module Exactness {
  import opened Wrappers
  import opened Drawing
  import opened Editing

  predicate Exact(s: Sheet, c: Command)
    requires Known(s) && Holds(s.data, c)
  {
    HoldsSameKeys(s.data, Apply(s, c).data, c);
    Invert(Apply(s, c), c) == s
  }

  /** The command was built at this sheet, as its constructor builds it, and what it adds has an id
      of its own. */
  predicate FitsAt(s: Sheet, c: Command)
    requires Known(s) && Holds(s.data, c)
    decreases c, 0
  {
    match c
    case AddStroke(id, stroke) =>
      var i := IndexOf(s.layers, id);
      i >= 0 ==> StrokeIndex(s.data[s.layers[i]].strokes, stroke.id) == -1
    case AddLayer(layer, _) => IndexOf(s.layers, layer.id) == -1
    case RemoveLayer(id, at, snapshot) =>
      at == IndexOf(s.layers, id) && snapshot == if at >= 0 then Some(s.layers[at]) else None
    case MoveLayer(id, _, fromIndex) => fromIndex == IndexOf(s.layers, id)
    case RenameLayer(id, name, previous) =>
      var i := IndexOf(s.layers, id);
      previous == if i >= 0 then s.data[s.layers[i]].name else name
    case SetBackground(_, previous) => previous == s.background
    case SetLayerVisible(id, visible, previous) =>
      var i := IndexOf(s.layers, id);
      previous == if i >= 0 then s.data[s.layers[i]].visible else visible
    case SetLayerOpacity(id, opacity, previous) =>
      var i := IndexOf(s.layers, id);
      previous == if i >= 0 then s.data[s.layers[i]].opacity else opacity
    case Composite(children) => FirstFit(s, children, |children|, c)
  }

  // each of the first k children fits the sheet the ones before it leave
  predicate FirstFit(s: Sheet, children: seq<Command>, k: nat, c: Command)
    requires Known(s) && c == Composite(children) && k <= |children| && Holds(s.data, c)
    decreases c, 0, k
  {
    k == 0
    || (var before := ApplyFirst(s, children, k - 1, c);
        HoldsSameKeys(s.data, before.data, children[k - 1]);
        FirstFit(s, children, k - 1, c) && FitsAt(before, children[k - 1]))
  }

  // ---- lists ----

  lemma InsertedIndex(layers: seq<Layer>, i: nat, l: Layer)
    requires i <= |layers| && IndexOf(layers, l.id) == -1
    ensures IndexOf(InsertAt(layers, i, l), l.id) == i
    ensures UniqueIds(layers) ==> UniqueIds(InsertAt(layers, i, l))
  {
    assert InsertAt(layers, i, l)[i] == l;
  }

  lemma InsertRemove<T>(xs: seq<T>, i: nat, x: T)
    requires i <= |xs|
    ensures RemoveAt(InsertAt(xs, i, x), i) == xs
  {
  }

  lemma RemoveInsert<T>(xs: seq<T>, i: nat)
    requires i < |xs|
    ensures InsertAt(RemoveAt(xs, i), i, xs[i]) == xs
  {
  }

  lemma RemovedIndex(layers: seq<Layer>, i: nat)
    requires i < |layers| && UniqueIds(layers)
    ensures IndexOf(RemoveAt(layers, i), layers[i].id) == -1
    ensures UniqueIds(RemoveAt(layers, i))
  {
  }

  /** Moving a layer and moving it back to where it came from. */
  lemma MoveBack(layers: seq<Layer>, id: Id, target: int)
    requires UniqueIds(layers)
    ensures MoveTo(MoveTo(layers, id, target), id, IndexOf(layers, id)) == layers
    ensures UniqueIds(MoveTo(layers, id, target))
  {
    var i := IndexOf(layers, id);
    if i >= 0 {
      var rest := RemoveAt(layers, i);
      var at := Clamp(target, |rest|);
      RemovedIndex(layers, i);
      InsertedIndex(rest, at, layers[i]);
      InsertRemove(rest, at, layers[i]);
      RemoveInsert(layers, i);
      assert InsertAt(rest, at, layers[i])[at] == layers[i];
    }
  }

  lemma AppendedStroke(strokes: seq<Stroke>, stroke: Stroke)
    requires StrokeIndex(strokes, stroke.id) == -1
    ensures StrokeIndex(strokes + [stroke], stroke.id) == |strokes|
  {
    var all := strokes + [stroke];
    assert all[|strokes|] == stroke;
    assert forall j :: 0 <= j < |strokes| ==> all[j] == strokes[j];
  }

  lemma RemoveLast<T>(xs: seq<T>, x: T)
    ensures RemoveAt(xs + [x], |xs|) == xs
  {
  }

  // ---- single commands ----

  lemma EditBack(s: Sheet, id: Id, edit: LayerValue -> LayerValue, back: LayerValue -> LayerValue)
    requires Known(s)
    requires var i := IndexOf(s.layers, id); i >= 0 ==> back(edit(s.data[s.layers[i]])) == s.data[s.layers[i]]
    ensures EditLayer(EditLayer(s, id, edit), id, back) == s
  {
    var i := IndexOf(s.layers, id);
    if i >= 0 {
      var l := s.layers[i];
      assert s.data[l := edit(s.data[l])][l := s.data[l]] == s.data;
    }
  }

  lemma StrokeExact(s: Sheet, c: Command)
    requires Known(s) && c.AddStroke? && FitsAt(s, c)
    ensures Exact(s, c)
  {
    var i := IndexOf(s.layers, c.layerId);
    if i >= 0 { StrokeDropped(s.data[s.layers[i]], c.stroke); }
    EditBack(s, c.layerId, WithStroke(c.stroke), WithoutStroke(c.stroke));
  }

  lemma StrokeDropped(v: LayerValue, stroke: Stroke)
    requires StrokeIndex(v.strokes, stroke.id) == -1
    ensures WithoutStroke(stroke)(WithStroke(stroke)(v)) == v
  {
    AppendedStroke(v.strokes, stroke);
    RemoveLast(v.strokes, stroke);
    assert v.(strokes := v.strokes + [stroke]).(strokes := v.strokes) == v;
  }

  lemma AddLayerExact(s: Sheet, c: Command)
    requires c.AddLayer? && Known(s) && Holds(s.data, c) && UniqueIds(s.layers) && FitsAt(s, c)
    ensures Exact(s, c) && UniqueIds(Apply(s, c).layers)
  {
    var at := Clamp(c.index, |s.layers|);
    InsertedIndex(s.layers, at, c.layer);
    InsertRemove(s.layers, at, c.layer);
  }

  lemma RemoveLayerExact(s: Sheet, c: Command)
    requires c.RemoveLayer? && Known(s) && Holds(s.data, c) && UniqueIds(s.layers) && FitsAt(s, c)
    ensures Exact(s, c) && UniqueIds(Apply(s, c).layers)
  {
    if c.at >= 0 { RemovedIndex(s.layers, c.at); }
    RestoredInPlace(s, c);
  }

  lemma RestoredInPlace(s: Sheet, c: Command)
    requires c.RemoveLayer? && Known(s) && Holds(s.data, c) && FitsAt(s, c)
    ensures Exact(s, c)
  {
    var t := Apply(s, c);
    if c.at >= 0 {
      RemoveInsert(s.layers, c.at);
      assert t == s.(layers := RemoveAt(s.layers, c.at));
      assert Invert(t, c) == t.(layers := InsertAt(t.layers, c.at, s.layers[c.at]));
    }
  }

  lemma MoveLayerExact(s: Sheet, c: Command)
    requires c.MoveLayer? && Known(s) && UniqueIds(s.layers) && FitsAt(s, c)
    ensures Exact(s, c) && UniqueIds(Apply(s, c).layers)
  {
    MoveBack(s.layers, c.layerId, c.toIndex);
  }

  lemma EditExact(s: Sheet, c: Command)
    requires c.RenameLayer? || c.SetLayerVisible? || c.SetLayerOpacity?
    requires Known(s) && FitsAt(s, c)
    ensures Exact(s, c)
  {
    match c
    case RenameLayer(id, name, previous) =>
      EditBack(s, id, (v: LayerValue) => v.(name := name), (v: LayerValue) => v.(name := previous));
    case SetLayerVisible(id, visible, previous) =>
      EditBack(s, id, (v: LayerValue) => v.(visible := visible), (v: LayerValue) => v.(visible := previous));
    case SetLayerOpacity(id, opacity, previous) =>
      EditBack(s, id, (v: LayerValue) => v.(opacity := opacity), (v: LayerValue) => v.(opacity := previous));
  }

  // ---- every command ----

  /** Every command executed where it was built, with fresh ids for what it adds, is undone
      exactly: also a composite, when each of its children fits the sheet it is applied to. */
  lemma {:induction false} FittingIsExact(s: Sheet, c: Command)
    requires Known(s) && Holds(s.data, c) && UniqueIds(s.layers) && FitsAt(s, c)
    ensures Exact(s, c) && UniqueIds(Apply(s, c).layers)
    decreases c, 0
  {
    match c
    case AddStroke(_, _) => StrokeExact(s, c);
    case SetBackground(_, _) =>
    case Composite(children) =>
      HoldsSameKeys(s.data, Apply(s, c).data, c);
      FirstExact(s, children, |children|, c);
    case AddLayer(_, _) => AddLayerExact(s, c);
    case RemoveLayer(_, _, _) => RemoveLayerExact(s, c);
    case MoveLayer(_, _, _) => MoveLayerExact(s, c);
    case _ => EditExact(s, c);
  }

  lemma {:induction false} FirstExact(s: Sheet, children: seq<Command>, k: nat, c: Command)
    requires Known(s) && c == Composite(children) && k <= |children| && Holds(s.data, c)
    requires UniqueIds(s.layers) && FirstFit(s, children, k, c)
    ensures Holds(ApplyFirst(s, children, k, c).data, c)
    ensures InvertFirst(ApplyFirst(s, children, k, c), children, k, c) == s
    ensures UniqueIds(ApplyFirst(s, children, k, c).layers)
    decreases c, 0, k
  {
    HoldsSameKeys(s.data, ApplyFirst(s, children, k, c).data, c);
    if k > 0 {
      var before := ApplyFirst(s, children, k - 1, c);
      FirstExact(s, children, k - 1, c);
      FittingIsExact(before, children[k - 1]);
    }
  }
}
