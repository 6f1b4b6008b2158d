/** What each single command leaves behind, read off the document and the layers' contents
    (packages/editor/src/history.ts). */
module CommandEffects {
  import opened Drawing
  import opened Editing

  /** The index is that of the first layer with the id. */
  predicate FirstAt(layers: seq<Layer>, id: Id, i: nat) {
    i < |layers| && layers[i].id == id && forall j :: 0 <= j < i ==> layers[j].id != id
  }

  predicate Missing(layers: seq<Layer>, id: Id) {
    forall j :: 0 <= j < |layers| ==> layers[j].id != id
  }

  /** The document lists the same layers, and only this one's contents may differ. */
  predicate OnlyContents(s: Sheet, t: Sheet, l: Layer) {
    t.background == s.background && t.layers == s.layers && t.data.Keys == s.data.Keys && l in s.data
    && forall k :: k in s.data && k != l ==> t.data[k] == s.data[k]
  }

  // no contents differ
  predicate OnlyList(s: Sheet, t: Sheet) {
    t.background == s.background && t.data == s.data
  }

  /** A command on a layer changes the one thing it is about, on the first layer with the id. */
  lemma LayerEdits(s: Sheet, c: Command, i: nat)
    requires Known(s) && (c.AddStroke? || c.RenameLayer? || c.SetLayerVisible? || c.SetLayerOpacity?)
    requires FirstAt(s.layers, c.layerId, i)
    ensures OnlyContents(s, Apply(s, c), s.layers[i])
    ensures var v, w := s.data[s.layers[i]], Apply(s, c).data[s.layers[i]];
            match c
            case AddStroke(_, stroke) => w == LayerValue(v.id, v.name, v.visible, v.opacity, v.strokes + [stroke])
            case RenameLayer(_, name, _) => w == LayerValue(v.id, name, v.visible, v.opacity, v.strokes)
            case SetLayerVisible(_, visible, _) => w == LayerValue(v.id, v.name, visible, v.opacity, v.strokes)
            case SetLayerOpacity(_, opacity, _) => w == LayerValue(v.id, v.name, v.visible, opacity, v.strokes)
  {
    FirstIsIndex(s.layers, c.layerId, i);
  }

  lemma FirstIsIndex(layers: seq<Layer>, id: Id, i: nat)
    requires FirstAt(layers, id, i)
    ensures IndexOf(layers, id) == i
  {
    assert layers[i].id == id;
  }

  /** Undoing such a command puts the recorded value back, or takes out the first stroke with the
      added one's id. */
  lemma LayerEditsUndone(s: Sheet, c: Command, i: nat)
    requires Known(s) && (c.AddStroke? || c.RenameLayer? || c.SetLayerVisible? || c.SetLayerOpacity?)
    requires FirstAt(s.layers, c.layerId, i)
    ensures OnlyContents(s, Invert(s, c), s.layers[i])
    ensures var v, w := s.data[s.layers[i]], Invert(s, c).data[s.layers[i]];
            match c
            case AddStroke(_, stroke) =>
              w.(strokes := v.strokes) == v
              && (StrokeIndex(v.strokes, stroke.id) == -1 ==> w == v)
              && (StrokeIndex(v.strokes, stroke.id) >= 0 ==>
                    w.strokes == RemoveAt(v.strokes, StrokeIndex(v.strokes, stroke.id)))
            case RenameLayer(_, _, name) => w == LayerValue(v.id, name, v.visible, v.opacity, v.strokes)
            case SetLayerVisible(_, _, visible) => w == LayerValue(v.id, v.name, visible, v.opacity, v.strokes)
            case SetLayerOpacity(_, _, opacity) => w == LayerValue(v.id, v.name, v.visible, opacity, v.strokes)
  {
    FirstIsIndex(s.layers, c.layerId, i);
  }

  /** The background command changes the background and nothing else. */
  lemma BackgroundEdits(s: Sheet, c: Command)
    requires Known(s) && c.SetBackground?
    ensures Apply(s, c) == Sheet(c.background, s.layers, s.data)
    ensures Invert(s, c) == Sheet(c.previousBackground, s.layers, s.data)
  {
  }

  /** A command about a layer that is not in the document does nothing. */
  lemma MissingLayer(s: Sheet, c: Command)
    requires Known(s) && Holds(s.data, c) && !c.AddLayer? && !c.SetBackground? && !c.Composite?
    requires Missing(s.layers, c.layerId)
    ensures Apply(s, c) == s
  {
    assert IndexOf(s.layers, c.layerId) == -1;
  }

  /** No index in the list is nearer to the one asked for. */
  lemma ClampIsNearest(i: int, n: nat, k: nat)
    requires k <= n
    ensures Clamp(i, n) <= n
    ensures var at := Clamp(i, n); (if at < i then i - at else at - i) <= if k < i then i - k else k - i
  {
  }

  /** A layer that is added, taken out or moved: where it is, and that all others stay as and in the
      order they were. */
  lemma ListEdits(s: Sheet, c: Command)
    requires Known(s) && Holds(s.data, c)
    ensures var t := Apply(s, c);
            match c
            case AddLayer(layer, index) =>
              OnlyList(s, t) && |t.layers| == |s.layers| + 1
              && t.layers[Clamp(index, |s.layers|)] == layer
              && RemoveAt(t.layers, Clamp(index, |s.layers|)) == s.layers
            case RemoveLayer(id, _, _) =>
              OnlyList(s, t)
              && forall i: nat :: FirstAt(s.layers, id, i) ==> t.layers == RemoveAt(s.layers, i)
            case MoveLayer(id, toIndex, _) =>
              OnlyList(s, t) && forall i: nat :: FirstAt(s.layers, id, i) ==> IsMove(s.layers, t.layers, i, toIndex)
            case _ => true
  {
    match c
    case AddLayer(layer, index) => InsertedThere(s.layers, Clamp(index, |s.layers|), layer);
    case RemoveLayer(id, _, _) =>
      forall i: nat | FirstAt(s.layers, id, i) ensures Apply(s, c).layers == RemoveAt(s.layers, i) {
        FirstIsIndex(s.layers, id, i);
      }
    case MoveLayer(id, toIndex, _) =>
      forall i: nat | FirstAt(s.layers, id, i) ensures IsMove(s.layers, Apply(s, c).layers, i, toIndex) {
        FirstIsIndex(s.layers, id, i);
        MovedThere(s.layers, id, toIndex);
      }
    case _ =>
  }

  lemma InsertedThere<T>(xs: seq<T>, i: nat, x: T)
    requires i <= |xs|
    ensures InsertAt(xs, i, x)[i] == x && RemoveAt(InsertAt(xs, i, x), i) == xs
  {
  }

  /** The layer that was at `from` is as near to `target` as the list allows, and without it both
      lists are the same. */
  predicate IsMove(before: seq<Layer>, after: seq<Layer>, from: nat, target: int)
    requires from < |before|
  {
    var at := Clamp(target, |before| - 1);
    |after| == |before| && after[at] == before[from] && RemoveAt(after, at) == RemoveAt(before, from)
  }

  lemma MovedThere(layers: seq<Layer>, id: Id, target: int)
    requires IndexOf(layers, id) >= 0
    ensures IsMove(layers, MoveTo(layers, id, target), IndexOf(layers, id), target)
  {
    var i := IndexOf(layers, id);
    var rest := RemoveAt(layers, i);
    InsertedThere(rest, Clamp(target, |rest|), layers[i]);
  }
}
