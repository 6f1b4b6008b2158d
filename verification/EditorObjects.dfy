/** The history and the editor as they run: methods that splice the live document and the layer
    objects in place (packages/editor/src/history.ts, editor.ts).

    `all` is every layer object of the editor, in the document or only in the hands of commands. */
module EditorObjects {
  import opened Wrappers
  import opened Drawing
  import opened Editing

  class LiveDocument {
    var background: Option<Color>
    var layers: seq<Layer>

    constructor (background: Option<Color>, layers: seq<Layer>)
      ensures this.background == background && this.layers == layers
    {
      this.background, this.layers := background, layers;
    }
  }

  ghost function SheetOf(doc: LiveDocument, all: set<Layer>): (s: Sheet)
    reads doc, all
    ensures s.data.Keys == all
  {
    Sheet(doc.background, doc.layers, map l | l in all :: l.Value())
  }

  method FindLayer(layers: seq<Layer>, id: Id) returns (i: int)
    ensures i == IndexOf(layers, id)
  {
    var k := 0;
    while k < |layers|
      invariant k <= |layers| && forall j :: 0 <= j < k ==> layers[j].id != id
    {
      if layers[k].id == id { return k; }
      k := k + 1;
    }
    return -1;
  }

  method FindStroke(strokes: seq<Stroke>, id: Id) returns (i: int)
    ensures i == StrokeIndex(strokes, id)
  {
    var k := 0;
    while k < |strokes|
      invariant k <= |strokes| && forall j :: 0 <= j < k ==> strokes[j].id != id
    {
      if strokes[k].id == id { return k; }
      k := k + 1;
    }
    return -1;
  }

  // one layer written, seen as an edit of the sheet as it was
  lemma Edited(was: Sheet, doc: LiveDocument, all: set<Layer>, id: Id, i: int, edit: LayerValue -> LayerValue)
    requires Known(was) && was.data.Keys == all && i == IndexOf(was.layers, id)
    requires doc.background == was.background && doc.layers == was.layers
    requires forall l :: l in all && (i == -1 || l != was.layers[i]) ==> l.Value() == was.data[l]
    requires i >= 0 ==> was.layers[i].Value() == edit(was.data[was.layers[i]])
    ensures SheetOf(doc, all) == EditLayer(was, id, edit)
  {
    assert i >= 0 ==> was.layers[i] in all;
  }

  // layerById(doc, id)?.strokes.push(stroke)
  method PushStroke(doc: LiveDocument, id: Id, stroke: Stroke, ghost all: set<Layer>)
    requires Known(SheetOf(doc, all))
    modifies all
    ensures SheetOf(doc, all) == Apply(old(SheetOf(doc, all)), AddStroke(id, stroke))
  {
    ghost var was := SheetOf(doc, all);
    var i := FindLayer(doc.layers, id);
    if i >= 0 {
      var layer := doc.layers[i];
      assert layer in all;
      layer.strokes := layer.strokes + [stroke];
    }
    Edited(was, doc, all, id, i, WithStroke(stroke));
  }

  method DropStroke(doc: LiveDocument, id: Id, stroke: Stroke, ghost all: set<Layer>)
    requires Known(SheetOf(doc, all))
    modifies all
    ensures SheetOf(doc, all) == Invert(old(SheetOf(doc, all)), AddStroke(id, stroke))
  {
    ghost var was := SheetOf(doc, all);
    var i := FindLayer(doc.layers, id);
    if i >= 0 {
      var layer := doc.layers[i];
      assert layer in all;
      var k := FindStroke(layer.strokes, stroke.id);
      if k != -1 { layer.strokes := RemoveAt(layer.strokes, k); }
    }
    Edited(was, doc, all, id, i, WithoutStroke(stroke));
  }

  method SetName(doc: LiveDocument, id: Id, name: string, ghost all: set<Layer>)
    requires Known(SheetOf(doc, all))
    modifies all
    ensures SheetOf(doc, all) == EditLayer(old(SheetOf(doc, all)), id, (v: LayerValue) => v.(name := name))
  {
    ghost var was := SheetOf(doc, all);
    var i := FindLayer(doc.layers, id);
    if i >= 0 {
      var layer := doc.layers[i];
      assert layer in all;
      layer.name := name;
    }
    Edited(was, doc, all, id, i, (v: LayerValue) => v.(name := name));
  }

  method SetVisible(doc: LiveDocument, id: Id, visible: bool, ghost all: set<Layer>)
    requires Known(SheetOf(doc, all))
    modifies all
    ensures SheetOf(doc, all) == EditLayer(old(SheetOf(doc, all)), id, (v: LayerValue) => v.(visible := visible))
  {
    ghost var was := SheetOf(doc, all);
    var i := FindLayer(doc.layers, id);
    if i >= 0 {
      var layer := doc.layers[i];
      assert layer in all;
      layer.visible := visible;
    }
    Edited(was, doc, all, id, i, (v: LayerValue) => v.(visible := visible));
  }

  method SetOpacity(doc: LiveDocument, id: Id, opacity: Num, ghost all: set<Layer>)
    requires Known(SheetOf(doc, all))
    modifies all
    ensures SheetOf(doc, all) == EditLayer(old(SheetOf(doc, all)), id, (v: LayerValue) => v.(opacity := opacity))
  {
    ghost var was := SheetOf(doc, all);
    var i := FindLayer(doc.layers, id);
    if i >= 0 {
      var layer := doc.layers[i];
      assert layer in all;
      layer.opacity := opacity;
    }
    Edited(was, doc, all, id, i, (v: LayerValue) => v.(opacity := opacity));
  }

  predicate EditsOneLayer(c: Command) {
    c.AddStroke? || c.RenameLayer? || c.SetLayerVisible? || c.SetLayerOpacity?
  }

  // doc.layers.splice(clamped index, 0, layer)
  method SpliceIn(doc: LiveDocument, index: int, layer: Layer)
    modifies doc`layers
    ensures doc.layers == InsertAt(old(doc.layers), Clamp(index, |old(doc.layers)|), layer)
  {
    doc.layers := InsertAt(doc.layers, Clamp(index, |doc.layers|), layer);
  }

  // the layer with this id spliced out, when there is one
  method SpliceOut(doc: LiveDocument, id: Id)
    modifies doc`layers
    ensures var i := IndexOf(old(doc.layers), id);
            doc.layers == if i == -1 then old(doc.layers) else RemoveAt(old(doc.layers), i)
  {
    var i := FindLayer(doc.layers, id);
    if i >= 0 { doc.layers := RemoveAt(doc.layers, i); }
  }

  method MoveLayerTo(doc: LiveDocument, id: Id, target: int)
    modifies doc`layers
    ensures doc.layers == MoveTo(old(doc.layers), id, target)
  {
    var i := FindLayer(doc.layers, id);
    if i == -1 { return; }
    var layer := doc.layers[i];
    doc.layers := RemoveAt(doc.layers, i);
    doc.layers := InsertAt(doc.layers, Clamp(target, |doc.layers|), layer);
  }

  method ApplyEdit(doc: LiveDocument, c: Command, ghost all: set<Layer>)
    requires Known(SheetOf(doc, all)) && EditsOneLayer(c)
    modifies all
    ensures SheetOf(doc, all) == Apply(old(SheetOf(doc, all)), c)
  {
    match c
    case AddStroke(id, stroke) => PushStroke(doc, id, stroke, all);
    case RenameLayer(id, name, _) => SetName(doc, id, name, all);
    case SetLayerVisible(id, visible, _) => SetVisible(doc, id, visible, all);
    case SetLayerOpacity(id, opacity, _) => SetOpacity(doc, id, opacity, all);
  }

  // the document written, no layer object touched
  lemma Relisted(was: Sheet, doc: LiveDocument, all: set<Layer>)
    requires was.data.Keys == all && forall l :: l in all ==> l.Value() == was.data[l]
    ensures SheetOf(doc, all) == was.(background := doc.background, layers := doc.layers)
  {
  }

  method ApplyList(doc: LiveDocument, c: Command, ghost all: set<Layer>)
    requires Known(SheetOf(doc, all)) && Holds(SheetOf(doc, all).data, c)
    requires !EditsOneLayer(c) && !c.Composite?
    modifies doc
    ensures SheetOf(doc, all) == Apply(old(SheetOf(doc, all)), c)
  {
    ghost var was := SheetOf(doc, all);
    match c {
    case AddLayer(layer, index) =>
      SpliceIn(doc, index, layer);
    case RemoveLayer(id, _, _) =>
      SpliceOut(doc, id);
    case MoveLayer(id, toIndex, _) =>
      MoveLayerTo(doc, id, toIndex);
    case SetBackground(background, _) =>
      doc.background := background;
    }
    Relisted(was, doc, all);
  }

  /** Command.apply. */
  method ApplyTo(doc: LiveDocument, c: Command, ghost all: set<Layer>)
    requires Known(SheetOf(doc, all)) && Holds(SheetOf(doc, all).data, c)
    modifies doc, all
    ensures SheetOf(doc, all) == Apply(old(SheetOf(doc, all)), c)
    decreases c
  {
    if c.Composite? {
      ApplyChildren(doc, c.children, all, c);
    } else if EditsOneLayer(c) {
      ApplyEdit(doc, c, all);
    } else {
      ApplyList(doc, c, all);
    }
  }

  method ApplyChildren(doc: LiveDocument, children: seq<Command>, ghost all: set<Layer>, ghost c: Command)
    requires c == Composite(children) && Known(SheetOf(doc, all)) && Holds(SheetOf(doc, all).data, c)
    modifies doc, all
    ensures SheetOf(doc, all) == ApplyFirst(old(SheetOf(doc, all)), children, |children|, c)
    decreases c, 0
  {
    ghost var start := SheetOf(doc, all);
    var k := 0;
    while k < |children|
      invariant 0 <= k <= |children| && Known(start) && Holds(start.data, c)
      invariant SheetOf(doc, all) == ApplyFirst(start, children, k, c)
    {
      HoldsSameKeys(start.data, SheetOf(doc, all).data, children[k]);
      ApplyTo(doc, children[k], all);
      k := k + 1;
    }
  }

  method InvertEdit(doc: LiveDocument, c: Command, ghost all: set<Layer>)
    requires Known(SheetOf(doc, all)) && EditsOneLayer(c)
    modifies all
    ensures SheetOf(doc, all) == Invert(old(SheetOf(doc, all)), c)
  {
    match c
    case AddStroke(id, stroke) => DropStroke(doc, id, stroke, all);
    case RenameLayer(id, _, previous) => SetName(doc, id, previous, all);
    case SetLayerVisible(id, _, previous) => SetVisible(doc, id, previous, all);
    case SetLayerOpacity(id, _, previous) => SetOpacity(doc, id, previous, all);
  }

  method InvertList(doc: LiveDocument, c: Command, ghost all: set<Layer>)
    requires Known(SheetOf(doc, all)) && Holds(SheetOf(doc, all).data, c)
    requires !EditsOneLayer(c) && !c.Composite?
    modifies doc
    ensures SheetOf(doc, all) == Invert(old(SheetOf(doc, all)), c)
  {
    ghost var was := SheetOf(doc, all);
    match c {
    case AddLayer(layer, _) =>
      SpliceOut(doc, layer.id);
    case RemoveLayer(_, at, snapshot) =>
      if snapshot.Some? { SpliceIn(doc, at, snapshot.value); }
    case MoveLayer(id, _, fromIndex) =>
      MoveLayerTo(doc, id, fromIndex);
    case SetBackground(_, previous) =>
      doc.background := previous;
    }
    Relisted(was, doc, all);
  }

  /** Command.invert. */
  method InvertOn(doc: LiveDocument, c: Command, ghost all: set<Layer>)
    requires Known(SheetOf(doc, all)) && Holds(SheetOf(doc, all).data, c)
    modifies doc, all
    ensures SheetOf(doc, all) == Invert(old(SheetOf(doc, all)), c)
    decreases c
  {
    if c.Composite? {
      InvertChildren(doc, c.children, all, c);
    } else if EditsOneLayer(c) {
      InvertEdit(doc, c, all);
    } else {
      InvertList(doc, c, all);
    }
  }

  method InvertChildren(doc: LiveDocument, children: seq<Command>, ghost all: set<Layer>, ghost c: Command)
    requires c == Composite(children) && Known(SheetOf(doc, all)) && Holds(SheetOf(doc, all).data, c)
    modifies doc, all
    ensures SheetOf(doc, all) == InvertFirst(old(SheetOf(doc, all)), children, |children|, c)
    decreases c, 0
  {
    ghost var start := SheetOf(doc, all);
    var k := |children|;
    while k > 0
      invariant 0 <= k <= |children| && Known(start) && Holds(start.data, c)
      invariant Known(SheetOf(doc, all)) && Holds(SheetOf(doc, all).data, c)
      invariant InvertFirst(SheetOf(doc, all), children, k, c) == InvertFirst(start, children, |children|, c)
    {
      InvertOn(doc, children[k - 1], all);
      HoldsSameKeys(start.data, SheetOf(doc, all).data, c);
      k := k - 1;
    }
  }
}
