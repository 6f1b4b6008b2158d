/** The editor's reversible commands over live layer objects (packages/editor/src/history.ts).

    A `Sheet` is the state of the document and of every layer object at one moment: commands and
    the document share the objects, so a layer that is out of the document keeps its contents
    until an undo puts it back. */
module Editing {
  import opened Wrappers
  import opened Drawing

  class Layer {
    const id: Id
    var name: string
    var visible: bool
    var opacity: Num
    var strokes: seq<Stroke>

    constructor (id: Id, name: string)
      ensures Value() == LayerValue(id, name, true, Finite(1.0), [])
    {
      this.id := id;
      this.name, visible, opacity, strokes := name, true, Finite(1.0), [];
    }

    function Value(): LayerValue reads this {
      LayerValue(id, name, visible, opacity, strokes)
    }
  }

  datatype Sheet = Sheet(background: Option<Color>, layers: seq<Layer>, data: map<Layer, LayerValue>)

  datatype Command =
    | AddStroke(layerId: Id, stroke: Stroke)
    | AddLayer(layer: Layer, index: int)
    | RemoveLayer(layerId: Id, at: int, snapshot: Option<Layer>)
    | MoveLayer(layerId: Id, toIndex: int, fromIndex: int)
    | RenameLayer(layerId: Id, name: string, previousName: string)
    | SetBackground(background: Option<Color>, previousBackground: Option<Color>)
    | SetLayerVisible(layerId: Id, visible: bool, wasVisible: bool)
    | SetLayerOpacity(layerId: Id, opacity: Num, previousOpacity: Num)
    | Composite(children: seq<Command>)

  /** A command as an object: the history compares them by identity. */
  class CommandObject {
    const command: Command

    constructor (command: Command)
      ensures this.command == command
    {
      this.command := command;
    }
  }

  // ---- lists of layers ----

  // findIndex((l) => l.id === id)
  function IndexOf(layers: seq<Layer>, id: Id): (i: int)
    ensures -1 <= i < |layers|
    ensures i >= 0 ==> layers[i].id == id && forall j :: 0 <= j < i ==> layers[j].id != id
    ensures i == -1 ==> forall j :: 0 <= j < |layers| ==> layers[j].id != id
  {
    if layers == [] then -1
    else if layers[0].id == id then 0
    else
      var i := IndexOf(layers[1..], id);
      if i == -1 then -1 else i + 1
  }

  function StrokeIndex(strokes: seq<Stroke>, id: Id): (i: int)
    ensures -1 <= i < |strokes|
    ensures i >= 0 ==> strokes[i].id == id && forall j :: 0 <= j < i ==> strokes[j].id != id
    ensures i == -1 ==> forall j :: 0 <= j < |strokes| ==> strokes[j].id != id
  {
    if strokes == [] then -1
    else if strokes[0].id == id then 0
    else
      var i := StrokeIndex(strokes[1..], id);
      if i == -1 then -1 else i + 1
  }

  function InsertAt<T>(xs: seq<T>, i: nat, x: T): (r: seq<T>)
    requires i <= |xs|
    ensures |r| == |xs| + 1
    ensures forall j {:trigger r[j]} :: 0 <= j < |r| ==>
              r[j] == if j < i then xs[j] else if j == i then x else xs[j - 1]
  {
    xs[..i] + [x] + xs[i..]
  }

  function RemoveAt<T>(xs: seq<T>, i: nat): (r: seq<T>)
    requires i < |xs|
    ensures |r| == |xs| - 1
    ensures forall j {:trigger r[j]} :: 0 <= j < |r| ==> r[j] == if j < i then xs[j] else xs[j + 1]
  {
    xs[..i] + xs[i + 1..]
  }

  // Math.max(0, Math.min(i, n))
  function Clamp(i: int, n: nat): nat {
    if i < 0 then 0 else if i > n then n else i
  }

  function MoveTo(layers: seq<Layer>, id: Id, target: int): (r: seq<Layer>)
    ensures forall l :: l in r ==> l in layers
  {
    var i := IndexOf(layers, id);
    if i == -1 then layers
    else
      var rest := RemoveAt(layers, i);
      InsertAt(rest, Clamp(target, |rest|), layers[i])
  }

  predicate UniqueIds(layers: seq<Layer>) {
    forall i, j :: 0 <= i < j < |layers| ==> layers[i].id != layers[j].id
  }

  // ---- commands ----

  // every layer of the document has its contents in the sheet
  predicate Known(s: Sheet) {
    forall l :: l in s.layers ==> l in s.data
  }

  // so has every layer the command holds
  predicate Holds(data: map<Layer, LayerValue>, c: Command)
    decreases c
  {
    match c
    case AddLayer(layer, _) => layer in data
    case RemoveLayer(_, _, snapshot) => snapshot.Some? ==> snapshot.value in data
    case Composite(children) => forall k :: 0 <= k < |children| ==> Holds(data, children[k])
    case _ => true
  }

  // an edit of the layer with this id, when there is one
  function EditLayer(s: Sheet, id: Id, edit: LayerValue -> LayerValue): (r: Sheet)
    requires Known(s)
    ensures Known(r) && r.data.Keys == s.data.Keys && r.layers == s.layers
  {
    var i := IndexOf(s.layers, id);
    if i == -1 then s
    else s.(data := s.data[s.layers[i] := edit(s.data[s.layers[i]])])
  }

  function WithStroke(stroke: Stroke): LayerValue -> LayerValue {
    (v: LayerValue) => v.(strokes := v.strokes + [stroke])
  }

  function Apply(s: Sheet, c: Command): (r: Sheet)
    requires Known(s) && Holds(s.data, c)
    ensures Known(r) && r.data.Keys == s.data.Keys
    decreases c, 0
  {
    match c
    case AddStroke(id, stroke) => EditLayer(s, id, WithStroke(stroke))
    case AddLayer(layer, index) => s.(layers := InsertAt(s.layers, Clamp(index, |s.layers|), layer))
    case RemoveLayer(id, _, _) =>
      var i := IndexOf(s.layers, id);
      if i == -1 then s else s.(layers := RemoveAt(s.layers, i))
    case MoveLayer(id, toIndex, _) => s.(layers := MoveTo(s.layers, id, toIndex))
    case RenameLayer(id, name, _) => EditLayer(s, id, (v: LayerValue) => v.(name := name))
    case SetBackground(background, _) => s.(background := background)
    case SetLayerVisible(id, visible, _) => EditLayer(s, id, (v: LayerValue) => v.(visible := visible))
    case SetLayerOpacity(id, opacity, _) => EditLayer(s, id, (v: LayerValue) => v.(opacity := opacity))
    case Composite(children) => ApplyFirst(s, children, |children|, c)
  }

  // the first k children, left to right
  function ApplyFirst(s: Sheet, children: seq<Command>, k: nat, c: Command): (r: Sheet)
    requires Known(s) && c == Composite(children) && k <= |children| && Holds(s.data, c)
    ensures Known(r) && r.data.Keys == s.data.Keys
    decreases c, 0, k
  {
    if k == 0 then s
    else
      var before := ApplyFirst(s, children, k - 1, c);
      HoldsSameKeys(s.data, before.data, children[k - 1]);
      Apply(before, children[k - 1])
  }

  function WithoutStroke(stroke: Stroke): LayerValue -> LayerValue {
    (v: LayerValue) =>
      var i := StrokeIndex(v.strokes, stroke.id);
      if i == -1 then v else v.(strokes := RemoveAt(v.strokes, i))
  }

  function Invert(s: Sheet, c: Command): (r: Sheet)
    requires Known(s) && Holds(s.data, c)
    ensures Known(r) && r.data.Keys == s.data.Keys
    decreases c, 0
  {
    match c
    case AddStroke(id, stroke) => EditLayer(s, id, WithoutStroke(stroke))
    case AddLayer(layer, _) =>
      var i := IndexOf(s.layers, layer.id);
      if i == -1 then s else s.(layers := RemoveAt(s.layers, i))
    case RemoveLayer(_, at, snapshot) =>
      if snapshot.None? then s
      else s.(layers := InsertAt(s.layers, Clamp(at, |s.layers|), snapshot.value))
    case MoveLayer(id, _, fromIndex) => s.(layers := MoveTo(s.layers, id, fromIndex))
    case RenameLayer(id, _, previous) => EditLayer(s, id, (v: LayerValue) => v.(name := previous))
    case SetBackground(_, previous) => s.(background := previous)
    case SetLayerVisible(id, _, previous) => EditLayer(s, id, (v: LayerValue) => v.(visible := previous))
    case SetLayerOpacity(id, _, previous) => EditLayer(s, id, (v: LayerValue) => v.(opacity := previous))
    case Composite(children) => InvertFirst(s, children, |children|, c)
  }

  // the first k children, right to left
  function InvertFirst(s: Sheet, children: seq<Command>, k: nat, c: Command): (r: Sheet)
    requires Known(s) && c == Composite(children) && k <= |children| && Holds(s.data, c)
    ensures Known(r) && r.data.Keys == s.data.Keys
    decreases c, 0, k
  {
    if k == 0 then s
    else
      var after := Invert(s, children[k - 1]);
      HoldsSameKeys(s.data, after.data, c);
      InvertFirst(after, children, k - 1, c)
  }

  lemma HoldsSameKeys(data: map<Layer, LayerValue>, data': map<Layer, LayerValue>, c: Command)
    requires data.Keys == data'.Keys && Holds(data, c)
    ensures Holds(data', c)
    decreases c
  {
    match c
    case AddLayer(layer, _) => assert layer in data.Keys;
    case RemoveLayer(_, _, snapshot) => assert snapshot.Some? ==> snapshot.value in data.Keys;
    case Composite(children) =>
      forall k | 0 <= k < |children| ensures Holds(data', children[k]) {
        HoldsSameKeys(data, data', children[k]);
      }
    case _ =>
  }
}
