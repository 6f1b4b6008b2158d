/** Accepting an AI proposal: one composite command out of a batch of operations
    (packages/editor/src/editor.ts:327-374). */
module AcceptOps {
  import opened Wrappers
  import opened Drawing
  import opened Editing
  import opened Exactness
  import opened CommandLists

  // ---- the commands of a batch ----

  /** The variables of the loop over the operations. */
  datatype Plan = Plan(
    commands: seq<Command>, idMap: map<Id, Id>, added: nat, topIndex: int, drawnInto: seq<Id>, lastAdded: Option<Id>)

  function StartPlan(top: nat): Plan {
    Plan([], map[], 0, top, [], None)
  }

  // idMap.get(id) ?? id
  function Resolve(idMap: map<Id, Id>, id: Id): Id {
    if id in idMap then idMap[id] else id
  }

  /** One operation; `made` are the layer objects the batch creates, in order. */
  function PlanOp(p: Plan, op: Op, made: seq<Layer>): Plan
    requires op.AddLayerOp? ==> p.added < |made|
  {
    match op
    case AddLayerOp(id, name) =>
      var layer := made[p.added];
      p.(commands := p.commands + [AddLayer(layer, p.topIndex)], idMap := p.idMap[id := layer.id],
         added := p.added + 1, topIndex := p.topIndex + 1, lastAdded := Some(layer.id))
    case AddStrokeOp(layerId, stroke) =>
      var id := Resolve(p.idMap, layerId);
      p.(commands := p.commands + [AddStroke(id, stroke)],
         drawnInto := if id in p.drawnInto then p.drawnInto else p.drawnInto + [id])
  }

  function LayerOps(ops: seq<Op>): nat {
    if ops == [] then 0 else LayerOps(ops[..|ops| - 1]) + if ops[|ops| - 1].AddLayerOp? then 1 else 0
  }

  // the names of the layers a batch adds, in order
  function LayerNames(ops: seq<Op>): (r: seq<string>)
    ensures |r| == LayerOps(ops)
  {
    if ops == [] then []
    else
      var last := ops[|ops| - 1];
      LayerNames(ops[..|ops| - 1]) + if last.AddLayerOp? then [last.name] else []
  }

  function PlanOps(ops: seq<Op>, made: seq<Layer>, top: nat): (p: Plan)
    requires LayerOps(ops) <= |made|
    ensures p.added == LayerOps(ops) && p.topIndex == top + p.added && |p.commands| == |ops|
  {
    if ops == [] then StartPlan(top)
    else
      var last := |ops| - 1;
      PlanOp(PlanOps(ops[..last], made, top), ops[last], made)
  }

  // removeLayerCommand(doc, id)
  function RemovalOf(layers: seq<Layer>, id: Id): Command {
    var i := IndexOf(layers, id);
    RemoveLayer(id, i, if i >= 0 then Some(layers[i]) else None)
  }

  /** The removals of 'replace', all built on the document as it was before: the first n layers. */
  function Removals(layers: seq<Layer>, drawnInto: seq<Id>, n: nat): seq<Command>
    requires n <= |layers|
  {
    if n == 0 then []
    else Removals(layers, drawnInto, n - 1)
         + if layers[n - 1].id in drawnInto then [] else [RemovalOf(layers, layers[n - 1].id)]
  }

  datatype Mode = AddMode | ReplaceMode

  function AcceptedCommands(layers: seq<Layer>, ops: seq<Op>, made: seq<Layer>, mode: Mode): seq<Command>
    requires LayerOps(ops) <= |made|
  {
    var p := PlanOps(ops, made, |layers|);
    p.commands + if mode.ReplaceMode? then Removals(layers, p.drawnInto, |layers|) else []
  }

  function ActiveAfter(active: Id, p: Plan, mode: Mode): Id {
    if mode.AddMode? || active in p.drawnInto then active
    else if p.lastAdded.Some? then p.lastAdded.value
    else if p.drawnInto != [] then p.drawnInto[0]
    else active
  }

  // ---- what a batch may look like ----

  /** The layer objects are new: unused ids, and empty. */
  predicate FreshLayers(s: Sheet, made: seq<Layer>) {
    UniqueIds(s.layers + made)
    && forall i :: 0 <= i < |made| ==>
         made[i] in s.data && made[i] !in s.layers && s.data[made[i]].id == made[i].id && s.data[made[i]].strokes == []
  }

  predicate StrokeUsed(s: Sheet, id: Id) {
    exists l, k :: l in s.layers && l in s.data && 0 <= k < |s.data[l].strokes| && s.data[l].strokes[k].id == id
  }

  /** The strokes of the batch have ids of their own. */
  predicate FreshStrokes(s: Sheet, ops: seq<Op>) {
    (forall k :: 0 <= k < |ops| && ops[k].AddStrokeOp? ==> !StrokeUsed(s, ops[k].stroke.id))
    && forall j, k :: 0 <= j < k < |ops| && ops[j].AddStrokeOp? && ops[k].AddStrokeOp? ==>
         ops[j].stroke.id != ops[k].stroke.id
  }

  // ---- the document after the adds ----

  lemma {:induction false} PlanHolds(s: Sheet, ops: seq<Op>, made: seq<Layer>, top: nat)
    requires LayerOps(ops) <= |made| && forall i :: 0 <= i < |made| ==> made[i] in s.data
    ensures HoldsAll(s.data, PlanOps(ops, made, top).commands)
    ensures forall k :: 0 <= k < |ops| ==>
              PlanOps(ops, made, top).commands[k].AddLayer? || PlanOps(ops, made, top).commands[k].AddStroke?
    ensures ops != [] ==> PlanOps(ops, made, top).commands[..|ops| - 1] == PlanOps(ops[..|ops| - 1], made, top).commands
  {
    if ops != [] { PlanHolds(s, ops[..|ops| - 1], made, top); }
  }

  // only the layers made so far matter
  lemma {:induction false} PlanMade(ops: seq<Op>, made: seq<Layer>, more: seq<Layer>, top: nat)
    requires LayerOps(ops) <= |made|
    ensures PlanOps(ops, made + more, top) == PlanOps(ops, made, top)
  {
    if ops != [] { PlanMade(ops[..|ops| - 1], made, more, top); }
  }

  lemma {:induction false} FewerLayerOps(ops: seq<Op>, k: nat)
    requires k <= |ops|
    ensures LayerOps(ops[..k]) <= LayerOps(ops)
    decreases |ops|
  {
    if k < |ops| {
      FewerLayerOps(ops[..|ops| - 1], k);
      assert ops[..|ops| - 1][..k] == ops[..k];
    } else {
      assert ops[..k] == ops;
    }
  }

  // the adds so far
  function Planned(s: Sheet, ops: seq<Op>, made: seq<Layer>): Sheet
    requires Known(s) && LayerOps(ops) <= |made| && forall i :: 0 <= i < |made| ==> made[i] in s.data
  {
    PlanHolds(s, ops, made, |s.layers|);
    ApplyAll(s, PlanOps(ops, made, |s.layers|).commands)
  }

  lemma PlannedStep(s: Sheet, ops: seq<Op>, made: seq<Layer>)
    requires Known(s) && ops != [] && LayerOps(ops) <= |made| && forall i :: 0 <= i < |made| ==> made[i] in s.data
    ensures var before := Planned(s, ops[..|ops| - 1], made);
            var c := PlanOps(ops, made, |s.layers|).commands[|ops| - 1];
            Holds(before.data, c) && Planned(s, ops, made) == Apply(before, c)
  {
    PlanHolds(s, ops, made, |s.layers|);
    var before := Planned(s, ops[..|ops| - 1], made);
    HoldsSameKeys(s.data, before.data, PlanOps(ops, made, |s.layers|).commands[|ops| - 1]);
  }

  /** New layers go on top, in the order of the batch. */
  lemma {:induction false} PlannedLayers(s: Sheet, ops: seq<Op>, made: seq<Layer>)
    requires Known(s) && LayerOps(ops) <= |made| && forall i :: 0 <= i < |made| ==> made[i] in s.data
    ensures Planned(s, ops, made).layers == s.layers + made[..LayerOps(ops)]
    ensures Planned(s, ops, made).background == s.background
  {
    if ops == [] {
      assert s.layers + made[..0] == s.layers;
    } else {
      var last := |ops| - 1;
      PlannedLayers(s, ops[..last], made);
      PlannedStep(s, ops, made);
      if ops[last].AddLayerOp? {
        AddedOnTop(s.layers, made, LayerOps(ops[..last]));
      }
    }
  }

  lemma AddedOnTop(layers: seq<Layer>, made: seq<Layer>, n: nat)
    requires n < |made|
    ensures InsertAt(layers + made[..n], |layers| + n, made[n]) == layers + made[..n + 1]
  {
  }

  // ---- what the adds draw ----

  /** The strokes the commands append to the layer with this id, in order. */
  function StrokesTo(cs: seq<Command>, id: Id): seq<Stroke> {
    if cs == [] then []
    else
      var c := cs[|cs| - 1];
      StrokesTo(cs[..|cs| - 1], id) + if c.AddStroke? && c.layerId == id then [c.stroke] else []
  }

  /** Every stroke names a layer that is there when it is drawn: an old one, or one the batch added
      before. */
  predicate Resolved(layers: seq<Layer>, ops: seq<Op>, made: seq<Layer>)
    requires LayerOps(ops) <= |made|
  {
    ops == []
    || (var last := |ops| - 1;
        Resolved(layers, ops[..last], made)
        && (ops[last].AddStrokeOp? ==>
              var before := PlanOps(ops[..last], made, |layers|);
              IndexOf(layers + made[..before.added], Resolve(before.idMap, ops[last].layerId)) >= 0))
  }

  /** A batch on a sheet: its layer objects are new.  What its strokes name need not be there. */
  predicate Batch(s: Sheet, ops: seq<Op>, made: seq<Layer>) {
    Known(s) && LayerOps(ops) <= |made| && FreshLayers(s, made)
  }

  lemma UniqueMember(layers: seq<Layer>, l: Layer, i: nat)
    requires UniqueIds(layers) && l in layers && i < |layers| && layers[i].id == l.id
    ensures layers[i] == l
  {
    var k :| 0 <= k < |layers| && layers[k] == l;
  }

  // one stroke added to the layer with this id
  lemma StrokeAdded(s: Sheet, id: Id, stroke: Stroke, l: Layer)
    requires Known(s) && l in s.data && IndexOf(s.layers, id) >= 0
    requires l.id == id ==> s.layers[IndexOf(s.layers, id)] == l
    ensures Apply(s, AddStroke(id, stroke)).data[l]
         == s.data[l].(strokes := s.data[l].strokes + if l.id == id then [stroke] else [])
  {
    if l.id != id { SameStrokes(s.data[l]); }
  }

  lemma TakeBoth<T>(xs: seq<T>, ys: seq<T>, n: nat)
    requires n <= |ys|
    ensures (xs + ys)[..|xs| + n] == xs + ys[..n]
  {
  }

  // the layer a stroke is drawn on is there
  lemma TargetThere(s: Sheet, ops: seq<Op>, made: seq<Layer>, l: Layer)
    requires Batch(s, ops, made) && Resolved(s.layers, ops, made)
    requires ops != [] && ops[|ops| - 1].AddStrokeOp? && l in s.layers + made
    ensures var before, c := Planned(s, ops[..|ops| - 1], made), PlanOps(ops, made, |s.layers|).commands[|ops| - 1];
            c.AddStroke? && c.stroke == ops[|ops| - 1].stroke && IndexOf(before.layers, c.layerId) >= 0
            && (l.id == c.layerId ==> before.layers[IndexOf(before.layers, c.layerId)] == l)
  {
    var n := LayerOps(ops[..|ops| - 1]);
    PlannedLayers(s, ops[..|ops| - 1], made);
    TakeBoth(s.layers, made, n);
    var before, id := s.layers + made[..n], PlanOps(ops, made, |s.layers|).commands[|ops| - 1].layerId;
    if l.id == id {
      assert (s.layers + made)[IndexOf(before, id)] == before[IndexOf(before, id)];
      UniqueMember(s.layers + made, l, IndexOf(before, id));
    }
  }

  // one operation of the batch, seen on one layer
  lemma PlannedDataStep(s: Sheet, ops: seq<Op>, made: seq<Layer>, l: Layer)
    requires Batch(s, ops, made) && Resolved(s.layers, ops, made)
    requires ops != [] && l in s.layers + made && l in s.data
    ensures var before, cs := Planned(s, ops[..|ops| - 1], made), PlanOps(ops, made, |s.layers|).commands;
            l in before.data && l in Planned(s, ops, made).data
            && Planned(s, ops, made).data[l]
            == before.data[l].(strokes := before.data[l].strokes + StrokesTo([cs[|ops| - 1]], l.id))
  {
    var last := |ops| - 1;
    var before, c := Planned(s, ops[..last], made), PlanOps(ops, made, |s.layers|).commands[last];
    PlannedStep(s, ops, made);
    OneCommand(c, l.id);
    if ops[last].AddLayerOp? {
      SameStrokes(before.data[l]);
    } else {
      TargetThere(s, ops, made, l);
      StrokeAdded(before, c.layerId, c.stroke, l);
    }
  }

  lemma OneCommand(c: Command, id: Id)
    ensures StrokesTo([c], id) == if c.AddStroke? && c.layerId == id then [c.stroke] else []
  {
    assert [c][..0] == [];
    assert StrokesTo([c], id) == StrokesTo([c][..0], id) + if c.AddStroke? && c.layerId == id then [c.stroke] else [];
  }

  lemma SameStrokes(v: LayerValue)
    ensures v.(strokes := v.strokes + []) == v
  {
    assert v.strokes + [] == v.strokes;
  }

  /** Every layer, old or new, has what it had and then exactly the strokes the batch names it
      for. */
  lemma {:induction false} PlannedData(s: Sheet, ops: seq<Op>, made: seq<Layer>, l: Layer)
    requires Batch(s, ops, made) && Resolved(s.layers, ops, made) && l in s.layers + made
    ensures l in s.data && l in Planned(s, ops, made).data
    ensures Planned(s, ops, made).data[l]
         == s.data[l].(strokes := s.data[l].strokes + StrokesTo(PlanOps(ops, made, |s.layers|).commands, l.id))
  {
    assert l in s.data;
    if ops == [] {
      SameStrokes(s.data[l]);
    } else {
      var last := |ops| - 1;
      var cs := PlanOps(ops, made, |s.layers|).commands;
      PlannedData(s, ops[..last], made, l);
      PlannedDataStep(s, ops, made, l);
      PlanHolds(s, ops, made, |s.layers|);
      Appended(s.data[l].strokes, StrokesTo(cs[..last], l.id), StrokesTo([cs[last]], l.id));
      StrokesToLast(cs, l.id);
    }
  }

  lemma StrokesToLast(cs: seq<Command>, id: Id)
    requires cs != []
    ensures StrokesTo(cs, id) == StrokesTo(cs[..|cs| - 1], id) + StrokesTo([cs[|cs| - 1]], id)
  {
    OneCommand(cs[|cs| - 1], id);
  }

  lemma Appended(a: seq<Stroke>, b: seq<Stroke>, c: seq<Stroke>)
    ensures (a + b) + c == a + (b + c)
  {
  }

  // ---- the adds fit ----

  /** A stroke on a layer after the adds was there before, or some operation brought it. */
  lemma {:induction false} DrawnFrom(s: Sheet, ops: seq<Op>, made: seq<Layer>, l: Layer, x: Stroke)
    returns (k: Option<nat>)
    requires Batch(s, ops, made) && l in s.data
    requires l in Planned(s, ops, made).data && x in Planned(s, ops, made).data[l].strokes
    ensures k.None? ==> x in s.data[l].strokes
    ensures k.Some? ==> k.value < |ops| && ops[k.value].AddStrokeOp? && ops[k.value].stroke == x
  {
    if ops == [] {
      k := None;
    } else {
      var last := |ops| - 1;
      PlannedStep(s, ops, made);
      if ops[last].AddStrokeOp? && ops[last].stroke == x {
        k := Some(last);
      } else {
        k := DrawnFrom(s, ops[..last], made, l, x);
      }
    }
  }

  lemma UnusedId(layers: seq<Layer>, made: seq<Layer>, n: nat)
    requires UniqueIds(layers + made) && n < |made|
    ensures IndexOf(layers + made[..n], made[n].id) == -1
  {
    var all, some := layers + made, layers + made[..n];
    assert forall j :: 0 <= j < |some| ==> some[j] == all[j];
    assert all[|layers| + n] == made[n];
  }

  lemma FitsOne(s: Sheet, ops: seq<Op>, made: seq<Layer>)
    requires Batch(s, ops, made) && FreshStrokes(s, ops) && ops != []
    ensures var before := Planned(s, ops[..|ops| - 1], made);
            var c := PlanOps(ops, made, |s.layers|).commands[|ops| - 1];
            Holds(before.data, c) && FitsAt(before, c)
  {
    var last := |ops| - 1;
    PlannedStep(s, ops, made);
    PlannedLayers(s, ops[..last], made);
    var p, before := PlanOps(ops[..last], made, |s.layers|), Planned(s, ops[..last], made);
    match ops[last]
    case AddLayerOp(_, _) => UnusedId(s.layers, made, p.added);
    case AddStrokeOp(layerId, stroke) =>
      var i := IndexOf(before.layers, Resolve(p.idMap, layerId));
      if i >= 0 { FreshInTarget(s, ops, made, before.layers[i]); }
  }

  lemma FreshInTarget(s: Sheet, ops: seq<Op>, made: seq<Layer>, target: Layer)
    requires Batch(s, ops, made) && FreshStrokes(s, ops) && ops != [] && ops[|ops| - 1].AddStrokeOp?
    requires target in Planned(s, ops[..|ops| - 1], made).layers
    ensures StrokeIndex(Planned(s, ops[..|ops| - 1], made).data[target].strokes, ops[|ops| - 1].stroke.id) == -1
  {
    var last := |ops| - 1;
    var strokes := Planned(s, ops[..last], made).data[target].strokes;
    PlannedLayers(s, ops[..last], made);
    OldOrEmpty(s, made, LayerOps(ops[..last]), target);
    forall j | 0 <= j < |strokes| ensures strokes[j].id != ops[last].stroke.id {
      var k := DrawnFrom(s, ops[..last], made, target, strokes[j]);
      assert k.None? && target in s.layers ==> StrokeUsed(s, strokes[j].id);
    }
  }

  lemma OldOrEmpty(s: Sheet, made: seq<Layer>, n: nat, l: Layer)
    requires FreshLayers(s, made) && n <= |made| && l in s.layers + made[..n]
    ensures l in s.layers || (l in s.data && s.data[l].strokes == [])
  {
    if l !in s.layers {
      var j :| 0 <= j < n && made[j] == l;
    }
  }

  lemma {:induction false} PlanFits(s: Sheet, ops: seq<Op>, made: seq<Layer>)
    requires Batch(s, ops, made) && FreshStrokes(s, ops)
    ensures HoldsAll(s.data, PlanOps(ops, made, |s.layers|).commands)
    ensures FitsAll(s, PlanOps(ops, made, |s.layers|).commands)
  {
    PlanHolds(s, ops, made, |s.layers|);
    if ops != [] {
      var last := |ops| - 1;
      var cs, before := PlanOps(ops, made, |s.layers|).commands, PlanOps(ops[..last], made, |s.layers|).commands;
      PlanFits(s, ops[..last], made);
      FitsOne(s, ops, made);
      assert cs == before + [cs[last]];
      FitsAppend(s, before, cs[last]);
    }
  }

  lemma UniquePrefix(layers: seq<Layer>, made: seq<Layer>)
    requires UniqueIds(layers + made)
    ensures UniqueIds(layers)
  {
    assert forall i :: 0 <= i < |layers| ==> (layers + made)[i] == layers[i];
  }

  /** An accepted 'add' proposal is one command that fits: one undo takes all of it back. */
  lemma AcceptedAddFits(s: Sheet, ops: seq<Op>, made: seq<Layer>)
    requires Batch(s, ops, made) && FreshStrokes(s, ops)
    ensures var c := Composite(AcceptedCommands(s.layers, ops, made, AddMode));
            Holds(s.data, c) && FitsAt(s, c) && Exact(s, c)
  {
    var cs := PlanOps(ops, made, |s.layers|).commands;
    PlanFits(s, ops, made);
    CompositeFits(s, cs);
    assert AcceptedCommands(s.layers, ops, made, AddMode) == cs;
    UniquePrefix(s.layers, made);
    FittingIsExact(s, Composite(cs));
  }
}
