/** What an accepted proposal leaves in the document, whatever it names
    (packages/editor/src/editor.ts:327-374). */
module Proposals {
  import opened Wrappers
  import opened Drawing
  import opened Editing
  import opened Exactness
  import opened Seqs
  import opened Reinsertion
  import opened CommandLists
  import opened AcceptOps
  import opened ReplaceUndo

  lemma AcceptedHolds(s: Sheet, ops: seq<Op>, made: seq<Layer>, mode: Mode)
    requires Known(s) && LayerOps(ops) <= |made| && forall i :: 0 <= i < |made| ==> made[i] in s.data
    ensures HoldsAll(s.data, AcceptedCommands(s.layers, ops, made, mode))
    ensures Holds(s.data, Composite(AcceptedCommands(s.layers, ops, made, mode)))
  {
    PlanHolds(s, ops, made, |s.layers|);
    RemovalsHold(s, PlanOps(ops, made, |s.layers|).drawnInto, |s.layers|);
  }

  /** The document after the proposal. */
  function Accepted(s: Sheet, ops: seq<Op>, made: seq<Layer>, mode: Mode): Sheet
    requires Batch(s, ops, made)
  {
    AcceptedHolds(s, ops, made, mode);
    Apply(s, Composite(AcceptedCommands(s.layers, ops, made, mode)))
  }

  lemma AcceptedLayers(s: Sheet, ops: seq<Op>, made: seq<Layer>, mode: Mode)
    requires Batch(s, ops, made)
    ensures var old' := if mode.ReplaceMode? then Without(s.layers, Replaced(s, ops, made)) else s.layers;
            Accepted(s, ops, made, mode).layers == old' + made[..LayerOps(ops)]
  {
    var cs := AcceptedCommands(s.layers, ops, made, mode);
    AcceptedHolds(s, ops, made, mode);
    CompositeIsAll(s, cs);
    if mode.ReplaceMode? {
      ReplaceApplied(s, ops, made);
    } else {
      assert cs == PlanOps(ops, made, |s.layers|).commands;
      PlannedLayers(s, ops, made);
    }
  }

  // ---- at least one layer ----

  lemma WithoutEmptyIff<T>(xs: seq<T>, gone: set<T>)
    ensures Without(xs, gone) == [] <==> forall x :: x in xs ==> x in gone
  {
    if x :| x in xs && x !in gone {
      WithoutMember(xs, gone, x);
    } else {
      WithoutAll(xs, gone);
    }
  }

  /** A 'replace' leaves a layer if and only if it adds one or draws into one that is there. */
  lemma LayerRemainsIff(s: Sheet, ops: seq<Op>, made: seq<Layer>)
    requires Batch(s, ops, made)
    ensures Accepted(s, ops, made, ReplaceMode).layers != []
       <==> LayerOps(ops) > 0 || exists l :: l in s.layers && l.id in PlanOps(ops, made, |s.layers|).drawnInto
  {
    AcceptedLayers(s, ops, made, ReplaceMode);
    WithoutEmptyIff(s.layers, Replaced(s, ops, made));
    if LayerOps(ops) > 0 { assert made[..LayerOps(ops)] != []; }
  }

  // ---- the active layer ----

  lemma HasId(layers: seq<Layer>, id: Id)
    ensures IndexOf(layers, id) >= 0 <==> exists l :: l in layers && l.id == id
  {
    if IndexOf(layers, id) >= 0 {
      assert layers[IndexOf(layers, id)] in layers;
    }
  }

  lemma FoundEither(xs: seq<Layer>, ys: seq<Layer>, id: Id)
    ensures IndexOf(xs + ys, id) >= 0 <==> IndexOf(xs, id) >= 0 || IndexOf(ys, id) >= 0
  {
    HasId(xs, id);
    HasId(ys, id);
    HasId(xs + ys, id);
    assert forall l :: l in xs + ys <==> l in xs || l in ys;
  }

  lemma KeptFound(layers: seq<Layer>, drawnInto: seq<Id>, id: Id)
    ensures IndexOf(Without(layers, Gone(layers, drawnInto)), id) >= 0
       <==> IndexOf(layers, id) >= 0 && id in drawnInto
  {
    var kept := Without(layers, Gone(layers, drawnInto));
    forall l ensures l in kept <==> l in layers && l.id in drawnInto {
      WithoutMember(layers, Gone(layers, drawnInto), l);
    }
    if IndexOf(kept, id) >= 0 { assert kept[IndexOf(kept, id)] in layers; }
    if IndexOf(layers, id) >= 0 && id in drawnInto { assert layers[IndexOf(layers, id)] in kept; }
  }

  lemma FoundAfter(layers: seq<Layer>, drawnInto: seq<Id>, more: seq<Layer>, id: Id)
    ensures IndexOf(Without(layers, Gone(layers, drawnInto)) + more, id) >= 0
       <==> (IndexOf(layers, id) >= 0 && id in drawnInto) || IndexOf(more, id) >= 0
  {
    KeptFound(layers, drawnInto, id);
    FoundEither(Without(layers, Gone(layers, drawnInto)), more, id);
  }

  /** Without a new layer the first stroke's own layer id is the first one drawn into. */
  lemma {:induction false} PlanFacts(ops: seq<Op>, made: seq<Layer>, top: nat)
    requires LayerOps(ops) <= |made|
    ensures var p, n := PlanOps(ops, made, top), LayerOps(ops);
            p.lastAdded == (if n == 0 then None else Some(made[n - 1].id))
            && (n == 0 ==> p.idMap == map[])
            && (n == 0 && ops != [] ==> ops[0].AddStrokeOp? && p.drawnInto != [] && p.drawnInto[0] == ops[0].layerId)
  {
    if ops != [] {
      var last := |ops| - 1;
      PlanFacts(ops[..last], made, top);
      if last > 0 { assert ops[..last][0] == ops[0]; }
    }
  }

  /** When the active layer survives a 'replace', or another one takes over: something is drawn on
      it, or a layer is added, or the first stroke names a layer that is there. */
  predicate KeepsActive(layers: seq<Layer>, ops: seq<Op>, p: Plan, active: Id)
    requires ops != []
  {
    active in p.drawnInto || LayerOps(ops) > 0 || (ops[0].AddStrokeOp? && IndexOf(layers, ops[0].layerId) >= 0)
  }

  lemma ActiveFoundIff(s: Sheet, ops: seq<Op>, made: seq<Layer>, active: Id, mode: Mode)
    requires Batch(s, ops, made) && ops != [] && IndexOf(s.layers, active) >= 0
    ensures var p := PlanOps(ops, made, |s.layers|);
            IndexOf(Accepted(s, ops, made, mode).layers, ActiveAfter(active, p, mode)) >= 0
            <==> mode.AddMode? || KeepsActive(s.layers, ops, p, active)
  {
    var p, n := PlanOps(ops, made, |s.layers|), LayerOps(ops);
    var new' := made[..n];
    AcceptedLayers(s, ops, made, mode);
    PlanFacts(ops, made, |s.layers|);
    HasId(new', ActiveAfter(active, p, mode));
    if mode.AddMode? {
      HasId(s.layers, active);
      HasId(s.layers + new', active);
    } else {
      FoundAfter(s.layers, p.drawnInto, new', ActiveAfter(active, p, mode));
      if n > 0 { assert made[n - 1] in new' by { assert new'[n - 1] == made[n - 1]; } }
    }
  }

  // ---- proposals that name a layer that is gone ----

  // one stroke on a layer
  function StrokesOn(layerIds: seq<Id>, strokes: seq<Stroke>): (r: seq<Op>)
    requires |layerIds| == |strokes|
    ensures |r| == |layerIds| && forall k :: 0 <= k < |r| ==> r[k] == AddStrokeOp(layerIds[k], strokes[k])
  {
    seq(|layerIds|, k requires 0 <= k < |layerIds| => AddStrokeOp(layerIds[k], strokes[k]))
  }

  lemma PlanStroke(layerId: Id, stroke: Stroke, top: nat)
    ensures LayerOps([AddStrokeOp(layerId, stroke)]) == 0
    ensures PlanOps([AddStrokeOp(layerId, stroke)], [], top).drawnInto == [layerId]
  {
    var ops := [AddStrokeOp(layerId, stroke)];
    assert ops[..0] == [];
    assert LayerOps(ops) == LayerOps(ops[..0]);
    assert PlanOps(ops, [], top) == PlanOp(PlanOps(ops[..0], [], top), ops[0], []);
  }

  /** With a single layer and one stroke on a layer that is not there, 'replace' empties the
      document. */
  lemma ReplaceCanEmpty(s: Sheet, a: Layer, gone: Id, stroke: Stroke)
    requires Known(s) && s.layers == [a] && a.id != gone
    ensures Batch(s, [AddStrokeOp(gone, stroke)], [])
    ensures Accepted(s, [AddStrokeOp(gone, stroke)], [], ReplaceMode).layers == []
  {
    PlanStroke(gone, stroke, 1);
    LayerRemainsIff(s, [AddStrokeOp(gone, stroke)], []);
    assert s.layers + [] == [a];
  }

  /** With two layers, the upper one active, and strokes on a missing layer and then on the lower one,
      'replace' makes the missing layer active. */
  lemma ReplaceCanLoseActive(s: Sheet, a: Layer, b: Layer, gone: Id, x: Stroke, y: Stroke)
    requires Known(s) && s.layers == [a, b] && a.id != b.id && gone != a.id && gone != b.id
    ensures var ops := [AddStrokeOp(gone, x), AddStrokeOp(a.id, y)];
            Batch(s, ops, [])
            && ActiveAfter(b.id, PlanOps(ops, [], 2), ReplaceMode) == gone
            && IndexOf(Accepted(s, ops, [], ReplaceMode).layers, gone) == -1
  {
    var ops := [AddStrokeOp(gone, x), AddStrokeOp(a.id, y)];
    PlanStroke(gone, x, 2);
    assert ops[..1] == [AddStrokeOp(gone, x)];
    assert LayerOps(ops) == LayerOps(ops[..1]);
    assert PlanOps(ops, [], 2) == PlanOp(PlanOps(ops[..1], [], 2), ops[1], []);
    PlanFacts(ops[..1], [], 2);
    assert s.layers + [] == [a, b];
    ActiveFoundIff(s, ops, [], b.id, ReplaceMode);
    HasId(s.layers, b.id);
    HasId(s.layers, gone);
  }

  // ---- four layers replaced by one ----

  // a proposal of one empty layer
  function OneLayer(): seq<Op> {
    [AddLayerOp("n", "n")]
  }

  lemma OneLayerPlan(e: Layer, top: nat)
    ensures LayerOps(OneLayer()) == 1
    ensures var p := PlanOps(OneLayer(), [e], top); p.drawnInto == [] && p.commands == [AddLayer(e, top)]
  {
    var ops := OneLayer();
    assert ops[..0] == [];
    assert LayerOps(ops) == LayerOps(ops[..0]) + 1;
    assert PlanOps(ops, [e], top) == PlanOp(PlanOps(ops[..0], [e], top), ops[0], [e]);
    assert [] + [AddLayer(e, top)] == [AddLayer(e, top)];
  }

  /** Four old layers and one new one: one undo brings back a, b, d, c. */
  lemma FourByOneProposal(s: Sheet, a: Layer, b: Layer, c: Layer, d: Layer, e: Layer)
    requires s.layers == [a, b, c, d] && Batch(s, OneLayer(), [e])
    ensures var command := Composite(AcceptedCommands(s.layers, OneLayer(), [e], ReplaceMode));
            Holds(s.data, command) && Holds(Apply(s, command).data, command)
            && Invert(Apply(s, command), command) == s.(layers := [a, b, d, c])
            && !Exact(s, command)
  {
    ReplaceUndone(s, OneLayer(), [e]);
    FourReplaced(s, a, b, c, d, e);
  }

  lemma FourReplaced(s: Sheet, a: Layer, b: Layer, c: Layer, d: Layer, e: Layer)
    requires s.layers == [a, b, c, d] && UniqueIds([a, b, c, d] + [e]) && LayerOps(OneLayer()) <= 1
    ensures LayerOps(OneLayer()) == 1
    ensures Undone(s.layers, Replaced(s, OneLayer(), [e]), [e][..LayerOps(OneLayer())]) == [a, b, d, c]
    ensures [a, b, d, c] != s.layers
  {
    OneLayerPlan(e, 4);
    assert Replaced(s, OneLayer(), [e]) == {a, b, c, d};
    assert [e][..1] == [e];
    FiveApart(a, b, c, d, e);
    FourByOne(a, b, c, d, e);
  }

  lemma FiveApart(a: Layer, b: Layer, c: Layer, d: Layer, e: Layer)
    requires UniqueIds([a, b, c, d] + [e])
    ensures Distinct([a, b, c, d, e]) && e !in [a, b, c, d] && c != d
  {
    assert [a, b, c, d] + [e] == [a, b, c, d, e];
    UniqueDistinct([a, b, c, d, e]);
    var all := [a, b, c, d, e];
    assert all[0] != all[4] && all[1] != all[4] && all[2] != all[4] && all[3] != all[4] && all[2] != all[3];
  }

  /** On the way, undo of four layers replaced by one passes through a list of layers that redo never
      has: after undoing the last of the five commands the top old layer is above the new one. */
  lemma UndoTakesAnotherWay(s: Sheet, e: Layer)
    requires |s.layers| == 4 && Batch(s, OneLayer(), [e])
    ensures var cs := AcceptedCommands(s.layers, OneLayer(), [e], ReplaceMode);
            |cs| == 5 && HoldsAll(s.data, cs)
            && Holds(ApplyAll(s, cs).data, cs[4]) && Invert(ApplyAll(s, cs), cs[4]).layers == [e, s.layers[3]]
            && forall k :: 0 <= k <= 5 ==>
                 HoldsAll(s.data, cs[..k]) && ApplyAll(s, cs[..k]).layers != [e, s.layers[3]]
  {
    var cs := AcceptedCommands(s.layers, OneLayer(), [e], ReplaceMode);
    FourRemovals(s, e);
    AcceptedHolds(s, OneLayer(), [e], ReplaceMode);
    LastOfFive(s, cs, e);
    forall k | 0 <= k <= 5 ensures HoldsAll(s.data, cs[..k]) && ApplyAll(s, cs[..k]).layers != [e, s.layers[3]] {
      RedoneLayers(s, cs, e, k);
    }
  }

  // the lists of layers that redo has
  lemma RedoneLayers(s: Sheet, cs: seq<Command>, e: Layer, k: nat)
    requires Known(s) && |s.layers| == 4 && UniqueIds(s.layers + [e]) && |cs| == 5 && HoldsAll(s.data, cs)
    requires cs[0] == AddLayer(e, 4) && k <= 5
    requires forall j :: 1 <= j < 5 ==> cs[j] == RemoveLayer(s.layers[j - 1].id, j - 1, Some(s.layers[j - 1]))
    ensures HoldsAll(s.data, cs[..k]) && ApplyAll(s, cs[..k]).layers != [e, s.layers[3]]
  {
    TopTwo(s.layers, e);
    if k == 0 {
      assert cs[..0] == [];
    } else {
      FirstRemoved(s, cs[0], cs[1..k], e);
      FirstAndRest(cs, k);
      assert k == 4 ==> (s.layers + [e])[3..][0] == s.layers[3];
    }
  }

  lemma FirstAndRest(cs: seq<Command>, k: nat)
    requires 1 <= k <= |cs|
    ensures [cs[0]] + cs[1..k] == cs[..k]
  {
  }

  lemma LastOfFive(s: Sheet, cs: seq<Command>, e: Layer)
    requires Known(s) && |s.layers| == 4 && UniqueIds(s.layers + [e]) && |cs| == 5 && HoldsAll(s.data, cs)
    requires cs[0] == AddLayer(e, 4)
    requires forall k :: 1 <= k < 5 ==> cs[k] == RemoveLayer(s.layers[k - 1].id, k - 1, Some(s.layers[k - 1]))
    ensures HoldsAll(s.data, cs[..4]) && ApplyAll(s, cs[..4]).layers == [s.layers[3], e]
    ensures Holds(ApplyAll(s, cs).data, cs[4]) && Invert(ApplyAll(s, cs), cs[4]).layers == [e, s.layers[3]]
    ensures s.layers[3] != e
  {
    FirstOfFive(cs);
    FirstRemoved(s, cs[0], cs[1..4], e);
    TopTwo(s.layers, e);
    LastAway(s, cs[..4], cs[4], s.layers[3], e);
  }

  lemma FirstOfFive(cs: seq<Command>)
    requires |cs| == 5
    ensures [cs[0]] + cs[1..4] == cs[..4] && cs[..4] + [cs[4]] == cs
  {
  }

  lemma TopTwo(layers: seq<Layer>, e: Layer)
    requires |layers| == 4 && UniqueIds(layers + [e])
    ensures (layers + [e])[3..] == [layers[3], e] && layers[3].id != e.id
  {
    assert (layers + [e])[3] == layers[3] && (layers + [e])[4] == e;
  }

  // the addition, and the four removals from the lowest up
  lemma FourRemovals(s: Sheet, e: Layer)
    requires |s.layers| == 4 && UniqueIds(s.layers + [e])
    ensures LayerOps(OneLayer()) == 1
    ensures var cs := AcceptedCommands(s.layers, OneLayer(), [e], ReplaceMode);
            |cs| == 5 && cs[0] == AddLayer(e, 4)
            && forall k :: 1 <= k < 5 ==> cs[k] == RemoveLayer(s.layers[k - 1].id, k - 1, Some(s.layers[k - 1]))
  {
    OneLayerPlan(e, 4);
    UniquePrefix(s.layers, [e]);
    EveryRemoval(s.layers, 4);
  }

  lemma {:induction false} EveryRemoval(layers: seq<Layer>, n: nat)
    requires UniqueIds(layers) && n <= |layers|
    ensures |Removals(layers, [], n)| == n
    ensures forall k :: 0 <= k < n ==> Removals(layers, [], n)[k] == RemoveLayer(layers[k].id, k, Some(layers[k]))
  {
    if n > 0 {
      EveryRemoval(layers, n - 1);
      UniqueAt(layers, n - 1);
    }
  }

  // a new layer on top, and the lowest ones removed
  lemma FirstRemoved(s: Sheet, add: Command, rs: seq<Command>, e: Layer)
    requires Known(s) && |s.layers| == 4 && UniqueIds(s.layers + [e]) && |rs| <= 4
    requires Holds(s.data, add) && HoldsAll(s.data, rs) && add == AddLayer(e, 4)
    requires forall k :: 0 <= k < |rs| ==> rs[k].RemoveLayer? && rs[k].layerId == s.layers[k].id
    ensures HoldsAll(s.data, [add] + rs)
    ensures ApplyAll(s, [add] + rs).layers == (s.layers + [e])[|rs|..]
  {
    var t := Apply(s, add);
    assert ApplyAll(s, [add]) == t by { ApplyLast(s, [], add); assert [] + [add] == [add]; }
    assert t.layers == s.layers + [e];
    HoldsAllSameKeys(s.data, t.data, rs);
    LowestGone(t, rs);
    ApplyConcat(s, [add], rs);
  }

  // one removal after the other from the lowest layer up
  lemma {:induction false} LowestGone(t: Sheet, rs: seq<Command>)
    requires Known(t) && HoldsAll(t.data, rs) && |rs| <= |t.layers| && UniqueIds(t.layers)
    requires forall k :: 0 <= k < |rs| ==> rs[k].RemoveLayer? && rs[k].layerId == t.layers[k].id
    ensures ApplyAll(t, rs).layers == t.layers[|rs|..]
  {
    if rs != [] {
      var last := |rs| - 1;
      TakeNext(rs, last);
      LowestGone(t, rs[..last]);
      LowestNext(t, rs[..last], rs[last], t.layers);
    }
  }

  lemma LowestNext(t: Sheet, rs: seq<Command>, r: Command, all: seq<Layer>)
    requires Known(t) && HoldsAll(t.data, rs) && Holds(t.data, r) && UniqueIds(all) && |rs| < |all|
    requires r.RemoveLayer? && r.layerId == all[|rs|].id && ApplyAll(t, rs).layers == all[|rs|..]
    ensures HoldsAll(t.data, rs + [r]) && ApplyAll(t, rs + [r]).layers == all[|rs| + 1..]
  {
    ApplyLast(t, rs, r);
    LowestRemoved(all, |rs|);
  }

  lemma LowestRemoved(all: seq<Layer>, k: nat)
    requires UniqueIds(all) && k < |all|
    ensures IndexOf(all[k..], all[k].id) == 0 && RemoveAt(all[k..], 0) == all[k + 1..]
  {
    assert all[k..][0] == all[k];
  }

  // removing d from below e and putting it back where the removal was built, at index 3
  lemma LastAway(s: Sheet, cs: seq<Command>, c: Command, d: Layer, e: Layer)
    requires Known(s) && HoldsAll(s.data, cs) && Holds(s.data, c)
    requires ApplyAll(s, cs).layers == [d, e] && d.id != e.id && c == RemoveLayer(d.id, 3, Some(d))
    ensures HoldsAll(s.data, cs + [c]) && Holds(ApplyAll(s, cs + [c]).data, c)
    ensures Invert(ApplyAll(s, cs + [c]), c).layers == [e, d]
  {
    ApplyLast(s, cs, c);
    HoldsSameKeys(s.data, ApplyAll(s, cs + [c]).data, c);
  }
}
