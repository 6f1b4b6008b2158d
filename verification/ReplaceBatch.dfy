/** What accepting a validated proposal in 'replace' mode leaves, in terms of its operations
    (packages/editor/src/editor.ts:335-373). */
module ReplaceBatch {
  import opened Drawing
  import opened Editing
  import opened Reinsertion
  import opened CommandLists
  import opened AcceptOps
  import opened ReplaceUndo
  import opened OpBatch
  import Proposals

  /** A layer counts as drawn into exactly when some command draws on it. */
  lemma {:induction false} DrawnIntoIff(ops: seq<Op>, made: seq<Layer>, top: nat, id: Id)
    requires LayerOps(ops) <= |made|
    ensures var p := PlanOps(ops, made, top); id in p.drawnInto <==> StrokesTo(p.commands, id) != []
  {
    if ops != [] {
      var last := |ops| - 1;
      DrawnIntoIff(ops[..last], made, top, id);
      var cs := PlanOps(ops, made, top).commands;
      assert cs[..last] == PlanOps(ops[..last], made, top).commands;
      assert StrokesTo(cs, id)
          == StrokesTo(cs[..last], id)
             + if cs[last].AddStroke? && cs[last].layerId == id then [cs[last].stroke] else [];
    }
  }

  lemma OldDrawnInto(layers: seq<Layer>, ops: seq<Op>, made: seq<Layer>, known: set<Id>, l: Layer)
    requires OpBatch.Accepted(layers, ops, made, known) && l in layers
    ensures l.id in PlanOps(ops, made, |layers|).drawnInto <==> DrawnOn(ops, l.id) != []
  {
    DrawnIntoIff(ops, made, |layers|, l.id);
    DrawnAgrees(layers, ops, made, known, l.id, l, |ops|);
    assert ops[..|ops|] == ops;
  }

  // the old layers no operation draws on
  function Undrawn(layers: seq<Layer>, ops: seq<Op>): set<Layer> {
    set l | l in layers && DrawnOn(ops, l.id) == []
  }

  /** A batch accepted against a document's summary and then accepted in 'replace' mode keeps, in
      order, the old layers it draws on, puts its own on top in order, and draws on each what the
      operations name it for. */
  lemma AcceptedReplace(s: Sheet, ops: seq<Op>, made: seq<Layer>, width: int, height: int)
    requires AcceptedBatch(s, ops, made, width, height)
    ensures var c := Composite(AcceptedCommands(s.layers, ops, made, ReplaceMode));
            Holds(s.data, c)
            && var after := Apply(s, c);
               after.layers == Without(s.layers, Undrawn(s.layers, ops)) + made && after.background == s.background
               && (forall l :: l in s.layers ==>
                     after.data[l] == s.data[l].(strokes := s.data[l].strokes + DrawnOn(ops, l.id)))
               && (forall j :: 0 <= j < |made| ==>
                     made[j] in after.data && made[j] in s.data
                     && after.data[made[j]] == s.data[made[j]].(strokes := DrawnOn(ops, LayerOpIds(ops)[j])))
  {
    var known := SummaryIds(Summarize(DocumentOf(s, width, height)));
    AcceptedIs(s, ops, made, width, height);
    var cs := AcceptedCommands(s.layers, ops, made, ReplaceMode);
    Proposals.AcceptedHolds(s, ops, made, ReplaceMode);
    CompositeIsAll(s, cs);
    ReplaceApplied(s, ops, made);
    PlannedLayers(s, ops, made);
    assert made[..|made|] == made;
    SameReplaced(s, ops, made, known);
    AllLand(s, ops, made, known);
  }

  lemma SameReplaced(s: Sheet, ops: seq<Op>, made: seq<Layer>, known: set<Id>)
    requires OpBatch.Accepted(s.layers, ops, made, known)
    ensures Replaced(s, ops, made) == Undrawn(s.layers, ops)
  {
    forall l | l in s.layers
      ensures l in Replaced(s, ops, made) <==> l in Undrawn(s.layers, ops)
    {
      OldDrawnInto(s.layers, ops, made, known, l);
    }
  }

  /** The layer that is active afterwards: after an 'add', and when it was drawn on, the same one;
      otherwise the last new layer, and without one the layer of the first stroke. */
  lemma ActiveIs(s: Sheet, ops: seq<Op>, made: seq<Layer>, width: int, height: int, mode: Mode, i: nat)
    requires AcceptedBatch(s, ops, made, width, height) && i < |s.layers| && ops != []
    ensures var active := s.layers[i].id;
            ActiveAfter(active, PlanOps(ops, made, |s.layers|), mode)
            == if mode.AddMode? || DrawnOn(ops, active) != [] then active
               else if made != [] then made[|made| - 1].id
               else if ops[0].AddStrokeOp? then ops[0].layerId else active
    ensures made == [] ==> ops[0].AddStrokeOp?
  {
    var known := SummaryIds(Summarize(DocumentOf(s, width, height)));
    AcceptedIs(s, ops, made, width, height);
    OldDrawnInto(s.layers, ops, made, known, s.layers[i]);
    NextActive(ops, made, |s.layers|, s.layers[i].id, mode);
  }

  lemma NextActive(ops: seq<Op>, made: seq<Layer>, top: nat, active: Id, mode: Mode)
    requires |made| == LayerOps(ops) && ops != []
    ensures made == [] ==> ops[0].AddStrokeOp?
    ensures var p := PlanOps(ops, made, top);
            ActiveAfter(active, p, mode)
            == if mode.AddMode? || active in p.drawnInto then active
               else if made != [] then made[|made| - 1].id
               else if ops[0].AddStrokeOp? then ops[0].layerId else active
  {
    Proposals.PlanFacts(ops, made, top);
  }
}
