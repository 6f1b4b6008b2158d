/** AI proposals from the server's validator to the document (server/internal/document/ops.go with
    packages/editor/src/editor.ts:335-373): a batch accepted against a document's summary adds
    exactly what it names. */
module OpBatch {
  import opened Drawing
  import opened DocumentRules
  import opened Editing
  import opened Exactness
  import opened Seqs
  import opened CommandLists
  import opened AcceptOps

  const MAX_OPS := 64

  // ---- the summary ----

  datatype SummaryLayer = SummaryLayer(id: Id, name: string, strokeCount: nat)
  datatype DocSummary = DocSummary(width: int, height: int, layers: seq<SummaryLayer>)

  function Summarize(d: Document): (r: DocSummary)
    ensures |r.layers| == |d.layers|
    ensures forall i :: 0 <= i < |d.layers| ==>
              r.layers[i] == SummaryLayer(d.layers[i].id, d.layers[i].name, |d.layers[i].strokes|)
  {
    DocSummary(d.width, d.height,
      seq(|d.layers|, i requires 0 <= i < |d.layers| =>
        SummaryLayer(d.layers[i].id, d.layers[i].name, |d.layers[i].strokes|)))
  }

  // the document a sheet holds
  function DocumentOf(s: Sheet, width: int, height: int): (d: Document)
    requires Known(s)
    ensures |d.layers| == |s.layers| && forall i :: 0 <= i < |s.layers| ==> d.layers[i] == s.data[s.layers[i]]
  {
    Document(1, width, height, s.background,
      seq(|s.layers|, i requires 0 <= i < |s.layers| => s.data[s.layers[i]]))
  }

  // ---- the rules of a batch ----

  function OpId(op: Op): Id {
    match op
    case AddLayerOp(id, _) => id
    case AddStrokeOp(_, stroke) => stroke.id
  }

  function OpIds(ops: seq<Op>): (r: seq<Id>)
    ensures |r| == |ops| && forall k :: 0 <= k < |ops| ==> r[k] == OpId(ops[k])
  {
    seq(|ops|, k requires 0 <= k < |ops| => OpId(ops[k]))
  }

  function SummaryIds(s: DocSummary): set<Id> {
    set i | 0 <= i < |s.layers| :: s.layers[i].id
  }

  function AddedIds(ops: seq<Op>): set<Id> {
    set k | 0 <= k < |ops| && ops[k].AddLayerOp? :: ops[k].id
  }

  predicate ValidOp(op: Op) {
    match op
    case AddLayerOp(id, name) => ValidId(id) && ValidName(name)
    case AddStrokeOp(_, stroke) => !stroke.shape.Freehand? && ValidStroke(stroke)
  }

  /** Every stroke names a layer of the document or one added by an earlier operation. */
  predicate Refers(ops: seq<Op>, known: set<Id>) {
    forall k :: 0 <= k < |ops| && ops[k].AddStrokeOp? ==> ops[k].layerId in known + AddedIds(ops[..k])
  }

  predicate ValidBatch(ops: seq<Op>, s: DocSummary) {
    |ops| <= MAX_OPS && ValidOps(ops, SummaryIds(s))
  }

  /** Every operation is valid, its id is new, and what it names is there. */
  predicate ValidOps(ops: seq<Op>, known: set<Id>) {
    (forall k :: 0 <= k < |ops| ==> ValidOp(ops[k])) && NewIds(OpIds(ops), known) && Refers(ops, known)
  }

  lemma AddedNext(ops: seq<Op>, k: nat)
    requires k < |ops|
    ensures AddedIds(ops[..k + 1]) == AddedIds(ops[..k]) + if ops[k].AddLayerOp? then {ops[k].id} else {}
  {
    assert forall j :: 0 <= j < k ==> ops[..k + 1][j] == ops[..k][j];
    assert ops[..k + 1][k] == ops[k];
  }

  lemma RefersNext(ops: seq<Op>, k: nat, known: set<Id>)
    requires k < |ops|
    ensures Refers(ops[..k + 1], known)
       <==> Refers(ops[..k], known) && (ops[k].AddStrokeOp? ==> ops[k].layerId in known + AddedIds(ops[..k]))
  {
    var some, next := ops[..k], ops[..k + 1];
    assert next[k] == ops[k] && next[..k] == some;
    assert forall j :: 0 <= j < k ==> next[j] == some[j] && next[..j] == some[..j];
  }

  lemma OpIdsNext(ops: seq<Op>, k: nat, known: set<Id>)
    requires k < |ops|
    ensures Elements(OpIds(ops[..k + 1])) == Elements(OpIds(ops[..k])) + {OpId(ops[k])}
    ensures NewIds(OpIds(ops[..k + 1]), known)
       <==> NewIds(OpIds(ops[..k]), known) && OpId(ops[k]) !in known + Elements(OpIds(ops[..k]))
  {
    assert OpIds(ops[..k + 1]) == OpIds(ops[..k]) + [OpId(ops[k])];
    NewIdsNext(OpIds(ops[..k]), OpId(ops[k]), known);
  }

  lemma OpNext(ops: seq<Op>, k: nat, known: set<Id>)
    requires k < |ops|
    ensures ValidOps(ops[..k + 1], known)
       <==> ValidOps(ops[..k], known) && ValidOp(ops[k]) && OpId(ops[k]) !in known + Elements(OpIds(ops[..k]))
            && (ops[k].AddStrokeOp? ==> ops[k].layerId in known + AddedIds(ops[..k]))
  {
    RefersNext(ops, k, known);
    OpIdsNext(ops, k, known);
    assert forall j :: 0 <= j < k ==> ops[..k + 1][j] == ops[..k][j];
    assert ops[..k + 1][k] == ops[k];
  }

  lemma OpsPrefix(ops: seq<Op>, k: nat, known: set<Id>)
    requires k <= |ops| && ValidOps(ops, known)
    ensures ValidOps(ops[..k], known)
  {
    var some := ops[..k];
    assert forall j :: 0 <= j < k ==> some[j] == ops[j] && OpIds(some)[j] == OpIds(ops)[j];
    assert forall j :: 0 <= j < k ==> some[..j] == ops[..j];
  }

  /** Whether the loop body's test on one operation decides the batch so far. */
  lemma OpStep(
    ops: seq<Op>, k: nat, known: set<Id>, ids: set<Id>, layerRefs: set<Id>,
    nextIds: set<Id>, nextRefs: set<Id>, good: bool)
    requires k < |ops| && ValidOps(ops[..k], known)
    requires ids == known + Elements(OpIds(ops[..k])) && layerRefs == known + AddedIds(ops[..k])
    requires good <==>
      ValidOp(ops[k]) && OpId(ops[k]) !in ids && (ops[k].AddStrokeOp? ==> ops[k].layerId in layerRefs)
    requires good ==>
      nextIds == ids + {OpId(ops[k])} && nextRefs == layerRefs + if ops[k].AddLayerOp? then {ops[k].id} else {}
    ensures good ==> ValidOps(ops[..k + 1], known)
    ensures good ==> nextIds == known + Elements(OpIds(ops[..k + 1])) && nextRefs == known + AddedIds(ops[..k + 1])
    ensures !good ==> !ValidOps(ops, known)
  {
    OpNext(ops, k, known);
    if good {
      OpIdsNext(ops, k, known);
      AddedNext(ops, k);
    }
    if ValidOps(ops, known) { OpsPrefix(ops, k + 1, known); }
  }

  /** The body of the validator's loop. */
  method CheckOp(op: Op, ids: set<Id>, layerRefs: set<Id>) returns (ok: bool, nextIds: set<Id>, nextRefs: set<Id>)
    ensures ok <==> ValidOp(op) && OpId(op) !in ids && (op.AddStrokeOp? ==> op.layerId in layerRefs)
    ensures ok ==> nextIds == ids + {OpId(op)} && nextRefs == layerRefs + if op.AddLayerOp? then {op.id} else {}
  {
    nextIds, nextRefs := ids, layerRefs;
    match op
    case AddLayerOp(id, name) =>
      ok, nextIds := CheckID(id, ids);
      if !ok { return; }
      if |name| < 1 || |name| > MAX_NAME_LEN { return false, ids, layerRefs; }
      nextRefs := layerRefs + {id};
    case AddStrokeOp(layerId, stroke) =>
      if layerId !in layerRefs { return false, ids, layerRefs; }
      if stroke.shape.Freehand? { return false, ids, layerRefs; }
      var points;
      ok, points, nextIds := CheckStroke(stroke, ids);
  }

  /** The validator's loop accepts exactly the batches that meet the rules. */
  method ValidateOpBatch(ops: seq<Op>, s: DocSummary) returns (ok: bool)
    ensures ok <==> ValidBatch(ops, s)
  {
    if |ops| > MAX_OPS { return false; }
    var known := SummaryIds(s);
    var ids, layerRefs := known, known;
    var k := 0;
    while k < |ops|
      invariant k <= |ops| && ValidOps(ops[..k], known)
      invariant ids == known + Elements(OpIds(ops[..k])) && layerRefs == known + AddedIds(ops[..k])
    {
      var good, nextIds, nextRefs := CheckOp(ops[k], ids, layerRefs);
      OpStep(ops, k, known, ids, layerRefs, nextIds, nextRefs, good);
      if !good { return false; }
      ids, layerRefs, k := nextIds, nextRefs, k + 1;
    }
    assert ops[..k] == ops;
    return true;
  }

  // ---- an accepted batch finds its layers ----

  lemma SummaryNames(s: Sheet, width: int, height: int, id: Id)
    requires Known(s) && forall l :: l in s.layers ==> s.data[l].id == l.id
    ensures id in SummaryIds(Summarize(DocumentOf(s, width, height))) <==> IndexOf(s.layers, id) >= 0
  {
    var d := DocumentOf(s, width, height);
    var sum := Summarize(d);
    forall i | 0 <= i < |s.layers| ensures sum.layers[i].id == s.layers[i].id {
      assert d.layers[i] == s.data[s.layers[i]] && s.layers[i] in s.layers;
    }
  }

  // the ids of the layer objects made so far
  function MadeIds(made: seq<Layer>): set<Id> {
    set l | l in made :: l.id
  }

  lemma {:induction false} IdMapOf(ops: seq<Op>, made: seq<Layer>, top: nat)
    requires LayerOps(ops) <= |made|
    ensures PlanOps(ops, made, top).idMap.Keys == AddedIds(ops)
    ensures forall id :: id in AddedIds(ops) ==> PlanOps(ops, made, top).idMap[id] in MadeIds(made[..LayerOps(ops)])
  {
    if ops != [] {
      var last := |ops| - 1;
      IdMapOf(ops[..last], made, top);
      AddedNext(ops, last);
      assert ops[..last + 1] == ops;
      if ops[last].AddLayerOp? {
        var n := LayerOps(ops[..last]);
        assert made[..n + 1] == made[..n] + [made[n]];
      }
    }
  }

  lemma MadeFound(layers: seq<Layer>, made: seq<Layer>, id: Id)
    requires id in MadeIds(made) || IndexOf(layers, id) >= 0
    ensures IndexOf(layers + made, id) >= 0
  {
    var all := layers + made;
    if id in MadeIds(made) {
      var l :| l in made && l.id == id;
      var j :| 0 <= j < |made| && made[j] == l;
      assert all[|layers| + j].id == id;
    } else {
      assert all[IndexOf(layers, id)].id == id;
    }
  }

  /** A batch that meets the rules resolves every layer it names. */
  lemma {:induction false} ValidResolves(layers: seq<Layer>, known: set<Id>, ops: seq<Op>, made: seq<Layer>)
    requires LayerOps(ops) <= |made| && ValidOps(ops, known)
    requires forall id :: id in known ==> IndexOf(layers, id) >= 0
    ensures Resolved(layers, ops, made)
  {
    if ops != [] {
      var last := |ops| - 1;
      OpsPrefix(ops, last, known);
      ValidResolves(layers, known, ops[..last], made);
      if ops[last].AddStrokeOp? {
        var before := PlanOps(ops[..last], made, |layers|);
        IdMapOf(ops[..last], made, |layers|);
        MadeFound(layers, made[..before.added], Resolve(before.idMap, ops[last].layerId));
      }
    }
  }

  // ---- what lands where ----

  /** The strokes of the operations that name this layer id, in order. */
  function DrawnOn(ops: seq<Op>, layerId: Id): seq<Stroke> {
    if ops == [] then []
    else
      var last := ops[|ops| - 1];
      DrawnOn(ops[..|ops| - 1], layerId) + if last.AddStrokeOp? && last.layerId == layerId then [last.stroke] else []
  }

  // the batch's own ids of the layers it adds, in order
  function LayerOpIds(ops: seq<Op>): (r: seq<Id>)
    ensures |r| == LayerOps(ops)
  {
    if ops == [] then []
    else
      var last := ops[|ops| - 1];
      LayerOpIds(ops[..|ops| - 1]) + if last.AddLayerOp? then [last.id] else []
  }

  lemma {:induction false} OpIdOf(ops: seq<Op>, j: nat) returns (k: nat)
    requires j < LayerOps(ops)
    ensures k < |ops| && ops[k].AddLayerOp? && ops[k].id == LayerOpIds(ops)[j]
  {
    var last := |ops| - 1;
    if j < LayerOps(ops[..last]) {
      k := OpIdOf(ops[..last], j);
    } else {
      k := last;
    }
  }

  lemma {:induction false} LayerIdsPrefix(ops: seq<Op>, k: nat)
    requires k <= |ops|
    ensures LayerOps(ops[..k]) <= LayerOps(ops)
    ensures LayerOpIds(ops[..k]) == LayerOpIds(ops)[..LayerOps(ops[..k])]
    decreases |ops|
  {
    if k < |ops| {
      var last := |ops| - 1;
      assert ops[..last][..k] == ops[..k];
      LayerIdsPrefix(ops[..last], k);
      assert LayerOpIds(ops)[..LayerOps(ops[..last])] == LayerOpIds(ops[..last]);
    } else {
      assert ops[..k] == ops;
    }
  }

  // the j-th and the i-th added layer are different operations
  lemma {:induction false} LayerIdsDistinct(ops: seq<Op>)
    requires Distinct(OpIds(ops))
    ensures Distinct(LayerOpIds(ops))
  {
    if ops != [] {
      var last := |ops| - 1;
      assert OpIds(ops) == OpIds(ops[..last]) + [OpId(ops[last])];
      DistinctConcat(OpIds(ops[..last]), [OpId(ops[last])]);
      LayerIdsDistinct(ops[..last]);
      if ops[last].AddLayerOp? {
        var ids := LayerOpIds(ops[..last]);
        forall j | 0 <= j < |ids| ensures ids[j] != ops[last].id {
          var k := OpIdOf(ops[..last], j);
          assert OpIds(ops[..last])[k] == ids[j];
          assert [OpId(ops[last])][0] == ops[last].id;
        }
      }
    }
  }

  lemma LayerIdsNew(ops: seq<Op>, known: set<Id>, j: nat)
    requires NewIds(OpIds(ops), known) && j < LayerOps(ops)
    ensures LayerOpIds(ops)[j] !in known
  {
    var k := OpIdOf(ops, j);
    assert OpIds(ops)[k] == LayerOpIds(ops)[j];
  }

  lemma {:induction false} IdMapAt(ops: seq<Op>, made: seq<Layer>, top: nat, x: Id) returns (j: nat)
    requires LayerOps(ops) <= |made| && x in AddedIds(ops) && Distinct(OpIds(ops))
    ensures j < LayerOps(ops) && LayerOpIds(ops)[j] == x
    ensures x in PlanOps(ops, made, top).idMap && PlanOps(ops, made, top).idMap[x] == made[j].id
  {
    var last := |ops| - 1;
    AddedNext(ops, last);
    assert ops[..last + 1] == ops;
    if ops[last].AddLayerOp? && ops[last].id == x {
      j := LayerOps(ops[..last]);
    } else {
      assert OpIds(ops) == OpIds(ops[..last]) + [OpId(ops[last])];
      DistinctConcat(OpIds(ops[..last]), [OpId(ops[last])]);
      j := IdMapAt(ops[..last], made, top, x);
    }
  }

  // what the composition is about: a batch accepted against the layers' own ids
  predicate Accepted(layers: seq<Layer>, ops: seq<Op>, made: seq<Layer>, known: set<Id>) {
    LayerOps(ops) <= |made| && UniqueIds(layers + made) && ValidOps(ops, known)
    && (forall id :: id in known ==> IndexOf(layers, id) >= 0)
    && (forall l :: l in layers ==> l.id in known)
  }

  lemma OldIsNotNew(layers: seq<Layer>, made: seq<Layer>, j: nat)
    requires UniqueIds(layers + made) && j < |made|
    ensures IndexOf(layers, made[j].id) == -1
    ensures forall i :: 0 <= i < |made| && made[i].id == made[j].id ==> i == j
  {
    var all := layers + made;
    assert forall i :: 0 <= i < |layers| ==> all[i] == layers[i];
    assert forall i :: 0 <= i < |made| ==> all[|layers| + i] == made[i];
  }

  /** The j-th added layer's id, resolved at operation k, is that layer's real id and no other
      layer's. */
  lemma ResolvesNew(layers: seq<Layer>, ops: seq<Op>, made: seq<Layer>, known: set<Id>, j: nat, k: nat)
    requires Accepted(layers, ops, made, known) && k < |ops| && ops[k].AddStrokeOp? && j < LayerOps(ops)
    ensures LayerOps(ops[..k]) <= |made|
    ensures Resolve(PlanOps(ops[..k], made, |layers|).idMap, ops[k].layerId) == made[j].id
       <==> ops[k].layerId == LayerOpIds(ops)[j]
  {
    var x := ops[k].layerId;
    LayerIdsPrefix(ops, k);
    OpsPrefix(ops, k, known);
    IdMapOf(ops[..k], made, |layers|);
    LayerIdsDistinct(ops);
    LayerIdsNew(ops, known, j);
    OldIsNotNew(layers, made, j);
    if x in AddedIds(ops[..k]) {
      var i := IdMapAt(ops[..k], made, |layers|, x);
      assert LayerOpIds(ops)[i] == x;
    } else {
      assert x in known;
    }
  }

  /** An old layer's id resolves to itself. */
  lemma ResolvesOld(layers: seq<Layer>, ops: seq<Op>, made: seq<Layer>, known: set<Id>, l: Layer, k: nat)
    requires Accepted(layers, ops, made, known) && k < |ops| && ops[k].AddStrokeOp? && l in layers
    ensures LayerOps(ops[..k]) <= |made|
    ensures Resolve(PlanOps(ops[..k], made, |layers|).idMap, ops[k].layerId) == l.id <==> ops[k].layerId == l.id
  {
    var x := ops[k].layerId;
    LayerIdsPrefix(ops, k);
    OpsPrefix(ops, k, known);
    IdMapOf(ops[..k], made, |layers|);
    if x in AddedIds(ops[..k]) {
      var i := IdMapAt(ops[..k], made, |layers|, x);
      assert LayerOpIds(ops)[i] == x;
      LayerIdsNew(ops, known, i);
      OldIsNotNew(layers, made, i);
      var n :| 0 <= n < |layers| && layers[n] == l;
    }
  }

  // the layer's own id, or the batch's id for it
  predicate NamedBy(layers: seq<Layer>, ops: seq<Op>, made: seq<Layer>, id: Id, l: Layer)
    requires LayerOps(ops) <= |made|
  {
    (l in layers && l.id == id) || exists j :: 0 <= j < LayerOps(ops) && LayerOpIds(ops)[j] == id && made[j] == l
  }

  lemma ResolvesIff(layers: seq<Layer>, ops: seq<Op>, made: seq<Layer>, known: set<Id>, id: Id, l: Layer, k: nat)
    requires Accepted(layers, ops, made, known) && k < |ops| && ops[k].AddStrokeOp? && NamedBy(layers, ops, made, id, l)
    ensures LayerOps(ops[..k]) <= |made|
    ensures Resolve(PlanOps(ops[..k], made, |layers|).idMap, ops[k].layerId) == l.id <==> ops[k].layerId == id
  {
    if l in layers && l.id == id {
      ResolvesOld(layers, ops, made, known, l, k);
    } else {
      var j :| 0 <= j < LayerOps(ops) && LayerOpIds(ops)[j] == id && made[j] == l;
      ResolvesNew(layers, ops, made, known, j, k);
    }
  }

  lemma {:induction false} DrawnAgrees(
    layers: seq<Layer>, ops: seq<Op>, made: seq<Layer>, known: set<Id>, id: Id, l: Layer, k: nat)
    requires Accepted(layers, ops, made, known) && k <= |ops| && NamedBy(layers, ops, made, id, l)
    ensures Agree(layers, ops[..k], made, id, l.id)
  {
    if k > 0 {
      DrawnAgrees(layers, ops, made, known, id, l, k - 1);
      FewerLayerOps(ops, k);
      TakeNext(ops, k - 1);
      if ops[k - 1].AddStrokeOp? { ResolvesIff(layers, ops, made, known, id, l, k - 1); }
      DrawnStep(ops[..k - 1], ops[k - 1], made, |layers|, id, l.id);
    }
  }

  // the commands draw on the real layer what the operations draw on the named one
  predicate Agree(layers: seq<Layer>, ops: seq<Op>, made: seq<Layer>, id: Id, realId: Id) {
    LayerOps(ops) <= |made| && StrokesTo(PlanOps(ops, made, |layers|).commands, realId) == DrawnOn(ops, id)
  }

  // one operation draws on both alike
  lemma DrawnStep(ops: seq<Op>, op: Op, made: seq<Layer>, top: nat, id: Id, realId: Id)
    requires LayerOps(ops) <= |made| && LayerOps(ops + [op]) <= |made|
    requires op.AddStrokeOp? ==> (Resolve(PlanOps(ops, made, top).idMap, op.layerId) == realId <==> op.layerId == id)
    requires StrokesTo(PlanOps(ops, made, top).commands, realId) == DrawnOn(ops, id)
    ensures StrokesTo(PlanOps(ops + [op], made, top).commands, realId) == DrawnOn(ops + [op], id)
  {
    var all := ops + [op];
    assert all[..|ops|] == ops && all[|ops|] == op;
    assert LayerOps(all) == LayerOps(ops) + if op.AddLayerOp? then 1 else 0;
    var cs := PlanOps(all, made, top).commands;
    assert cs[..|ops|] == PlanOps(ops, made, top).commands;
  }

  // ---- the whole composition ----

  predicate WellNamed(s: Sheet) {
    Known(s) && forall l :: l in s.layers ==> s.data[l].id == l.id
  }

  predicate AcceptedBatch(s: Sheet, ops: seq<Op>, made: seq<Layer>, width: int, height: int) {
    WellNamed(s) && |made| == LayerOps(ops) && FreshLayers(s, made)
    && ValidBatch(ops, Summarize(DocumentOf(s, width, height)))
  }

  lemma AcceptedIs(s: Sheet, ops: seq<Op>, made: seq<Layer>, width: int, height: int)
    requires AcceptedBatch(s, ops, made, width, height)
    ensures Accepted(s.layers, ops, made, SummaryIds(Summarize(DocumentOf(s, width, height))))
    ensures Batch(s, ops, made) && Resolved(s.layers, ops, made)
  {
    var known := SummaryIds(Summarize(DocumentOf(s, width, height)));
    forall id ensures id in known <==> IndexOf(s.layers, id) >= 0 { SummaryNames(s, width, height, id); }
    forall l | l in s.layers ensures l.id in known {
      var k :| 0 <= k < |s.layers| && s.layers[k] == l;
    }
    ValidResolves(s.layers, known, ops, made);
  }

  /** A batch accepted against a document's summary and then accepted in 'add' mode adds one layer
      per add_layer on top, in order, and appends every stroke to the layer its id names; nothing
      else changes. */
  lemma AcceptedAdd(s: Sheet, ops: seq<Op>, made: seq<Layer>, width: int, height: int)
    requires AcceptedBatch(s, ops, made, width, height)
    ensures var c := Composite(AcceptedCommands(s.layers, ops, made, AddMode));
            Holds(s.data, c)
            && var after := Apply(s, c);
               after.layers == s.layers + made && after.background == s.background
               && (forall l :: l in s.layers ==>
                     after.data[l] == s.data[l].(strokes := s.data[l].strokes + DrawnOn(ops, l.id)))
               && (forall j :: 0 <= j < |made| ==>
                     made[j] in after.data && made[j] in s.data
                     && after.data[made[j]] == s.data[made[j]].(strokes := DrawnOn(ops, LayerOpIds(ops)[j])))
  {
    var known := SummaryIds(Summarize(DocumentOf(s, width, height)));
    AcceptedIs(s, ops, made, width, height);
    var cs := PlanOps(ops, made, |s.layers|).commands;
    assert AcceptedCommands(s.layers, ops, made, AddMode) == cs;
    PlanHolds(s, ops, made, |s.layers|);
    CompositeIsAll(s, cs);
    PlannedLayers(s, ops, made);
    assert made[..|made|] == made;
    AllLand(s, ops, made, known);
  }

  lemma AllLand(s: Sheet, ops: seq<Op>, made: seq<Layer>, known: set<Id>)
    requires Batch(s, ops, made) && Accepted(s.layers, ops, made, known) && |made| == LayerOps(ops)
    ensures forall l :: l in s.layers ==>
              Planned(s, ops, made).data[l] == s.data[l].(strokes := s.data[l].strokes + DrawnOn(ops, l.id))
    ensures forall j :: 0 <= j < |made| ==>
              made[j] in s.data && made[j] in Planned(s, ops, made).data
              && Planned(s, ops, made).data[made[j]] == s.data[made[j]].(strokes := DrawnOn(ops, LayerOpIds(ops)[j]))
  {
    forall l | l in s.layers
      ensures Planned(s, ops, made).data[l] == s.data[l].(strokes := s.data[l].strokes + DrawnOn(ops, l.id))
    {
      LandsOn(s, ops, made, known, l.id, l);
    }
    forall j | 0 <= j < |made|
      ensures made[j] in s.data
      ensures Planned(s, ops, made).data[made[j]] == s.data[made[j]].(strokes := DrawnOn(ops, LayerOpIds(ops)[j]))
    {
      LandsOn(s, ops, made, known, LayerOpIds(ops)[j], made[j]);
      assert [] + DrawnOn(ops, LayerOpIds(ops)[j]) == DrawnOn(ops, LayerOpIds(ops)[j]);
    }
  }

  lemma LandsOn(s: Sheet, ops: seq<Op>, made: seq<Layer>, known: set<Id>, id: Id, l: Layer)
    requires Batch(s, ops, made) && Accepted(s.layers, ops, made, known)
    requires l in s.layers + made && NamedBy(s.layers, ops, made, id, l)
    ensures l in s.data && l in Planned(s, ops, made).data
    ensures Planned(s, ops, made).data[l] == s.data[l].(strokes := s.data[l].strokes + DrawnOn(ops, id))
  {
    ValidResolves(s.layers, known, ops, made);
    PlannedData(s, ops, made, l);
    DrawnAgrees(s.layers, ops, made, known, id, l, |ops|);
    assert ops[..|ops|] == ops;
  }

  lemma {:induction false} DrawnHas(ops: seq<Op>, k: nat)
    requires k < |ops| && ops[k].AddStrokeOp?
    ensures ops[k].stroke in DrawnOn(ops, ops[k].layerId)
    decreases |ops|
  {
    if k < |ops| - 1 { DrawnHas(ops[..|ops| - 1], k); }
  }

  /** No stroke of an accepted batch is dropped. */
  lemma NoStrokeDropped(s: Sheet, ops: seq<Op>, made: seq<Layer>, width: int, height: int, k: nat) returns (l: Layer)
    requires AcceptedBatch(s, ops, made, width, height) && k < |ops| && ops[k].AddStrokeOp?
    ensures Holds(s.data, Composite(AcceptedCommands(s.layers, ops, made, AddMode)))
    ensures var after := Apply(s, Composite(AcceptedCommands(s.layers, ops, made, AddMode)));
            l in after.layers && ops[k].stroke in after.data[l].strokes
            && NamedBy(s.layers, ops, made, ops[k].layerId, l)
  {
    var known := SummaryIds(Summarize(DocumentOf(s, width, height)));
    AcceptedAdd(s, ops, made, width, height);
    AcceptedIs(s, ops, made, width, height);
    DrawnHas(ops, k);
    var x := ops[k].layerId;
    if x in known {
      l := s.layers[IndexOf(s.layers, x)];
    } else {
      OpsPrefix(ops, k, known);
      LayerIdsPrefix(ops, k);
      var j := IdMapAt(ops[..k], made, |s.layers|, x);
      assert LayerOpIds(ops)[j] == x;
      l := made[j];
    }
  }

  // ---- ids stay unique ----

  /** One id per layer and stroke, across the whole document. */
  predicate IdsUnique(s: Sheet)
    requires Known(s)
  {
    UniqueIds(s.layers) && StrokesApart(s) && forall l :: l in s.layers ==> Unused(s, l.id)
  }

  predicate StrokesApart(s: Sheet)
    requires Known(s)
  {
    forall l, m, i, j ::
      (l in s.layers && m in s.layers && 0 <= i < |s.data[l].strokes| && 0 <= j < |s.data[m].strokes|
       && s.data[l].strokes[i].id == s.data[m].strokes[j].id) ==> l == m && i == j
  }

  // no stroke of the document has this id
  predicate Unused(s: Sheet, id: Id)
    requires Known(s)
  {
    forall l, i :: l in s.layers && 0 <= i < |s.data[l].strokes| ==> s.data[l].strokes[i].id != id
  }

  // a stroke lands on one layer, on top
  lemma StrokesAfter(s: Sheet, id: Id, stroke: Stroke, l: Layer)
    requires Known(s) && l in s.layers
    ensures var on := IndexOf(s.layers, id) >= 0 && l == s.layers[IndexOf(s.layers, id)];
            Apply(s, AddStroke(id, stroke)).data[l].strokes == s.data[l].strokes + if on then [stroke] else []
  {
  }

  lemma StillApart(s: Sheet, id: Id, stroke: Stroke)
    requires Known(s) && StrokesApart(s) && Unused(s, stroke.id)
    ensures StrokesApart(Apply(s, AddStroke(id, stroke)))
  {
    var t := Apply(s, AddStroke(id, stroke));
    forall l, m, i, j | l in t.layers && m in t.layers && 0 <= i < |t.data[l].strokes| && 0 <= j < |t.data[m].strokes|
                        && t.data[l].strokes[i].id == t.data[m].strokes[j].id
      ensures l == m && i == j
    {
      StrokesAfter(s, id, stroke, l);
      StrokesAfter(s, id, stroke, m);
    }
  }

  lemma StillUnused(s: Sheet, id: Id, stroke: Stroke, other: Id)
    requires Known(s) && Unused(s, other) && other != stroke.id
    ensures Unused(Apply(s, AddStroke(id, stroke)), other)
  {
    forall l | l in s.layers { StrokesAfter(s, id, stroke, l); }
  }

  lemma StrokeKeepsUnique(s: Sheet, id: Id, stroke: Stroke)
    requires Known(s) && IdsUnique(s) && Unused(s, stroke.id) && forall l :: l in s.layers ==> l.id != stroke.id
    ensures IdsUnique(Apply(s, AddStroke(id, stroke)))
  {
    StillApart(s, id, stroke);
    forall l | l in s.layers { StillUnused(s, id, stroke, l.id); }
  }

  lemma LayerKeepsUnique(s: Sheet, layer: Layer, n: nat)
    requires Known(s) && IdsUnique(s) && n == |s.layers| && IndexOf(s.layers, layer.id) == -1
    requires layer in s.data && s.data[layer].strokes == [] && Unused(s, layer.id)
    ensures IdsUnique(Apply(s, AddLayer(layer, n)))
  {
    InsertedIndex(s.layers, n, layer);
    var t := Apply(s, AddLayer(layer, n));
    forall l | l in t.layers ensures l == layer || l in s.layers {
      var k :| 0 <= k < |t.layers| && t.layers[k] == l;
    }
  }

  /** The batch's stroke ids are not those of strokes already in the document, and the random ids of
      the new layers are nobody's. */
  predicate FreshIds(s: Sheet, ops: seq<Op>, made: seq<Layer>)
    requires Known(s)
  {
    (forall k :: 0 <= k < |ops| && ops[k].AddStrokeOp? ==> Unused(s, ops[k].stroke.id))
    && (forall j :: 0 <= j < |made| ==> Unused(s, made[j].id))
    && (forall j, k :: 0 <= j < |made| && 0 <= k < |ops| && ops[k].AddStrokeOp? ==> made[j].id != ops[k].stroke.id)
  }

  // an id that is neither in the document nor drawn by the batch is unused afterwards
  lemma UnusedAfter(s: Sheet, ops: seq<Op>, made: seq<Layer>, id: Id)
    requires Batch(s, ops, made) && Unused(s, id)
    requires forall k :: 0 <= k < |ops| && ops[k].AddStrokeOp? ==> ops[k].stroke.id != id
    ensures Unused(Planned(s, ops, made), id)
  {
    var t := Planned(s, ops, made);
    PlannedLayers(s, ops, made);
    forall l, i | l in t.layers && 0 <= i < |t.data[l].strokes| ensures t.data[l].strokes[i].id != id {
      OldOrEmpty(s, made, LayerOps(ops), l);
      var k := DrawnFrom(s, ops, made, l, t.data[l].strokes[i]);
    }
  }

  // the id the next operation brings
  lemma NextIdUnused(s: Sheet, ops: seq<Op>, made: seq<Layer>, known: set<Id>)
    requires Batch(s, ops, made) && Accepted(s.layers, ops, made, known) && ops != [] && FreshIds(s, ops, made)
    ensures var before := Planned(s, ops[..|ops| - 1], made);
            match ops[|ops| - 1]
            case AddLayerOp(_, _) => Unused(before, made[LayerOps(ops[..|ops| - 1])].id)
            case AddStrokeOp(_, stroke) =>
              Unused(before, stroke.id) && forall l :: l in before.layers ==> l.id != stroke.id
  {
    var last := |ops| - 1;
    match ops[last]
    case AddLayerOp(_, _) => UnusedAfter(s, ops[..last], made, made[LayerOps(ops[..last])].id);
    case AddStrokeOp(_, stroke) =>
      assert OpIds(ops)[last] == stroke.id;
      forall k | 0 <= k < last && ops[k].AddStrokeOp? ensures ops[..last][k].stroke.id != stroke.id {
        assert OpIds(ops)[k] == ops[k].stroke.id;
      }
      UnusedAfter(s, ops[..last], made, stroke.id);
      PlannedLayers(s, ops[..last], made);
      forall l | l in s.layers + made[..LayerOps(ops[..last])] ensures l.id != stroke.id {
        if l !in s.layers {
          var j :| 0 <= j < LayerOps(ops[..last]) && made[j] == l;
        }
      }
  }

  // a layer the batch has not added yet has nothing on it
  lemma {:induction false} NotYetDrawn(layers: seq<Layer>, ops: seq<Op>, made: seq<Layer>, n: nat)
    requires LayerOps(ops) <= n < |made| && UniqueIds(layers + made) && Resolved(layers, ops, made)
    ensures StrokesTo(PlanOps(ops, made, |layers|).commands, made[n].id) == []
  {
    if ops != [] {
      var last := |ops| - 1;
      NotYetDrawn(layers, ops[..last], made, n);
      var p := PlanOps(ops[..last], made, |layers|);
      assert PlanOps(ops, made, |layers|).commands[..last] == p.commands;
      var some, all := layers + made[..p.added], layers + made;
      assert all[|layers| + n] == made[n];
      assert forall i :: 0 <= i < |some| ==> some[i] == all[i];
    }
  }

  lemma OpKeepsUnique(s: Sheet, ops: seq<Op>, made: seq<Layer>, known: set<Id>)
    requires Batch(s, ops, made) && Accepted(s.layers, ops, made, known) && ops != [] && FreshIds(s, ops, made)
    requires IdsUnique(Planned(s, ops[..|ops| - 1], made))
    ensures IdsUnique(Planned(s, ops, made))
  {
    var last := |ops| - 1;
    NextIdUnused(s, ops, made, known);
    PlannedStep(s, ops, made);
    var before, p := Planned(s, ops[..last], made), PlanOps(ops[..last], made, |s.layers|);
    match ops[last]
    case AddLayerOp(_, _) =>
      OpsPrefix(ops, last, known);
      NextLayerNew(s, ops[..last], made, known);
      LayerKeepsUnique(before, made[p.added], p.topIndex);
    case AddStrokeOp(layerId, stroke) =>
      StrokeKeepsUnique(before, Resolve(p.idMap, layerId), stroke);
  }

  // the next layer object is neither in the document nor drawn on
  lemma NextLayerNew(s: Sheet, ops: seq<Op>, made: seq<Layer>, known: set<Id>)
    requires Batch(s, ops, made) && Accepted(s.layers, ops, made, known) && LayerOps(ops) < |made|
    ensures var t, layer, n := Planned(s, ops, made), made[LayerOps(ops)], |s.layers| + LayerOps(ops);
            n == |t.layers| && IndexOf(t.layers, layer.id) == -1 && layer in t.data && t.data[layer].strokes == []
  {
    PlannedLayers(s, ops, made);
    UnusedId(s.layers, made, LayerOps(ops));
    ValidResolves(s.layers, known, ops, made);
    NothingDrawn(s, ops, made, LayerOps(ops));
  }

  lemma NothingDrawn(s: Sheet, ops: seq<Op>, made: seq<Layer>, n: nat)
    requires Batch(s, ops, made) && Resolved(s.layers, ops, made) && LayerOps(ops) <= n < |made|
    ensures made[n] in Planned(s, ops, made).data && Planned(s, ops, made).data[made[n]].strokes == []
  {
    PlannedData(s, ops, made, made[n]);
    NotYetDrawn(s.layers, ops, made, n);
  }

  /** The ids of the document stay unique, layers and strokes together. */
  lemma {:induction false} IdsStayUnique(s: Sheet, ops: seq<Op>, made: seq<Layer>, known: set<Id>)
    requires Batch(s, ops, made) && Accepted(s.layers, ops, made, known)
    requires IdsUnique(s) && FreshIds(s, ops, made)
    ensures IdsUnique(Planned(s, ops, made))
  {
    if ops != [] {
      var last := |ops| - 1;
      OpsPrefix(ops, last, known);
      IdsStayUnique(s, ops[..last], made, known);
      OpKeepsUnique(s, ops, made, known);
    }
  }

  /** Accepting a valid batch in 'add' mode keeps one id per layer and stroke, across the whole
      document. */
  lemma AcceptedIdsUnique(s: Sheet, ops: seq<Op>, made: seq<Layer>, width: int, height: int)
    requires AcceptedBatch(s, ops, made, width, height) && IdsUnique(s) && FreshIds(s, ops, made)
    ensures Holds(s.data, Composite(AcceptedCommands(s.layers, ops, made, AddMode)))
    ensures IdsUnique(Apply(s, Composite(AcceptedCommands(s.layers, ops, made, AddMode))))
  {
    var cs := PlanOps(ops, made, |s.layers|).commands;
    AcceptedIs(s, ops, made, width, height);
    assert AcceptedCommands(s.layers, ops, made, AddMode) == cs;
    PlanHolds(s, ops, made, |s.layers|);
    CompositeIsAll(s, cs);
    IdsStayUnique(s, ops, made, SummaryIds(Summarize(DocumentOf(s, width, height))));
  }

  /** An accepted batch whose strokes avoid the document's own is what the undo results ask for: one
      undo of it in 'add' mode is exact. */
  lemma AcceptedUndone(s: Sheet, ops: seq<Op>, made: seq<Layer>, width: int, height: int)
    requires AcceptedBatch(s, ops, made, width, height) && FreshIds(s, ops, made)
    ensures Batch(s, ops, made) && FreshStrokes(s, ops)
    ensures var c := Composite(AcceptedCommands(s.layers, ops, made, AddMode));
            Holds(s.data, c) && Exact(s, c)
  {
    AcceptedIs(s, ops, made, width, height);
    forall j, k | 0 <= j < k < |ops| && ops[j].AddStrokeOp? && ops[k].AddStrokeOp?
      ensures ops[j].stroke.id != ops[k].stroke.id
    {
      assert OpIds(ops)[j] == ops[j].stroke.id && OpIds(ops)[k] == ops[k].stroke.id;
    }
    AcceptedAddFits(s, ops, made);
  }
}
