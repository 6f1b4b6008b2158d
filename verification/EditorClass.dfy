/** The editor's document half (packages/editor/src/editor.ts): each method runs one command
    through the history.  All of them keep the active layer a layer of the document, except that
    accepting a 'replace' does so under exactly one condition (LeftAfter). */
module EditorClass {
  import opened Wrappers
  import opened Drawing
  import opened Editing
  import opened CommandEffects
  import opened Exactness
  import opened HistoryRuns
  import opened EditorObjects
  import opened AcceptOps
  import opened Proposals
  import opened Seqs

  const MAX_LAYERS := 64

  class History {
    var undoStack: seq<CommandObject>
    var redoStack: seq<CommandObject>

    constructor ()
      ensures undoStack == [] && redoStack == []
    {
      undoStack, redoStack := [], [];
    }

    ghost function SessionOf(doc: LiveDocument, all: set<Layer>): Session
      reads this, doc, all
    {
      Session(undoStack, redoStack, SheetOf(doc, all))
    }

    method GetMark() returns (mark: Option<CommandObject>)
      ensures mark == if undoStack == [] then None else Some(Top(undoStack))
    {
      if undoStack == [] { return None; }
      return Some(undoStack[|undoStack| - 1]);
    }

    method Execute(doc: LiveDocument, cmd: CommandObject, ghost all: set<Layer>)
      requires Sound(SessionOf(doc, all)) && Holds(SheetOf(doc, all).data, cmd.command)
      modifies this, doc, all
      ensures SessionOf(doc, all) == Act(old(SessionOf(doc, all)), HistoryRuns.Execute(cmd))
      ensures Sound(SessionOf(doc, all))
    {
      ActSound(SessionOf(doc, all), HistoryRuns.Execute(cmd));
      ApplyTo(doc, cmd.command, all);
      undoStack, redoStack := undoStack + [cmd], [];
    }

    method Undo(doc: LiveDocument, ghost all: set<Layer>) returns (ok: bool)
      requires Sound(SessionOf(doc, all))
      modifies this, doc, all
      ensures ok == (old(undoStack) != [])
      ensures SessionOf(doc, all) == Act(old(SessionOf(doc, all)), HistoryRuns.Undo) && Sound(SessionOf(doc, all))
    {
      if undoStack == [] { return false; }
      ActSound(SessionOf(doc, all), HistoryRuns.Undo);
      var cmd := undoStack[|undoStack| - 1];
      InvertOn(doc, cmd.command, all);
      undoStack, redoStack := undoStack[..|undoStack| - 1], redoStack + [cmd];
      return true;
    }

    method Redo(doc: LiveDocument, ghost all: set<Layer>) returns (ok: bool)
      requires Sound(SessionOf(doc, all))
      modifies this, doc, all
      ensures ok == (old(redoStack) != [])
      ensures SessionOf(doc, all) == Act(old(SessionOf(doc, all)), HistoryRuns.Redo) && Sound(SessionOf(doc, all))
    {
      if redoStack == [] { return false; }
      ActSound(SessionOf(doc, all), HistoryRuns.Redo);
      var cmd := redoStack[|redoStack| - 1];
      ApplyTo(doc, cmd.command, all);
      undoStack, redoStack := undoStack + [cmd], redoStack[..|redoStack| - 1];
      return true;
    }

    method Clear()
      modifies this
      ensures undoStack == [] && redoStack == []
    {
      undoStack, redoStack := [], [];
    }
  }

  class Editor {
    var doc: LiveDocument
    var activeLayerId: Id
    var ghostOps: Option<seq<Op>>
    const history: History
    ghost var all: set<Layer>

    ghost predicate Valid() reads this, history, doc, all {
      Sound(history.SessionOf(doc, all))
    }

    ghost function Sheet(): Sheet reads this, doc, all {
      SheetOf(doc, all)
    }

    // new strokes land on a layer of the document
    predicate ActiveOk() reads this, doc {
      doc.layers == [] || IndexOf(doc.layers, activeLayerId) >= 0
    }

    // one command on top, and nothing left to redo
    predicate Pushed(was: seq<CommandObject>) reads history {
      history.undoStack != [] && Pop(history.undoStack) == was && history.redoStack == []
    }

    constructor (doc: LiveDocument, spareId: Id)
      ensures Valid() && this.doc == doc && ActiveOk()
    {
      this.doc := doc;
      activeLayerId := if doc.layers != [] then doc.layers[0].id else spareId;
      ghostOps := None;
      history := new History();
      all := set l | l in doc.layers;
    }

    method LoadDocument(next: LiveDocument, spareId: Id)
      requires Valid()
      modifies this, history
      ensures Valid() && ActiveOk() && doc == next && ghostOps == None
      ensures history.undoStack == [] && history.redoStack == []
    {
      doc := next;
      activeLayerId := if next.layers != [] then next.layers[0].id else spareId;
      history.Clear();
      ghostOps := None;
      all := all + set l | l in next.layers;
    }

    /** Runs a command as a new object.  Only the commands of a 'replace' may not fit. */
    method Commit(command: Command, ghost fitting: bool) returns (cmd: CommandObject)
      requires Valid() && Holds(Sheet().data, command) && (fitting ==> FitsAt(Sheet(), command))
      modifies history, doc, all
      ensures Valid() && fresh(cmd) && cmd.command == command
      ensures history.SessionOf(doc, all) == Act(old(history.SessionOf(doc, all)), Execute(cmd))
      ensures Pushed(old(history.undoStack))
    {
      cmd := new CommandObject(command);
      history.Execute(doc, cmd, all);
      PopPushed(old(history.undoStack), cmd);
    }

    method ReconcileActiveLayer()
      modifies this`activeLayerId
      ensures ActiveOk()
      ensures activeLayerId == if old(ActiveOk()) then old(activeLayerId) else doc.layers[0].id
    {
      var i := FindLayer(doc.layers, activeLayerId);
      if i != -1 { return; }
      if doc.layers != [] { activeLayerId := doc.layers[0].id; }
    }

    method Undo() returns (ok: bool)
      requires Valid()
      modifies this`activeLayerId, history, doc, all
      ensures Valid() && (old(ActiveOk()) ==> ActiveOk()) && ok == (old(history.undoStack) != [])
      ensures history.SessionOf(doc, all) == Act(old(history.SessionOf(doc, all)), HistoryRuns.Undo)
      ensures activeLayerId == if !ok || doc.layers == [] || IndexOf(doc.layers, old(activeLayerId)) >= 0
                               then old(activeLayerId) else doc.layers[0].id
    {
      ok := history.Undo(doc, all);
      if !ok { return; }
      ReconcileActiveLayer();
    }

    method Redo() returns (ok: bool)
      requires Valid()
      modifies this`activeLayerId, history, doc, all
      ensures Valid() && (old(ActiveOk()) ==> ActiveOk()) && ok == (old(history.redoStack) != [])
      ensures history.SessionOf(doc, all) == Act(old(history.SessionOf(doc, all)), HistoryRuns.Redo)
      ensures activeLayerId == if !ok || doc.layers == [] || IndexOf(doc.layers, old(activeLayerId)) >= 0
                               then old(activeLayerId) else doc.layers[0].id
    {
      ok := history.Redo(doc, all);
      if !ok { return; }
      ReconcileActiveLayer();
    }

    method SetActiveLayer(id: Id)
      modifies this`activeLayerId
      ensures old(ActiveOk()) ==> ActiveOk()
      ensures activeLayerId == if IndexOf(doc.layers, id) >= 0 then id else old(activeLayerId)
    {
      if id == activeLayerId { return; }
      var i := FindLayer(doc.layers, id);
      if i == -1 { return; }
      activeLayerId := id;
    }

    /** A layer on top, active; nothing at the layer cap. */
    method AddLayer(id: Id, name: string) returns (added: Option<Layer>)
      requires Valid() && IndexOf(doc.layers, id) == -1
      modifies this, history, doc, all
      ensures Valid() && (old(ActiveOk()) ==> ActiveOk()) && doc == old(doc)
      ensures added.None? <==> |old(doc.layers)| >= MAX_LAYERS
      ensures added.None? ==> Sheet() == old(Sheet()) && history.undoStack == old(history.undoStack)
      ensures added.Some? ==>
        fresh(added.value) && added.value.Value() == LayerValue(id, name, true, Finite(1.0), [])
        && doc.layers == old(doc.layers) + [added.value] && activeLayerId == id
        && doc.background == old(doc.background) && forall l :: l in old(all) ==> l.Value() == old(l.Value())
      ensures added.Some? ==> Pushed(old(history.undoStack))
    {
      if |doc.layers| >= MAX_LAYERS { return None; }
      var layer := MakeLayer(id, name);
      activeLayerId := id;
      CommitOnTop(layer);
      return Some(layer);
    }

    // a layer object that is not in the document yet
    method MakeLayer(id: Id, name: string) returns (layer: Layer)
      requires Valid()
      modifies this`all
      ensures Valid() && fresh(layer) && all == old(all) + {layer} && layer.id == id
      ensures layer.Value() == LayerValue(id, name, true, Finite(1.0), [])
    {
      layer := new Layer(id, name);
      all := all + {layer};
      Widened(old(Sheet()), Sheet(), history.undoStack, history.redoStack);
    }

    method CommitOnTop(layer: Layer)
      requires Valid() && layer in all && IndexOf(doc.layers, layer.id) == -1
      modifies history, doc, all
      ensures Valid() && doc.layers == old(doc.layers) + [layer] && doc.background == old(doc.background)
      ensures Pushed(old(history.undoStack))
      ensures IndexOf(doc.layers, layer.id) >= 0 && forall l :: l in all ==> l.Value() == old(l.Value())
    {
      ghost var before := Sheet();
      AddOnTop(before, layer);
      var cmd := Commit(Editing.AddLayer(layer, |doc.layers|), true);
      SameValues(before);
    }

    // no layer object differs from the sheet
    lemma SameValues(before: Sheet)
      requires Sheet().data == before.data
      ensures forall l :: l in all ==> l in before.data && l.Value() == before.data[l]
    {
      assert forall l :: l in all ==> Sheet().data[l] == l.Value();
    }

    /** Takes a layer out; the last one stays.  The active layer passes to the layer above. */
    method RemoveLayer(id: Id) returns (removed: bool)
      requires Valid() && UniqueIds(doc.layers)
      modifies this`activeLayerId, history, doc, all
      ensures Valid() && (old(ActiveOk()) ==> ActiveOk()) && doc == old(doc)
      ensures removed == (|old(doc.layers)| > 1 && IndexOf(old(doc.layers), id) >= 0)
      ensures !removed ==> Sheet() == old(Sheet()) && history.undoStack == old(history.undoStack)
      ensures removed ==>
        doc.layers == RemoveAt(old(doc.layers), IndexOf(old(doc.layers), id))
        && doc.background == old(doc.background) && forall l :: l in all ==> l.Value() == old(l.Value())
      ensures removed ==> Pushed(old(history.undoStack))
      ensures activeLayerId ==
        if !removed || old(activeLayerId) != id then old(activeLayerId)
        else doc.layers[Clamp(IndexOf(old(doc.layers), id), |doc.layers| - 1)].id
    {
      if |doc.layers| <= 1 { return false; }
      var index := FindLayer(doc.layers, id);
      if index == -1 { return false; }
      ghost var layers := doc.layers;
      var wasActive := activeLayerId == id;
      CommitRemoval(index);
      StillFound(layers, index, activeLayerId);
      if wasActive { ActivateNear(index); }
      return true;
    }

    // the layer now at the index of the removed one, or the top one
    method ActivateNear(index: nat)
      requires doc.layers != [] && index <= |doc.layers|
      modifies this`activeLayerId
      ensures ActiveOk() && activeLayerId == doc.layers[Clamp(index, |doc.layers| - 1)].id
    {
      activeLayerId := doc.layers[if index < |doc.layers| then index else |doc.layers| - 1].id;
    }

    method CommitRemoval(index: nat)
      requires Valid() && index < |doc.layers| && IndexOf(doc.layers, doc.layers[index].id) == index
      modifies history, doc, all
      ensures Valid() && doc.layers == RemoveAt(old(doc.layers), index) && doc.background == old(doc.background)
      ensures Pushed(old(history.undoStack))
      ensures forall l :: l in all ==> l.Value() == old(l.Value())
    {
      ghost var before := Sheet();
      var cmd := Commit(Editing.RemoveLayer(doc.layers[index].id, index, Some(doc.layers[index])), true);
      SameValues(before);
    }

    method MoveLayer(id: Id, toIndex: int) returns (moved: bool)
      requires Valid()
      modifies history, doc, all
      ensures Valid() && (old(ActiveOk()) ==> ActiveOk()) && doc == old(doc)
      ensures moved == (IndexOf(old(doc.layers), id) >= 0
                        && Clamp(toIndex, |old(doc.layers)| - 1) != IndexOf(old(doc.layers), id))
      ensures !moved ==> Sheet() == old(Sheet()) && history.undoStack == old(history.undoStack)
      ensures moved ==>
        var from, at := IndexOf(old(doc.layers), id), Clamp(toIndex, |old(doc.layers)| - 1);
        |doc.layers| == |old(doc.layers)| && doc.layers[at] == old(doc.layers)[from]
        && RemoveAt(doc.layers, at) == RemoveAt(old(doc.layers), from)
      ensures moved ==> doc.background == old(doc.background) && forall l :: l in all ==> l.Value() == old(l.Value())
      ensures moved ==> Pushed(old(history.undoStack))
    {
      var from := FindLayer(doc.layers, id);
      if from == -1 { return false; }
      var clamped := Clamp(toIndex, |doc.layers| - 1);
      if clamped == from { return false; }
      CommitMove(id, clamped, from);
      return true;
    }

    method CommitMove(id: Id, at: nat, from: nat)
      requires Valid() && at < |doc.layers| && IndexOf(doc.layers, id) == from
      modifies history, doc, all
      ensures Valid() && (old(ActiveOk()) ==> ActiveOk()) && IsMove(old(doc.layers), doc.layers, from, at)
      ensures doc.background == old(doc.background) && Pushed(old(history.undoStack))
      ensures forall l :: l in all ==> l.Value() == old(l.Value())
    {
      MovedFound(doc.layers, id, at, activeLayerId);
      MovedThere(doc.layers, id, at);
      ghost var before := Sheet();
      var cmd := Commit(Editing.MoveLayer(id, at, from), true);
      SameValues(before);
    }

    /** The loop of 'replace': a removal for every layer not drawn into, built on the document as it
        is now. */
    method PlanRemovals(drawnInto: seq<Id>) returns (commands: seq<Command>)
      ensures commands == Removals(doc.layers, drawnInto, |doc.layers|)
    {
      commands := [];
      var n := 0;
      while n < |doc.layers|
        invariant n <= |doc.layers| && commands == Removals(doc.layers, drawnInto, n)
      {
        if doc.layers[n].id !in drawnInto {
          var i := FindLayer(doc.layers, doc.layers[n].id);
          var snapshot := if i >= 0 then Some(doc.layers[i]) else None;
          commands := commands + [Editing.RemoveLayer(doc.layers[n].id, i, snapshot)];
        }
        n := n + 1;
      }
    }

    // the objects of a batch, not in the document yet
    ghost method Know(made: seq<Layer>)
      requires Valid()
      modifies this`all
      ensures Valid() && all == old(all) + Elements(made)
    {
      all := all + Elements(made);
      Widened(old(Sheet()), Sheet(), history.undoStack, history.redoStack);
    }

    /** Accepts the proposal as one command, so one undo takes it back.  `before` is the sheet the
        commands were built on, `made` the layers the batch creates. */
    method AcceptOps(mode: Mode, newIds: seq<Id>) returns (ghost before: Sheet, ghost made: seq<Layer>)
      requires Valid() && (ghostOps.Some? ==> LayerOps(ghostOps.value) <= |newIds|)
      modifies this, history, doc, all
      ensures Valid() && ghostOps == None && doc == old(doc)
      ensures old(ghostOps).None? || old(ghostOps).value == [] ==>
                Sheet() == old(Sheet()) && history.undoStack == old(history.undoStack)
                && activeLayerId == old(activeLayerId)
      ensures old(ghostOps).Some? && old(ghostOps).value != [] ==>
                var ops := old(ghostOps).value;
                BuiltOn(old(Sheet()), before, ops, made, newIds)
                && AcceptedAs(before, ops, made, mode, old(history.undoStack), history.SessionOf(doc, all))
                && activeLayerId == ActiveAfter(old(activeLayerId), PlanOps(ops, made, |before.layers|), mode)
                && (UniqueIds(before.layers + made) ==>
                      LeftAfter(before.layers, ops, made, mode, old(activeLayerId), doc.layers, activeLayerId))
    {
      before, made := Sheet(), [];
      if ghostOps == None { return; }
      var ops := ghostOps.value;
      ghostOps := None;
      if ops == [] { return; }
      before, made := AcceptBatch(mode, ops, newIds);
    }

    method AcceptBatch(mode: Mode, ops: seq<Op>, newIds: seq<Id>) returns (ghost before: Sheet, ghost made: seq<Layer>)
      requires Valid() && LayerOps(ops) <= |newIds| && ops != []
      modifies this`activeLayerId, this`all, history, doc, all
      ensures Valid() && BuiltOn(old(Sheet()), before, ops, made, newIds)
      ensures AcceptedAs(before, ops, made, mode, old(history.undoStack), history.SessionOf(doc, all))
      ensures activeLayerId == ActiveAfter(old(activeLayerId), PlanOps(ops, made, |before.layers|), mode)
      ensures UniqueIds(before.layers + made) ==>
                LeftAfter(before.layers, ops, made, mode, old(activeLayerId), doc.layers, activeLayerId)
    {
      var p;
      p, before, made := PrepareBatch(ops, newIds);
      var commands := CollectCommands(mode, p);
      AcceptedHolds(before, ops, made, mode);
      CommitProposal(commands);
      if UniqueIds(before.layers + made) {
        BuiltLeaves(old(Sheet()), before, ops, made, newIds, mode, old(activeLayerId));
      }
    }

    method CommitProposal(commands: seq<Command>)
      requires Valid() && Holds(Sheet().data, Composite(commands))
      modifies history, doc, all
      ensures Valid() && Sheet() == Apply(old(Sheet()), Composite(commands))
      ensures history.undoStack != [] && history.undoStack[..|history.undoStack| - 1] == old(history.undoStack)
      ensures history.redoStack == [] && Top(history.undoStack).command == Composite(commands)
    {
      var cmd := Commit(Composite(commands), false);
      assert Pop(old(history.undoStack) + [cmd]) == old(history.undoStack);
    }

    method PrepareBatch(ops: seq<Op>, newIds: seq<Id>) returns (p: Plan, ghost before: Sheet, ghost made: seq<Layer>)
      requires Valid() && LayerOps(ops) <= |newIds|
      modifies this`all
      ensures Valid() && BuiltOn(old(Sheet()), before, ops, made, newIds) && before == Sheet()
      ensures p == PlanOps(ops, made, |doc.layers|)
      ensures forall l :: l in all ==> l in old(all) || fresh(l)
    {
      p, made := PlanBatch(ops, newIds, |doc.layers|);
      Know(made);
      before := Sheet();
    }

    // the commands of the proposal, and the layer that will be active
    method CollectCommands(mode: Mode, p: Plan) returns (commands: seq<Command>)
      modifies this`activeLayerId
      ensures commands == p.commands + if mode.ReplaceMode? then Removals(doc.layers, p.drawnInto, |doc.layers|) else []
      ensures activeLayerId == ActiveAfter(old(activeLayerId), p, mode)
    {
      commands := p.commands;
      if mode.ReplaceMode? {
        var removals := PlanRemovals(p.drawnInto);
        commands := commands + removals;
        if activeLayerId !in p.drawnInto {
          activeLayerId := if p.lastAdded.Some? then p.lastAdded.value
            else if p.drawnInto != [] then p.drawnInto[0] else activeLayerId;
        }
      } else {
        assert commands + [] == commands;
      }
    }

    method PreviewOps(ops: seq<Op>)
      modifies this`ghostOps
      ensures ghostOps == Some(ops)
    {
      ghostOps := Some(ops);
    }

    method RejectOps()
      modifies this`ghostOps
      ensures ghostOps == None
    {
      ghostOps := None;
    }
  }

  lemma PopPushed(undo: seq<CommandObject>, cmd: CommandObject)
    ensures Pop(undo + [cmd]) == undo
  {
  }

  /** The sheet a batch is planned on: the document as it was, and the new layer objects. */
  predicate BuiltOn(was: Sheet, before: Sheet, ops: seq<Op>, made: seq<Layer>, newIds: seq<Id>) {
    before.layers == was.layers && before.background == was.background
    && (forall l :: l in was.data ==> l in before.data && before.data[l] == was.data[l])
    && |made| == LayerOps(ops) <= |newIds|
    && (forall i :: 0 <= i < |made| ==>
          made[i] in before.data && made[i] !in was.data && made[i].id == newIds[i]
          && before.data[made[i]] == LayerValue(newIds[i], LayerNames(ops)[i], true, Finite(1.0), []))
  }

  /** One command on top of the undo stack, which made the sheet out of the one before. */
  ghost predicate AcceptedAs(
    before: Sheet, ops: seq<Op>, made: seq<Layer>, mode: Mode, was: seq<CommandObject>, now: Session)
    requires LayerOps(ops) <= |made|
  {
    now.undo != [] && Pop(now.undo) == was && now.redo == []
    && Top(now.undo).command == Composite(AcceptedCommands(before.layers, ops, made, mode))
    && Known(before) && Holds(before.data, Top(now.undo).command)
    && now.sheet == Apply(before, Top(now.undo).command)
  }

  /** What is left after a proposal.  A 'replace' leaves a layer if and only if it adds one or draws
      into one that was there; and the active layer is one of the document again if and only if
      KeepsActive says so. */
  predicate LeftAfter(
    before: seq<Layer>, ops: seq<Op>, made: seq<Layer>, mode: Mode, was: Id, after: seq<Layer>, now: Id)
    requires LayerOps(ops) <= |made| && ops != []
  {
    var p := PlanOps(ops, made, |before|);
    (mode.ReplaceMode? ==> (after != [] <==> LayerOps(ops) > 0 || exists l :: l in before && l.id in p.drawnInto))
    && (IndexOf(before, was) >= 0 ==>
          (IndexOf(after, now) >= 0 <==> mode.AddMode? || KeepsActive(before, ops, p, was)))
  }

  lemma BuiltLeaves(
    was: Sheet, before: Sheet, ops: seq<Op>, made: seq<Layer>, newIds: seq<Id>, mode: Mode, active: Id)
    requires Known(was) && BuiltOn(was, before, ops, made, newIds) && UniqueIds(before.layers + made) && ops != []
    ensures Known(before) && Holds(before.data, Composite(AcceptedCommands(before.layers, ops, made, mode)))
    ensures var after := Apply(before, Composite(AcceptedCommands(before.layers, ops, made, mode)));
            LeftAfter(before.layers, ops, made, mode, active, after.layers,
                      ActiveAfter(active, PlanOps(ops, made, |before.layers|), mode))
  {
    BuiltBatch(was, before, ops, made, newIds);
    AcceptedHolds(before, ops, made, mode);
    if mode.ReplaceMode? { LayerRemainsIff(before, ops, made); }
    if IndexOf(before.layers, active) >= 0 { ActiveFoundIff(before, ops, made, active, mode); }
  }

  lemma BuiltBatch(was: Sheet, before: Sheet, ops: seq<Op>, made: seq<Layer>, newIds: seq<Id>)
    requires Known(was) && BuiltOn(was, before, ops, made, newIds) && UniqueIds(before.layers + made)
    ensures Batch(before, ops, made)
  {
    forall l | l in before.layers ensures l in was.data && l in before.data {
    }
  }

  /** The loop over the operations: their commands, and the layer objects they put on top. */
  method PlanBatch(ops: seq<Op>, newIds: seq<Id>, top: nat) returns (p: Plan, ghost made: seq<Layer>)
    requires LayerOps(ops) <= |newIds|
    ensures |made| == LayerOps(ops) && p == PlanOps(ops, made, top)
    ensures forall i :: 0 <= i < |made| ==>
              fresh(made[i]) && made[i].Value() == LayerValue(newIds[i], LayerNames(ops)[i], true, Finite(1.0), [])
  {
    p := StartPlan(top);
    made := [];
    var k := 0;
    while k < |ops|
      invariant k <= |ops| && |made| == LayerOps(ops[..k]) <= |newIds| && p == PlanOps(ops[..k], made, top)
      invariant forall i :: 0 <= i < |made| ==>
                  fresh(made[i])
                  && made[i].Value() == LayerValue(newIds[i], LayerNames(ops[..k])[i], true, Finite(1.0), [])
    {
      NextOp(ops, k);
      match ops[k] {
        case AddLayerOp(id, name) =>
          var layer := new Layer(newIds[p.added], name);
          PlanMade(ops[..k], made, [layer], top);
          made := made + [layer];
          PlanNext(ops, k, made, top);
          p := p.(commands := p.commands + [AddLayer(layer, p.topIndex)], idMap := p.idMap[id := layer.id],
                  added := p.added + 1, topIndex := p.topIndex + 1, lastAdded := Some(layer.id));
        case AddStrokeOp(layerId, stroke) =>
          PlanNext(ops, k, made, top);
          var resolvedId := if layerId in p.idMap then p.idMap[layerId] else layerId;
          p := p.(commands := p.commands + [AddStroke(resolvedId, stroke)],
                  drawnInto := if resolvedId in p.drawnInto then p.drawnInto else p.drawnInto + [resolvedId]);
      }
      k := k + 1;
    }
    assert ops[..k] == ops;
  }

  lemma NextOp(ops: seq<Op>, k: nat)
    requires k < |ops|
    ensures LayerOps(ops[..k + 1]) == LayerOps(ops[..k]) + (if ops[k].AddLayerOp? then 1 else 0) <= LayerOps(ops)
    ensures LayerNames(ops[..k + 1]) == LayerNames(ops[..k]) + if ops[k].AddLayerOp? then [ops[k].name] else []
  {
    assert ops[..k + 1][..k] == ops[..k];
    FewerLayerOps(ops, k + 1);
  }

  lemma PlanNext(ops: seq<Op>, k: nat, made: seq<Layer>, top: nat)
    requires k < |ops| && LayerOps(ops[..k]) <= |made| && LayerOps(ops[..k + 1]) <= |made|
    requires ops[k].AddLayerOp? ==> LayerOps(ops[..k]) < |made|
    ensures PlanOps(ops[..k + 1], made, top) == PlanOp(PlanOps(ops[..k], made, top), ops[k], made)
  {
    assert ops[..k + 1][..k] == ops[..k];
  }

  lemma StillFound(layers: seq<Layer>, index: nat, id: Id)
    requires index < |layers| && UniqueIds(layers)
    ensures IndexOf(layers, id) >= 0 && id != layers[index].id ==> IndexOf(RemoveAt(layers, index), id) >= 0
  {
    var i, rest := IndexOf(layers, id), RemoveAt(layers, index);
    if i >= 0 && i != index {
      assert rest[if i < index then i else i - 1] == layers[i];
    }
  }

  // clamping twice is clamping once, and a move loses no layer
  lemma MovedFound(layers: seq<Layer>, id: Id, clamped: nat, active: Id)
    requires IndexOf(layers, id) >= 0 && clamped < |layers|
    ensures IndexOf(layers, active) >= 0 ==> IndexOf(MoveTo(layers, id, clamped), active) >= 0
  {
    var i, from := IndexOf(layers, active), IndexOf(layers, id);
    var rest := RemoveAt(layers, from);
    var all := InsertAt(rest, Clamp(clamped, |rest|), layers[from]);
    if i >= 0 {
      if i == from {
        assert all[Clamp(clamped, |rest|)] == layers[from];
      } else {
        var k := if i < from then i else i - 1;
        assert rest[k] == layers[i];
        assert all[if k < Clamp(clamped, |rest|) then k else k + 1] == layers[i];
      }
    }
  }

  lemma AddOnTop(s: Sheet, layer: Layer)
    requires Known(s) && layer in s.data
    ensures Apply(s, AddLayer(layer, |s.layers|)) == s.(layers := s.layers + [layer])
    ensures IndexOf(s.layers + [layer], layer.id) >= 0
  {
    assert (s.layers + [layer])[|s.layers|] == layer;
  }

  // objects not in the document yet change nothing for the commands at hand
  lemma Widened(s: Sheet, t: Sheet, undo: seq<CommandObject>, redo: seq<CommandObject>)
    requires Sound(Session(undo, redo, s)) && t.layers == s.layers && s.data.Keys <= t.data.Keys
    ensures Sound(Session(undo, redo, t))
  {
    forall k | 0 <= k < |undo| ensures Holds(t.data, undo[k].command) { HoldsMore(s.data, t.data, undo[k].command); }
    forall k | 0 <= k < |redo| ensures Holds(t.data, redo[k].command) { HoldsMore(s.data, t.data, redo[k].command); }
  }

  lemma HoldsMore(data: map<Layer, LayerValue>, data': map<Layer, LayerValue>, c: Command)
    requires data.Keys <= data'.Keys && Holds(data, c)
    ensures Holds(data', c)
    decreases c
  {
    match c
    case AddLayer(layer, _) => assert layer in data.Keys;
    case RemoveLayer(_, _, snapshot) => assert snapshot.Some? ==> snapshot.value in data.Keys;
    case Composite(children) =>
      forall k | 0 <= k < |children| ensures Holds(data', children[k]) {
        HoldsMore(data, data', children[k]);
      }
    case _ =>
  }
}
