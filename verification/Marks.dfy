/** The history mark as a stand-in for the document: over all the editor executes, accepted proposals
    included (packages/editor/src/history.ts:200-206, packages/editor/src/editor.ts:292-299). */
module Marks {
  import opened Wrappers
  import opened Drawing
  import opened Editing
  import opened Exactness
  import opened HistoryRuns
  import opened Reinsertion
  import opened CommandLists
  import opened AcceptOps
  import opened ReplaceUndo
  import opened Proposals

  /** Where a command comes from: built at the sheet it runs on, or a 'replace' of a batch. */
  datatype Origin = Built | Replacing(ops: seq<Op>, made: seq<Layer>)

  predicate From(s: Sheet, c: Command, o: Origin)
    requires Known(s) && Holds(s.data, c)
  {
    match o
    case Built => FitsAt(s, c)
    case Replacing(ops, made) =>
      Batch(s, ops, made) && FreshStrokes(s, ops) && c == Composite(AcceptedCommands(s.layers, ops, made, ReplaceMode))
  }

  /** A 'replace' that puts the layers back in order when it is undone. */
  predicate Orderly(s: Sheet, o: Origin) {
    o.Replacing? && LayerOps(o.ops) <= |o.made| ==> Returns(s.layers, Replaced(s, o.ops, o.made), LayerOps(o.ops))
  }

  lemma ReplacedUnique(s: Sheet, ops: seq<Op>, made: seq<Layer>)
    requires Batch(s, ops, made)
    ensures Holds(s.data, Composite(AcceptedCommands(s.layers, ops, made, ReplaceMode)))
    ensures UniqueIds(Apply(s, Composite(AcceptedCommands(s.layers, ops, made, ReplaceMode))).layers)
  {
    var gone, new' := Replaced(s, ops, made), made[..LayerOps(ops)];
    AcceptedHolds(s, ops, made, ReplaceMode);
    AcceptedLayers(s, ops, made, ReplaceMode);
    PlannedUnique(s, ops, made);
    PlannedLayers(s, ops, made);
    NewStay(s.layers, made, LayerOps(ops), gone);
    WithoutConcat(s.layers, new', gone);
    WithoutUnique(s.layers + new', gone);
  }

  /** What the editor executes is exact: always when built where it runs, and for a 'replace' if and
      only if it is orderly. */
  lemma FromExactIff(s: Sheet, c: Command, o: Origin)
    requires Known(s) && Holds(s.data, c) && UniqueIds(s.layers) && From(s, c, o)
    ensures Exact(s, c) <==> Orderly(s, o)
    ensures UniqueIds(Apply(s, c).layers)
  {
    match o
    case Built => FittingIsExact(s, c);
    case Replacing(ops, made) =>
      ReplaceUndoIff(s, ops, made);
      ReplacedUnique(s, ops, made);
  }

  // ---- sessions of the editor ----

  ghost predicate EditorStep(p: Session, record: Record, a: Action, o: Origin, q: Session, next: Record) {
    Sound(p)
    && (a.Execute? ==>
          a.cmd !in record && Holds(p.sheet.data, a.cmd.command) && From(p.sheet, a.cmd.command, o)
          && Orderly(p.sheet, o))
    && q == Act(p, a) && next == Recorded(p, record, a)
  }

  /** A session in which every 'replace' is orderly. */
  ghost predicate IsEditorSession(
    ps: seq<Session>, records: seq<Record>, actions: seq<Action>, origins: seq<Origin>)
  {
    |ps| == |records| == |actions| + 1 && |origins| == |actions|
    && ps[0].undo == [] && ps[0].redo == [] && records[0] == map[]
    && Known(ps[0].sheet) && UniqueIds(ps[0].sheet.layers)
    && forall i {:trigger actions[i]} :: 0 <= i < |actions| ==>
         EditorStep(ps[i], records[i], actions[i], origins[i], ps[i + 1], records[i + 1])
  }

  lemma StepAllowed(p: Session, start: Sheet, record: Record, a: Action, o: Origin, q: Session, next: Record)
    requires EditorStep(p, record, a, o, q, next) && OnRecord(p, start, record)
    ensures Allowed(p, record, a)
  {
    LineUnique(HistoryRuns.Line(p.undo, p.redo), |p.undo|, p.sheet, start, record);
    if a.Execute? { FromExactIff(p.sheet, a.cmd.command, o); }
  }

  lemma {:induction false} EditorOnRecord(
    ps: seq<Session>, records: seq<Record>, actions: seq<Action>, origins: seq<Origin>, i: nat)
    requires IsEditorSession(ps, records, actions, origins) && i < |ps|
    ensures Sound(ps[i]) && OnRecord(ps[i], ps[0].sheet, records[i])
  {
    if i > 0 {
      var a := actions[i - 1];
      EditorOnRecord(ps, records, actions, origins, i - 1);
      assert EditorStep(ps[i - 1], records[i - 1], a, origins[i - 1], ps[i], records[i]);
      StepAllowed(ps[i - 1], ps[0].sheet, records[i - 1], a, origins[i - 1], ps[i], records[i]);
      ActOnRecord(ps[i - 1], ps[0].sheet, records[i - 1], a);
    }
  }

  lemma EditorIsSession(ps: seq<Session>, records: seq<Record>, actions: seq<Action>, origins: seq<Origin>)
    requires IsEditorSession(ps, records, actions, origins)
    ensures IsSession(ps, records, actions)
  {
    forall i {:trigger actions[i]} | 0 <= i < |actions|
      ensures SessionStep(ps[i], records[i], actions[i], ps[i + 1], records[i + 1])
    {
      EditorOnRecord(ps, records, actions, origins, i);
      StepAllowed(ps[i], ps[0].sheet, records[i], actions[i], origins[i], ps[i + 1], records[i + 1]);
    }
  }

  /** In every session of the editor whose 'replace' proposals are orderly, equal marks mean equal
      documents. */
  lemma EditorMarks(
    ps: seq<Session>, records: seq<Record>, actions: seq<Action>, origins: seq<Origin>, i: nat, j: nat)
    requires IsEditorSession(ps, records, actions, origins) && i <= j < |ps| && Mark(ps[i]) == Mark(ps[j])
    ensures ps[i].sheet == ps[j].sheet
  {
    EditorIsSession(ps, records, actions, origins);
    EqualMarksEqualDocuments(ps, records, actions, i, j);
  }

  /** And one that is not orderly breaks it at once: accepting it and undoing it shows the mark of
      before, on another document. */
  lemma ReplaceMarkIff(p: Session, e: CommandObject, ops: seq<Op>, made: seq<Layer>)
    requires Sound(p) && Holds(p.sheet.data, e.command) && From(p.sheet, e.command, Replacing(ops, made))
    ensures Sound(Act(p, Execute(e)))
    ensures var back := Act(Act(p, Execute(e)), Undo);
            Mark(back) == Mark(p)
            && (back.sheet == p.sheet <==> Returns(p.sheet.layers, Replaced(p.sheet, ops, made), LayerOps(ops)))
  {
    ExecuteUndoIff(p, e);
    ReplaceUndoIff(p.sheet, ops, made);
  }

  /** A new history on four layers: accepting one new layer in their place and undoing it leaves no
      mark, but the upper two layers swapped. */
  lemma SameMarkOtherDocument(s: Sheet, a: Layer, b: Layer, c: Layer, d: Layer, e: Layer, cmd: CommandObject)
    requires s.layers == [a, b, c, d] && Batch(s, OneLayer(), [e])
    requires cmd.command == Composite(AcceptedCommands(s.layers, OneLayer(), [e], ReplaceMode))
    ensures var p := Session([], [], s);
            Sound(p) && Holds(s.data, cmd.command) && Sound(Act(p, Execute(cmd)))
            && var back := Act(Act(p, Execute(cmd)), Undo);
               Mark(back) == Mark(p) == None && back.sheet.layers == [a, b, d, c] && back.sheet != s
  {
    FourByOneProposal(s, a, b, c, d, e);
    ExecuteUndoIff(Session([], [], s), cmd);
  }
}
