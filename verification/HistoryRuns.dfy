/** Undo and redo over whole sessions (packages/editor/src/history.ts, class History). */
module HistoryRuns {
  import opened Wrappers
  import opened Editing
  import opened Exactness

  /** The two stacks, each with its top last, and the document they act on. */
  datatype Session = Session(undo: seq<CommandObject>, redo: seq<CommandObject>, sheet: Sheet)

  datatype Action = Execute(cmd: CommandObject) | Undo | Redo

  predicate Sound(p: Session) {
    Known(p.sheet)
    && (forall k :: 0 <= k < |p.undo| ==> Holds(p.sheet.data, p.undo[k].command))
    && (forall k :: 0 <= k < |p.redo| ==> Holds(p.sheet.data, p.redo[k].command))
  }

  function Top(cmds: seq<CommandObject>): CommandObject
    requires cmds != []
  {
    cmds[|cmds| - 1]
  }

  function Pop(cmds: seq<CommandObject>): seq<CommandObject>
    requires cmds != []
  {
    cmds[..|cmds| - 1]
  }

  // the `mark` getter
  function Mark(p: Session): Option<CommandObject> {
    if p.undo == [] then None else Some(Top(p.undo))
  }

  function Act(p: Session, a: Action): Session
    requires Sound(p) && (a.Execute? ==> Holds(p.sheet.data, a.cmd.command))
  {
    match a
    case Execute(e) => Session(p.undo + [e], [], Apply(p.sheet, e.command))
    case Undo =>
      if p.undo == [] then p
      else Session(Pop(p.undo), p.redo + [Top(p.undo)], Invert(p.sheet, Top(p.undo).command))
    case Redo =>
      if p.redo == [] then p
      else Session(p.undo + [Top(p.redo)], Pop(p.redo), Apply(p.sheet, Top(p.redo).command))
  }

  lemma ActSound(p: Session, a: Action)
    requires Sound(p) && (a.Execute? ==> Holds(p.sheet.data, a.cmd.command))
    ensures Sound(Act(p, a)) && Act(p, a).sheet.data.Keys == p.sheet.data.Keys
  {
    var q := Act(p, a);
    forall k | 0 <= k < |q.undo| ensures Holds(q.sheet.data, q.undo[k].command) {
      HoldsSameKeys(p.sheet.data, q.sheet.data, q.undo[k].command);
    }
    forall k | 0 <= k < |q.redo| ensures Holds(q.sheet.data, q.redo[k].command) {
      HoldsSameKeys(p.sheet.data, q.sheet.data, q.redo[k].command);
    }
  }

  // ---- the record ----

  /** What each command left behind when it was executed. */
  type Record = map<CommandObject, Sheet>

  // the sheet the k-th command on the line was executed on
  function SheetAt(start: Sheet, record: Record, line: seq<CommandObject>, k: nat): Sheet
    requires k <= |line| && forall i :: 0 <= i < |line| ==> line[i] in record
  {
    if k == 0 then start else record[line[k - 1]]
  }

  predicate Links(from: Sheet, e: CommandObject, to: Sheet) {
    Known(from) && Holds(from.data, e.command) && Known(to) && Holds(to.data, e.command)
    && Apply(from, e.command) == to && Invert(to, e.command) == from
    && UniqueIds(to.layers)
  }

  // undone commands come back in the order they were executed
  function Line(undo: seq<CommandObject>, redo: seq<CommandObject>): (r: seq<CommandObject>)
    ensures |r| == |undo| + |redo|
    ensures forall k :: 0 <= k < |r| ==> r[k] == if k < |undo| then undo[k] else redo[|r| - 1 - k]
  {
    undo + seq(|redo|, k requires 0 <= k < |redo| => redo[|redo| - 1 - k])
  }

  lemma PopPush(undo: seq<CommandObject>, redo: seq<CommandObject>)
    requires undo != []
    ensures Line(Pop(undo), redo + [Top(undo)]) == Line(undo, redo)
  {
  }

  lemma PushPop(undo: seq<CommandObject>, redo: seq<CommandObject>)
    requires redo != []
    ensures Line(undo + [Top(redo)], Pop(redo)) == Line(undo, redo)
  {
  }

  ghost predicate OnRecord(p: Session, start: Sheet, record: Record) {
    OnLine(Line(p.undo, p.redo), |p.undo|, p.sheet, start, record)
  }

  // the sheet is the one reached after the first n commands of the line
  ghost predicate OnLine(line: seq<CommandObject>, n: nat, sheet: Sheet, start: Sheet, record: Record) {
    n <= |line| && UniqueIds(start.layers)
    && (forall k :: 0 <= k < |line| ==> line[k] in record)
    && (forall k :: 0 <= k < |line| ==> LinkedAt(line, k, start, record))
    && sheet == SheetAt(start, record, line, n)
  }

  ghost predicate LinkedAt(line: seq<CommandObject>, k: nat, start: Sheet, record: Record)
    requires k < |line| && forall i :: 0 <= i < |line| ==> line[i] in record
  {
    Links(SheetAt(start, record, line, k), line[k], SheetAt(start, record, line, k + 1))
  }

  /** Each command object is executed once, and is exact where it is executed. */
  predicate Allowed(p: Session, record: Record, a: Action)
    requires Sound(p)
  {
    a.Execute? ==>
      a.cmd !in record && Holds(p.sheet.data, a.cmd.command) && Exact(p.sheet, a.cmd.command)
      && UniqueIds(Apply(p.sheet, a.cmd.command).layers)
  }

  function Recorded(p: Session, record: Record, a: Action): Record
    requires Sound(p) && (a.Execute? ==> Holds(p.sheet.data, a.cmd.command))
  {
    if a.Execute? then record[a.cmd := Act(p, a).sheet] else record
  }

  lemma LineUnique(line: seq<CommandObject>, n: nat, sheet: Sheet, start: Sheet, record: Record)
    requires OnLine(line, n, sheet, start, record)
    ensures UniqueIds(sheet.layers)
  {
    if n > 0 { assert LinkedAt(line, n - 1, start, record); }
  }

  // cutting the line after n commands and adding one to it
  lemma Branch(
    line: seq<CommandObject>, n: nat, sheet: Sheet, start: Sheet, record: Record, e: CommandObject, next: Sheet)
    requires OnLine(line, n, sheet, start, record) && e !in record && Links(sheet, e, next)
    ensures OnLine(line[..n] + [e], n + 1, next, start, record[e := next])
  {
    var line', record' := line[..n] + [e], record[e := next];
    forall k | 0 <= k < |line'| ensures LinkedAt(line', k, start, record') {
      assert k < n ==> LinkedAt(line, k, start, record);
    }
  }

  lemma StepBack(line: seq<CommandObject>, n: nat, sheet: Sheet, start: Sheet, record: Record)
    requires 0 < n && OnLine(line, n, sheet, start, record)
    ensures Known(sheet) && Holds(sheet.data, line[n - 1].command)
    ensures OnLine(line, n - 1, Invert(sheet, line[n - 1].command), start, record)
  {
    assert LinkedAt(line, n - 1, start, record);
  }

  lemma StepForward(line: seq<CommandObject>, n: nat, sheet: Sheet, start: Sheet, record: Record)
    requires n < |line| && OnLine(line, n, sheet, start, record)
    ensures Known(sheet) && Holds(sheet.data, line[n].command)
    ensures OnLine(line, n + 1, Apply(sheet, line[n].command), start, record)
  {
    assert LinkedAt(line, n, start, record);
  }

  lemma ExecuteOnRecord(p: Session, start: Sheet, record: Record, e: CommandObject)
    requires Sound(p) && OnRecord(p, start, record) && Allowed(p, record, Execute(e))
    ensures OnRecord(Act(p, Execute(e)), start, Recorded(p, record, Execute(e)))
  {
    var q := Act(p, Execute(e));
    HoldsSameKeys(p.sheet.data, q.sheet.data, e.command);
    Branch(Line(p.undo, p.redo), |p.undo|, p.sheet, start, record, e, q.sheet);
    assert Line(q.undo, q.redo) == Line(p.undo, p.redo)[..|p.undo|] + [e];
  }

  lemma UndoOnRecord(p: Session, start: Sheet, record: Record)
    requires Sound(p) && OnRecord(p, start, record)
    ensures OnRecord(Act(p, Undo), start, record)
  {
    if p.undo != [] {
      PopPush(p.undo, p.redo);
      StepBack(Line(p.undo, p.redo), |p.undo|, p.sheet, start, record);
    }
  }

  lemma RedoOnRecord(p: Session, start: Sheet, record: Record)
    requires Sound(p) && OnRecord(p, start, record)
    ensures OnRecord(Act(p, Redo), start, record)
  {
    if p.redo != [] {
      PushPop(p.undo, p.redo);
      StepForward(Line(p.undo, p.redo), |p.undo|, p.sheet, start, record);
    }
  }

  lemma ActOnRecord(p: Session, start: Sheet, record: Record, a: Action)
    requires Sound(p) && OnRecord(p, start, record) && Allowed(p, record, a)
    ensures Sound(Act(p, a)) && OnRecord(Act(p, a), start, Recorded(p, record, a))
  {
    ActSound(p, a);
    match a
    case Execute(e) => ExecuteOnRecord(p, start, record, e);
    case Undo => UndoOnRecord(p, start, record);
    case Redo => RedoOnRecord(p, start, record);
  }

  // ---- sessions ----

  ghost predicate SessionStep(p: Session, record: Record, a: Action, q: Session, next: Record) {
    Sound(p) && Allowed(p, record, a) && q == Act(p, a) && next == Recorded(p, record, a)
  }

  /** A session from an empty history: ps[i] and the record after i actions. */
  ghost predicate IsSession(ps: seq<Session>, records: seq<Record>, actions: seq<Action>) {
    |ps| == |records| == |actions| + 1
    && ps[0].undo == [] && ps[0].redo == [] && records[0] == map[]
    && Known(ps[0].sheet) && UniqueIds(ps[0].sheet.layers)
    && forall i {:trigger actions[i]} :: 0 <= i < |actions| ==>
         SessionStep(ps[i], records[i], actions[i], ps[i + 1], records[i + 1])
  }

  /** Undo and redo move exactly along the recorded states, although commands share live layers. */
  lemma {:induction false} SessionOnRecord(ps: seq<Session>, records: seq<Record>, actions: seq<Action>, i: nat)
    requires IsSession(ps, records, actions) && i < |ps|
    ensures Sound(ps[i]) && OnRecord(ps[i], ps[0].sheet, records[i])
  {
    if i > 0 {
      SessionOnRecord(ps, records, actions, i - 1);
      assert SessionStep(ps[i - 1], records[i - 1], actions[i - 1], ps[i], records[i]);
      ActOnRecord(ps[i - 1], ps[0].sheet, records[i - 1], actions[i - 1]);
    }
  }

  lemma RecordStep(ps: seq<Session>, records: seq<Record>, actions: seq<Action>, i: nat, t: CommandObject)
    requires IsSession(ps, records, actions) && i < |actions| && t in records[i]
    ensures t in records[i + 1] && records[i + 1][t] == records[i][t]
  {
    assert SessionStep(ps[i], records[i], actions[i], ps[i + 1], records[i + 1]);
  }

  lemma {:induction false} RecordsStay(
    ps: seq<Session>, records: seq<Record>, actions: seq<Action>, i: nat, j: nat, t: CommandObject)
    requires IsSession(ps, records, actions) && i <= j < |ps| && t in records[i]
    ensures t in records[j] && records[j][t] == records[i][t]
    decreases j - i
  {
    if i < j {
      RecordsStay(ps, records, actions, i, j - 1, t);
      RecordStep(ps, records, actions, j - 1, t);
    }
  }

  // the mark names the recorded state the document is in
  lemma MarkNamesSheet(ps: seq<Session>, records: seq<Record>, actions: seq<Action>, i: nat)
    requires IsSession(ps, records, actions) && i < |ps|
    ensures Mark(ps[i]).None? ==> ps[i].sheet == ps[0].sheet
    ensures Mark(ps[i]).Some? ==> Mark(ps[i]).value in records[i] && ps[i].sheet == records[i][Mark(ps[i]).value]
  {
    SessionOnRecord(ps, records, actions, i);
    if ps[i].undo != [] {
      assert Line(ps[i].undo, ps[i].redo)[|ps[i].undo| - 1] == Top(ps[i].undo);
    }
  }

  /** Two equal marks anywhere in one history mean equal documents, also after undoing and
      branching off. */
  lemma EqualMarksEqualDocuments(ps: seq<Session>, records: seq<Record>, actions: seq<Action>, i: nat, j: nat)
    requires IsSession(ps, records, actions) && i <= j < |ps| && Mark(ps[i]) == Mark(ps[j])
    ensures ps[i].sheet == ps[j].sheet
  {
    MarkNamesSheet(ps, records, actions, i);
    MarkNamesSheet(ps, records, actions, j);
    if Mark(ps[i]).Some? { RecordsStay(ps, records, actions, i, j, Mark(ps[i]).value); }
  }

  /** Executing a command and undoing it always leads back to the same mark, and to the same
      document if and only if the command is exact. */
  lemma ExecuteUndoIff(p: Session, e: CommandObject)
    requires Sound(p) && Holds(p.sheet.data, e.command)
    ensures Sound(Act(p, Execute(e)))
    ensures var back := Act(Act(p, Execute(e)), Undo);
            Mark(back) == Mark(p) && (back.sheet == p.sheet <==> Exact(p.sheet, e.command))
  {
    ActSound(p, Execute(e));
    assert Pop(p.undo + [e]) == p.undo;
  }

  /** An undo that does something is taken back by a redo, and the other way round. */
  lemma UndoRedoCancel(ps: seq<Session>, records: seq<Record>, actions: seq<Action>, i: nat)
    requires IsSession(ps, records, actions) && i < |ps|
    ensures Sound(ps[i]) && Sound(Act(ps[i], Undo)) && Sound(Act(ps[i], Redo))
    ensures ps[i].undo != [] ==> Act(Act(ps[i], Undo), Redo) == ps[i]
    ensures ps[i].redo != [] ==> Act(Act(ps[i], Redo), Undo) == ps[i]
  {
    SessionOnRecord(ps, records, actions, i);
    ActSound(ps[i], Undo);
    ActSound(ps[i], Redo);
    if ps[i].undo != [] { UndoneComesBack(ps[i], ps[0].sheet, records[i]); }
    if ps[i].redo != [] { RedoneGoesBack(ps[i], ps[0].sheet, records[i]); }
  }

  lemma UndoneComesBack(p: Session, start: Sheet, record: Record)
    requires Sound(p) && OnRecord(p, start, record) && Sound(Act(p, Undo)) && p.undo != []
    ensures Act(Act(p, Undo), Redo) == p
  {
    assert LinkedAt(Line(p.undo, p.redo), |p.undo| - 1, start, record);
    assert Pop(p.undo) + [Top(p.undo)] == p.undo && Pop(p.redo + [Top(p.undo)]) == p.redo;
  }

  lemma RedoneGoesBack(p: Session, start: Sheet, record: Record)
    requires Sound(p) && OnRecord(p, start, record) && Sound(Act(p, Redo)) && p.redo != []
    ensures Act(Act(p, Redo), Undo) == p
  {
    assert LinkedAt(Line(p.undo, p.redo), |p.undo|, start, record);
    assert Pop(p.redo) + [Top(p.redo)] == p.redo && Pop(p.undo + [Top(p.redo)]) == p.undo;
  }
}
