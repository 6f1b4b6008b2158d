/** The reason a client shows for a match nobody finished (apps/web/src/features/play/duel.ts:112-114):
    when it is the match's own, and a run in which it is not. */
module ClientEnds {
  import opened Wrappers
  import opened DuelState
  import opened DuelTransactions
  import opened DuelInvariants
  import opened DuelRows
  import opened DuelMachine
  import opened DuelRuns
  import opened DuelMatchmaking
  import opened Client
  import opened ClientRuns
  import Elo

  /** Why an abandoned match ended: its round ran out, or it never had one. */
  function OwnReason(m: Match): DuelEnd {
    if m.deadline.Some? then NobodySubmitted else QueueEnded
  }

  // events r to j - 1 are of one round
  predicate SinceStart(ds: seq<DuelEvent>, r: nat, j: nat) {
    r <= j <= |ds| && (r > 0 ==> ds[r - 1].Start?) && forall k :: r <= k < j ==> !ds[k].Start?
  }

  // event k is a snapshot of the match with a deadline, heard before the end
  predicate ToldAt(ss: seq<DuelView>, ds: seq<DuelEvent>, k: nat, mid: MatchId) {
    k < |ds| && k < |ss| && !IsTerminal(ss[k].phase)
    && ds[k].MatchSnapshot? && ds[k].view.id == mid && ds[k].view.drawingDeadline.Some?
  }

  /** The client has been told that the round of the match began. */
  predicate Told(ss: seq<DuelView>, ds: seq<DuelEvent>, r: nat, j: nat, mid: MatchId) {
    exists k :: r <= k < j && ToldAt(ss, ds, k, mid)
  }

  // what `started` and `end` remember of the events so far
  predicate Remembers(ss: seq<DuelView>, ds: seq<DuelEvent>, r: nat, j: nat)
    requires j < |ss| && j <= |ds|
  {
    var s := ss[j];
    (s.matchId.None? ==> !s.started && forall k :: r <= k < j && ds[k].MatchSnapshot? ==> IsTerminal(ss[k].phase))
    && (s.matchId.Some? && !s.phase.PhaseDone? ==> (s.started <==> Told(ss, ds, r, j, s.matchId.value)))
    && (EndedUnplayed(s) ==> (s.end == Some(NobodySubmitted) <==> s.started))
  }

  lemma ToldNext(ss: seq<DuelView>, ds: seq<DuelEvent>, r: nat, j: nat, mid: MatchId)
    requires r <= j < |ds|
    ensures Told(ss, ds, r, j + 1, mid) <==> Told(ss, ds, r, j, mid) || ToldAt(ss, ds, j, mid)
  {
  }

  lemma SnapshotHeard(s: DuelView, m: MatchView)
    requires !IsTerminal(s.phase)
    ensures var t := ApplyMatch(s, m);
            var applies := s.matchId.None? || s.matchId.value == m.id;
            t.matchId == (if applies then Some(m.id) else s.matchId)
            && t.started == (s.started || (applies && m.drawingDeadline.Some?))
            && (EndedUnplayed(t) ==> (t.end == Some(NobodySubmitted) <==> t.started))
  {
  }

  // what an event heard before the end changes of them
  lemma Heard(s: DuelView, e: DuelEvent)
    requires !IsTerminal(s.phase) && !e.Start? && (e.End? ==> !e.end.QueueEnded? && !e.end.NobodySubmitted?)
    ensures var t := ReduceDuel(s, e);
            var applies := e.MatchSnapshot? && (s.matchId.None? || s.matchId.value == e.view.id);
            t.matchId == (if applies then Some(e.view.id) else s.matchId)
            && (!t.phase.PhaseDone? ==> t.started == (s.started || (applies && e.view.drawingDeadline.Some?)))
            && (EndedUnplayed(t) ==> (t.end == Some(NobodySubmitted) <==> t.started))
  {
    if e.MatchSnapshot? { SnapshotHeard(s, e.view); }
  }

  // one event that is not a start
  lemma RemembersNext(ws: seq<World>, ss: seq<DuelView>, ds: seq<DuelEvent>, at: seq<nat>, r: nat, j: nat)
    requires IsClient(ws, ss, ds, at) && r <= j < |ds| && !ds[j].Start? && Remembers(ss, ds, r, j)
    ensures Remembers(ss, ds, r, j + 1)
  {
    var s, t := ss[j], ss[j + 1];
    assert Truthful(ws, at[j], s, ds[j]) && t == ReduceDuel(s, ds[j]);
    if t.matchId.Some? { ToldNext(ss, ds, r, j, t.matchId.value); }
    if IsTerminal(s.phase) {
      assert t == s;
    } else {
      Heard(s, ds[j]);
    }
  }

  lemma {:induction false} ClientRemembers(
    ws: seq<World>, ss: seq<DuelView>, ds: seq<DuelEvent>, at: seq<nat>, r: nat, j: nat)
    requires IsClient(ws, ss, ds, at) && SinceStart(ds, r, j)
    ensures Remembers(ss, ds, r, j)
    decreases j - r
  {
    if j == r {
      assert r > 0 ==> ss[r] == ReduceDuel(ss[r - 1], ds[r - 1]);
    } else {
      ClientRemembers(ws, ss, ds, at, r, j - 1);
      RemembersNext(ws, ss, ds, at, r, j - 1);
    }
  }

  /** Whenever a client of a run shows that nobody finished its match, the reason it shows is the
      match's own if and only if it had been told of the round, or there was none. */
  lemma EndReasonIff(
    curve: Elo.Curve, ws: seq<World>, es: seq<Event>,
    ss: seq<DuelView>, ds: seq<DuelEvent>, at: seq<nat>, r: nat, j: nat, i: nat)
    requires Elo.IsCurve(curve) && IsRun(curve, ws, es) && IsClient(ws, ss, ds, at) && SinceStart(ds, r, j)
    requires HeardAt(at, j) <= i < |ws| && EndedUnplayed(ss[j])
    ensures ss[j].matchId.Some? && RowAt(ws, i, ss[j].matchId.value)
    ensures var mid := ss[j].matchId.value;
            Row(ws, i, mid).status.Abandoned?
            && (ss[j].end == Some(OwnReason(Row(ws, i, mid)))
                <==> Told(ss, ds, r, j, mid) || Row(ws, i, mid).deadline.None?)
  {
    ClientsStayBehind(curve, ws, es, ss, ds, at, j);
    BehindLater(curve, ws, es, HeardAt(at, j), i, ss[j]);
    ClientRemembers(ws, ss, ds, at, r, j);
  }

  // ---- an input on which it is not ----

  // created by player 0 at 0 and joined by player 1 at 10
  function Joined(): Match {
    WithDrawing(WithPlayer(NewMatch(0, 0), 1, 10), 10)
  }

  /** A match that is created, joined and left to run out, with the state after its creation. */
  lemma RoundRunsOut(curve: Elo.Curve) returns (ws: seq<World>, es: seq<Event>)
    requires Elo.IsCurve(curve)
    ensures IsRun(curve, ws, es) && |es| == 8
    ensures RowAt(ws, 4, 0) && Row(ws, 4, 0) == NewMatch(0, 0)
    ensures RowAt(ws, 8, 0) && Row(ws, 8, 0).status.Abandoned? && Row(ws, 8, 0).deadline == Some(100)
  {
    ws, es := ThreeUsers(curve);
    var users := ws[|es|].db;
    ws, es := CreateAndJoin(curve, ws, es);
    var w5 := ws[5];
    var w6 := w5.(procs := [Limiter(1, 0, 0)]);
    assert w6 == Step(curve, w5, Boot(1));
    Next(curve, ws, es, Boot(1), w6);
    ws, es := ws + [w6], es + [Boot(1)];
    ws, es := SweepsOut(curve, ws, es);
  }

  lemma CreateAndJoin(curve: Elo.Curve, ws: seq<World>, es: seq<Event>) returns (ws': seq<World>, es': seq<Event>)
    requires Elo.IsCurve(curve) && IsRun(curve, ws, es) && |es| == 3
    requires ws[3] == World(Db([], [1200, 1200, 1200], []), [], [], None)
    ensures IsRun(curve, ws', es') && |es'| == 5
    ensures ws'[4].db.matches == [NewMatch(0, 0)]
    ensures ws'[5].db.matches == [Joined()] && ws'[5].procs == [] && ws'[5].agents == []
  {
    var create, join := PlayEvent(0, 0, Create), PlayEvent(1, 10, Join(0));
    var w4 := World(Db([NewMatch(0, 0)], [1200, 1200, 1200], []), [], [], Some(0));
    assert w4 == Step(curve, ws[3], create);
    Next(curve, ws, es, create, w4);
    ws', es' := ws + [w4], es + [create];
    assert w4.db.matches[0].seats[0] == NewSeat(0, 0);
    assert Joinable(w4.db.matches[0], 1, 10);
    var w5 := Step(curve, w4, join);
    assert w5.db.matches == [Joined()];
    Next(curve, ws', es', join, w5);
    ws', es' := ws' + [w5], es' + [join];
  }

  lemma SweepsOut(curve: Elo.Curve, ws: seq<World>, es: seq<Event>) returns (ws': seq<World>, es': seq<Event>)
    requires Elo.IsCurve(curve) && IsRun(curve, ws, es) && |es| == 6
    requires ws[6].db.matches == [Joined()] && ws[6].procs == [Limiter(1, 0, 0)] && ws[6].agents == []
    ensures IsRun(curve, ws', es') && |es'| == 8 && ws'[..7] == ws
    ensures RowAt(ws', 8, 0) && Row(ws', 8, 0).status.Abandoned? && Row(ws', 8, 0).deadline == Some(100)
  {
    var list, sweep := List(0, ExpiredDrawing, 100, [0]), SweepRow(0, 100);
    var w7 := Listed(curve, ws[6], list);
    Next(curve, ws, es, list, w7);
    ws', es' := ws + [w7], es + [list];
    assert RowAt(ws', 7, 0) && Row(ws', 7, 0) == Joined() && IsExpiredDrawing(Joined(), 100);
    DeadlineSafety(curve, ws', es', 7, 0, 100);
    NobodyStamped();
    var w8 := Step(curve, w7, sweep);
    Next(curve, ws', es', sweep, w8);
    ws', es' := ws' + [w8], es' + [sweep];
    KeptStep(curve, ws', es', 7, 0);
  }

  // the expired round is listed
  lemma Listed(curve: Elo.Curve, w: World, list: Event) returns (next: World)
    requires Elo.IsCurve(curve) && list == List(0, ExpiredDrawing, 100, [0])
    requires w.db.matches == [Joined()] && w.procs == [Limiter(1, 0, 0)] && w.agents == []
    ensures Enabled(curve, w, list) && next == Step(curve, w, list) && next.db == w.db
    ensures next.procs == w.procs && next.agents == [Agent(0, Sweep(ExpiredDrawing, 100, [0], false))]
  {
    assert Candidate(ExpiredDrawing, w.db.matches[0], 100);
    next := Step(curve, w, list);
  }

  lemma NobodyStamped()
    ensures Stamps(Joined()) == 0
  {
    SeatsOfTwo(Joined().seats);
  }

  /** A player who waits alone, sees the open match once, and hears next of its end: the round began
      and ran out, and the client says that nobody joined. */
  lemma WrongEnd(curve: Elo.Curve)
    returns (ws: seq<World>, es: seq<Event>, ss: seq<DuelView>, ds: seq<DuelEvent>, at: seq<nat>)
    requires Elo.IsCurve(curve)
    ensures IsRun(curve, ws, es) && |ws| == 9 && IsClient(ws, ss, ds, at) && |ds| == 2
    ensures ss[2].matchId == Some(0) && ss[2].phase.PhaseEnded? && ss[2].end == Some(QueueEnded)
    ensures RowAt(ws, 8, 0) && OwnReason(Row(ws, 8, 0)) == NobodySubmitted
  {
    ws, es := RoundRunsOut(curve);
    var view := MatchView(0, Open, None, [PlayerView(0, None, false)], None, 5);
    ds, at := [MatchSnapshot(view), AbandonedFrame], [4, 8];
    var s1 := ReduceDuel(InitialDuel(0), ds[0]);
    ss := [InitialDuel(0), s1, ReduceDuel(s1, ds[1])];
    OpenSeen(ws, view);
    assert WasAt(ws, 8, 0, Abandoned);
    assert Truthful(ws, 8, s1, AbandonedFrame);
  }

  lemma OpenSeen(ws: seq<World>, view: MatchView)
    requires RowAt(ws, 4, 0) && Row(ws, 4, 0) == NewMatch(0, 0)
    requires view == MatchView(0, Open, None, [PlayerView(0, None, false)], None, 5)
    ensures TruthfulView(ws, 4, 0, view)
  {
    var m := Row(ws, 4, 0);
    assert m.seats[0].user == 0;
    assert SeatShown(m, 0, false);
    assert ReadsAt(ws, 4, 0, 4, 4) && ViewOf(view, 0, m, m);
  }
}
