/** The other half of the client (apps/web/src/features/play/duel.ts): it is never ahead of what it
    heard, and here, it does not lag behind it either. */
module ClientCatchesUp {
  import opened Wrappers
  import opened DuelState
  import opened DuelInvariants
  import opened DuelRows
  import opened DuelMachine
  import opened DuelRuns
  import opened Client
  import opened ClientRuns
  import Elo

  function Max(a: int, b: int): int {
    if a < b then b else a
  }

  // ---- one snapshot ----

  /** The first entry about the player is marked as submitted. */
  predicate ShowsStamp(players: seq<PlayerView>, u: UserId) {
    exists x :: 0 <= x < |players| && players[x].userId == u && players[x].submitted
                && forall y :: 0 <= y < x ==> players[y].userId != u
  }

  predicate ShowsOther(players: seq<PlayerView>, me: UserId, p: PlayerView) {
    exists x :: 0 <= x < |players| && players[x] == p && p.userId != me
                && forall y :: 0 <= y < x ==> players[y].userId == me
  }

  lemma {:induction false} MineShown(players: seq<PlayerView>, me: UserId)
    ensures (Mine(players, me).Some? && Mine(players, me).value.submitted) <==> ShowsStamp(players, me)
  {
    if players != [] {
      var rest := players[1..];
      MineShown(rest, me);
      if ShowsStamp(rest, me) && players[0].userId != me {
        var x :| 0 <= x < |rest| && rest[x].userId == me && rest[x].submitted
                 && forall y :: 0 <= y < x ==> rest[y].userId != me;
        assert players[x + 1] == rest[x];
        assert forall y :: 0 <= y < x + 1 ==> players[y].userId != me by {
          assert forall y :: 1 <= y < x + 1 ==> players[y] == rest[y - 1];
        }
      }
      if ShowsStamp(players, me) && players[0].userId != me {
        var x :| 0 <= x < |players| && players[x].userId == me && players[x].submitted
                 && forall y :: 0 <= y < x ==> players[y].userId != me;
        assert rest[x - 1] == players[x];
        assert forall y :: 0 <= y < x - 1 ==> rest[y].userId != me by {
          assert forall y :: 0 <= y < x - 1 ==> rest[y] == players[y + 1];
        }
      }
    }
  }

  lemma {:induction false} OtherShown(players: seq<PlayerView>, me: UserId, p: PlayerView)
    requires ShowsOther(players, me, p)
    ensures Other(players, me) == Some(p)
  {
    var x :| 0 <= x < |players| && players[x] == p && p.userId != me
             && forall y :: 0 <= y < x ==> players[y].userId == me;
    if x > 0 {
      var rest := players[1..];
      assert rest[x - 1] == p;
      assert forall y :: 0 <= y < x - 1 ==> rest[y].userId == me by {
        assert forall y :: 0 <= y < x - 1 ==> rest[y] == players[y + 1];
      }
      OtherShown(rest, me, p);
    }
  }

  /** How far the snapshot says the player's round is. */
  function ShownOrder(v: MatchView, me: UserId): nat {
    match v.status
    case Open => PhaseOrder(PhaseWaiting)
    case Drawing => PhaseOrder(if ShowsStamp(v.players, me) then PhaseSubmitted else PhaseDrawing)
    case Judging => PhaseOrder(PhaseJudging)
    case _ => 0
  }

  /** A snapshot of the client's match, or of its first, moves it exactly as far as it shows: to the
      later of the two phases while the match goes on, to its end if it was abandoned, and nowhere
      if it is done, where the status asks for the result. */
  lemma SnapshotCatchesUp(s: DuelView, v: MatchView)
    requires !IsTerminal(s.phase) && (s.matchId.None? || s.matchId.value == v.id)
    ensures var t := ReduceDuel(s, MatchSnapshot(v));
            t.matchId == Some(v.id) && t.me == s.me && !t.offline
            && StatusRank(t.status) == Max(StatusRank(s.status), StatusRank(Some(v.status)))
            && (v.status.Done? ==> t.status == Some(Done))
            && (!v.status.Abandoned? ==> PhaseOrder(t.phase) == Max(PhaseOrder(s.phase), ShownOrder(v, s.me)))
            && (v.status.Abandoned? <==> EndedUnplayed(t))
            && (v.status.Abandoned? ==>
                  (t.end == Some(NobodySubmitted) <==> s.started || v.drawingDeadline.Some?))
  {
    SnapshotMoves(s, v);
    SnapshotRecords(s, v);
  }

  lemma SnapshotMoves(s: DuelView, v: MatchView)
    requires !IsTerminal(s.phase) && (s.matchId.None? || s.matchId.value == v.id)
    ensures var t := ApplyMatch(s, v);
            (!v.status.Abandoned? ==> PhaseOrder(t.phase) == Max(PhaseOrder(s.phase), ShownOrder(v, s.me)))
            && (v.status.Abandoned? <==> EndedUnplayed(t))
  {
    MineShown(v.players, s.me);
  }

  lemma SnapshotRecords(s: DuelView, v: MatchView)
    requires s.matchId.None? || s.matchId.value == v.id
    ensures var t := ApplyMatch(s, v);
            t.matchId == Some(v.id) && t.me == s.me && !t.offline
            && t.status == Some(if s.status.Some? && StatusOrder(s.status.value) > StatusOrder(v.status)
                                then s.status.value else v.status)
            && (v.status.Abandoned? ==>
                  t.end == Some(if s.started || v.drawingDeadline.Some? then NobodySubmitted else QueueEnded))
  {
  }

  /** It also carries over what the round is about: the prompt, the clock and the opponent, whose
      drawing is in if the snapshot says so or judging has begun. */
  lemma SnapshotTells(s: DuelView, v: MatchView, p: PlayerView)
    requires !IsTerminal(s.phase) && (s.matchId.None? || s.matchId.value == v.id)
    requires ShowsOther(v.players, s.me, p)
    ensures var t := ReduceDuel(s, MatchSnapshot(v));
            t.clock == Some(Clock(v.drawingDeadline, v.serverTime))
            && (v.prompt.Some? ==> t.prompt == v.prompt.value) && (v.prompt.None? ==> t.prompt == s.prompt)
            && (t.started <==> s.started || v.drawingDeadline.Some?)
            && t.opponent.Some? && t.opponent.value.userId == p.userId && t.opponent.value.name == p.displayName
            && (t.opponent.value.submitted <==> p.submitted || v.status.Judging? || ShownSubmitted(s, p.userId))
  {
    OtherShown(v.players, s.me, p);
    SeenTells(s, v, p);
    AppliedToSeen(s, v);
  }

  lemma SeenTells(s: DuelView, v: MatchView, p: PlayerView)
    requires Other(v.players, s.me) == Some(p)
    ensures var t := Seen(s, v);
            t.clock == Some(Clock(v.drawingDeadline, v.serverTime))
            && t.prompt == (if v.prompt.Some? then v.prompt.value else s.prompt)
            && t.started == (s.started || v.drawingDeadline.Some?)
            && t.opponent == Some(Opponent(p.userId, p.displayName, p.submitted || ShownSubmitted(s, p.userId)))
  {
  }

  lemma AppliedToSeen(s: DuelView, v: MatchView)
    requires s.matchId.None? || s.matchId.value == v.id
    ensures var t, u := ApplyMatch(s, v), Seen(s, v);
            t.clock == u.clock && t.prompt == u.prompt && t.started == u.started
            && t.opponent == if v.status.Judging? then WithOpponentSubmitted(u).opponent else u.opponent
  {
  }

  /** Snapshots of other matches, and anything after the end, change nothing. */
  lemma NotMyNews(s: DuelView, e: DuelEvent)
    requires !e.Start?
    requires IsTerminal(s.phase) || (e.MatchSnapshot? && s.matchId.Some? && s.matchId.value != e.view.id)
    ensures ReduceDuel(s, e) == s
  {
  }

  // ---- other news ----

  /** Frames and result polls have their effect at once. */
  lemma NewsCatchesUp(s: DuelView, e: DuelEvent)
    requires !IsTerminal(s.phase)
    ensures var t := ReduceDuel(s, e);
            (e.JudgingFrame? || e == Pending(Judging) ==>
                t.phase.PhaseJudging? && t.status == Some(Judging)
                && (s.opponent.Some? ==> ShownSubmitted(t, s.opponent.value.userId)))
            && (e.AbandonedFrame? || e == Pending(Abandoned) ==>
                  EndedUnplayed(t) && t.status == Some(Abandoned) && (t.end == Some(NobodySubmitted) <==> s.started))
            && (e.Result? ==> t.phase.PhaseDone? && t.status == Some(Done) && t.result == Some(e.result))
            && (e.End? ==> t.phase.PhaseEnded? && t.end == Some(e.end))
            && (e.Offline? ==> t == s.(offline := true))
            && (e.PlayerSubmitted? && e.userId != s.me && s.opponent.Some? ==>
                  ShownSubmitted(t, s.opponent.value.userId) && t.phase == s.phase)
            && (e == PlayerSubmitted(s.me) && (s.phase.PhaseDrawing? || s.phase.PhaseSubmitting?) ==>
                  t.phase.PhaseSubmitted? && !t.submitFailed)
            && (e.Presence? && e.userId != s.me ==> t == s.(opponentOnline := Some(e.online)))
  {
  }

  // ---- my own drawing ----

  /** A submit that is sent while drawing and answered, whatever is heard in between unless that is
      a failure of this submit, leads to submitted or further. */
  lemma AnsweredSubmit(ss: seq<DuelView>, es: seq<DuelEvent>, i: nat, j: nat)
    requires IsClientPath(ss, es) && OneRound(es) && i < j < |es|
    requires ss[i].phase.PhaseDrawing? && es[i].SubmitSent?
    requires es[j].SubmitOk? || es[j].SubmitConflict?
    requires forall k :: i < k < j ==> !es[k].SubmitFailed?
    ensures PhaseOrder(ss[j + 1].phase) >= PhaseOrder(PhaseSubmitted)
    ensures (es[j].SubmitOk? && es[j].reply.status.Judging? && ss[j].phase.PhaseSubmitting?
             && StatusRank(ss[j].status) <= StatusRank(Some(Judging))) ==> ss[j + 1].phase.PhaseJudging?
  {
    assert ss[i + 1] == ReduceDuel(ss[i], es[i]);
    SubmitStaysOut(ss, es, i + 1, j);
    assert ss[j + 1] == ReduceDuel(ss[j], es[j]);
  }

  /** The reply to the submit that is out says whether the drawing was the last one in, and anchors
      the clock; a late reply says nothing any more. */
  lemma SubmitReplyTells(s: DuelView, reply: SubmitMatch)
    ensures var t := ReduceDuel(s, SubmitOk(reply));
            (!s.phase.PhaseSubmitting? ==> t == s)
            && (s.phase.PhaseSubmitting? ==>
                  StatusRank(t.status) == Max(StatusRank(s.status), StatusRank(Some(reply.status)))
                  && (t.phase.PhaseJudging? <==> t.status == Some(Judging))
                  && (t.phase.PhaseSubmitted? <==> t.status != Some(Judging))
                  && (t.phase.PhaseJudging? && s.opponent.Some? ==> ShownSubmitted(t, s.opponent.value.userId))
                  && t.clock == Some(Clock(reply.drawingDeadline, reply.serverTime)) && !t.offline)
  {
  }

  lemma {:induction false} SubmitStaysOut(ss: seq<DuelView>, es: seq<DuelEvent>, i: nat, j: nat)
    requires IsClientPath(ss, es) && OneRound(es) && i <= j <= |es|
    requires PhaseOrder(ss[i].phase) >= PhaseOrder(PhaseSubmitting)
    requires forall k :: i <= k < j ==> !es[k].SubmitFailed?
    ensures PhaseOrder(ss[j].phase) >= PhaseOrder(PhaseSubmitting)
    decreases j - i
  {
    if i < j {
      SubmitStaysOut(ss, es, i, j - 1);
      assert ss[j] == ReduceDuel(ss[j - 1], es[j - 1]);
      PhaseMovesBackIff(ss[j - 1], es[j - 1]);
    }
  }

  /** A submit that never reached the server can be sent again. */
  lemma FailedSubmitAgain(s: DuelView)
    requires s.phase.PhaseDrawing?
    ensures var t := ReduceDuel(ReduceDuel(s, SubmitSent), SubmitFailed);
            t == s.(submitFailed := true)
            && ReduceDuel(t, SubmitSent).phase.PhaseSubmitting? && !ReduceDuel(t, SubmitSent).submitFailed
  {
  }

  // ---- against the running service ----

  predicate Stamped(m: Match, u: UserId) {
    exists x :: 0 <= x < |m.seats| && m.seats[x].user == u && m.seats[x].submittedAt.Some?
  }

  /** A snapshot of the row as it is. */
  predicate CurrentView(v: MatchView, m: Match) {
    v.status == m.status && v.drawingDeadline == m.deadline && |v.players| == |m.seats|
    && forall x :: 0 <= x < |m.seats| ==>
         v.players[x].userId == m.seats[x].user && (v.players[x].submitted <==> m.seats[x].submittedAt.Some?)
  }

  /** The client shows where its match is: no phase behind and none ahead, but for a submit of its
      own whose answer it has or awaits. */
  predicate CaughtUp(s: DuelView, m: Match) {
    match m.status
    case Open => s.phase.PhaseWaiting?
    case Drawing => if Stamped(m, s.me) then s.phase.PhaseSubmitted? else InRound(s.phase)
    case Judging => s.phase.PhaseJudging?
    case Done => s.status == Some(Done)
    case Abandoned => EndedUnplayed(s)
  }

  lemma CurrentStamp(v: MatchView, m: Match, u: UserId)
    requires CurrentView(v, m) && ValidMatch(m)
    ensures ShowsStamp(v.players, u) <==> Stamped(m, u)
  {
    if Stamped(m, u) {
      var x :| 0 <= x < |m.seats| && m.seats[x].user == u && m.seats[x].submittedAt.Some?;
      assert v.players[x].userId == u && v.players[x].submitted;
      assert forall y :: 0 <= y < x ==> v.players[y].userId != u;
    }
    if ShowsStamp(v.players, u) {
      var x :| 0 <= x < |v.players| && v.players[x].userId == u && v.players[x].submitted;
      assert m.seats[x].user == u;
    }
  }

  // no phase that the row has not reached
  predicate NotAhead(s: DuelView, m: Match) {
    (m.status.Open? ==> BeforeRound(s.phase)) && (m.status.Drawing? ==> !s.phase.PhaseJudging?)
    && (m.status.Open? || m.status.Drawing? ==> s.status != Some(Judging) && s.status != Some(Done))
    && (m.status.Judging? ==> s.status != Some(Done))
    && (s.status == Some(Abandoned) ==> m.status.Abandoned?)
  }

  lemma BehindIsNotAhead(curve: Elo.Curve, ws: seq<World>, es: seq<Event>, i: nat, s: DuelView, mid: MatchId)
    requires Elo.IsCurve(curve) && IsRun(curve, ws, es) && i < |ws| && Behind(ws, i, s) && !IsTerminal(s.phase)
    requires RowAt(ws, i, mid) && (s.matchId.None? || s.matchId.value == mid)
    ensures NotAhead(s, Row(ws, i, mid)) && ValidMatch(Row(ws, i, mid))
  {
    RunInv(curve, ws, es, i);
    assert ValidMatch(Row(ws, i, mid));
    if s.matchId.Some? {
      if InRound(s.phase) { ReachedBefore(curve, ws, es, i, mid, Drawing); }
      if s.phase.PhaseJudging? { ReachedBefore(curve, ws, es, i, mid, Judging); }
      if s.status.Some? { ReachedBefore(curve, ws, es, i, mid, s.status.value); }
    }
  }

  /** A status once reached is not left for an earlier one. */
  lemma ReachedBefore(curve: Elo.Curve, ws: seq<World>, es: seq<Event>, i: nat, mid: MatchId, status: Status)
    requires Elo.IsCurve(curve) && IsRun(curve, ws, es) && i < |ws| && Reached(ws, i, mid, status)
    ensures RowAt(ws, i, mid)
    ensures StatusOrder(status) <= StatusOrder(Row(ws, i, mid).status)
    ensures Terminal(Row(ws, i, mid)) && StatusOrder(status) == 3 ==> status == Row(ws, i, mid).status
  {
    var k: nat :| k <= i && WasAt(ws, k, mid, status);
    TerminalFrozen(curve, ws, es, k, i, mid);
    RunInv(curve, ws, es, k);
    RunInv(curve, ws, es, i);
    RankOrder(Row(ws, k, mid), Row(ws, i, mid));
  }

  lemma RankOrder(m: Match, n: Match)
    requires ValidMatch(m) && ValidMatch(n) && Rank(n) <= Rank(m) && (Terminal(m) ==> SameButSeen(m, n))
    ensures StatusOrder(m.status) <= StatusOrder(n.status)
    ensures StatusOrder(m.status) == 3 ==> m.status == n.status
  {
    if m.status.Drawing? { SeatsOfTwo(m.seats); }
    if n.status.Drawing? { SeatsOfTwo(n.seats); }
  }

  lemma CatchesUpWith(s: DuelView, v: MatchView, m: Match)
    requires !IsTerminal(s.phase) && (s.matchId.None? || s.matchId.value == v.id)
    requires CurrentView(v, m) && ValidMatch(m) && NotAhead(s, m)
    ensures CaughtUp(ReduceDuel(s, MatchSnapshot(v)), m)
  {
    CurrentStamp(v, m, s.me);
    SnapshotCatchesUp(s, v);
  }

  /** In every run, whatever a client has heard before and in whatever order, one snapshot of the
      match as it is brings it to where the match is. */
  lemma SnapshotLeavesNoLag(
    curve: Elo.Curve, ws: seq<World>, es: seq<Event>,
    ss: seq<DuelView>, ds: seq<DuelEvent>, at: seq<nat>, j: nat, v: MatchView)
    requires Elo.IsCurve(curve) && IsRun(curve, ws, es) && IsClient(ws, ss, ds, at) && j < |ds|
    requires ds[j] == MatchSnapshot(v) && RowAt(ws, at[j], v.id) && CurrentView(v, Row(ws, at[j], v.id))
    requires !IsTerminal(ss[j].phase) && (ss[j].matchId.None? || ss[j].matchId.value == v.id)
    ensures CaughtUp(ss[j + 1], Row(ws, at[j], v.id))
  {
    ClientsStayBehind(curve, ws, es, ss, ds, at, j);
    BehindLater(curve, ws, es, HeardAt(at, j), at[j], ss[j]);
    BehindIsNotAhead(curve, ws, es, at[j], ss[j], v.id);
    CatchesUpWith(ss[j], v, Row(ws, at[j], v.id));
    assert ss[j + 1] == ReduceDuel(ss[j], ds[j]);
  }

  lemma PollIsCurrent(mid: MatchId, m: Match, names: UserId -> Option<string>, prompt: Option<string>, now: Time)
    ensures CurrentView(MatchView(mid, m.status, prompt, PlayersOf(m.seats, names), m.deadline, now), m)
  {
  }

  /** The same for the poll a client sends: its answer brings it to where the match is, and to the
      result itself once the client knew that there was one to ask for. */
  lemma PollLeavesNoLag(
    curve: Elo.Curve, ws: seq<World>, es: seq<Event>,
    ss: seq<DuelView>, ds: seq<DuelEvent>, at: seq<nat>, j: nat,
    names: UserId -> Option<string>, prompt: string, now: Time)
    requires Elo.IsCurve(curve) && IsRun(curve, ws, es) && IsClient(ws, ss, ds, at) && j < |ds|
    requires !IsTerminal(ss[j].phase) && ss[j].matchId.Some? && RowAt(ws, at[j], ss[j].matchId.value)
    requires ds[j] == PollReply(ss[j], ss[j].matchId.value, Row(ws, at[j], ss[j].matchId.value), names, prompt, now)
    ensures var m := Row(ws, at[j], ss[j].matchId.value);
            CaughtUp(ss[j + 1], m)
            && (m.status.Done? && StatusRank(ss[j].status) >= StatusRank(Some(Judging)) ==>
                  ss[j + 1].phase.PhaseDone? && ss[j + 1].result == Some(ResultOf(m)))
  {
    var s, mid := ss[j], ss[j].matchId.value;
    ClientsStayBehind(curve, ws, es, ss, ds, at, j);
    BehindLater(curve, ws, es, HeardAt(at, j), at[j], s);
    BehindIsNotAhead(curve, ws, es, at[j], s, mid);
    PollCatchesUp(s, mid, Row(ws, at[j], mid), names, prompt, now);
    assert ss[j + 1] == ReduceDuel(s, ds[j]);
  }

  lemma PollCatchesUp(
    s: DuelView, mid: MatchId, m: Match, names: UserId -> Option<string>, prompt: string, now: Time)
    requires !IsTerminal(s.phase) && s.matchId == Some(mid) && NotAhead(s, m) && ValidMatch(m)
    ensures var t := ReduceDuel(s, PollReply(s, mid, m, names, prompt, now));
            CaughtUp(t, m)
            && (m.status.Done? && StatusRank(s.status) >= StatusRank(Some(Judging)) ==>
                  t.phase.PhaseDone? && t.result == Some(ResultOf(m)))
  {
    var e := PollReply(s, mid, m, names, prompt, now);
    if e.MatchSnapshot? {
      PollIsCurrent(mid, m, names, e.view.prompt, now);
      CatchesUpWith(s, e.view, m);
    } else {
      ResultPoll(s, mid, m, names, prompt, now);
    }
  }

  lemma ResultPoll(
    s: DuelView, mid: MatchId, m: Match, names: UserId -> Option<string>, prompt: string, now: Time)
    requires !IsTerminal(s.phase) && NotAhead(s, m) && (s.status == Some(Judging) || s.status == Some(Done))
    ensures var t := ReduceDuel(s, PollReply(s, mid, m, names, prompt, now));
            CaughtUp(t, m) && (m.status.Done? ==> t.phase.PhaseDone? && t.result == Some(ResultOf(m)))
  {
  }
}
