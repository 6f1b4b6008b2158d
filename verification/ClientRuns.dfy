/** Clients of the running service: what a client shows is never ahead of its match, however late,
    duplicated, reordered or lost the replies and frames are. */
module ClientRuns {
  import opened Wrappers
  import opened DuelState
  import opened DuelInvariants
  import opened DuelRows
  import opened DuelMachine
  import opened DuelRuns
  import opened Client
  import Elo

  // ---- what the server can truthfully say ----

  predicate RowAt(ws: seq<World>, k: nat, mid: MatchId) {
    k < |ws| && mid < |ws[k].db.matches|
  }

  function Row(ws: seq<World>, k: nat, mid: MatchId): Match
    requires RowAt(ws, k, mid)
  {
    ws[k].db.matches[mid]
  }

  predicate WasAt(ws: seq<World>, k: nat, mid: MatchId, status: Status) {
    RowAt(ws, k, mid) && Row(ws, k, mid).status == status
  }

  predicate Reached(ws: seq<World>, i: nat, mid: MatchId, status: Status) {
    exists k: nat :: k <= i && WasAt(ws, k, mid, status)
  }

  predicate SeatShown(m: Match, u: UserId, submitted: bool) {
    exists x :: 0 <= x < |m.seats| && m.seats[x].user == u && (submitted ==> m.seats[x].submittedAt.Some?)
  }

  /** A snapshot reads the match row and then, in a later statement, its roster; only players of
      the match get one. */
  predicate ViewOf(v: MatchView, me: UserId, row: Match, roster: Match) {
    v.status == row.status && v.drawingDeadline == row.deadline && Seated(roster, me)
    && forall p :: p in v.players ==> SeatShown(roster, p.userId, p.submitted)
  }

  function ScoresOf(seats: seq<Seat>): (r: seq<PlayerScore>)
    ensures |r| == |seats|
    ensures forall x :: 0 <= x < |r| ==>
              r[x] == PlayerScore(seats[x].user, seats[x].score, seats[x].ratingBefore, seats[x].ratingAfter)
  {
    seq(|seats|, x requires 0 <= x < |seats| =>
      PlayerScore(seats[x].user, seats[x].score, seats[x].ratingBefore, seats[x].ratingAfter))
  }

  function ResultOf(m: Match): ResultView {
    ResultView(m.winner, m.resolution, ScoresOf(m.seats))
  }

  // the two statements of an unlocked read, in order
  predicate ReadsAt(ws: seq<World>, i: nat, mid: MatchId, k: nat, l: nat) {
    k <= l <= i && RowAt(ws, k, mid) && RowAt(ws, l, mid)
  }

  ghost predicate TruthfulView(ws: seq<World>, i: nat, me: UserId, v: MatchView) {
    exists k: nat, l: nat :: ReadsAt(ws, i, v.id, k, l) && ViewOf(v, me, Row(ws, k, v.id), Row(ws, l, v.id))
  }

  ghost predicate TruthfulResult(ws: seq<World>, i: nat, mid: MatchId, r: ResultView) {
    exists k: nat, l: nat ::
      ReadsAt(ws, i, mid, k, l) && Row(ws, k, mid).status.Done?
      && r == ResultView(Row(ws, k, mid).winner, Row(ws, k, mid).resolution, ScoresOf(Row(ws, l, mid).seats))
  }

  ghost predicate StampSeen(ws: seq<World>, i: nat, mid: MatchId, u: UserId) {
    exists k: nat :: k <= i && RowAt(ws, k, mid) && SeatShown(Row(ws, k, mid), u, true)
  }

  /** What may arrive at a client in state `s` after i steps of the server: news of any earlier
      moment, and any news of the client's own making. */
  ghost predicate Truthful(ws: seq<World>, i: nat, s: DuelView, e: DuelEvent) {
    match e
    case MatchSnapshot(v) => TruthfulView(ws, i, s.me, v)
    case Result(r) => s.matchId.Some? && TruthfulResult(ws, i, s.matchId.value, r)
    case Pending(status) => s.matchId.Some? && Reached(ws, i, s.matchId.value, status)
    case PlayerSubmitted(u) => s.matchId.Some? && StampSeen(ws, i, s.matchId.value, u)
    case JudgingFrame => s.matchId.Some? && Reached(ws, i, s.matchId.value, Judging)
    case AbandonedFrame => s.matchId.Some? && Reached(ws, i, s.matchId.value, Abandoned)
    case SubmitOk(reply) => s.matchId.Some? && Reached(ws, i, s.matchId.value, reply.status)
    case End(end) => !end.QueueEnded? && !end.NobodySubmitted?
    case _ => true
  }

  // ---- what a client's state says about its match ----

  predicate EndedUnplayed(s: DuelView) {
    s.phase.PhaseEnded? && (s.end == Some(QueueEnded) || s.end == Some(NobodySubmitted))
  }

  predicate InRound(p: DuelPhase) {
    p.PhaseDrawing? || p.PhaseSubmitting? || p.PhaseSubmitted?
  }

  predicate NoMatchYet(s: DuelView) {
    s.status.None? && s.opponent.None? && !s.started && s.result.None?
    && (s.phase.PhaseConnecting? || (s.phase.PhaseEnded? && !EndedUnplayed(s)))
  }

  // what is shown against the match row as it is now
  ghost predicate ShowsRow(s: DuelView, m: Match) {
    Seated(m, s.me)
    && (s.started ==> m.deadline.Some?)
    && (s.phase.PhaseDone? ==> m.status.Done? && s.result == Some(ResultOf(m)))
    && (EndedUnplayed(s) ==> m.status.Abandoned? && (s.end == Some(NobodySubmitted) ==> m.deadline.Some?))
    && (s.opponent.Some? ==> s.opponent.value.userId != s.me
                             && SeatShown(m, s.opponent.value.userId, s.opponent.value.submitted))
  }

  ghost predicate Behind(ws: seq<World>, i: nat, s: DuelView) {
    if s.matchId.None? then NoMatchYet(s)
    else
      var mid := s.matchId.value;
      RowAt(ws, i, mid) && ShowsRow(s, Row(ws, i, mid))
      && (s.status.Some? ==> Reached(ws, i, mid, s.status.value))
      && (InRound(s.phase) ==> Reached(ws, i, mid, Drawing))
      && (s.phase.PhaseJudging? ==> Reached(ws, i, mid, Judging))
  }

  // ---- the match row later ----

  predicate RowKept(m: Match, n: Match) {
    |m.seats| <= |n.seats|
    && (forall x :: 0 <= x < |m.seats| ==> SeatKept(m.seats[x], n.seats[x]))
    && (m.deadline.Some? ==> n.deadline == m.deadline)
    && (Terminal(m) ==> n.status == m.status && ResultOf(n) == ResultOf(m))
  }

  lemma MovedKeeps(m: Match, n: Match)
    requires Moved(m, n)
    ensures RowKept(m, n)
  {
    if SameButSeen(m, n) {
      SeenKeepsSeats(m, n);
      assert ScoresOf(m.seats) == ScoresOf(n.seats);
    }
  }

  lemma KeptTransitive(m: Match, n: Match, o: Match)
    requires RowKept(m, n) && RowKept(n, o)
    ensures RowKept(m, o)
  {
    forall x | 0 <= x < |m.seats| ensures SeatKept(m.seats[x], o.seats[x]) {
      assert SeatKept(n.seats[x], o.seats[x]);
    }
  }

  lemma KeptStep(curve: Elo.Curve, ws: seq<World>, es: seq<Event>, i: nat, mid: MatchId)
    requires Elo.IsCurve(curve) && IsRun(curve, ws, es) && i < |es| && RowAt(ws, i, mid)
    ensures RowAt(ws, i + 1, mid) && RowKept(Row(ws, i, mid), Row(ws, i + 1, mid))
  {
    RunStep(curve, ws, es, i);
    MovedKeeps(Row(ws, i, mid), Row(ws, i + 1, mid));
  }

  /** Rosters only grow, stamps stay, deadlines stay, results stay. */
  lemma {:induction false} RowLater(curve: Elo.Curve, ws: seq<World>, es: seq<Event>, i: nat, j: nat, mid: MatchId)
    requires Elo.IsCurve(curve) && IsRun(curve, ws, es) && i <= j < |ws| && RowAt(ws, i, mid)
    ensures RowAt(ws, j, mid) && RowKept(Row(ws, i, mid), Row(ws, j, mid))
    decreases j - i
  {
    if i < j {
      RowLater(curve, ws, es, i, j - 1, mid);
      KeptStep(curve, ws, es, j - 1, mid);
      KeptTransitive(Row(ws, i, mid), Row(ws, j - 1, mid), Row(ws, j, mid));
    }
  }

  lemma SeatShownLater(m: Match, n: Match, u: UserId, submitted: bool)
    requires RowKept(m, n) && SeatShown(m, u, submitted)
    ensures SeatShown(n, u, submitted)
  {
    var x :| 0 <= x < |m.seats| && m.seats[x].user == u && (submitted ==> m.seats[x].submittedAt.Some?);
    assert SeatKept(m.seats[x], n.seats[x]);
  }

  lemma SeatedLater(m: Match, n: Match, u: UserId)
    requires RowKept(m, n) && Seated(m, u)
    ensures Seated(n, u)
  {
    assert SeatShown(m, u, false);
    SeatShownLater(m, n, u, false);
  }

  lemma ShowsLater(s: DuelView, m: Match, n: Match)
    requires ShowsRow(s, m) && RowKept(m, n)
    ensures ShowsRow(s, n)
  {
    SeatedLater(m, n, s.me);
    if s.opponent.Some? { SeatShownLater(m, n, s.opponent.value.userId, s.opponent.value.submitted); }
  }

  /** A client that was behind its match stays behind it as the match goes on. */
  lemma BehindLater(curve: Elo.Curve, ws: seq<World>, es: seq<Event>, i: nat, j: nat, s: DuelView)
    requires Elo.IsCurve(curve) && IsRun(curve, ws, es) && i <= j < |ws| && Behind(ws, i, s)
    ensures Behind(ws, j, s)
  {
    if s.matchId.Some? {
      RowLater(curve, ws, es, i, j, s.matchId.value);
      ShowsLater(s, Row(ws, i, s.matchId.value), Row(ws, j, s.matchId.value));
    }
  }

  // ---- one event ----

  // once judging has been reached both seats are stamped
  lemma JudgingStamps(curve: Elo.Curve, ws: seq<World>, es: seq<Event>, i: nat, mid: MatchId, u: UserId)
    requires Elo.IsCurve(curve) && IsRun(curve, ws, es) && i < |ws| && Reached(ws, i, mid, Judging)
    requires RowAt(ws, i, mid) && SeatShown(Row(ws, i, mid), u, false)
    ensures SeatShown(Row(ws, i, mid), u, true)
  {
    var k: nat :| k <= i && WasAt(ws, k, mid, Judging);
    RunInv(curve, ws, es, k);
    RunInv(curve, ws, es, i);
    RowLater(curve, ws, es, k, i, mid);
    BothStay(Row(ws, k, mid), Row(ws, i, mid));
    AllStamped(Row(ws, i, mid), u);
  }

  lemma AllStamped(m: Match, u: UserId)
    requires |m.seats| == 2 && m.seats[0].submittedAt.Some? && m.seats[1].submittedAt.Some?
    requires SeatShown(m, u, false)
    ensures SeatShown(m, u, true)
  {
  }

  lemma BothStay(m: Match, n: Match)
    requires ValidMatch(m) && ValidMatch(n) && m.status.Judging? && RowKept(m, n)
    ensures |n.seats| == 2 && n.seats[0].submittedAt.Some? && n.seats[1].submittedAt.Some?
  {
    assert SeatKept(m.seats[0], n.seats[0]) && SeatKept(m.seats[1], n.seats[1]);
  }

  lemma MarkOpponent(curve: Elo.Curve, ws: seq<World>, es: seq<Event>, i: nat, s: DuelView)
    requires Elo.IsCurve(curve) && IsRun(curve, ws, es) && i < |ws|
    requires s.matchId.Some? && Behind(ws, i, s) && Reached(ws, i, s.matchId.value, Judging)
    ensures Behind(ws, i, WithOpponentSubmitted(s))
  {
    if s.opponent.Some? {
      JudgingStamps(curve, ws, es, i, s.matchId.value, s.opponent.value.userId);
    }
  }

  // the row as it was when the server abandoned or finished it
  lemma EndReached(curve: Elo.Curve, ws: seq<World>, es: seq<Event>, i: nat, mid: MatchId, status: Status)
    requires Elo.IsCurve(curve) && IsRun(curve, ws, es) && i < |ws| && Reached(ws, i, mid, status)
    ensures RowAt(ws, i, mid) && ((status.Done? || status.Abandoned?) ==> Row(ws, i, mid).status == status)
  {
    var k: nat :| k <= i && WasAt(ws, k, mid, status);
    RowLater(curve, ws, es, k, i, mid);
  }

  // what a snapshot shows, against the row as it is by now
  lemma SeenShows(s: DuelView, v: MatchView, row: Match, roster: Match, m: Match)
    requires ViewOf(v, s.me, row, roster) && RowKept(row, m) && RowKept(roster, m) && !IsTerminal(s.phase)
    requires if s.matchId.None? then NoMatchYet(s) else ShowsRow(s, m)
    ensures ShowsRow(Seen(s, v), m)
  {
    SeatedLater(roster, m, s.me);
    var opp := Other(v.players, s.me);
    if opp.Some? { SeatShownLater(roster, m, opp.value.userId, opp.value.submitted); }
  }

  /** The client right after a truthful snapshot, before its phase is decided. */
  lemma SeenBehind(curve: Elo.Curve, ws: seq<World>, es: seq<Event>, i: nat, s: DuelView, v: MatchView)
    requires Elo.IsCurve(curve) && IsRun(curve, ws, es) && i < |ws|
    requires Behind(ws, i, s) && TruthfulView(ws, i, s.me, v) && !IsTerminal(s.phase)
    requires s.matchId.None? || s.matchId.value == v.id
    ensures Behind(ws, i, Seen(s, v).(phase := if s.matchId.None? then PhaseWaiting else s.phase))
    ensures Reached(ws, i, v.id, v.status)
  {
    var k: nat, l: nat :| ReadsAt(ws, i, v.id, k, l) && ViewOf(v, s.me, Row(ws, k, v.id), Row(ws, l, v.id));
    assert WasAt(ws, k, v.id, v.status);
    RowLater(curve, ws, es, k, i, v.id);
    RowLater(curve, ws, es, l, i, v.id);
    SeenShows(s, v, Row(ws, k, v.id), Row(ws, l, v.id), Row(ws, i, v.id));
    FurthestIs(s.status, v.status);
  }

  lemma FurthestIs(prev: Option<Status>, next: Status)
    ensures Furthest(prev, next) == next || Some(Furthest(prev, next)) == prev
  {
  }

  lemma PhaseBehind(ws: seq<World>, i: nat, s: DuelView, p: DuelPhase, failed: bool)
    requires s.matchId.Some? && Behind(ws, i, s) && !IsTerminal(p)
    requires InRound(p) ==> Reached(ws, i, s.matchId.value, Drawing)
    requires p.PhaseJudging? ==> Reached(ws, i, s.matchId.value, Judging)
    ensures Behind(ws, i, s.(phase := p, submitFailed := failed))
  {
  }

  lemma StatusBehind(ws: seq<World>, i: nat, s: DuelView, status: Status)
    requires s.matchId.Some? && Behind(ws, i, s) && Reached(ws, i, s.matchId.value, status)
    ensures Behind(ws, i, s.(status := Some(status)))
    ensures Reached(ws, i, s.matchId.value, Furthest(s.status, status))
    ensures Behind(ws, i, s.(status := Some(Furthest(s.status, status))))
  {
  }

  lemma AbandonBehind(ws: seq<World>, i: nat, s: DuelView)
    requires s.matchId.Some? && Behind(ws, i, s) && Row(ws, i, s.matchId.value).status.Abandoned?
    requires !IsTerminal(s.phase)
    ensures Behind(ws, i, Abandon(s))
  {
    assert WasAt(ws, i, s.matchId.value, Abandoned);
  }

  lemma SnapshotBehind(curve: Elo.Curve, ws: seq<World>, es: seq<Event>, i: nat, s: DuelView, v: MatchView)
    requires Elo.IsCurve(curve) && IsRun(curve, ws, es) && i < |ws|
    requires Behind(ws, i, s) && TruthfulView(ws, i, s.me, v) && !IsTerminal(s.phase)
    ensures Behind(ws, i, ApplyMatch(s, v))
  {
    if s.matchId.None? || s.matchId.value == v.id {
      SeenBehind(curve, ws, es, i, s, v);
      EndReached(curve, ws, es, i, v.id, v.status);
      var t := Seen(s, v).(phase := if s.matchId.None? then PhaseWaiting else s.phase);
      match v.status
      case Judging => JudgingSnapshot(curve, ws, es, i, t);
      case Abandoned => AbandonBehind(ws, i, t);
      case Done => DoneSnapshot(ws, i, s, v);
      case Open => PhaseBehind(ws, i, t, PhaseWaiting, t.submitFailed);
      case Drawing =>
        PhaseBehind(ws, i, t, PhaseDrawing, t.submitFailed);
        PhaseBehind(ws, i, t, PhaseSubmitted, false);
    }
  }

  lemma JudgingSnapshot(curve: Elo.Curve, ws: seq<World>, es: seq<Event>, i: nat, t: DuelView)
    requires Elo.IsCurve(curve) && IsRun(curve, ws, es) && i < |ws| && Behind(ws, i, t)
    requires t.matchId.Some? && Reached(ws, i, t.matchId.value, Judging)
    ensures Behind(ws, i, WithOpponentSubmitted(t.(phase := PhaseJudging)))
  {
    PhaseBehind(ws, i, t, PhaseJudging, t.submitFailed);
    MarkOpponent(curve, ws, es, i, t.(phase := PhaseJudging));
  }

  // a first snapshot that is already done leaves the phase at connecting
  lemma DoneSnapshot(ws: seq<World>, i: nat, s: DuelView, v: MatchView)
    requires Behind(ws, i, Seen(s, v).(phase := if s.matchId.None? then PhaseWaiting else s.phase))
    requires Behind(ws, i, s) && !IsTerminal(s.phase)
    ensures Behind(ws, i, Seen(s, v))
  {
    if s.matchId.None? {
      PhaseBehind(ws, i, Seen(s, v).(phase := PhaseWaiting), PhaseConnecting, s.submitFailed);
      var t := Seen(s, v);
      assert t.(phase := PhaseWaiting).(phase := PhaseConnecting, submitFailed := s.submitFailed) == t;
    }
  }

  lemma JudgingNews(curve: Elo.Curve, ws: seq<World>, es: seq<Event>, i: nat, s: DuelView)
    requires Elo.IsCurve(curve) && IsRun(curve, ws, es) && i < |ws| && Behind(ws, i, s)
    requires s.matchId.Some? && Reached(ws, i, s.matchId.value, Judging)
    ensures Behind(ws, i, WithOpponentSubmitted(s.(phase := PhaseJudging, status := Some(Judging))))
  {
    StatusBehind(ws, i, s, Judging);
    PhaseBehind(ws, i, s.(status := Some(Judging)), PhaseJudging, s.submitFailed);
    MarkOpponent(curve, ws, es, i, s.(phase := PhaseJudging, status := Some(Judging)));
  }

  lemma AbandonedNews(curve: Elo.Curve, ws: seq<World>, es: seq<Event>, i: nat, s: DuelView)
    requires Elo.IsCurve(curve) && IsRun(curve, ws, es) && i < |ws| && Behind(ws, i, s) && !IsTerminal(s.phase)
    requires s.matchId.Some? && Reached(ws, i, s.matchId.value, Abandoned)
    ensures Behind(ws, i, Abandon(s))
  {
    EndReached(curve, ws, es, i, s.matchId.value, Abandoned);
    AbandonBehind(ws, i, s);
  }

  lemma PendingNews(curve: Elo.Curve, ws: seq<World>, es: seq<Event>, i: nat, s: DuelView, status: Status)
    requires Elo.IsCurve(curve) && IsRun(curve, ws, es) && i < |ws| && Behind(ws, i, s) && !IsTerminal(s.phase)
    requires s.matchId.Some? && Reached(ws, i, s.matchId.value, status)
    ensures Behind(ws, i, ReduceDuel(s, Pending(status)))
  {
    var t := s.(offline := false);
    if status.Abandoned? {
      AbandonedNews(curve, ws, es, i, s);
    } else if status.Judging? {
      JudgingNews(curve, ws, es, i, t);
    } else {
      StatusBehind(ws, i, t, status);
    }
  }

  lemma ResultNews(curve: Elo.Curve, ws: seq<World>, es: seq<Event>, i: nat, s: DuelView, r: ResultView)
    requires Elo.IsCurve(curve) && IsRun(curve, ws, es) && i < |ws| && Behind(ws, i, s)
    requires s.matchId.Some? && TruthfulResult(ws, i, s.matchId.value, r) && !IsTerminal(s.phase)
    ensures Behind(ws, i, ReduceDuel(s, Result(r)))
  {
    var mid := s.matchId.value;
    var k: nat, l: nat :|
      ReadsAt(ws, i, mid, k, l) && Row(ws, k, mid).status.Done?
      && r == ResultView(Row(ws, k, mid).winner, Row(ws, k, mid).resolution, ScoresOf(Row(ws, l, mid).seats));
    RowLater(curve, ws, es, k, l, mid);
    RowLater(curve, ws, es, l, i, mid);
    RunInv(curve, ws, es, i);
    assert ValidMatch(Row(ws, i, mid));
    ResultShown(ws, i, s, r);
  }

  lemma ResultShown(ws: seq<World>, i: nat, s: DuelView, r: ResultView)
    requires Behind(ws, i, s) && s.matchId.Some? && !IsTerminal(s.phase)
    requires var m := Row(ws, i, s.matchId.value); m.status.Done? && ValidMatch(m) && r == ResultOf(m)
    ensures Behind(ws, i, ReduceDuel(s, Result(r)))
  {
    assert WasAt(ws, i, s.matchId.value, Done);
  }

  // a match has room for me and one opponent
  lemma OnlyOpponent(m: Match, me: UserId, u: UserId, v: UserId)
    requires ValidMatch(m) && Seated(m, me) && SeatShown(m, u, false) && SeatShown(m, v, false)
    requires u != me && v != me
    ensures u == v
  {
  }

  lemma SubmittedNews(curve: Elo.Curve, ws: seq<World>, es: seq<Event>, i: nat, s: DuelView, u: UserId)
    requires Elo.IsCurve(curve) && IsRun(curve, ws, es) && i < |ws| && Behind(ws, i, s)
    requires s.matchId.Some? && StampSeen(ws, i, s.matchId.value, u) && u != s.me
    ensures Behind(ws, i, WithOpponentSubmitted(s))
  {
    var mid := s.matchId.value;
    var k: nat :| k <= i && RowAt(ws, k, mid) && SeatShown(Row(ws, k, mid), u, true);
    RowLater(curve, ws, es, k, i, mid);
    SeatShownLater(Row(ws, k, mid), Row(ws, i, mid), u, true);
    RunInv(curve, ws, es, i);
    if s.opponent.Some? {
      OnlyOpponent(Row(ws, i, mid), s.me, u, s.opponent.value.userId);
    }
  }

  lemma SubmitReplied(curve: Elo.Curve, ws: seq<World>, es: seq<Event>, i: nat, s: DuelView, reply: SubmitMatch)
    requires Elo.IsCurve(curve) && IsRun(curve, ws, es) && i < |ws| && Behind(ws, i, s) && s.phase.PhaseSubmitting?
    requires s.matchId.Some? && Reached(ws, i, s.matchId.value, reply.status)
    ensures Behind(ws, i, ReduceDuel(s, SubmitOk(reply)))
  {
    var t := s.(clock := Some(Clock(reply.drawingDeadline, reply.serverTime)), offline := false);
    var status := Furthest(s.status, reply.status);
    StatusBehind(ws, i, t, reply.status);
    PhaseBehind(ws, i, t.(status := Some(status)), PhaseSubmitted, s.submitFailed);
    if status.Judging? { JudgingNews(curve, ws, es, i, t); }
  }

  // events of the client's own making
  lemma OwnNews(ws: seq<World>, i: nat, s: DuelView, e: DuelEvent)
    requires Behind(ws, i, s) && Truthful(ws, i, s, e) && !IsTerminal(s.phase)
    requires e.Presence? || e.SubmitSent? || e.SubmitConflict? || e.SubmitFailed? || e.Offline? || e.End?
             || e == PlayerSubmitted(s.me)
    ensures Behind(ws, i, ReduceDuel(s, e))
  {
  }

  lemma EventBehind(curve: Elo.Curve, ws: seq<World>, es: seq<Event>, i: nat, s: DuelView, e: DuelEvent)
    requires Elo.IsCurve(curve) && IsRun(curve, ws, es) && i < |ws|
    requires Behind(ws, i, s) && Truthful(ws, i, s, e)
    ensures Behind(ws, i, ReduceDuel(s, e))
  {
    if !IsTerminal(s.phase) && !e.Start? {
      match e
      case MatchSnapshot(v) => SnapshotBehind(curve, ws, es, i, s, v);
      case Result(r) => ResultNews(curve, ws, es, i, s, r);
      case Pending(status) => PendingNews(curve, ws, es, i, s, status);
      case JudgingFrame => JudgingNews(curve, ws, es, i, s);
      case AbandonedFrame => AbandonedNews(curve, ws, es, i, s);
      case PlayerSubmitted(u) =>
        if u == s.me { OwnNews(ws, i, s, e); } else { SubmittedNews(curve, ws, es, i, s, u); }
      case SubmitOk(reply) =>
        if s.phase.PhaseSubmitting? { SubmitReplied(curve, ws, es, i, s, reply); }
      case _ => OwnNews(ws, i, s, e);
    }
  }

  // ---- whole runs of clients ----

  /** A client of the run: event j reaches it after at[j] steps of the server. */
  ghost predicate IsClient(ws: seq<World>, ss: seq<DuelView>, ds: seq<DuelEvent>, at: seq<nat>) {
    IsClientPath(ss, ds) && ss[0] == InitialDuel(ss[0].me) && |at| == |ds|
    && (forall j :: 0 <= j < |at| ==> at[j] < |ws|)
    && (forall j, k :: 0 <= j < k < |at| ==> at[j] <= at[k])
    && (forall j {:trigger ds[j]} :: 0 <= j < |ds| ==> Truthful(ws, at[j], ss[j], ds[j]))
  }

  // the server steps done when the client is in its j-th state
  function HeardAt(at: seq<nat>, j: nat): nat
    requires j <= |at|
  {
    if j == 0 then 0 else at[j - 1]
  }

  /** For every server run and every late, duplicated, reordered or lossy delivery, the client is
      never ahead of its match. */
  lemma {:induction false} ClientsStayBehind(
    curve: Elo.Curve, ws: seq<World>, es: seq<Event>, ss: seq<DuelView>, ds: seq<DuelEvent>, at: seq<nat>, j: nat)
    requires Elo.IsCurve(curve) && IsRun(curve, ws, es) && IsClient(ws, ss, ds, at) && j < |ss|
    ensures HeardAt(at, j) < |ws| && Behind(ws, HeardAt(at, j), ss[j])
  {
    if j > 0 {
      ClientsStayBehind(curve, ws, es, ss, ds, at, j - 1);
      assert Truthful(ws, at[j - 1], ss[j - 1], ds[j - 1]);
      BehindLater(curve, ws, es, HeardAt(at, j - 1), at[j - 1], ss[j - 1]);
      EventBehind(curve, ws, es, at[j - 1], ss[j - 1], ds[j - 1]);
    }
  }

  /** What that means for the player: a phase is shown only after the server reached it, and a
      shown end or result is the match's own. */
  lemma NeverAheadOfServer(
    curve: Elo.Curve, ws: seq<World>, es: seq<Event>,
    ss: seq<DuelView>, ds: seq<DuelEvent>, at: seq<nat>, j: nat, i: nat)
    requires Elo.IsCurve(curve) && IsRun(curve, ws, es) && IsClient(ws, ss, ds, at) && j < |ss|
    requires HeardAt(at, j) <= i < |ws| && ss[j].matchId.Some?
    ensures var s, mid := ss[j], ss[j].matchId.value;
            RowAt(ws, i, mid)
            && (InRound(s.phase) ==> Reached(ws, i, mid, Drawing))
            && (s.phase.PhaseJudging? ==> Reached(ws, i, mid, Judging))
            && (s.status.Some? ==> Reached(ws, i, mid, s.status.value))
            && (s.phase.PhaseDone? ==> Row(ws, i, mid).status.Done? && s.result == Some(ResultOf(Row(ws, i, mid))))
            && (EndedUnplayed(s) ==> Row(ws, i, mid).status.Abandoned?)
            && (s.opponent.Some? && s.opponent.value.submitted ==>
                  SeatShown(Row(ws, i, mid), s.opponent.value.userId, true))
  {
    ClientsStayBehind(curve, ws, es, ss, ds, at, j);
    BehindLater(curve, ws, es, HeardAt(at, j), i, ss[j]);
  }

  /** Two clients of one match can never disagree about its end: not one shown a result and the
      other that nobody played, and not two different results. */
  lemma ClientsAgree(
    curve: Elo.Curve, ws: seq<World>, es: seq<Event>,
    ss: seq<DuelView>, ds: seq<DuelEvent>, at: seq<nat>, j: nat,
    ss': seq<DuelView>, ds': seq<DuelEvent>, at': seq<nat>, j': nat)
    requires Elo.IsCurve(curve) && IsRun(curve, ws, es)
    requires IsClient(ws, ss, ds, at) && j < |ss| && IsClient(ws, ss', ds', at') && j' < |ss'|
    requires ss[j].matchId.Some? && ss[j].matchId == ss'[j'].matchId && ss[j].phase.PhaseDone?
    ensures !EndedUnplayed(ss'[j'])
    ensures ss'[j'].phase.PhaseDone? ==> ss'[j'].result == ss[j].result
  {
    var last := |ws| - 1;
    ClientsStayBehind(curve, ws, es, ss, ds, at, j);
    ClientsStayBehind(curve, ws, es, ss', ds', at', j');
    NeverAheadOfServer(curve, ws, es, ss, ds, at, j, last);
    NeverAheadOfServer(curve, ws, es, ss', ds', at', j', last);
  }

  // ---- news that does arrive settles the round ----

  function PlayersOf(seats: seq<Seat>, names: UserId -> Option<string>): (r: seq<PlayerView>)
    ensures |r| == |seats|
    ensures forall x :: 0 <= x < |r| ==>
              r[x] == PlayerView(seats[x].user, names(seats[x].user), seats[x].submittedAt.Some?)
  {
    seq(|seats|, x requires 0 <= x < |seats| =>
      PlayerView(seats[x].user, names(seats[x].user), seats[x].submittedAt.Some?))
  }

  /** What a poll asks for in state `s`, and the answer of a match whose row is `m`. */
  function PollReply(
    s: DuelView, mid: MatchId, m: Match, names: UserId -> Option<string>, prompt: string, now: Time): DuelEvent
  {
    if s.status == Some(Judging) || s.status == Some(Done) then
      if m.status.Done? then Result(ResultOf(m)) else Pending(m.status)
    else
      MatchSnapshot(MatchView(mid, m.status, if m.status.Open? then None else Some(prompt),
                              PlayersOf(m.seats, names), m.deadline, now))
  }

  /** Once a match has ended, two polls that get through bring any client of it to its end: the
      result shown if it is done, and a stated reason if it was abandoned. */
  lemma TwoPollsSettle(
    s: DuelView, mid: MatchId, m: Match, names: UserId -> Option<string>, prompt: string, now: Time, later: Time)
    requires s.matchId == Some(mid) && !IsTerminal(s.phase) && Terminal(m)
    ensures var t := ReduceDuel(s, PollReply(s, mid, m, names, prompt, now));
            var u := ReduceDuel(t, PollReply(t, mid, m, names, prompt, later));
            (m.status.Done? ==> u.phase.PhaseDone? && u.result == Some(ResultOf(m)))
            && (m.status.Abandoned? ==> EndedUnplayed(u))
  {
  }
}
