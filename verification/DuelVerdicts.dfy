/** What ends a round, read off the tables: whose win a verdict or a missed deadline is, what both
    seats show, and how far both ratings move. */
module DuelVerdicts {
  import opened Wrappers
  import opened DuelState
  import opened DuelTransactions
  import opened DuelInvariants
  import opened DuelRows
  import opened DuelTables
  import opened DuelCommits
  import opened DuelMachine
  import opened DuelRuns
  import Elo
  import EloScale

  // ---- reading a row ----

  /** The player's seat shows the score, and a rating that went from `before` to `after`. */
  predicate SeatShows(m: Match, u: UserId, score: Option<real>, before: int, after: int) {
    exists x :: 0 <= x < |m.seats| && m.seats[x].user == u && m.seats[x].score == score
                && m.seats[x].ratingBefore == Some(before) && m.seats[x].ratingAfter == Some(after)
  }

  predicate StampedAt(m: Match, u: UserId, t: Time) {
    exists x :: 0 <= x < |m.seats| && m.seats[x].user == u && m.seats[x].submittedAt == Some(t)
  }

  // the round itself: players, stamps and times
  predicate SameRound(m: Match, n: Match) {
    SameSubmissions(m, n) && m.createdAt == n.createdAt && m.deadline == n.deadline
    && m.startedAt == n.startedAt && m.attempts == n.attempts
  }

  /** The result of a duel between a and b touches that row and those two ratings only, and pays
      one player what it takes from the other. */
  predicate Settles(db: Db, next: Db, mid: MatchId, a: UserId, b: UserId) {
    mid < |db.matches| && a < |db.ratings| && b < |db.ratings| && a != b
    && OnlyRow(db, next, mid) && SameRound(db.matches[mid], next.matches[mid])
    && |next.ratings| == |db.ratings| && next.ledger == db.ledger
    && (forall u :: 0 <= u < |db.ratings| && u != a && u != b ==> next.ratings[u] == db.ratings[u])
    && next.ratings[a] - db.ratings[a] == db.ratings[b] - next.ratings[b]
    && next.matches[mid].status.Done?
  }

  lemma ResultOnTables(db: Db, mid: MatchId, fr: FinalResult, a: PlayerResult, b: PlayerResult)
    requires mid < |db.matches| && fr.players == [a, b] && OppositeMoves(a, b)
    requires a.user < |db.ratings| && b.user < |db.ratings| && SeatsAre(db.matches[mid], a.user, b.user)
    ensures var next := WriteFinalResult(db, mid, fr);
            Settles(db, next, mid, a.user, b.user)
            && next.ratings[a.user] == db.ratings[a.user] + Move(a)
            && next.matches[mid].winner == fr.winner && next.matches[mid].resolution == Some(fr.resolution)
            && SeatShows(next.matches[mid], a.user, a.score, db.ratings[a.user], next.ratings[a.user])
            && SeatShows(next.matches[mid], b.user, b.score, db.ratings[b.user], next.ratings[b.user])
  {
    FinalResultEffect(db, mid, fr, a, b);
    SettledBy(db, WriteFinalResult(db, mid, fr), mid, fr, a, b);
  }

  lemma SettledBy(db: Db, next: Db, mid: MatchId, fr: FinalResult, a: PlayerResult, b: PlayerResult)
    requires mid < |db.matches| && OppositeMoves(a, b)
    requires a.user < |db.ratings| && b.user < |db.ratings| && SeatsAre(db.matches[mid], a.user, b.user)
    requires next == Db(db.matches[mid := ResultRow(db.matches[mid], db.ratings, a, b, fr)],
                        Paid(db.ratings, a.user, b.user, Move(a), Move(b)), db.ledger)
    ensures Settles(db, next, mid, a.user, b.user) && next.ratings[a.user] == db.ratings[a.user] + Move(a)
    ensures next.matches[mid].winner == fr.winner && next.matches[mid].resolution == Some(fr.resolution)
    ensures SeatShows(next.matches[mid], a.user, a.score, db.ratings[a.user], next.ratings[a.user])
    ensures SeatShows(next.matches[mid], b.user, b.score, db.ratings[b.user], next.ratings[b.user])
  {
    var m := db.matches[mid];
    ResultSeatShows(m, db.ratings, a, b, fr);
    RowSettles(db, mid, ResultRow(m, db.ratings, a, b, fr), a.user, b.user, Move(a));
  }

  lemma RowSettles(db: Db, mid: MatchId, n: Match, a: UserId, b: UserId, move: int)
    requires mid < |db.matches| && a < |db.ratings| && b < |db.ratings| && a != b
    requires SameRound(db.matches[mid], n) && n.status.Done?
    ensures var next := Db(db.matches[mid := n], Paid(db.ratings, a, b, move, -move), db.ledger);
            Settles(db, next, mid, a, b) && next.matches[mid] == n && next.ratings[a] == db.ratings[a] + move
            && next.ratings[b] == db.ratings[b] - move
  {
  }

  lemma ResultSeatShows(m: Match, ratings: seq<int>, a: PlayerResult, b: PlayerResult, fr: FinalResult)
    requires a.user < |ratings| && b.user < |ratings| && SeatsAre(m, a.user, b.user)
    ensures var n := ResultRow(m, ratings, a, b, fr);
            SameRound(m, n)
            && SeatShows(n, a.user, a.score, ratings[a.user], ratings[a.user] + Move(a))
            && SeatShows(n, b.user, b.score, ratings[b.user], ratings[b.user] + Move(b))
  {
    var n := ResultRow(m, ratings, a, b, fr);
    var x := if m.seats[0].user == a.user then 0 else 1;
    assert n.seats[x].user == a.user && n.seats[1 - x].user == b.user;
  }

  // ---- who is image A ----

  /** A pass is given both players exactly when both have submitted, the earlier submission first
      and the smaller id first on a tie. */
  lemma SubmissionOrder(m: Match)
    requires FullRoster(m)
    ensures SubmissionsForJudging(m).Some? <==> BothStamped(m)
    ensures forall a, b, s, t ::
              SubmissionsForJudging(m) == Some((a, b)) && StampedAt(m, a, s) && StampedAt(m, b, t) ==>
                SeatsAre(m, a, b) && (s < t || (s == t && a < b))
  {
    SeatsOfTwo(m.seats);
  }

  // ---- a verdict ----

  /** The verdict's winner is the row's winner and never loses points by it, both seats show the
      judge's scores, and the move is the Elo formula's for the ratings the pass had read. */
  lemma VerdictDecides(curve: Elo.Curve, db: Db, mid: MatchId, a: UserId, b: UserId, ra: int, rb: int, v: Verdict)
    requires Elo.IsCurve(curve) && ValidDb(db) && TxOk(db, PersistTx(mid, a, b, ra, rb, v))
    requires db.matches[mid].status.Judging?
    ensures curve(rb - ra) > 0.0 && curve(ra - rb) > 0.0
    ensures var next := Commit(curve, db, PersistTx(mid, a, b, ra, rb, v));
            Settles(db, next, mid, a, b) && Decided(curve, db, next, mid, a, b, ra, rb, v)
  {
    VerdictWritten(curve, db, mid, a, b, ra, rb, v);
    VerdictMoves(curve, a, b, ra, rb, v);
    var fr := JudgedResult(curve, a, b, ra, rb, v);
    ResultOnTables(db, mid, fr, fr.players[0], fr.players[1]);
  }

  lemma VerdictMoves(curve: Elo.Curve, a: UserId, b: UserId, ra: int, rb: int, v: Verdict)
    requires Elo.IsCurve(curve) && a != b
    ensures curve(rb - ra) > 0.0 && curve(ra - rb) > 0.0
    ensures var fr := JudgedResult(curve, a, b, ra, rb, v);
            var move := Move(fr.players[0]);
            |fr.players| == 2 && fr.players[0].user == a && fr.players[1].user == b
            && fr.players[0].score == Some(v.scoreA) && fr.players[1].score == Some(v.scoreB)
            && fr.resolution == Judged && OppositeMoves(fr.players[0], fr.players[1])
            && match v.winner
               case WinnerA =>
                 fr.winner == Some(a) && move >= 0 && move == Elo.ComputeElo(curve, ra, rb, 1.0).0 - ra
               case WinnerB =>
                 fr.winner == Some(b) && move <= 0 && -move == Elo.ComputeElo(curve, rb, ra, 1.0).0 - rb
               case WinnerTie =>
                 fr.winner == None && move == Elo.ComputeElo(curve, ra, rb, 0.5).0 - ra
  {
    Elo.EloZeroSum(curve, ra, rb, 1.0);
    Elo.EloZeroSum(curve, ra, rb, 0.0);
    Elo.EloZeroSum(curve, ra, rb, 0.5);
    Elo.EloIsSymmetric(curve, ra, rb, 0.0);
  }

  lemma VerdictWritten(curve: Elo.Curve, db: Db, mid: MatchId, a: UserId, b: UserId, ra: int, rb: int, v: Verdict)
    requires Elo.IsCurve(curve) && ValidDb(db) && TxOk(db, PersistTx(mid, a, b, ra, rb, v))
    requires db.matches[mid].status.Judging?
    ensures a < |db.ratings| && b < |db.ratings| && SeatsAre(db.matches[mid], a, b)
    ensures Commit(curve, db, PersistTx(mid, a, b, ra, rb, v))
         == WriteFinalResult(db, mid, JudgedResult(curve, a, b, ra, rb, v))
  {
    SubmissionUsersKnown(db, mid, a, b);
    assert ValidMatch(db.matches[mid]);
    JudgedUsers(db.matches[mid], a, b);
  }

  predicate Decided(
    curve: Elo.Curve, db: Db, next: Db, mid: MatchId, a: UserId, b: UserId, ra: int, rb: int, v: Verdict)
    requires Settles(db, next, mid, a, b)
    requires curve(rb - ra) > 0.0 && curve(ra - rb) > 0.0
  {
    var n := next.matches[mid];
    n.resolution == Some(Judged)
    && SeatShows(n, a, Some(v.scoreA), db.ratings[a], next.ratings[a])
    && SeatShows(n, b, Some(v.scoreB), db.ratings[b], next.ratings[b])
    && match v.winner
       case WinnerA =>
         n.winner == Some(a) && next.ratings[a] >= db.ratings[a]
         && next.ratings[a] - db.ratings[a] == Elo.ComputeElo(curve, ra, rb, 1.0).0 - ra
       case WinnerB =>
         n.winner == Some(b) && next.ratings[b] >= db.ratings[b]
         && next.ratings[b] - db.ratings[b] == Elo.ComputeElo(curve, rb, ra, 1.0).0 - rb
       case WinnerTie =>
         n.winner == None
         && next.ratings[a] - db.ratings[a] == Elo.ComputeElo(curve, ra, rb, 0.5).0 - ra
  }

  /** What VerdictDecides says, as one predicate. */
  predicate ByVerdict(
    curve: Elo.Curve, db: Db, next: Db, mid: MatchId, a: UserId, b: UserId, ra: int, rb: int, v: Verdict)
  {
    curve(rb - ra) > 0.0 && curve(ra - rb) > 0.0
    && Settles(db, next, mid, a, b) && Decided(curve, db, next, mid, a, b, ra, rb, v)
  }

  lemma PersistDecides(curve: Elo.Curve, db: Db, mid: MatchId, a: UserId, b: UserId, ra: int, rb: int, v: Verdict)
    requires Elo.IsCurve(curve) && ValidDb(db) && TxOk(db, PersistTx(mid, a, b, ra, rb, v))
    ensures a < |db.ratings| && b < |db.ratings| && ValidDb(Commit(curve, db, PersistTx(mid, a, b, ra, rb, v)))
    ensures db.matches[mid].status.Judging? ==>
              ByVerdict(curve, db, Commit(curve, db, PersistTx(mid, a, b, ra, rb, v)), mid, a, b, ra, rb, v)
  {
    SubmissionUsersKnown(db, mid, a, b);
    PersistStep(curve, db, mid, a, b, ra, rb, v);
    if db.matches[mid].status.Judging? { VerdictDecides(curve, db, mid, a, b, ra, rb, v); }
  }

  /** Between players the pass read as equal, a win moves 16 points and a tie none. */
  lemma EqualDuel(curve: Elo.Curve, db: Db, mid: MatchId, a: UserId, b: UserId, r: int, v: Verdict)
    requires Elo.IsCurve(curve) && ValidDb(db) && TxOk(db, PersistTx(mid, a, b, r, r, v))
    requires db.matches[mid].status.Judging?
    ensures var next := Commit(curve, db, PersistTx(mid, a, b, r, r, v));
            Settles(db, next, mid, a, b)
            && next.ratings[a] - db.ratings[a]
               == match v.winner case WinnerA => 16 case WinnerB => -16 case WinnerTie => 0
  {
    VerdictDecides(curve, db, mid, a, b, r, r, v);
    EloScale.EqualsWin16(curve, r);
  }

  // ---- a missed deadline ----

  predicate Expired(m: Match, now: Time) {
    m.status.Drawing? && m.deadline.Some? && m.deadline.value <= now
  }

  /** A round nobody drew in is abandoned and costs nothing. */
  lemma NobodyDrew(curve: Elo.Curve, db: Db, mid: MatchId, now: Time)
    requires Elo.IsCurve(curve) && ValidDb(db) && mid < |db.matches| && Expired(db.matches[mid], now)
    requires forall x :: 0 <= x < |db.matches[mid].seats| ==> db.matches[mid].seats[x].submittedAt.None?
    ensures var n := db.matches[mid].(status := Abandoned);
            Commit(curve, db, ExpireTx(mid, now)) == db.(matches := db.matches[mid := n])
  {
    var m := db.matches[mid];
    assert ValidMatch(m) && RosterKnown(m, db.ratings);
    SeatsOfTwo(m.seats);
  }

  /** A round one player drew in is that player's win without a score, for the points a win is
      worth. */
  lemma SoleSubmitterWins(curve: Elo.Curve, db: Db, mid: MatchId, now: Time, x: nat)
    requires Elo.IsCurve(curve) && ValidDb(db) && mid < |db.matches| && Expired(db.matches[mid], now)
    requires x < 2 && |db.matches[mid].seats| == 2
    requires db.matches[mid].seats[x].submittedAt.Some? && db.matches[mid].seats[1 - x].submittedAt.None?
    ensures var next := Commit(curve, db, ExpireTx(mid, now));
            var s, f := db.matches[mid].seats[x].user, db.matches[mid].seats[1 - x].user;
            Settles(db, next, mid, s, f)
            && next.matches[mid].winner == Some(s) && next.matches[mid].resolution == Some(Forfeit)
            && SeatShows(next.matches[mid], s, None, db.ratings[s], next.ratings[s])
            && SeatShows(next.matches[mid], f, None, db.ratings[f], next.ratings[f])
            && next.ratings[s] >= db.ratings[s]
            && curve(db.ratings[f] - db.ratings[s]) > 0.0
            && next.ratings[s] == Elo.ComputeElo(curve, db.ratings[s], db.ratings[f], 1.0).0
  {
    var m := db.matches[mid];
    var s, f := m.seats[x].user, m.seats[1 - x].user;
    ForfeitWritten(curve, db, mid, now, x);
    Elo.EloZeroSum(curve, db.ratings[s], db.ratings[f], 1.0);
    var fr := ForfeitResult(curve, s, f, db.ratings);
    ResultOnTables(db, mid, fr, fr.players[0], fr.players[1]);
  }

  lemma ForfeitWritten(curve: Elo.Curve, db: Db, mid: MatchId, now: Time, x: nat)
    requires Elo.IsCurve(curve) && ValidDb(db) && mid < |db.matches| && Expired(db.matches[mid], now)
    requires x < 2 && |db.matches[mid].seats| == 2
    requires db.matches[mid].seats[x].submittedAt.Some? && db.matches[mid].seats[1 - x].submittedAt.None?
    ensures var s, f := db.matches[mid].seats[x].user, db.matches[mid].seats[1 - x].user;
            s < |db.ratings| && f < |db.ratings| && SeatsAre(db.matches[mid], s, f)
            && Commit(curve, db, ExpireTx(mid, now))
            == WriteFinalResult(db, mid, ForfeitResult(curve, s, f, db.ratings))
  {
    var m := db.matches[mid];
    assert ValidMatch(m) && RosterKnown(m, db.ratings);
    SoleSubmitter(m, x);
    ExpiryDecision(curve, m, db.ratings);
  }

  lemma SoleSubmitter(m: Match, x: nat)
    requires FullRoster(m) && x < 2 && m.seats[x].submittedAt.Some? && m.seats[1 - x].submittedAt.None?
    ensures Stamps(m) == 1 && Submitter(m) == m.seats[x] && Forfeiter(m) == m.seats[1 - x]
    ensures SeatsAre(m, m.seats[x].user, m.seats[1 - x].user)
  {
    SeatsOfTwo(m.seats);
  }

  /** Nothing happens to a round whose deadline has not passed, and no ended one. */
  lemma OnlyExpiredResolved(curve: Elo.Curve, db: Db, mid: MatchId, now: Time)
    requires Elo.IsCurve(curve) && ValidDb(db) && mid < |db.matches|
    ensures Commit(curve, db, ExpireTx(mid, now)) != db <==> Expired(db.matches[mid], now)
  {
    var m := db.matches[mid];
    assert ValidMatch(m) && RosterKnown(m, db.ratings);
    ExpireStep(curve, db, mid, now);
  }

  // ---- over whole runs ----

  /** Nothing but a verdict makes a match judged. */
  lemma OnlyVerdictsJudge(curve: Elo.Curve, db: Db, tx: Tx, mid: MatchId)
    requires Elo.IsCurve(curve) && ValidDb(db) && TxOk(db, tx) && mid < |db.matches|
    requires !db.matches[mid].status.Done?
    requires mid < |Commit(curve, db, tx).matches| && Commit(curve, db, tx).matches[mid].resolution == Some(Judged)
    ensures tx.PersistTx? && tx.mid == mid && db.matches[mid].status.Judging?
  {
    assert ValidMatch(db.matches[mid]);
    match tx
    case SubmitTx(u, other, now, slot) => SubmitNeverJudges(curve, db, u, other, now, slot, mid);
    case ExpireTx(other, now) =>
      if RowKnown(db, other) { ExpireNeverJudges(curve, db, other, now, mid); }
    case _ =>
  }

  lemma ExpireNeverJudges(curve: Elo.Curve, db: Db, other: MatchId, now: Time, mid: MatchId)
    requires Elo.IsCurve(curve) && ValidDb(db) && RowKnown(db, other) && mid < |db.matches|
    requires db.matches[mid].resolution != Some(Judged)
    ensures var next := ResolveExpiry(curve, db, other, now).0;
            mid < |next.matches| && next.matches[mid].resolution != Some(Judged)
  {
    ExpireElsewhere(curve, db, other, now);
    ExpireStep(curve, db, other, now);
    if mid == other { AbandonedOrForfeit(curve, db, mid, now); }
  }

  lemma ExpireElsewhere(curve: Elo.Curve, db: Db, other: MatchId, now: Time)
    requires Elo.IsCurve(curve) && RowKnown(db, other)
    ensures OnlyRow(db, ResolveExpiry(curve, db, other, now).0, other)
  {
  }

  lemma AbandonedOrForfeit(curve: Elo.Curve, db: Db, mid: MatchId, now: Time)
    requires Elo.IsCurve(curve) && ValidDb(db) && RowKnown(db, mid)
    ensures var next := ResolveExpiry(curve, db, mid, now).0;
            mid < |next.matches|
            && (next == db || next.matches[mid].status.Abandoned? || next.matches[mid].resolution == Some(Forfeit))
            && ValidMatch(next.matches[mid])
  {
    ExpireStep(curve, db, mid, now);
  }

  lemma SubmitNeverJudges(curve: Elo.Curve, db: Db, u: UserId, other: MatchId, now: Time, slot: bool, mid: MatchId)
    requires Elo.IsCurve(curve) && ValidDb(db) && mid < |db.matches| && db.matches[mid].resolution != Some(Judged)
    ensures var next := Commit(curve, db, SubmitTx(u, other, now, slot));
            mid < |next.matches| && next.matches[mid].resolution != Some(Judged)
  {
    if RowKnown(db, other) {
      SubmitCases(curve, db, u, other, now, slot);
      ExpireNeverJudges(curve, db, other, now, mid);
      StampKeepsResults(db, u, other, now, slot, mid);
    }
  }

  /** A submit leaves the tables alone, resolves an expiry, or stamps. */
  lemma SubmitCases(curve: Elo.Curve, db: Db, u: UserId, mid: MatchId, now: Time, slot: bool)
    requires Elo.IsCurve(curve) && RowKnown(db, mid)
    ensures var next := Submit(curve, db, u, mid, now, slot).0;
            next == db || next == ResolveExpiry(curve, db, mid, now).0 || next == StampAndEnter(db, u, mid, now, slot).0
  {
  }

  lemma StampKeepsResults(db: Db, u: UserId, other: MatchId, now: Time, slot: bool, mid: MatchId)
    requires other < |db.matches| && mid < |db.matches|
    ensures var next := StampAndEnter(db, u, other, now, slot).0;
            |next.matches| == |db.matches| && next.matches[mid].resolution == db.matches[mid].resolution
  {
  }

  /** What a pass that is ready has read: both players, at some earlier moment of the run, and
      their ratings at that moment. */
  predicate ReadIn(w: World, job: Job)
    requires job.PassReady?
  {
    job.mid < |w.db.matches| && SubmissionsForJudging(w.db.matches[job.mid]) == Some((job.a, job.b))
    && job.a < |w.db.ratings| && w.db.ratings[job.a] == job.ratingA
    && job.b < |w.db.ratings| && w.db.ratings[job.b] == job.ratingB
  }

  lemma NewlyReady(w: World, e: Event, tid: nat)
    requires JobOf(Schedule(w, e), tid).PassReady?
    requires forall t :: 0 <= t < |w.agents| ==> w.agents[t].proc < |w.procs|
    ensures JobOf(w, tid) == JobOf(Schedule(w, e), tid) || ReadIn(w, JobOf(Schedule(w, e), tid))
  {
  }

  lemma RunSchedules(curve: Elo.Curve, ws: seq<World>, es: seq<Event>, i: nat, tid: nat)
    requires Elo.IsCurve(curve) && IsRun(curve, ws, es) && i < |es|
    ensures JobOf(ws[i + 1], tid) == JobOf(Schedule(ws[i], es[i]), tid)
    ensures forall t :: 0 <= t < |ws[i].agents| ==> ws[i].agents[t].proc < |ws[i].procs|
  {
    RunStep(curve, ws, es, i);
  }

  lemma ReadyAt(curve: Elo.Curve, ws: seq<World>, es: seq<Event>, i: nat, tid: nat)
    requires Elo.IsCurve(curve) && IsRun(curve, ws, es) && i < |ws| && JobOf(ws[i], tid).PassReady?
    ensures i > 0 && (JobOf(ws[i - 1], tid) == JobOf(ws[i], tid) || ReadIn(ws[i - 1], JobOf(ws[i], tid)))
  {
    if i > 0 {
      RunSchedules(curve, ws, es, i - 1, tid);
      NewlyReady(ws[i - 1], es[i - 1], tid);
    }
  }

  lemma {:induction false} ReadEarlier(
    curve: Elo.Curve, ws: seq<World>, es: seq<Event>, i: nat, tid: nat, job: Job)
    returns (k: nat)
    requires Elo.IsCurve(curve) && IsRun(curve, ws, es) && i < |ws| && JobOf(ws[i], tid) == job && job.PassReady?
    ensures k < i && ReadIn(ws[k], job)
  {
    ReadyAt(curve, ws, es, i, tid);
    if JobOf(ws[i - 1], tid) == job {
      k := ReadEarlier(curve, ws, es, i - 1, tid, job);
    } else {
      k := i - 1;
    }
  }

  lemma JudgedStep(curve: Elo.Curve, w: World, e: Event, mid: MatchId)
    requires Elo.IsCurve(curve) && Inv(w) && Enabled(curve, w, e) && mid < |w.db.matches|
    requires !w.db.matches[mid].status.Done?
    requires var next := Step(curve, w, e).db;
             mid < |next.matches| && next.matches[mid].resolution == Some(Judged)
    ensures e.PassPersist? && JobOf(w, e.tid).PassReady? && w.db.matches[mid].status.Judging?
    ensures var job := JobOf(w, e.tid);
            job.mid == mid && TxOf(w, e) == PersistTx(mid, job.a, job.b, job.ratingA, job.ratingB, e.verdict)
            && TxOk(w.db, TxOf(w, e))
  {
    EnabledTx(curve, w, e);
    OnlyVerdictsJudge(curve, w.db, TxOf(w, e), mid);
  }

  /** Whenever a match becomes judged, a pass persisted a verdict in that step, and the row and the
      ratings are that verdict's for ratings the two players had at an earlier moment. */
  lemma JudgedByVerdict(curve: Elo.Curve, ws: seq<World>, es: seq<Event>, i: nat, mid: MatchId)
    returns (k: nat, a: UserId, b: UserId, v: Verdict)
    requires Elo.IsCurve(curve) && IsRun(curve, ws, es) && i < |es| && mid < |ws[i].db.matches|
    requires !ws[i].db.matches[mid].status.Done?
    requires mid < |ws[i + 1].db.matches| && ws[i + 1].db.matches[mid].resolution == Some(Judged)
    ensures es[i].PassPersist? && es[i].verdict == v
    ensures k < i && a < |ws[k].db.ratings| && b < |ws[k].db.ratings|
    ensures SubmissionsForJudging(ws[i].db.matches[mid]) == Some((a, b))
    ensures var ra, rb := ws[k].db.ratings[a], ws[k].db.ratings[b];
            curve(rb - ra) > 0.0 && curve(ra - rb) > 0.0
            && Settles(ws[i].db, ws[i + 1].db, mid, a, b)
            && Decided(curve, ws[i].db, ws[i + 1].db, mid, a, b, ra, rb, v)
  {
    RunStep(curve, ws, es, i);
    JudgedStep(curve, ws[i], es[i], mid);
    var tx := TxOf(ws[i], es[i]);
    k := ReadEarlier(curve, ws, es, i, es[i].tid, JobOf(ws[i], es[i].tid));
    a, b, v := tx.a, tx.b, tx.verdict;
    VerdictDecides(curve, ws[i].db, mid, a, b, tx.ratingA, tx.ratingB, v);
  }
}
