/** Every transaction of the service, as one atomic step on the tables: it keeps the tables valid
    and moves each row at most downwards. */
module DuelCommits {
  import opened Wrappers
  import opened DuelState
  import opened DuelTransactions
  import opened DuelInvariants
  import opened DuelRows
  import opened DuelTables
  import Elo

  /** One committed transaction, with the start time of the transaction and whatever it carries
      over from earlier, unlocked reads. */
  datatype Tx =
    | Register
    | PlayTx(user: UserId, now: Time, choice: PlayChoice)
    | TouchTx(user: UserId, mid: MatchId, now: Time)
    | CancelTx(user: UserId, mid: MatchId)
    | SubmitTx(user: UserId, mid: MatchId, now: Time, slot: bool)
    | ExpireTx(mid: MatchId, now: Time)
    | RefireTx(mid: MatchId, now: Time)
    | AbortTx(mid: MatchId)
    | ReapTx(mid: MatchId)
    | PersistTx(mid: MatchId, a: UserId, b: UserId, ratingA: int, ratingB: int, verdict: Verdict)
    | NoTx

  /** What the transaction's caller knows.  A pass that persists has read, some time ago and
      without a lock, the two submissions of a match that was being judged. */
  ghost predicate TxOk(db: Db, tx: Tx) {
    match tx
    case PlayTx(u, now, choice) => u < |db.ratings| && PlayChoiceOk(db, u, now, choice)
    case ExpireTx(mid, _) => mid < |db.matches|
    case RefireTx(mid, _) => mid < |db.matches|
    case AbortTx(mid) => mid < |db.matches|
    case ReapTx(mid) => mid < |db.matches|
    case PersistTx(mid, a, b, _, _, _) =>
      mid < |db.matches| && SubmissionsForJudging(db.matches[mid]) == Some((a, b))
      && db.matches[mid].attempts >= 1
    case _ => true
  }

  /** What the transaction leaves in the tables.  A row that is gone, or a player that does not
      exist, makes the source's transaction fail or do nothing; foreign keys exclude the latter. */
  ghost function Commit(curve: Elo.Curve, db: Db, tx: Tx): Db
    requires Elo.IsCurve(curve)
  {
    match tx
    case Register => db.(ratings := db.ratings + [START_RATING])
    case PlayTx(u, now, choice) => if PlayChoiceOk(db, u, now, choice) then Play(db, u, now, choice) else db
    case TouchTx(u, mid, now) => Touch(db, mid, u, now)
    case CancelTx(u, mid) => Cancel(db, u, mid).0
    case SubmitTx(u, mid, now, slot) =>
      if RowKnown(db, mid) then Submit(curve, db, u, mid, now, slot).0 else db
    case ExpireTx(mid, now) => if RowKnown(db, mid) then ResolveExpiry(curve, db, mid, now).0 else db
    case RefireTx(mid, now) => if mid < |db.matches| then Refire(db, mid, now).0 else db
    case AbortTx(mid) => if mid < |db.matches| then Abort(db, mid).0 else db
    case ReapTx(mid) => if mid < |db.matches| then Reap(db, mid) else db
    case PersistTx(mid, a, b, ra, rb, v) =>
      if mid < |db.matches| && a < |db.ratings| && b < |db.ratings|
      then Persist(db, mid, JudgedResult(curve, a, b, ra, rb, v)) else db
    case NoTx => db
  }

  /** What a sweeper phase commits for one row. */
  function SweepTx(phase: Phase, mid: MatchId, now: Time): Tx {
    match phase
    case ExpiredDrawing => ExpireTx(mid, now)
    case StuckJudging => RefireTx(mid, now)
    case ExhaustedJudging => AbortTx(mid)
    case StaleOpen => ReapTx(mid)
  }

  predicate RowKnown(db: Db, mid: MatchId) {
    mid < |db.matches| && RosterKnown(db.matches[mid], db.ratings)
  }

  lemma SubmissionUsersKnown(db: Db, mid: MatchId, a: UserId, b: UserId)
    requires ValidDb(db) && mid < |db.matches| && SubmissionsForJudging(db.matches[mid]) == Some((a, b))
    ensures a < |db.ratings| && b < |db.ratings|
  {
    var m := db.matches[mid];
    assert ValidMatch(m) && RosterKnown(m, db.ratings);
    var subs := Submitted(m.seats);
    assert subs[0] in m.seats && subs[1] in m.seats;
  }

  // ---- the two result writers ----

  lemma JudgedUsers(m: Match, a: UserId, b: UserId)
    requires ValidMatch(m) && m.status.Judging? && SubmissionsForJudging(m) == Some((a, b))
    ensures SeatsAre(m, a, b)
  {
    SeatsOfTwo(m.seats);
  }

  /** The row a result with opposite moves leaves is rated zero-sum, and nothing of the round
      itself has changed. */
  lemma ResultSeats(m: Match, ratings: seq<int>, a: PlayerResult, b: PlayerResult, fr: FinalResult)
    requires a.user < |ratings| && b.user < |ratings| && SeatsAre(m, a.user, b.user) && OppositeMoves(a, b)
    requires fr.winner == Some(a.user) ==> Move(a) >= 0
    requires fr.winner == Some(b.user) ==> Move(b) >= 0
    ensures var n := ResultRow(m, ratings, a, b, fr);
            FullRoster(n) && SameSubmissions(m, n) && ZeroSum(n)
            && n == m.(status := Done, winner := fr.winner, resolution := Some(fr.resolution), seats := n.seats)
            && (forall i :: 0 <= i < 2 ==>
                  n.seats[i].score == if n.seats[i].user == a.user then a.score else b.score)
  {
  }

  lemma JudgedRow(curve: Elo.Curve, m: Match, ratings: seq<int>, a: UserId, b: UserId, ra: int, rb: int, v: Verdict)
    requires Elo.IsCurve(curve) && ValidMatch(m) && m.status.Judging? && m.attempts >= 1
    requires SeatsAre(m, a, b) && a < |ratings| && b < |ratings|
    ensures var fr := JudgedResult(curve, a, b, ra, rb, v);
            var n := ResultRow(m, ratings, fr.players[0], fr.players[1], fr);
            |fr.players| == 2 && OppositeMoves(fr.players[0], fr.players[1])
            && fr.players[0].user == a && fr.players[1].user == b
            && ValidMatch(n) && Moved(m, n)
  {
    Elo.EloZeroSum(curve, ra, rb, ScoreOfA(v));
    var fr := JudgedResult(curve, a, b, ra, rb, v);
    ResultSeats(m, ratings, fr.players[0], fr.players[1], fr);
  }

  lemma PersistStep(curve: Elo.Curve, db: Db, mid: MatchId, a: UserId, b: UserId, ra: int, rb: int, v: Verdict)
    requires Elo.IsCurve(curve) && ValidDb(db)
    requires TxOk(db, PersistTx(mid, a, b, ra, rb, v))
    ensures var next := Commit(curve, db, PersistTx(mid, a, b, ra, rb, v));
            ValidDb(next) && DbMoved(db, next)
            && (db.matches[mid].status.Judging? ==> next.matches[mid].status.Done?)
  {
    SubmissionUsersKnown(db, mid, a, b);
    if db.matches[mid].status.Judging? {
      assert ValidMatch(db.matches[mid]);
      JudgedUsers(db.matches[mid], a, b);
      PersistVerdict(curve, db, mid, a, b, ra, rb, v);
    } else {
      NothingMoved(db);
    }
  }

  lemma PersistVerdict(curve: Elo.Curve, db: Db, mid: MatchId, a: UserId, b: UserId, ra: int, rb: int, v: Verdict)
    requires Elo.IsCurve(curve) && ValidDb(db) && mid < |db.matches|
    requires ValidMatch(db.matches[mid]) && db.matches[mid].status.Judging? && db.matches[mid].attempts >= 1
    requires a < |db.ratings| && b < |db.ratings| && SeatsAre(db.matches[mid], a, b)
    ensures var fr := JudgedResult(curve, a, b, ra, rb, v);
            ValidDb(WriteFinalResult(db, mid, fr)) && DbMoved(db, WriteFinalResult(db, mid, fr))
  {
    var fr := JudgedResult(curve, a, b, ra, rb, v);
    var m, pa, pb := db.matches[mid], fr.players[0], fr.players[1];
    JudgedRow(curve, m, db.ratings, a, b, ra, rb, v);
    FinalResultConserves(db, mid, fr, pa, pb, ResultRow(m, db.ratings, pa, pb, fr));
  }

  lemma ForfeitRow(curve: Elo.Curve, m: Match, ratings: seq<int>)
    requires Elo.IsCurve(curve) && ValidMatch(m) && m.status.Drawing? && Stamps(m) == 1
    requires RosterKnown(m, ratings)
    ensures Submitter(m).user < |ratings| && Forfeiter(m).user < |ratings|
    ensures var fr := ForfeitResult(curve, Submitter(m).user, Forfeiter(m).user, ratings);
            var n := ResultRow(m, ratings, fr.players[0], fr.players[1], fr);
            |fr.players| == 2 && OppositeMoves(fr.players[0], fr.players[1])
            && fr.players[0].user == Submitter(m).user && fr.players[1].user == Forfeiter(m).user
            && ValidMatch(n) && Moved(m, n)
  {
    SeatsOfTwo(m.seats);
    assert m.seats[0].user < |ratings| && m.seats[1].user < |ratings|;
    var s, f := Submitter(m), Forfeiter(m);
    Elo.EloZeroSum(curve, ratings[s.user], ratings[f.user], Elo.SCORE_WIN);
    var fr := ForfeitResult(curve, s.user, f.user, ratings);
    ResultSeats(m, ratings, fr.players[0], fr.players[1], fr);
  }

  /** An expired drawing round ends: abandoned with no drawing in, forfeited with one. */
  lemma ExpireStep(curve: Elo.Curve, db: Db, mid: MatchId, now: Time)
    requires Elo.IsCurve(curve) && ValidDb(db) && mid < |db.matches|
    ensures RosterKnown(db.matches[mid], db.ratings)
    ensures var (next, outcome) := ResolveExpiry(curve, db, mid, now);
            ValidDb(next) && DbMoved(db, next)
            && !outcome.OutcomeJudging?
            && (outcome.OutcomeNone? <==> !IsExpiredDrawing(db.matches[mid], now))
            && (outcome.OutcomeAbandoned? ==> Stamps(db.matches[mid]) == 0 && next.matches[mid].status.Abandoned?)
            && (outcome.OutcomeForfeit? ==>
                  Stamps(db.matches[mid]) == 1
                  && next.matches[mid].status.Done? && next.matches[mid].resolution == Some(Forfeit))
  {
    var m := db.matches[mid];
    assert ValidMatch(m) && RosterKnown(m, db.ratings);
    if IsExpiredDrawing(m, now) {
      ExpiryDecision(curve, m, db.ratings);
      if Stamps(m) == 0 {
        AbandonDrawingRow(m);
        ReplaceQuietRow(db, mid, WithAbandoned(m));
      } else {
        SeatsOfTwo(m.seats);
        ForfeitRow(curve, m, db.ratings);
        var fr := ForfeitResult(curve, Submitter(m).user, Forfeiter(m).user, db.ratings);
        FinalResultConserves(db, mid, fr, fr.players[0], fr.players[1],
                             ResultRow(m, db.ratings, fr.players[0], fr.players[1], fr));
      }
    } else {
      NothingMoved(db);
    }
  }

  lemma SubmitStep(curve: Elo.Curve, db: Db, u: UserId, mid: MatchId, now: Time, slot: bool)
    requires Elo.IsCurve(curve) && ValidDb(db) && RowKnown(db, mid)
    ensures var (next, reply) := Submit(curve, db, u, mid, now, slot);
            ValidDb(next) && DbMoved(db, next)
            && (reply == Stored(Judging) ==>
                  next.matches[mid].status.Judging?
                  && next.matches[mid].attempts == if slot then 1 else 0)
  {
    var m := db.matches[mid];
    assert ValidMatch(m);
    var player := SeatOf(m.seats, u);
    if player.None? {
      NothingMoved(db);
    } else if IsExpiredDrawing(m, now) {
      ExpireStep(curve, db, mid, now);
    } else if m.status.Drawing? && player.value.submittedAt.None? {
      StampStep(curve, db, u, mid, now, slot);
    } else {
      NothingMoved(db);
    }
  }

  lemma StampStep(curve: Elo.Curve, db: Db, u: UserId, mid: MatchId, now: Time, slot: bool)
    requires Elo.IsCurve(curve) && ValidDb(db) && mid < |db.matches|
    requires RosterKnown(db.matches[mid], db.ratings)
    requires var m := db.matches[mid];
             m.status.Drawing? && !IsExpiredDrawing(m, now)
             && SeatOf(m.seats, u).Some? && SeatOf(m.seats, u).value.submittedAt.None?
    ensures var (next, reply) := Submit(curve, db, u, mid, now, slot);
            ValidDb(next) && DbMoved(db, next)
            && (reply == Stored(Judging) ==>
                  next.matches[mid].status.Judging? && next.matches[mid].attempts == if slot then 1 else 0)
  {
    var m := db.matches[mid];
    var s := WithStamp(m, u, now);
    StampRow(m, u, now);
    if CountUnsubmitted(s.seats) == 0 {
      LastStampRow(m, u, now, slot);
      var n := if slot then WithJudging(s, now) else WithJudgingQueued(s);
      assert db.matches[mid := s][mid := n] == db.matches[mid := n];
      if slot {
        ReplaceStartedPass(db, mid, n);
      } else {
        ReplaceQuietRow(db, mid, n);
      }
    } else {
      ReplaceQuietRow(db, mid, s);
    }
  }

  lemma PlayStep(db: Db, u: UserId, now: Time, choice: PlayChoice)
    requires ValidDb(db) && u < |db.ratings| && PlayChoiceOk(db, u, now, choice)
    ensures ValidDb(Play(db, u, now, choice)) && DbMoved(db, Play(db, u, now, choice))
  {
    match choice
    case Resume(mid) =>
      TouchStep(db, mid, u, now);
      NothingMoved(db);
    case Join(mid) =>
      var m := db.matches[mid];
      assert ValidMatch(m) && RosterKnown(m, db.ratings);
      JoinRow(m, u, now);
      ReplaceJoinedRow(db, mid, WithDrawing(WithPlayer(m, u, now), now));
    case Create => NewMatchRow(db, u, now);
  }

  lemma TouchStep(db: Db, mid: MatchId, u: UserId, now: Time)
    requires ValidDb(db)
    ensures ValidDb(Touch(db, mid, u, now)) && DbMoved(db, Touch(db, mid, u, now))
    ensures forall i :: 0 <= i < |db.matches| ==> SameButSeen(db.matches[i], Touch(db, mid, u, now).matches[i])
  {
    forall i | 0 <= i < |db.matches| ensures SameButSeen(db.matches[i], db.matches[i]) { SameRow(db.matches[i]); }
    if mid < |db.matches| {
      var m := db.matches[mid];
      assert ValidMatch(m);
      TouchRow(m, u, now);
      SeenKeepsRow(m, WithTouch(m, u, now));
      ReplaceQuietRow(db, mid, WithTouch(m, u, now));
    } else {
      NothingMoved(db);
    }
  }

  lemma RefireStep(db: Db, mid: MatchId, now: Time)
    requires ValidDb(db) && mid < |db.matches|
    ensures var (next, fired) := Refire(db, mid, now);
            ValidDb(next) && DbMoved(db, next)
            && (fired ==> next.matches[mid].status.Judging?
                          && next.matches[mid].attempts == db.matches[mid].attempts + 1
                          && next.matches[mid].startedAt == Some(now))
  {
    var m := db.matches[mid];
    assert ValidMatch(m);
    if RefireAllowed(m, now) {
      RefireRow(m, now);
      ReplaceStartedPass(db, mid, WithJudging(m, now));
    } else {
      NothingMoved(db);
    }
  }

  lemma AbortStep(db: Db, mid: MatchId)
    requires ValidDb(db) && mid < |db.matches|
    ensures ValidDb(Abort(db, mid).0) && DbMoved(db, Abort(db, mid).0)
  {
    var m := db.matches[mid];
    assert ValidMatch(m);
    if Abort(db, mid).1 {
      AbortRow(m);
      ReplaceQuietRow(db, mid, WithResult(m, None, Aborted));
    } else {
      NothingMoved(db);
    }
  }

  // Reap, and Cancel of one's own match
  lemma ReapStep(db: Db, mid: MatchId)
    requires ValidDb(db) && mid < |db.matches|
    ensures ValidDb(Reap(db, mid)) && DbMoved(db, Reap(db, mid))
  {
    var m := db.matches[mid];
    assert ValidMatch(m);
    if m.status.Open? {
      AbandonOpenRow(m);
      ReplaceQuietRow(db, mid, WithAbandoned(m));
    } else {
      NothingMoved(db);
    }
  }

  /** The protocol's main step: whatever a transaction read before its lock, what it commits keeps
      every row, every rating and the ledger consistent, and only moves rows downwards. */
  lemma CommitStep(curve: Elo.Curve, db: Db, tx: Tx)
    requires Elo.IsCurve(curve) && ValidDb(db) && TxOk(db, tx)
    ensures ValidDb(Commit(curve, db, tx)) && DbMoved(db, Commit(curve, db, tx))
  {
    match tx
    case Register => NewUser(db);
    case PlayTx(u, now, choice) => PlayStep(db, u, now, choice);
    case TouchTx(u, mid, now) => TouchStep(db, mid, u, now);
    case SubmitTx(u, mid, now, slot) =>
      NothingMoved(db);
      if RowKnown(db, mid) { SubmitStep(curve, db, u, mid, now, slot); }
    case ExpireTx(mid, now) => ExpireStep(curve, db, mid, now);
    case PersistTx(mid, a, b, ra, rb, v) => PersistStep(curve, db, mid, a, b, ra, rb, v);
    case RefireTx(mid, now) => RefireStep(db, mid, now);
    case AbortTx(mid) => AbortStep(db, mid);
    case ReapTx(mid) => ReapStep(db, mid);
    case CancelTx(_, mid) =>
      NothingMoved(db);
      if mid < |db.matches| { ReapStep(db, mid); }
    case NoTx => NothingMoved(db);
  }
}
