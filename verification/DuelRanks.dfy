/** How far the matches are from their ends: every row the sweeper handles moves down the rank, and no
    rank of the whole table goes up (server/internal/game/sweeper.go). */
module DuelRanks {
  import opened DuelState
  import opened DuelTransactions
  import opened DuelInvariants
  import opened DuelRows
  import opened DuelTables
  import opened DuelCommits
  import opened DuelBacklog
  import opened Sums
  import Elo

  lemma RankBounds(m: Match)
    requires ValidMatch(m)
    ensures 0 <= Rank(m) <= 7 && (Rank(m) == 0 <==> Terminal(m))
  {
    if m.status.Drawing? { SeatsOfTwo(m.seats); }
  }

  predicate MovesDown(db: Db, next: Db, mid: MatchId) {
    mid < |db.matches| && mid < |next.matches| && Rank(next.matches[mid]) < Rank(db.matches[mid])
  }

  lemma SweptOpen(curve: Elo.Curve, db: Db, mid: MatchId)
    requires Elo.IsCurve(curve) && mid < |db.matches| && db.matches[mid].status.Open?
    ensures MovesDown(db, Commit(curve, db, ReapTx(mid)), mid)
  {
  }

  lemma SweptDrawing(curve: Elo.Curve, db: Db, mid: MatchId, now: Time)
    requires Elo.IsCurve(curve) && ValidDb(db) && RowKnown(db, mid) && IsExpiredDrawing(db.matches[mid], now)
    ensures MovesDown(db, ResolveExpiry(curve, db, mid, now).0, mid)
  {
    assert ValidMatch(db.matches[mid]);
    ExpiredRoundEnds(curve, db, mid, now);
    RankBounds(db.matches[mid]);
  }

  lemma SweptStuck(curve: Elo.Curve, db: Db, mid: MatchId, now: Time)
    requires Elo.IsCurve(curve) && mid < |db.matches| && RefireAllowed(db.matches[mid], now)
    ensures MovesDown(db, Commit(curve, db, RefireTx(mid, now)), mid)
  {
  }

  lemma SweptExhausted(curve: Elo.Curve, db: Db, mid: MatchId)
    requires Elo.IsCurve(curve) && mid < |db.matches| && db.matches[mid].status.Judging?
    requires db.matches[mid].attempts == MAX_JUDGE_ATTEMPTS
    ensures MovesDown(db, Commit(curve, db, AbortTx(mid)), mid)
  {
  }

  lemma ExpiredRoundEnds(curve: Elo.Curve, db: Db, mid: MatchId, now: Time)
    requires Elo.IsCurve(curve) && ValidDb(db) && RowKnown(db, mid) && IsExpiredDrawing(db.matches[mid], now)
    ensures var next := ResolveExpiry(curve, db, mid, now).0;
            |next.matches| == |db.matches| && Terminal(next.matches[mid])
  {
    assert ValidMatch(db.matches[mid]);
    ExpiryDecision(curve, db.matches[mid], db.ratings);
    SeatsOfTwo(db.matches[mid].seats);
  }

  /** Handling a candidate under its lock moves it down. */
  lemma SweptRowMoves(curve: Elo.Curve, db: Db, phase: Phase, mid: MatchId, now: Time)
    requires Elo.IsCurve(curve) && ValidDb(db) && RowKnown(db, mid) && Candidate(phase, db.matches[mid], now)
    ensures MovesDown(db, Commit(curve, db, SweepTx(phase, mid, now)), mid)
  {
    assert ValidMatch(db.matches[mid]);
    match phase
    case StaleOpen => SweptOpen(curve, db, mid);
    case ExpiredDrawing => SweptDrawing(curve, db, mid, now);
    case StuckJudging => SweptStuck(curve, db, mid, now);
    case ExhaustedJudging => SweptExhausted(curve, db, mid);
  }

  // ---- the rank of the whole table ----

  function RankOf(): Match -> int {
    (m: Match) => Rank(m)
  }

  function TotalRank(db: Db): int {
    SumBy(db.matches, RankOf())
  }

  lemma TotalNonNegative(db: Db)
    requires ValidDb(db)
    ensures TotalRank(db) >= 0
  {
    forall i | 0 <= i < |db.matches| ensures RankOf()(db.matches[i]) >= 0 {
      assert ValidMatch(db.matches[i]);
      RankBounds(db.matches[i]);
    }
    SumByNonNegative(db.matches, RankOf());
  }

  lemma RowRank(m: Match, n: Match)
    requires ValidMatch(m) && Moved(m, n)
    ensures Rank(n) <= Rank(m)
  {
    if SameButSeen(m, n) { SeenKeepsSeats(m, n); }
  }

  /** Handling any row raises no rank, and handling a candidate lowers the total. */
  lemma SweptTotal(curve: Elo.Curve, db: Db, phase: Phase, mid: MatchId, now: Time)
    requires Elo.IsCurve(curve) && ValidDb(db) && RowKnown(db, mid)
    ensures var next := Commit(curve, db, SweepTx(phase, mid, now));
            |next.matches| == |db.matches| && TotalRank(next) <= TotalRank(db)
            && (Candidate(phase, db.matches[mid], now) ==> TotalRank(next) < TotalRank(db))
  {
    var next := Commit(curve, db, SweepTx(phase, mid, now));
    SweptRowClears(curve, db, phase, mid, now, now);
    CommitStep(curve, db, SweepTx(phase, mid, now));
    forall i | 0 <= i < |db.matches| ensures RankOf()(next.matches[i]) <= RankOf()(db.matches[i]) {
      assert ValidMatch(db.matches[i]);
      RowRank(db.matches[i], next.matches[i]);
    }
    SumByAtMost(db.matches, next.matches, RankOf(), mid);
    if Candidate(phase, db.matches[mid], now) { SweptRowMoves(curve, db, phase, mid, now); }
  }
}
