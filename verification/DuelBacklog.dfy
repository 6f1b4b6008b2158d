/** Each sweeper phase's backlog: the rows it would list.  Handling a row takes it off its phase's
    backlog and puts nothing on any other (server/internal/game/sweeper.go:66-310). */
module DuelBacklog {
  import opened DuelState
  import opened DuelTransactions
  import opened DuelInvariants
  import opened DuelRows
  import opened DuelTables
  import opened DuelCommits
  import opened DuelLists
  import opened Seqs
  import Elo

  /** The phase's candidates on the database clock `now`. */
  function Backlog(phase: Phase, matches: seq<Match>, now: Time): set<MatchId> {
    set i | 0 <= i < |matches| && Candidate(phase, matches[i], now)
  }

  /** A row once listed stays one: time adds candidates and takes none away. */
  lemma BacklogGrows(phase: Phase, matches: seq<Match>, now: Time, later: Time)
    requires now <= later
    ensures Backlog(phase, matches, now) <= Backlog(phase, matches, later)
  {
  }

  // up to the time `at`, no phase's backlog has grown
  ghost predicate NoneGrows(was: seq<Match>, matches: seq<Match>, at: Time) {
    forall phase, t: Time :: t <= at ==> Backlog(phase, matches, t) <= Backlog(phase, was, t)
  }

  // what handling a row leaves of it: up to the time `at`, not a candidate any more, nor a new one of
  // another phase
  ghost predicate Cleared(phase: Phase, m: Match, n: Match, at: Time) {
    !Candidate(phase, n, at) && forall other, t: Time :: t <= at && Candidate(other, n, t) ==> Candidate(other, m, t)
  }

  lemma ExpireClears(curve: Elo.Curve, db: Db, mid: MatchId, at: Time, now: Time)
    requires Elo.IsCurve(curve) && ValidDb(db) && RowKnown(db, mid) && at <= now
    ensures var next := ResolveExpiry(curve, db, mid, now).0;
            OnlyRow(db, next, mid) && Cleared(ExpiredDrawing, db.matches[mid], next.matches[mid], at)
  {
    var m := db.matches[mid];
    assert ValidMatch(m);
    if IsExpiredDrawing(m, now) {
      ExpiryDecision(curve, m, db.ratings);
      SeatsOfTwo(m.seats);
    }
  }

  lemma RefireClears(db: Db, mid: MatchId, at: Time, now: Time)
    requires mid < |db.matches| && at <= now
    ensures var next := Refire(db, mid, now).0;
            OnlyRow(db, next, mid) && Cleared(StuckJudging, db.matches[mid], next.matches[mid], at)
  {
  }

  lemma AbortClears(db: Db, mid: MatchId, at: Time)
    requires mid < |db.matches|
    ensures var next := Abort(db, mid).0;
            OnlyRow(db, next, mid) && Cleared(ExhaustedJudging, db.matches[mid], next.matches[mid], at)
  {
  }

  lemma ReapClears(db: Db, mid: MatchId, at: Time)
    requires mid < |db.matches|
    ensures var next := Reap(db, mid);
            OnlyRow(db, next, mid) && Cleared(StaleOpen, db.matches[mid], next.matches[mid], at)
  {
  }

  /** Handling any row, listed or not, stale or not, at any later time clears it from its phase. */
  lemma SweptRowClears(curve: Elo.Curve, db: Db, phase: Phase, mid: MatchId, at: Time, now: Time)
    requires Elo.IsCurve(curve) && ValidDb(db) && RowKnown(db, mid) && at <= now
    ensures var next := Commit(curve, db, SweepTx(phase, mid, now));
            OnlyRow(db, next, mid) && Cleared(phase, db.matches[mid], next.matches[mid], at)
  {
    match phase
    case ExpiredDrawing => ExpireClears(curve, db, mid, at, now);
    case StuckJudging => RefireClears(db, mid, at, now);
    case ExhaustedJudging => AbortClears(db, mid, at);
    case StaleOpen => ReapClears(db, mid, at);
  }

  lemma ClearedBacklog(phase: Phase, db: Db, next: Db, mid: MatchId, at: Time)
    requires mid < |db.matches| && OnlyRow(db, next, mid) && Cleared(phase, db.matches[mid], next.matches[mid], at)
    ensures Backlog(phase, next.matches, at) == Backlog(phase, db.matches, at) - {mid}
    ensures NoneGrows(db.matches, next.matches, at)
  {
  }

  // ---- a list of rows ----

  lemma SizeOfRest<T>(a: set<T>, b: set<T>)
    requires b <= a
    ensures |a - b| + |b| == |a|
  {
    assert (a - b) + b == a;
  }

  lemma RestWithout<T>(all: set<T>, gone: set<T>, x: T)
    ensures all - gone - {x} == all - (gone + {x})
  {
  }

  // which of the first i listed rows have been handled
  ghost predicate HandledOf(ids: seq<MatchId>, i: nat, done: set<MatchId>, failing: set<MatchId>) {
    i <= |ids| && done == Elements(ids[..i]) - failing
  }

  lemma NextHandled(ids: seq<MatchId>, i: nat, done: set<MatchId>, failing: set<MatchId>)
    requires i < |ids| && Distinct(ids) && HandledOf(ids, i, done, failing)
    ensures ids[i] !in done
    ensures HandledOf(ids, i + 1, if ids[i] in failing then done else done + {ids[i]}, failing)
  {
    NextElement(ids, i);
  }

  lemma AllHandled(ids: seq<MatchId>, done: set<MatchId>, failing: set<MatchId>)
    requires HandledOf(ids, |ids|, done, failing) && Distinct(ids)
    ensures done == Elements(ids) - failing && |done| <= |ids|
  {
    assert ids[..|ids|] == ids;
    DistinctSize(ids);
    SizeOfRest(Elements(ids), done);
  }

  /** A work list against the backlog it was read from: part of it, and when it is short all of it but
      for rows locked by others. */
  lemma WorkListIsBacklog(phase: Phase, matches: seq<Match>, now: Time, locked: set<MatchId>, ids: seq<MatchId>)
    requires IsWorkList(phase, matches, now, locked, ids)
    ensures Elements(ids) <= Backlog(phase, matches, now) && |Elements(ids)| == |ids|
    ensures |ids| < SWEEP_BATCH ==> Backlog(phase, matches, now) - Elements(ids) <= locked
  {
    DistinctSize(ids);
    forall i | i in Elements(ids) ensures i in Backlog(phase, matches, now) {
      var k :| 0 <= k < |ids| && ids[k] == i;
      assert Free(phase, matches, now, locked, ids[k]);
    }
    forall i | i in Backlog(phase, matches, now) - Elements(ids) && |ids| < SWEEP_BATCH ensures i in locked {
      assert i in locked || Free(phase, matches, now, locked, i);
    }
  }
}
