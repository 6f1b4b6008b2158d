/** What each request and each sweeper write answers and leaves, read off the rows
    (server/internal/game/service.go, sweeper.go). */
module DuelEffects {
  import opened Wrappers
  import opened DuelState
  import opened DuelTransactions
  import opened DuelInvariants
  import opened DuelRows
  import opened DuelTables
  import opened DuelCommits
  import opened DuelVerdicts
  import Elo

  // ---- reading rows ----

  predicate HasStamp(m: Match, u: UserId) {
    exists x :: 0 <= x < |m.seats| && m.seats[x].user == u && m.seats[x].submittedAt.Some?
  }

  predicate OthersStamped(m: Match, u: UserId) {
    forall x :: 0 <= x < |m.seats| && m.seats[x].user != u ==> m.seats[x].submittedAt.Some?
  }

  // everything but the seats, or but one seat's field
  predicate OnlySeats(m: Match, n: Match) {
    n == m.(seats := n.seats) && |n.seats| == |m.seats|
  }

  /** The user's seats are stamped now and no seat differs otherwise. */
  predicate StampedOnly(m: Match, n: Match, u: UserId, now: Time) {
    |n.seats| == |m.seats| && forall x :: 0 <= x < |m.seats| ==>
      n.seats[x] == if m.seats[x].user == u then m.seats[x].(submittedAt := Some(now)) else m.seats[x]
  }

  /** The user's seats were seen now and no seat differs otherwise. */
  predicate SeenOnly(m: Match, n: Match, u: UserId, now: Time) {
    OnlySeats(m, n) && forall x :: 0 <= x < |m.seats| ==>
      n.seats[x] == if m.seats[x].user == u then m.seats[x].(seenAt := now) else m.seats[x]
  }

  // one row is replaced and nothing else changes
  predicate Replaces(db: Db, next: Db, mid: MatchId, n: Match) {
    mid < |db.matches| && next.ratings == db.ratings && next.ledger == db.ledger
    && next.matches == db.matches[mid := n]
  }

  lemma SeatedIffFound(m: Match, u: UserId)
    ensures Seated(m, u) <==> SeatOf(m.seats, u).Some?
  {
    if Seated(m, u) {
      var x :| 0 <= x < |m.seats| && m.seats[x].user == u;
      assert m.seats[x].user == u;
    }
  }

  // ---- submit ----

  /** The answer to a submit, by the state of the row it finds under the lock. */
  lemma SubmitAnswers(curve: Elo.Curve, db: Db, u: UserId, mid: MatchId, now: Time, slot: bool)
    requires Elo.IsCurve(curve) && ValidDb(db) && (mid < |db.matches| ==> RosterKnown(db.matches[mid], db.ratings))
    ensures var reply := Submit(curve, db, u, mid, now, slot).1;
            (reply == NotFound <==> mid >= |db.matches|)
            && (mid < |db.matches| ==>
                  var m := db.matches[mid];
                  (reply == NotPlayer <==> !Seated(m, u))
                  && (reply == RoundExpired <==> Seated(m, u) && Expired(m, now))
                  && (reply == NotSubmittable <==> Seated(m, u) && !m.status.Drawing?)
                  && (reply == AlreadySubmitted <==>
                        Seated(m, u) && m.status.Drawing? && !Expired(m, now) && HasStamp(m, u))
                  && (reply == Stored(Judging) <==> Submittable(m, u, now) && OthersStamped(m, u))
                  && (reply == Stored(Drawing) <==> Submittable(m, u, now) && !OthersStamped(m, u)))
  {
    if mid < |db.matches| {
      var m := db.matches[mid];
      assert ValidMatch(m);
      SeatedIffFound(m, u);
      if m.status.Drawing? { DrawingAnswers(m, u, now); }
    }
  }

  predicate Submittable(m: Match, u: UserId, now: Time) {
    Seated(m, u) && m.status.Drawing? && !Expired(m, now) && !HasStamp(m, u)
  }

  lemma DrawingAnswers(m: Match, u: UserId, now: Time)
    requires ValidMatch(m) && m.status.Drawing?
    ensures SeatOf(m.seats, u).Some? ==> (SeatOf(m.seats, u).value.submittedAt.Some? <==> HasStamp(m, u))
    ensures SeatOf(m.seats, u).Some? && !HasStamp(m, u) ==>
              (CountUnsubmitted(WithStamp(m, u, now).seats) == 0 <==> OthersStamped(m, u))
  {
    SeatLookup(m.seats, u);
    SeatsOfTwo(WithStamp(m, u, now).seats);
  }

  /** What a submit leaves: nothing new when it is refused, the resolved round when it was too late,
      and otherwise the player's stamp.  The last stamp starts judging: a pass, its attempt and its
      provider row with a slot, and only the queue without one. */
  lemma SubmitLeaves(curve: Elo.Curve, db: Db, u: UserId, mid: MatchId, now: Time, slot: bool)
    requires Elo.IsCurve(curve) && ValidDb(db) && RowKnown(db, mid)
    ensures var m, next := db.matches[mid], Commit(curve, db, SubmitTx(u, mid, now, slot));
            (Seated(m, u) && Expired(m, now) ==> next == Commit(curve, db, ExpireTx(mid, now)))
            && (!Submittable(m, u, now) && !(Seated(m, u) && Expired(m, now)) ==> next == db)
            && (Submittable(m, u, now) ==>
                  OnlyRow(db, next, mid) && next.ratings == db.ratings
                  && StampedOnly(m, next.matches[mid], u, now)
                  && StampEffect(m, next.matches[mid], now, OthersStamped(m, u), slot)
                  && next.ledger == db.ledger + if OthersStamped(m, u) && slot then [ProviderRow] else [])
  {
    var m := db.matches[mid];
    assert ValidMatch(m);
    SeatedIffFound(m, u);
    if m.status.Drawing? { DrawingAnswers(m, u, now); }
    if Submittable(m, u, now) { StampLeaves(db, u, mid, now, slot); }
  }

  // the row apart from its seats
  predicate StampEffect(m: Match, n: Match, now: Time, last: bool, slot: bool) {
    n.createdAt == m.createdAt && n.deadline == m.deadline && n.winner == m.winner && n.resolution == m.resolution
    && (if !last then n.status.Drawing? && n.startedAt == m.startedAt && n.attempts == m.attempts
        else if slot then n.status.Judging? && n.startedAt == Some(now) && n.attempts == m.attempts + 1
        else n.status.Judging? && n.startedAt == None && n.attempts == m.attempts)
  }

  lemma StampLeaves(db: Db, u: UserId, mid: MatchId, now: Time, slot: bool)
    requires mid < |db.matches| && ValidMatch(db.matches[mid]) && Submittable(db.matches[mid], u, now)
    ensures var m, next := db.matches[mid], StampAndEnter(db, u, mid, now, slot).0;
            OnlyRow(db, next, mid) && next.ratings == db.ratings
            && StampedOnly(m, next.matches[mid], u, now)
            && StampEffect(m, next.matches[mid], now, OthersStamped(m, u), slot)
            && next.ledger == db.ledger + if OthersStamped(m, u) && slot then [ProviderRow] else []
  {
    var m := db.matches[mid];
    SeatedIffFound(m, u);
    DrawingAnswers(m, u, now);
    assert db.ledger + [] == db.ledger;
  }

  // ---- play, poll, cancel ----

  /** A join seats the player, starts the round with 90 seconds on the clock and bills both
      players; a creation opens a match with the player alone and bills nobody; resuming an open
      match is a pulse, and any other changes nothing. */
  lemma PlayLeaves(curve: Elo.Curve, db: Db, u: UserId, now: Time, choice: PlayChoice)
    requires Elo.IsCurve(curve) && ValidDb(db) && TxOk(db, PlayTx(u, now, choice))
    ensures var next := Commit(curve, db, PlayTx(u, now, choice));
            next.ratings == db.ratings
            && match choice
               case Join(mid) =>
                 OnlyRow(db, next, mid) && RoundStarts(db.matches[mid], next.matches[mid], u, now)
                 && next.ledger == db.ledger + [PlayerRow(db.matches[mid].seats[0].user), PlayerRow(u)]
               case Create =>
                 next.ledger == db.ledger && |next.matches| == |db.matches| + 1
                 && next.matches[..|db.matches|] == db.matches && Opens(next.matches[|db.matches|], u, now)
               case Resume(mid) =>
                 if db.matches[mid].status.Open?
                 then OnlyRow(db, next, mid) && SeenOnly(db.matches[mid], next.matches[mid], u, now)
                      && next.ledger == db.ledger
                 else next == db
  {
    match choice
    case Join(mid) =>
      assert ValidMatch(db.matches[mid]);
      JoinBills(db.matches[mid].seats[0], NewSeat(u, now), db.matches[mid].seats);
    case _ =>
  }

  predicate RoundStarts(m: Match, n: Match, u: UserId, now: Time) {
    |m.seats| == 1 && m.seats[0].user != u && n.seats == [m.seats[0], Seat(u, None, now, None, None, None)]
    && n.status.Drawing? && n.deadline == Some(now + 90)
    && n.createdAt == m.createdAt && n.startedAt == None && n.attempts == 0 && n.winner == None && n.resolution == None
  }

  predicate Opens(n: Match, u: UserId, now: Time) {
    n.status.Open? && n.createdAt == now && n.deadline == None && n.startedAt == None && n.attempts == 0
    && n.winner == None && n.resolution == None && n.seats == [Seat(u, None, now, None, None, None)]
  }

  lemma JoinBills(host: Seat, guest: Seat, seats: seq<Seat>)
    requires seats == [host]
    ensures seats + [guest] == [host, guest]
    ensures PlayerRows(seats + [guest]) == [PlayerRow(host.user), PlayerRow(guest.user)]
  {
  }

  // drawing, being judged, or open for less than two minutes
  predicate Playing(m: Match, u: UserId, now: Time) {
    (exists x :: 0 <= x < |m.seats| && m.seats[x].user == u)
    && (m.status.Drawing? || m.status.Judging? || (m.status.Open? && now - m.createdAt < 120))
  }

  /** A player in play gets the newest such match back.  Any other joins a match that is open for
      less than two minutes and whose only player, someone else, was seen in the last 45 seconds, or
      opens one. */
  lemma PlayChooses(db: Db, u: UserId, now: Time, choice: PlayChoice)
    requires ValidDb(db) && TxOk(db, PlayTx(u, now, choice))
    ensures choice.Resume? <==> exists i :: 0 <= i < |db.matches| && Playing(db.matches[i], u, now)
    ensures match choice
            case Resume(mid) =>
              mid < |db.matches| && Playing(db.matches[mid], u, now)
              && forall i :: 0 <= i < |db.matches| && Playing(db.matches[i], u, now) ==>
                   db.matches[i].createdAt <= db.matches[mid].createdAt
            case Join(mid) =>
              mid < |db.matches|
              && var m := db.matches[mid];
                 m.status.Open? && now - m.createdAt < 120 && |m.seats| == 1
                 && m.seats[0].user != u && now - m.seats[0].seenAt < 45
            case Create => true
  {
    forall i | 0 <= i < |db.matches| ensures Playing(db.matches[i], u, now) <==> LiveFor(db.matches[i], u, now) {
    }
    if choice.Join? { assert ValidMatch(db.matches[choice.mid]); }
  }

  /** A poll's pulse is the player's own last-seen time and nothing else. */
  lemma PollLeaves(curve: Elo.Curve, db: Db, u: UserId, mid: MatchId, now: Time)
    requires Elo.IsCurve(curve)
    ensures var next := Commit(curve, db, TouchTx(u, mid, now));
            (mid >= |db.matches| ==> next == db)
            && (mid < |db.matches| ==>
                  mid < |next.matches| && Replaces(db, next, mid, next.matches[mid])
                  && SeenOnly(db.matches[mid], next.matches[mid], u, now))
  {
  }

  /** Cancelling abandons the caller's own open match.  A match that is missing or someone else's
      is not found, one that has started is left alone. */
  lemma CancelLeaves(curve: Elo.Curve, db: Db, u: UserId, mid: MatchId)
    requires Elo.IsCurve(curve)
    ensures var (next, reply) := Cancel(db, u, mid);
            Commit(curve, db, CancelTx(u, mid)) == next
            && (reply.CancelNotFound? <==> mid >= |db.matches| || !Seated(db.matches[mid], u))
            && (reply.CancelNotOpen? <==>
                  mid < |db.matches| && Seated(db.matches[mid], u) && !db.matches[mid].status.Open?)
            && (reply.Cancelled? ==> Replaces(db, next, mid, db.matches[mid].(status := Abandoned)))
            && (!reply.Cancelled? ==> next == db)
  {
    if mid < |db.matches| { SeatedIffFound(db.matches[mid], u); }
  }

  // ---- the sweeper's writes ----

  // a judging row without a pass younger than 75 seconds, and fewer than three passes so far
  predicate Stuck(m: Match, now: Time) {
    m.status.Judging? && m.attempts < 3 && (m.startedAt.None? || m.startedAt.value + 75 <= now)
  }

  /** Re-firing starts another pass exactly on a stuck row: its start, its attempt, its provider
      row. */
  lemma RefireLeaves(curve: Elo.Curve, db: Db, mid: MatchId, now: Time)
    requires Elo.IsCurve(curve) && mid < |db.matches|
    ensures var m, next := db.matches[mid], Commit(curve, db, RefireTx(mid, now));
            (Refire(db, mid, now).1 <==> Stuck(m, now))
            && (Stuck(m, now) ==>
                  OnlyRow(db, next, mid) && next.ratings == db.ratings && next.ledger == db.ledger + [ProviderRow]
                  && next.matches[mid] == m.(startedAt := Some(now), attempts := m.attempts + 1))
            && (!Stuck(m, now) ==> next == db)
  {
  }

  /** A third pass that did not end it aborts the match: done, without a winner and without moving
      a rating. */
  lemma AbortLeaves(curve: Elo.Curve, db: Db, mid: MatchId)
    requires Elo.IsCurve(curve) && mid < |db.matches|
    ensures var m, next := db.matches[mid], Commit(curve, db, AbortTx(mid));
            if m.status.Judging? && m.attempts >= 3
            then Replaces(db, next, mid, m.(status := Done, winner := None, resolution := Some(Aborted)))
            else next == db
  {
  }

  /** Reaping abandons an open match and leaves every other alone. */
  lemma ReapLeaves(curve: Elo.Curve, db: Db, mid: MatchId)
    requires Elo.IsCurve(curve) && mid < |db.matches|
    ensures var m, next := db.matches[mid], Commit(curve, db, ReapTx(mid));
            if m.status.Open? then Replaces(db, next, mid, m.(status := Abandoned)) else next == db
  {
  }

  // ---- lists against writes ----

  /** An open match is listed as stale exactly when no other player could join it any more. */
  lemma StaleOrJoinable(m: Match, u: UserId, now: Time)
    requires m.status.Open? && !Seated(m, u)
    ensures Candidate(StaleOpen, m, now) <==> !Joinable(m, u, now)
  {
  }

  /** A round is listed as expired, or a pass as stuck, exactly when the write made for it then would
      change the row; an exhausted or a stale row is always changed. */
  lemma ListedIsWritten(curve: Elo.Curve, db: Db, mid: MatchId, now: Time, phase: Phase)
    requires Elo.IsCurve(curve) && ValidDb(db) && mid < |db.matches|
    ensures Candidate(phase, db.matches[mid], now) ==> Commit(curve, db, SweepTx(phase, mid, now)) != db
    ensures phase.ExpiredDrawing? || phase.StuckJudging? ==>
              (Candidate(phase, db.matches[mid], now) <==> Commit(curve, db, SweepTx(phase, mid, now)) != db)
  {
    var m := db.matches[mid];
    assert ValidMatch(m);
    match phase
    case ExpiredDrawing => OnlyExpiredResolved(curve, db, mid, now);
    case StuckJudging => RefireLeaves(curve, db, mid, now);
    case ExhaustedJudging => AbortLeaves(curve, db, mid);
    case StaleOpen => ReapLeaves(curve, db, mid);
  }
}
