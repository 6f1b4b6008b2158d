/** What each transaction of the game service commits, as a function of the tables it finds under
    its lock (server/internal/game/service.go, sweeper.go, deadline.go). */
module DuelTransactions {
  import opened Wrappers
  import opened DuelState
  import Elo

  // ---- writeFinalResult ----

  // playerResult
  datatype PlayerResult = PlayerResult(user: UserId, score: Option<real>, before: int, after: int)

  // finalResult
  datatype FinalResult = FinalResult(winner: Option<UserId>, players: seq<PlayerResult>, resolution: Resolution)

  predicate KnownPlayers(db: Db, players: seq<PlayerResult>) {
    forall p :: p in players ==> p.user < |db.ratings|
  }

  /** No match row but `mid` differs. */
  predicate OnlyRow(db: Db, next: Db, mid: MatchId) {
    |next.matches| == |db.matches|
    && forall i :: 0 <= i < |db.matches| && i != mid ==> next.matches[i] == db.matches[i]
  }

  /** ApplyRatingDelta and SetPlayerScore for one player.  The move is sized from the ratings the
      caller read, and added to whatever the rating is now. */
  function RatePlayer(db: Db, mid: MatchId, p: PlayerResult): (r: Db)
    requires mid < |db.matches| && p.user < |db.ratings|
    ensures |r.matches| == |db.matches| && |r.ratings| == |db.ratings| && r.ledger == db.ledger
    ensures OnlyRow(db, r, mid)
  {
    var delta := p.after - p.before;
    var after := db.ratings[p.user] + delta;
    db.(ratings := db.ratings[p.user := after],
        matches := db.matches[mid := WithScore(db.matches[mid], p.user, p.score, after - delta, after)])
  }

  function RatePlayers(db: Db, mid: MatchId, players: seq<PlayerResult>): (r: Db)
    requires mid < |db.matches| && KnownPlayers(db, players)
    ensures |r.matches| == |db.matches| && |r.ratings| == |db.ratings| && r.ledger == db.ledger
    ensures OnlyRow(db, r, mid)
    decreases |players|
  {
    if players == [] then db
    else RatePlayers(RatePlayer(db, mid, players[0]), mid, players[1..])
  }

  // slices.SortFunc by user id
  function SortedPlayers(players: seq<PlayerResult>): (r: seq<PlayerResult>)
    ensures |r| == |players|
    ensures forall p :: p in r ==> p in players
  {
    if players == [] then [] else InsertPlayer(players[0], SortedPlayers(players[1..]))
  }

  function InsertPlayer(p: PlayerResult, ps: seq<PlayerResult>): (r: seq<PlayerResult>)
    ensures |r| == |ps| + 1
    ensures forall q :: q in r ==> q == p || q in ps
  {
    if ps == [] then [p]
    else if p.user <= ps[0].user then [p] + ps
    else [ps[0]] + InsertPlayer(p, ps[1..])
  }

  function WriteFinalResult(db: Db, mid: MatchId, fr: FinalResult): (r: Db)
    requires mid < |db.matches| && KnownPlayers(db, fr.players)
    ensures |r.matches| == |db.matches| && |r.ratings| == |db.ratings| && r.ledger == db.ledger
    ensures OnlyRow(db, r, mid) && r.matches[mid].status.Done?
  {
    var rated := RatePlayers(db, mid, SortedPlayers(fr.players));
    rated.(matches := rated.matches[mid := WithResult(rated.matches[mid], fr.winner, fr.resolution)])
  }

  // ---- enterJudging ----

  function EnterJudging(db: Db, mid: MatchId, now: Time, slotHeld: bool): Db
    requires mid < |db.matches|
  {
    if slotHeld then
      db.(matches := db.matches[mid := WithJudging(db.matches[mid], now)],
          ledger := db.ledger + [ProviderRow])
    else
      db.(matches := db.matches[mid := WithJudgingQueued(db.matches[mid])])
  }

  // ---- deadline.go ----

  predicate IsExpiredDrawing(m: Match, now: Time) {
    m.status.Drawing? && m.deadline.Some? && m.deadline.value <= now
  }

  // resolveOutcome, with the result a forfeit writes
  datatype ExpiryOutcome =
    | OutcomeNone
    | OutcomeAbandoned
    | OutcomeForfeit(result: FinalResult)
    | OutcomeJudging

  predicate RosterKnown(m: Match, ratings: seq<int>) {
    forall i :: 0 <= i < |m.seats| ==> m.seats[i].user < |ratings|
  }

  function DecideExpiry(curve: Elo.Curve, m: Match, ratings: seq<int>): (r: ExpiryOutcome)
    requires Elo.IsCurve(curve) && RosterKnown(m, ratings)
    ensures !r.OutcomeNone?
    ensures r.OutcomeForfeit? ==>
              forall p :: p in r.result.players ==> p.user < |ratings|
  {
    var submitted, missing := Submitted(m.seats), Missing(m.seats);
    if |submitted| == 0 then OutcomeAbandoned
    else if |submitted| == 1 && |missing| == 1 then
      assert submitted[0] in m.seats && missing[0] in m.seats;
      OutcomeForfeit(ForfeitResult(curve, submitted[0].user, missing[0].user, ratings))
    else OutcomeJudging
  }

  function ForfeitResult(curve: Elo.Curve, submitter: UserId, forfeiter: UserId, ratings: seq<int>): FinalResult
    requires Elo.IsCurve(curve) && submitter < |ratings| && forfeiter < |ratings|
  {
    var s, f := ratings[submitter], ratings[forfeiter];
    assert Elo.IsTenToThe(curve(f - s), f - s);
    var (afterWin, afterLose) := Elo.ComputeElo(curve, s, f, Elo.SCORE_WIN);
    FinalResult(Some(submitter),
                [PlayerResult(submitter, None, s, afterWin), PlayerResult(forfeiter, None, f, afterLose)],
                Forfeit)
  }

  function ResolveExpiry(curve: Elo.Curve, db: Db, mid: MatchId, now: Time): (Db, ExpiryOutcome)
    requires Elo.IsCurve(curve)
    requires mid < |db.matches| && RosterKnown(db.matches[mid], db.ratings)
  {
    if !IsExpiredDrawing(db.matches[mid], now) then (db, OutcomeNone)
    else
      var outcome := DecideExpiry(curve, db.matches[mid], db.ratings);
      match outcome
      case OutcomeAbandoned =>
        (db.(matches := db.matches[mid := WithAbandoned(db.matches[mid])]), outcome)
      case OutcomeForfeit(fr) =>
        (WriteFinalResult(db, mid, fr), outcome)
      case _ =>
        (EnterJudging(db, mid, now, false), outcome)
  }

  // ---- Submit ----

  datatype SubmitReply =
    | NotFound
    | NotPlayer
    | RoundExpired
    | NotSubmittable
    | AlreadySubmitted
    | Stored(status: Status)

  // the stamp, and the step into judging when it is the last one
  function StampAndEnter(db: Db, u: UserId, mid: MatchId, now: Time, slot: bool): (Db, SubmitReply)
    requires mid < |db.matches|
  {
    var stamped := db.(matches := db.matches[mid := WithStamp(db.matches[mid], u, now)]);
    if CountUnsubmitted(stamped.matches[mid].seats) == 0
    then (EnterJudging(stamped, mid, now, slot), Stored(Judging))
    else (stamped, Stored(Drawing))
  }

  function Submit(curve: Elo.Curve, db: Db, u: UserId, mid: MatchId, now: Time, slot: bool): (Db, SubmitReply)
    requires Elo.IsCurve(curve)
    requires mid < |db.matches| ==> RosterKnown(db.matches[mid], db.ratings)
  {
    if mid >= |db.matches| then (db, NotFound)
    else
      var m := db.matches[mid];
      var player := SeatOf(m.seats, u);
      if player.None? then (db, NotPlayer)
      else if IsExpiredDrawing(m, now) then (ResolveExpiry(curve, db, mid, now).0, RoundExpired)
      else if !m.status.Drawing? then (db, NotSubmittable)
      else if player.value.submittedAt.Some? then (db, AlreadySubmitted)
      else StampAndEnter(db, u, mid, now, slot)
  }

  // ---- Cancel ----

  datatype CancelReply = CancelNotFound | CancelNotOpen | Cancelled

  function Cancel(db: Db, u: UserId, mid: MatchId): (Db, CancelReply) {
    if mid >= |db.matches| || SeatOf(db.matches[mid].seats, u).None? then (db, CancelNotFound)
    else if !db.matches[mid].status.Open? then (db, CancelNotOpen)
    else (db.(matches := db.matches[mid := WithAbandoned(db.matches[mid])]), Cancelled)
  }

  // ---- CreateOrJoin ----

  datatype PlayChoice = Resume(mid: MatchId) | Join(mid: MatchId) | Create

  /** What the two lookups under the matchmaking lock may answer.  The join takes the oldest
      joinable match whose row no other transaction holds, so it may be any joinable match, or
      none. */
  predicate PlayChoiceOk(db: Db, u: UserId, now: Time, choice: PlayChoice) {
    match choice
    case Resume(mid) =>
      mid < |db.matches| && LiveFor(db.matches[mid], u, now)
      && forall i :: 0 <= i < |db.matches| && LiveFor(db.matches[i], u, now)
                     ==> db.matches[i].createdAt <= db.matches[mid].createdAt
    case Join(mid) =>
      NotInPlay(db, u, now) && mid < |db.matches| && Joinable(db.matches[mid], u, now)
    case Create =>
      NotInPlay(db, u, now)
  }

  predicate NotInPlay(db: Db, u: UserId, now: Time) {
    forall i :: 0 <= i < |db.matches| ==> !LiveFor(db.matches[i], u, now)
  }

  function Play(db: Db, u: UserId, now: Time, choice: PlayChoice): Db
    requires PlayChoiceOk(db, u, now, choice)
  {
    match choice
    case Resume(mid) =>
      if db.matches[mid].status.Open? then Touch(db, mid, u, now) else db
    case Join(mid) =>
      var m := WithDrawing(WithPlayer(db.matches[mid], u, now), now);
      db.(matches := db.matches[mid := m], ledger := db.ledger + PlayerRows(m.seats))
    case Create =>
      db.(matches := db.matches + [NewMatch(u, now)])
  }

  // RecordPlayerAICalls for the roster
  function PlayerRows(seats: seq<Seat>): (r: seq<LedgerRow>)
    ensures |r| == |seats|
    ensures forall i :: 0 <= i < |seats| ==> r[i] == PlayerRow(seats[i].user)
  {
    seq(|seats|, i requires 0 <= i < |seats| => PlayerRow(seats[i].user))
  }

  function Touch(db: Db, mid: MatchId, u: UserId, now: Time): Db {
    if mid < |db.matches| then db.(matches := db.matches[mid := WithTouch(db.matches[mid], u, now)]) else db
  }

  // ---- sweeper.go ----

  predicate RefireAllowed(m: Match, now: Time) {
    m.status.Judging? && m.attempts < MAX_JUDGE_ATTEMPTS
    && !(m.startedAt.Some? && m.startedAt.value > now - JUDGE_STALE_SECS)
  }

  function Refire(db: Db, mid: MatchId, now: Time): (Db, bool)
    requires mid < |db.matches|
  {
    if RefireAllowed(db.matches[mid], now) then (EnterJudging(db, mid, now, true), true) else (db, false)
  }

  function Abort(db: Db, mid: MatchId): (Db, bool)
    requires mid < |db.matches|
  {
    var m := db.matches[mid];
    if !m.status.Judging? || m.attempts < MAX_JUDGE_ATTEMPTS then (db, false)
    else (db.(matches := db.matches[mid := WithResult(m, None, Aborted)]), true)
  }

  function Reap(db: Db, mid: MatchId): Db
    requires mid < |db.matches|
  {
    if db.matches[mid].status.Open?
    then db.(matches := db.matches[mid := WithAbandoned(db.matches[mid])])
    else db
  }

  // ---- runJudging and persistResult ----

  datatype JudgeWinner = WinnerA | WinnerB | WinnerTie

  datatype Verdict = Verdict(winner: JudgeWinner, scoreA: real, scoreB: real)

  function ScoreOfA(v: Verdict): real {
    match v.winner
    case WinnerA => Elo.SCORE_WIN
    case WinnerB => Elo.SCORE_LOSS
    case WinnerTie => Elo.SCORE_TIE
  }

  /** The result a pass computes from the submissions and ratings it read, and the verdict. */
  function JudgedResult(curve: Elo.Curve, a: UserId, b: UserId, ratingA: int, ratingB: int, v: Verdict): FinalResult
    requires Elo.IsCurve(curve)
  {
    assert Elo.IsTenToThe(curve(ratingB - ratingA), ratingB - ratingA);
    var winner := match v.winner case WinnerA => Some(a) case WinnerB => Some(b) case WinnerTie => None;
    var (afterA, afterB) := Elo.ComputeElo(curve, ratingA, ratingB, ScoreOfA(v));
    FinalResult(winner,
                [PlayerResult(a, Some(v.scoreA), ratingA, afterA), PlayerResult(b, Some(v.scoreB), ratingB, afterB)],
                Judged)
  }

  function Persist(db: Db, mid: MatchId, fr: FinalResult): Db
    requires mid < |db.matches| && KnownPlayers(db, fr.players)
  {
    if db.matches[mid].status.Judging? then WriteFinalResult(db, mid, fr) else db
  }
}
