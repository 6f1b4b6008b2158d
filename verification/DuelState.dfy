/** The duel tables and the SQL that reads and writes one match row
    (server/internal/db/matches.sql.go, match_players.sql.go, users.sql.go, ai_calls.sql.go).

    Users and matches are indexes into their tables: ids are opaque to the protocol, and the
    only thing it asks of user ids is an order.  `Time` counts seconds on the database clock;
    `now` is the start time of the transaction that runs the statement. */
module DuelState {
  import opened Wrappers

  type UserId = nat
  type MatchId = nat
  type Time = int

  const ROUND_SECONDS := 90
  const JUDGE_STALE_SECS := 75
  const MAX_JUDGE_ATTEMPTS := 3
  const OPEN_TTL_SECS := 120
  const OPEN_PULSE_SECS := 45
  const SWEEP_BATCH := 256
  const START_RATING := 1200

  datatype Status = Open | Drawing | Judging | Done | Abandoned

  datatype Resolution = Judged | Forfeit | Aborted

  // a match_players row
  datatype Seat = Seat(
    user: UserId,
    submittedAt: Option<Time>,
    seenAt: Time,
    score: Option<real>,
    ratingBefore: Option<int>,
    ratingAfter: Option<int>)

  // a matches row with its roster
  datatype Match = Match(
    status: Status,
    createdAt: Time,
    deadline: Option<Time>,
    startedAt: Option<Time>,
    attempts: nat,
    winner: Option<UserId>,
    resolution: Option<Resolution>,
    seats: seq<Seat>)

  // an ai_calls row of kind 'duel'
  datatype LedgerRow = PlayerRow(user: UserId) | ProviderRow

  datatype Db = Db(matches: seq<Match>, ratings: seq<int>, ledger: seq<LedgerRow>)

  // ---- reads ----

  predicate Seated(m: Match, u: UserId) {
    exists i :: 0 <= i < |m.seats| && m.seats[i].user == u
  }

  // GetMatchPlayer
  function SeatOf(seats: seq<Seat>, u: UserId): (r: Option<Seat>)
    ensures r.Some? ==> r.value in seats && r.value.user == u
    ensures r.None? ==> forall i :: 0 <= i < |seats| ==> seats[i].user != u
  {
    if seats == [] then None
    else if seats[0].user == u then Some(seats[0])
    else SeatOf(seats[1..], u)
  }

  // CountUnsubmitted
  function CountUnsubmitted(seats: seq<Seat>): nat {
    if seats == [] then 0
    else (if seats[0].submittedAt.None? then 1 else 0) + CountUnsubmitted(seats[1..])
  }

  // the `mp.seen_at > now() - pulse` subquery
  predicate SeenSince(m: Match, t: Time) {
    exists i :: 0 <= i < |m.seats| && m.seats[i].seenAt > t
  }

  predicate InPlay(m: Match, t: Time) {
    m.status.Drawing? || m.status.Judging? || (m.status.Open? && m.createdAt > t - OPEN_TTL_SECS)
  }

  // FindMyLiveMatch's filter
  predicate LiveFor(m: Match, u: UserId, now: Time) {
    Seated(m, u) && InPlay(m, now)
  }

  // FindOpenMatchToJoin's filter
  predicate Joinable(m: Match, u: UserId, now: Time) {
    m.status.Open? && m.createdAt > now - OPEN_TTL_SECS && !Seated(m, u)
    && SeenSince(m, now - OPEN_PULSE_SECS)
  }

  datatype Phase = ExpiredDrawing | StuckJudging | ExhaustedJudging | StaleOpen

  /** The four sweeper list queries' filters.  A comparison with a null start is never true. */
  predicate Candidate(phase: Phase, m: Match, now: Time) {
    match phase
    case ExpiredDrawing =>
      m.status.Drawing? && m.deadline.Some? && m.deadline.value <= now
    case StuckJudging =>
      m.status.Judging? && (m.startedAt.None? || m.startedAt.value <= now - JUDGE_STALE_SECS)
      && m.attempts < MAX_JUDGE_ATTEMPTS
    case ExhaustedJudging =>
      m.status.Judging? && m.startedAt.Some? && m.startedAt.value <= now - JUDGE_STALE_SECS
      && m.attempts >= MAX_JUDGE_ATTEMPTS
    case StaleOpen =>
      m.status.Open? && (m.createdAt <= now - OPEN_TTL_SECS || !SeenSince(m, now - OPEN_PULSE_SECS))
  }

  /** GetSubmissionsForJudging: the two stamped seats in (submitted_at, user_id) order; None when
      there are not exactly two. */
  function SubmissionsForJudging(m: Match): Option<(UserId, UserId)> {
    var subs := Submitted(m.seats);
    if |subs| != 2 then None
    else if SubmittedBefore(subs[0], subs[1]) then Some((subs[0].user, subs[1].user))
    else Some((subs[1].user, subs[0].user))
  }

  function Submitted(seats: seq<Seat>): (r: seq<Seat>)
    ensures forall s :: s in r ==> s in seats && s.submittedAt.Some?
  {
    if seats == [] then []
    else (if seats[0].submittedAt.Some? then [seats[0]] else []) + Submitted(seats[1..])
  }

  function Missing(seats: seq<Seat>): (r: seq<Seat>)
    ensures forall s :: s in r ==> s in seats && s.submittedAt.None?
  {
    if seats == [] then []
    else (if seats[0].submittedAt.None? then [seats[0]] else []) + Missing(seats[1..])
  }

  predicate SubmittedBefore(a: Seat, b: Seat)
    requires a.submittedAt.Some? && b.submittedAt.Some?
  {
    a.submittedAt.value < b.submittedAt.value
    || (a.submittedAt.value == b.submittedAt.value && a.user <= b.user)
  }

  // ---- writes: one row each, none with a status guard ----

  function NewSeat(u: UserId, now: Time): Seat {
    Seat(u, None, now, None, None, None)
  }

  // CreateMatch and AddMatchPlayer for the creator
  function NewMatch(u: UserId, now: Time): Match {
    Match(Open, now, None, None, 0, None, None, [NewSeat(u, now)])
  }

  // AddMatchPlayer
  function WithPlayer(m: Match, u: UserId, now: Time): Match {
    m.(seats := m.seats + [NewSeat(u, now)])
  }

  // SetMatchDrawing
  function WithDrawing(m: Match, now: Time): Match {
    m.(status := Drawing, deadline := Some(now + ROUND_SECONDS))
  }

  // SetMatchJudging
  function WithJudging(m: Match, now: Time): Match {
    m.(status := Judging, startedAt := Some(now), attempts := m.attempts + 1)
  }

  // SetMatchJudgingQueued
  function WithJudgingQueued(m: Match): Match {
    m.(status := Judging, startedAt := None)
  }

  // SetMatchResult
  function WithResult(m: Match, winner: Option<UserId>, resolution: Resolution): Match {
    m.(status := Done, winner := winner, resolution := Some(resolution))
  }

  // SetMatchAbandoned
  function WithAbandoned(m: Match): Match {
    m.(status := Abandoned)
  }

  // TouchMatchPlayer
  function WithTouch(m: Match, u: UserId, now: Time): Match {
    m.(seats := Touched(m.seats, u, now))
  }

  function Touched(seats: seq<Seat>, u: UserId, now: Time): (r: seq<Seat>)
    ensures |r| == |seats|
    ensures forall i :: 0 <= i < |seats| ==>
              r[i] == if seats[i].user == u then seats[i].(seenAt := now) else seats[i]
  {
    seq(|seats|, i requires 0 <= i < |seats| =>
      if seats[i].user == u then seats[i].(seenAt := now) else seats[i])
  }

  // StampSubmission, with its `submitted_at is null` guard
  function WithStamp(m: Match, u: UserId, now: Time): Match {
    m.(seats := Stamped(m.seats, u, now))
  }

  function Stamped(seats: seq<Seat>, u: UserId, now: Time): (r: seq<Seat>)
    ensures |r| == |seats|
    ensures forall i :: 0 <= i < |seats| ==>
              r[i] == if seats[i].user == u && seats[i].submittedAt.None?
                      then seats[i].(submittedAt := Some(now)) else seats[i]
  {
    seq(|seats|, i requires 0 <= i < |seats| =>
      if seats[i].user == u && seats[i].submittedAt.None?
      then seats[i].(submittedAt := Some(now)) else seats[i])
  }

  // SetPlayerScore
  function WithScore(m: Match, u: UserId, score: Option<real>, before: int, after: int): Match {
    m.(seats := Scored(m.seats, u, score, before, after))
  }

  function Scored(seats: seq<Seat>, u: UserId, score: Option<real>, before: int, after: int): (r: seq<Seat>)
    ensures |r| == |seats|
    ensures forall i :: 0 <= i < |seats| ==>
              r[i] == if seats[i].user == u
                      then seats[i].(score := score, ratingBefore := Some(before), ratingAfter := Some(after))
                      else seats[i]
  {
    seq(|seats|, i requires 0 <= i < |seats| =>
      if seats[i].user == u
      then seats[i].(score := score, ratingBefore := Some(before), ratingAfter := Some(after))
      else seats[i])
  }
}
