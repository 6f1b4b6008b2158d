/** What holds of every match row in every reachable database, and what one committed
    transaction may do to a row. */
module DuelInvariants {
  import opened Wrappers
  import opened DuelState

  // ---- one row ----

  predicate Unrated(s: Seat) {
    s.score.None? && s.ratingBefore.None? && s.ratingAfter.None?
  }

  predicate Rated(s: Seat) {
    s.ratingBefore.Some? && s.ratingAfter.Some?
  }

  function SeatGain(s: Seat): int {
    if Rated(s) then s.ratingAfter.value - s.ratingBefore.value else 0
  }

  function Stamps(m: Match): nat {
    |Submitted(m.seats)|
  }

  // two seats of different players
  predicate FullRoster(m: Match) {
    |m.seats| == 2 && m.seats[0].user != m.seats[1].user
  }

  predicate AllUnrated(m: Match) {
    forall i :: 0 <= i < |m.seats| ==> Unrated(m.seats[i])
  }

  // every stamp is strictly before the deadline
  predicate StampsInTime(m: Match) {
    forall i :: 0 <= i < |m.seats| ==>
      m.seats[i].submittedAt.Some? ==> m.deadline.Some? && m.seats[i].submittedAt.value < m.deadline.value
  }

  predicate BothStamped(m: Match)
    requires FullRoster(m)
  {
    m.seats[0].submittedAt.Some? && m.seats[1].submittedAt.Some?
  }

  // both seats rated, by opposite moves of at most 32, the winner's not negative
  predicate ZeroSum(m: Match)
    requires FullRoster(m)
  {
    var a, b := m.seats[0], m.seats[1];
    Rated(a) && Rated(b) && SeatGain(a) == -SeatGain(b) && -32 <= SeatGain(a) <= 32
    && (m.winner == Some(a.user) ==> SeatGain(a) >= 0)
    && (m.winner == Some(b.user) ==> SeatGain(b) >= 0)
  }

  predicate Undecided(m: Match) {
    m.winner.None? && m.resolution.None? && AllUnrated(m)
  }

  predicate JudgingNotEntered(m: Match) {
    m.attempts == 0 && m.startedAt.None?
  }

  predicate ValidMatch(m: Match) {
    StampsInTime(m) && m.attempts <= MAX_JUDGE_ATTEMPTS && (m.startedAt.None? <==> m.attempts == 0)
    && match m.status
       case Open =>
         |m.seats| == 1 && m.deadline.None? && Undecided(m) && JudgingNotEntered(m)
       case Drawing =>
         FullRoster(m) && m.deadline.Some? && !BothStamped(m) && Undecided(m) && JudgingNotEntered(m)
       case Judging =>
         FullRoster(m) && m.deadline.Some? && BothStamped(m) && Undecided(m)
       case Done =>
         FullRoster(m) && m.deadline.Some? && m.resolution.Some? && ValidResult(m)
       case Abandoned =>
         Undecided(m) && JudgingNotEntered(m) && Stamps(m) == 0
         && (if m.deadline.None? then |m.seats| == 1 else FullRoster(m))
  }

  predicate ValidResult(m: Match)
    requires FullRoster(m) && m.resolution.Some?
  {
    var a, b := m.seats[0], m.seats[1];
    match m.resolution.value
    case Judged =>
      BothStamped(m) && m.attempts >= 1 && ZeroSum(m) && a.score.Some? && b.score.Some?
      && (m.winner.Some? ==> m.winner.value == a.user || m.winner.value == b.user)
    case Forfeit =>
      JudgingNotEntered(m) && ZeroSum(m) && a.score.None? && b.score.None?
      && a.submittedAt.Some? != b.submittedAt.Some?
      && m.winner == Some(if a.submittedAt.Some? then a.user else b.user)
    case Aborted =>
      BothStamped(m) && m.attempts == MAX_JUDGE_ATTEMPTS && m.winner.None? && AllUnrated(m)
  }

  predicate Terminal(m: Match) {
    m.status.Done? || m.status.Abandoned?
  }

  /** The same row up to the pulse, which a stale poll may still write (TouchMatchPlayer). */
  predicate SameButSeen(m: Match, n: Match) {
    |m.seats| == |n.seats|
    && m.(seats := n.seats) == n
    && forall i :: 0 <= i < |m.seats| ==> m.seats[i].(seenAt := n.seats[i].seenAt) == n.seats[i]
  }

  /** Every committed change other than a pulse lowers this number. */
  function Rank(m: Match): int {
    match m.status
    case Open => 7
    case Drawing => 6 - Stamps(m)
    case Judging => 4 - m.attempts
    case _ => 0
  }

  // the part of a row that judging may no longer touch once both drawings are in
  predicate SameSubmissions(m: Match, n: Match) {
    |m.seats| == |n.seats|
    && forall i :: 0 <= i < |m.seats| ==>
         m.seats[i].user == n.seats[i].user && m.seats[i].submittedAt == n.seats[i].submittedAt
  }

  /** The status changes of the lifecycle. */
  predicate Follows(s: Status, t: Status) {
    match s
    case Open => t.Drawing? || t.Abandoned?
    case Drawing => !t.Open?
    case Judging => t.Judging? || t.Done?
    case _ => false
  }

  // the seat is the same player's, and a stamp once made stays
  predicate SeatKept(s: Seat, t: Seat) {
    s.user == t.user && (s.submittedAt.Some? ==> t.submittedAt == s.submittedAt)
  }

  /** What one committed transaction may do to a row. */
  predicate Moved(m: Match, n: Match) {
    SameButSeen(m, n)
    || (Follows(m.status, n.status) && Rank(n) < Rank(m)
        && m.createdAt == n.createdAt
        && (m.deadline.Some? ==> n.deadline == m.deadline)
        && (|m.seats| == |n.seats| || (m.status.Open? && n.status.Drawing?))
        && |m.seats| <= |n.seats| && (forall i :: 0 <= i < |m.seats| ==> SeatKept(m.seats[i], n.seats[i]))
        && m.attempts <= n.attempts
        && (m.status.Judging? ==>
              SameSubmissions(m, n)
              && (m.attempts == MAX_JUDGE_ATTEMPTS ==> n.status.Done? && n.startedAt == m.startedAt)))
  }
}
