/** Each row write of each transaction keeps the row valid and moves it only downwards. */
module DuelRows {
  import opened Wrappers
  import opened DuelState
  import opened DuelTransactions
  import opened DuelInvariants
  import Elo

  lemma SeatsOfOne(seats: seq<Seat>)
    requires |seats| == 1
    ensures Submitted(seats) == if seats[0].submittedAt.Some? then [seats[0]] else []
    ensures Missing(seats) == if seats[0].submittedAt.None? then [seats[0]] else []
    ensures CountUnsubmitted(seats) == |Missing(seats)|
  {
    assert seats[1..] == [];
  }

  lemma SeatsOfTwo(seats: seq<Seat>)
    requires |seats| == 2
    ensures Submitted(seats) == (if seats[0].submittedAt.Some? then [seats[0]] else [])
                                + (if seats[1].submittedAt.Some? then [seats[1]] else [])
    ensures Missing(seats) == (if seats[0].submittedAt.None? then [seats[0]] else [])
                              + (if seats[1].submittedAt.None? then [seats[1]] else [])
    ensures CountUnsubmitted(seats) == |Missing(seats)|
  {
    SeatsOfOne(seats[1..]);
  }

  lemma SeatLookup(seats: seq<Seat>, u: UserId)
    requires |seats| == 2 && seats[0].user != seats[1].user
    ensures SeatOf(seats, u) == if seats[0].user == u then Some(seats[0])
                                else if seats[1].user == u then Some(seats[1]) else None
  {
    assert seats[1..] == [seats[1]];
    assert seats[1..][1..] == [];
  }

  lemma {:induction false} StampsIgnoreTouch(a: seq<Seat>, b: seq<Seat>)
    requires |a| == |b|
    requires forall i :: 0 <= i < |a| ==> a[i].submittedAt == b[i].submittedAt
    ensures |Submitted(a)| == |Submitted(b)|
  {
    if a != [] { StampsIgnoreTouch(a[1..], b[1..]); }
  }

  lemma SeenKeepsSeats(m: Match, n: Match)
    requires SameButSeen(m, n)
    ensures n == m.(seats := n.seats)
    ensures forall i :: 0 <= i < |m.seats| ==>
              var s, t := m.seats[i], n.seats[i];
              s.user == t.user && s.submittedAt == t.submittedAt && s.score == t.score
              && s.ratingBefore == t.ratingBefore && s.ratingAfter == t.ratingAfter
    ensures Stamps(m) == Stamps(n)
    ensures StampsInTime(m) <==> StampsInTime(n)
    ensures AllUnrated(m) <==> AllUnrated(n)
  {
    forall i | 0 <= i < |m.seats|
      ensures var s, t := m.seats[i], n.seats[i];
              s.user == t.user && s.submittedAt == t.submittedAt && s.score == t.score
              && s.ratingBefore == t.ratingBefore && s.ratingAfter == t.ratingAfter
    {
      assert m.seats[i].(seenAt := n.seats[i].seenAt) == n.seats[i];
    }
    StampsIgnoreTouch(m.seats, n.seats);
  }

  lemma SeenKeepsRow(m: Match, n: Match)
    requires ValidMatch(m) && SameButSeen(m, n)
    ensures ValidMatch(n) && Moved(m, n) && Rank(n) == Rank(m)
  {
    SeenKeepsSeats(m, n);
    if FullRoster(m) {
      var a, b, c, d := m.seats[0], m.seats[1], n.seats[0], n.seats[1];
      assert a.user == c.user && b.user == d.user && SeatGain(a) == SeatGain(c) && SeatGain(b) == SeatGain(d);
      assert BothStamped(m) <==> BothStamped(n);
      assert ZeroSum(m) <==> ZeroSum(n);
    }
  }

  lemma TouchRow(m: Match, u: UserId, now: Time)
    ensures SameButSeen(m, WithTouch(m, u, now))
  {
  }

  lemma NewRow(u: UserId, now: Time)
    ensures ValidMatch(NewMatch(u, now))
  {
  }

  lemma AbandonOpenRow(m: Match)
    requires ValidMatch(m) && m.status.Open?
    ensures ValidMatch(WithAbandoned(m)) && Moved(m, WithAbandoned(m))
  {
    SeatsOfOne(m.seats);
  }

  lemma JoinRow(m: Match, u: UserId, now: Time)
    requires ValidMatch(m) && m.status.Open? && !Seated(m, u)
    ensures var n := WithDrawing(WithPlayer(m, u, now), now);
            ValidMatch(n) && Moved(m, n) && n.status.Drawing? && n.deadline == Some(now + ROUND_SECONDS)
            && n.seats == m.seats + [NewSeat(u, now)]
  {
    var n := WithDrawing(WithPlayer(m, u, now), now);
    SeatsOfOne(m.seats);
    SeatsOfTwo(n.seats);
    assert m.seats[0].user != u;
  }

  lemma StampSeats(m: Match, u: UserId, now: Time)
    requires FullRoster(m) && !BothStamped(m)
    requires SeatOf(m.seats, u).Some? && SeatOf(m.seats, u).value.submittedAt.None?
    ensures var n := WithStamp(m, u, now);
            FullRoster(n) && SameUsers(m, n)
            && Stamps(n) == Stamps(m) + 1
            && (CountUnsubmitted(n.seats) == 0 <==> BothStamped(n))
  {
    var n := WithStamp(m, u, now);
    SeatLookup(m.seats, u);
    SeatsOfTwo(m.seats);
    SeatsOfTwo(n.seats);
    if m.seats[0].user == u {
      assert n.seats[0].submittedAt.Some? && n.seats[1] == m.seats[1];
    } else {
      assert n.seats[1].submittedAt.Some? && n.seats[0] == m.seats[0];
    }
  }

  lemma StampRow(m: Match, u: UserId, now: Time)
    requires ValidMatch(m) && m.status.Drawing? && !IsExpiredDrawing(m, now)
    requires SeatOf(m.seats, u).Some? && SeatOf(m.seats, u).value.submittedAt.None?
    ensures var n := WithStamp(m, u, now);
            FullRoster(n) && StampsInTime(n) && SameUsers(m, n) && AllUnrated(n)
            && Stamps(n) == Stamps(m) + 1
            && (CountUnsubmitted(n.seats) == 0 <==> BothStamped(n))
            && (CountUnsubmitted(n.seats) != 0 ==> ValidMatch(n) && Moved(m, n))
  {
    StampSeats(m, u, now);
    assert StampsInTime(WithStamp(m, u, now));
  }

  predicate SameUsers(m: Match, n: Match) {
    |m.seats| == |n.seats| && forall i :: 0 <= i < |m.seats| ==> m.seats[i].user == n.seats[i].user
  }

  lemma LastStampRow(m: Match, u: UserId, now: Time, slot: bool)
    requires ValidMatch(m) && m.status.Drawing? && !IsExpiredDrawing(m, now)
    requires SeatOf(m.seats, u).Some? && SeatOf(m.seats, u).value.submittedAt.None?
    requires CountUnsubmitted(WithStamp(m, u, now).seats) == 0
    ensures var s := WithStamp(m, u, now);
            var n := if slot then WithJudging(s, now) else WithJudgingQueued(s);
            ValidMatch(n) && Moved(m, n) && n.status.Judging? && n.attempts == if slot then 1 else 0
  {
    StampRow(m, u, now);
    SeatsOfTwo(m.seats);
    SeatsOfTwo(WithStamp(m, u, now).seats);
  }

  lemma RefireRow(m: Match, now: Time)
    requires ValidMatch(m) && RefireAllowed(m, now)
    ensures var n := WithJudging(m, now);
            ValidMatch(n) && Moved(m, n) && n.attempts == m.attempts + 1
  {
  }

  lemma AbortRow(m: Match)
    requires ValidMatch(m) && m.status.Judging? && m.attempts >= MAX_JUDGE_ATTEMPTS
    ensures var n := WithResult(m, None, Aborted);
            ValidMatch(n) && Moved(m, n) && n.seats == m.seats
  {
  }

  // ---- an expired round ----

  function Submitter(m: Match): Seat
    requires FullRoster(m)
  {
    if m.seats[0].submittedAt.Some? then m.seats[0] else m.seats[1]
  }

  function Forfeiter(m: Match): Seat
    requires FullRoster(m)
  {
    if m.seats[0].submittedAt.Some? then m.seats[1] else m.seats[0]
  }

  /** An expired round is abandoned when nobody submitted and forfeited to the sole submitter
      otherwise: the judging branch is never taken. */
  lemma ExpiryDecision(curve: Elo.Curve, m: Match, ratings: seq<int>)
    requires Elo.IsCurve(curve) && ValidMatch(m) && m.status.Drawing? && RosterKnown(m, ratings)
    ensures var r := DecideExpiry(curve, m, ratings);
            !r.OutcomeJudging?
            && (r.OutcomeAbandoned? <==> Stamps(m) == 0)
            && (r.OutcomeForfeit? <==> Stamps(m) == 1)
            && (r.OutcomeForfeit? ==>
                  r.result == ForfeitResult(curve, Submitter(m).user, Forfeiter(m).user, ratings))
  {
    SeatsOfTwo(m.seats);
  }

  lemma AbandonDrawingRow(m: Match)
    requires ValidMatch(m) && m.status.Drawing? && Stamps(m) == 0
    ensures ValidMatch(WithAbandoned(m)) && Moved(m, WithAbandoned(m))
  {
    SeatsOfTwo(m.seats);
  }
}
