/** The database as a whole: the invariants that tie ratings and the AI-call ledger to the match
    rows, and the transactions that keep them. */
module DuelTables {
  import opened Wrappers
  import opened DuelState
  import opened DuelTransactions
  import opened DuelInvariants
  import opened DuelRows
  import opened Sums

  // ---- what a row contributes ----

  function SeatsOf(seats: seq<Seat>, u: UserId): nat {
    if seats == [] then 0 else (if seats[0].user == u then 1 else 0) + SeatsOf(seats[1..], u)
  }

  function GainIn(seats: seq<Seat>, u: UserId): int {
    if seats == [] then 0 else (if seats[0].user == u then SeatGain(seats[0]) else 0) + GainIn(seats[1..], u)
  }

  // rating_after - rating_before of the player's seat
  function GainOf(u: UserId): Match -> int {
    (m: Match) => GainIn(m.seats, u)
  }

  // 1 when the player's match ever left open by a join
  function StartedWith(u: UserId): Match -> int {
    (m: Match) => if m.deadline.Some? then SeatsOf(m.seats, u) else 0
  }

  function Attempts(): Match -> int {
    (m: Match) => m.attempts
  }

  ghost predicate RowsValid(db: Db) {
    forall i :: 0 <= i < |db.matches| ==> ValidMatch(db.matches[i]) && RosterKnown(db.matches[i], db.ratings)
  }

  /** Ratings are conserved: everybody starts with 1200, and each rating is 1200 plus what the
      player's own match rows record. */
  ghost predicate RatingsConserved(db: Db) {
    Sum(db.ratings) == START_RATING * |db.ratings|
    && forall u :: 0 <= u < |db.ratings| ==>
         db.ratings[u] == START_RATING + SumBy(db.matches, GainOf(u))
  }

  /** One provider row per judging pass ever started, one player row per round granted. */
  ghost predicate LedgerBalanced(db: Db) {
    Count(db.ledger, ProviderRow) == SumBy(db.matches, Attempts())
    && forall u: UserId :: Count(db.ledger, PlayerRow(u)) == SumBy(db.matches, StartedWith(u))
  }

  ghost predicate ValidDb(db: Db) {
    RowsValid(db) && RatingsConserved(db) && LedgerBalanced(db)
  }

  ghost predicate DbMoved(db: Db, next: Db) {
    |db.matches| <= |next.matches| && |db.ratings| <= |next.ratings|
    && forall i :: 0 <= i < |db.matches| ==> Moved(db.matches[i], next.matches[i])
  }

  lemma SeatsOfTwoBy(seats: seq<Seat>, u: UserId)
    requires |seats| == 2
    ensures SeatsOf(seats, u) == (if seats[0].user == u then 1 else 0) + (if seats[1].user == u then 1 else 0)
    ensures GainIn(seats, u) == (if seats[0].user == u then SeatGain(seats[0]) else 0)
                                + (if seats[1].user == u then SeatGain(seats[1]) else 0)
  {
    var last := seats[1..];
    assert last[1..] == [];
    assert SeatsOf(last, u) == (if last[0].user == u then 1 else 0) + SeatsOf([], u);
    assert GainIn(last, u) == (if last[0].user == u then SeatGain(last[0]) else 0) + GainIn([], u);
  }

  lemma {:induction false} NoGain(seats: seq<Seat>, u: UserId)
    requires forall i :: 0 <= i < |seats| ==> Unrated(seats[i])
    ensures GainIn(seats, u) == 0
  {
    if seats != [] { NoGain(seats[1..], u); }
  }

  lemma {:induction false} NotSeated(seats: seq<Seat>, u: UserId)
    requires forall i :: 0 <= i < |seats| ==> seats[i].user != u
    ensures SeatsOf(seats, u) == 0 && GainIn(seats, u) == 0
  {
    if seats != [] { NotSeated(seats[1..], u); }
  }

  lemma {:induction false} SameSeatSums(a: seq<Seat>, b: seq<Seat>, u: UserId)
    requires |a| == |b|
    requires forall i :: 0 <= i < |a| ==> a[i].user == b[i].user
    ensures SeatsOf(a, u) == SeatsOf(b, u)
    ensures (forall i :: 0 <= i < |a| ==> SeatGain(a[i]) == SeatGain(b[i])) ==> GainIn(a, u) == GainIn(b, u)
  {
    if a != [] { SameSeatSums(a[1..], b[1..], u); }
  }

  // ---- replacing one row ----

  /** Replacing a row by one that records the same ratings, together with the ledger rows its
      counters ask for, keeps the tables valid. */
  lemma ReplaceRow(db: Db, mid: MatchId, n: Match, rows: seq<LedgerRow>)
    requires ValidDb(db) && mid < |db.matches|
    requires ValidMatch(n) && Moved(db.matches[mid], n) && RosterKnown(n, db.ratings)
    requires forall u: UserId :: GainIn(n.seats, u) == GainIn(db.matches[mid].seats, u)
    requires Count(rows, ProviderRow) == n.attempts - db.matches[mid].attempts
    requires forall u: UserId ::
               Count(rows, PlayerRow(u)) == StartedWith(u)(n) - StartedWith(u)(db.matches[mid])
    ensures var next := db.(matches := db.matches[mid := n], ledger := db.ledger + rows);
            ValidDb(next) && DbMoved(db, next)
  {
    var next := db.(matches := db.matches[mid := n], ledger := db.ledger + rows);
    forall i | 0 <= i < |next.matches|
      ensures ValidMatch(next.matches[i]) && RosterKnown(next.matches[i], next.ratings)
    {
      if i != mid { assert next.matches[i] == db.matches[i]; }
    }
    forall u | 0 <= u < |next.ratings|
      ensures next.ratings[u] == START_RATING + SumBy(next.matches, GainOf(u))
    {
      SumByUpdate(db.matches, GainOf(u), mid, n);
    }
    CountConcat(db.ledger, rows, ProviderRow);
    SumByUpdate(db.matches, Attempts(), mid, n);
    forall u: UserId
      ensures Count(next.ledger, PlayerRow(u)) == SumBy(next.matches, StartedWith(u))
    {
      CountConcat(db.ledger, rows, PlayerRow(u));
      SumByUpdate(db.matches, StartedWith(u), mid, n);
    }
    forall i | 0 <= i < |db.matches|
      ensures Moved(db.matches[i], next.matches[i])
    {
      if i != mid { SameRow(db.matches[i]); }
    }
  }

  lemma SameRow(m: Match)
    ensures SameButSeen(m, m) && Moved(m, m)
  {
  }

  lemma NothingMoved(db: Db)
    ensures DbMoved(db, db)
  {
    forall i | 0 <= i < |db.matches| ensures Moved(db.matches[i], db.matches[i]) { SameRow(db.matches[i]); }
  }

  /** ReplaceRow for a row whose roster and ratings stay as they are and that bills nothing. */
  lemma ReplaceQuietRow(db: Db, mid: MatchId, n: Match)
    requires ValidDb(db) && mid < |db.matches|
    requires ValidMatch(n) && Moved(db.matches[mid], n) && SameUsers(db.matches[mid], n)
    requires n.deadline == db.matches[mid].deadline && n.attempts == db.matches[mid].attempts
    requires forall i :: 0 <= i < |n.seats| ==> SeatGain(n.seats[i]) == SeatGain(db.matches[mid].seats[i])
    ensures var next := db.(matches := db.matches[mid := n]);
            ValidDb(next) && DbMoved(db, next)
  {
    var m := db.matches[mid];
    forall u: UserId
      ensures GainIn(n.seats, u) == GainIn(m.seats, u) && StartedWith(u)(n) == StartedWith(u)(m)
    {
      SameSeatSums(n.seats, m.seats, u);
    }
    ReplaceRow(db, mid, n, []);
    assert db.ledger + [] == db.ledger;
  }

  /** ReplaceRow for the start of a judging pass, which bills one provider row. */
  lemma ReplaceStartedPass(db: Db, mid: MatchId, n: Match)
    requires ValidDb(db) && mid < |db.matches|
    requires ValidMatch(n) && Moved(db.matches[mid], n) && SameUsers(db.matches[mid], n)
    requires n.deadline == db.matches[mid].deadline && n.attempts == db.matches[mid].attempts + 1
    requires forall i :: 0 <= i < |n.seats| ==> SeatGain(n.seats[i]) == SeatGain(db.matches[mid].seats[i])
    ensures var next := db.(matches := db.matches[mid := n], ledger := db.ledger + [ProviderRow]);
            ValidDb(next) && DbMoved(db, next)
  {
    var m := db.matches[mid];
    forall u: UserId
      ensures GainIn(n.seats, u) == GainIn(m.seats, u) && StartedWith(u)(n) == StartedWith(u)(m)
              && Count([ProviderRow], PlayerRow(u)) == 0
    {
      SameSeatSums(n.seats, m.seats, u);
    }
    assert Count([ProviderRow], ProviderRow) == 1;
    ReplaceRow(db, mid, n, [ProviderRow]);
  }

  /** ReplaceRow for a join, which bills both seats. */
  lemma ReplaceJoinedRow(db: Db, mid: MatchId, n: Match)
    requires ValidDb(db) && mid < |db.matches|
    requires db.matches[mid].deadline.None? && n.deadline.Some? && n.attempts == db.matches[mid].attempts
    requires ValidMatch(n) && Moved(db.matches[mid], n) && RosterKnown(n, db.ratings)
    requires |n.seats| == 2 && AllUnrated(n) && AllUnrated(db.matches[mid])
    ensures var next := db.(matches := db.matches[mid := n], ledger := db.ledger + PlayerRows(n.seats));
            ValidDb(next) && DbMoved(db, next)
  {
    var m := db.matches[mid];
    var rows := PlayerRows(n.seats);
    CountOfTwo(rows, ProviderRow);
    forall u: UserId
      ensures GainIn(n.seats, u) == GainIn(m.seats, u)
              && Count(rows, PlayerRow(u)) == StartedWith(u)(n) - StartedWith(u)(m)
    {
      NoGain(n.seats, u);
      NoGain(m.seats, u);
      CountOfTwo(rows, PlayerRow(u));
      SeatsOfTwoBy(n.seats, u);
    }
    ReplaceRow(db, mid, n, rows);
  }

  lemma CountOfTwo<T>(xs: seq<T>, x: T)
    requires |xs| == 2
    ensures Count(xs, x) == (if xs[0] == x then 1 else 0) + (if xs[1] == x then 1 else 0)
  {
    var last := xs[1..];
    assert last[1..] == [];
    assert Count(last, x) == (if last[0] == x then 1 else 0) + Count<T>([], x);
  }

  // ---- new rows ----

  lemma NewMatchRow(db: Db, u: UserId, now: Time)
    requires ValidDb(db) && u < |db.ratings|
    ensures var next := db.(matches := db.matches + [NewMatch(u, now)]);
            ValidDb(next) && DbMoved(db, next)
  {
    var n := NewMatch(u, now);
    var next := db.(matches := db.matches + [n]);
    NewRow(u, now);
    forall i | 0 <= i < |next.matches|
      ensures ValidMatch(next.matches[i]) && RosterKnown(next.matches[i], next.ratings)
    {
      if i < |db.matches| { assert next.matches[i] == db.matches[i]; }
    }
    forall v | 0 <= v < |next.ratings|
      ensures next.ratings[v] == START_RATING + SumBy(next.matches, GainOf(v))
    {
      SumByAppend(db.matches, GainOf(v), n);
      NoGain(n.seats, v);
    }
    SumByAppend(db.matches, Attempts(), n);
    forall v: UserId
      ensures Count(next.ledger, PlayerRow(v)) == SumBy(next.matches, StartedWith(v))
    {
      SumByAppend(db.matches, StartedWith(v), n);
    }
    NothingMoved(db);
  }

  lemma NewUser(db: Db)
    requires ValidDb(db)
    ensures var next := db.(ratings := db.ratings + [START_RATING]);
            ValidDb(next) && DbMoved(db, next)
  {
    var next := db.(ratings := db.ratings + [START_RATING]);
    var u := |db.ratings|;
    SumAppend(db.ratings, START_RATING);
    forall i | 0 <= i < |db.matches|
      ensures GainOf(u)(db.matches[i]) == 0
    {
      assert RosterKnown(db.matches[i], db.ratings);
      NotSeated(db.matches[i].seats, u);
    }
    SumByZero(db.matches, GainOf(u));
    NothingMoved(db);
  }

  // ---- writeFinalResult ----

  function Move(p: PlayerResult): int {
    p.after - p.before
  }

  /** The row a final result leaves: each player's snapshot brackets the rating they had when it
      was written. */
  function ResultRow(m: Match, ratings: seq<int>, a: PlayerResult, b: PlayerResult, fr: FinalResult): Match
    requires a.user < |ratings| && b.user < |ratings|
  {
    WithResult(
      WithScore(WithScore(m, a.user, a.score, ratings[a.user], ratings[a.user] + Move(a)),
                b.user, b.score, ratings[b.user], ratings[b.user] + Move(b)),
      fr.winner, fr.resolution)
  }

  lemma ScoresCommute(
    m: Match, a: UserId, sa: Option<real>, ba: int, aa: int, b: UserId, sb: Option<real>, bb: int, ab: int)
    requires a != b
    ensures WithScore(WithScore(m, a, sa, ba, aa), b, sb, bb, ab)
         == WithScore(WithScore(m, b, sb, bb, ab), a, sa, ba, aa)
  {
  }

  lemma SortedPair(a: PlayerResult, b: PlayerResult)
    requires a.user != b.user
    ensures SortedPlayers([a, b]) == if a.user < b.user then [a, b] else [b, a]
  {
    assert [a, b][1..] == [b];
    assert [b][1..] == [];
    assert SortedPlayers([b]) == [b];
    assert InsertPlayer(b, []) == [b];
    assert [b] + InsertPlayer(a, []) == [b, a];
    assert InsertPlayer(a, [b]) == if a.user <= b.user then [a, b] else [b, a];
  }

  lemma RatePair(db: Db, mid: MatchId, p: PlayerResult, q: PlayerResult)
    requires mid < |db.matches| && p.user != q.user && p.user < |db.ratings| && q.user < |db.ratings|
    ensures RatePlayers(db, mid, [p, q]) == RatePlayer(RatePlayer(db, mid, p), mid, q)
  {
    var one := RatePlayer(db, mid, p);
    assert [p, q][1..] == [q];
    assert [q][1..] == [];
    assert RatePlayers(one, mid, [q]) == RatePlayer(one, mid, q);
  }

  // both ratings, moved
  function Paid(ratings: seq<int>, u: UserId, v: UserId, move: int, back: int): (r: seq<int>)
    requires u < |ratings| && v < |ratings|
    ensures |r| == |ratings|
  {
    ratings[u := ratings[u] + move][v := ratings[v] + back]
  }

  /** The two writes in user order, and the status write, in closed form. */
  lemma FinalResultEffect(db: Db, mid: MatchId, fr: FinalResult, a: PlayerResult, b: PlayerResult)
    requires mid < |db.matches| && fr.players == [a, b]
    requires a.user != b.user && a.user < |db.ratings| && b.user < |db.ratings|
    ensures WriteFinalResult(db, mid, fr)
         == Db(db.matches[mid := ResultRow(db.matches[mid], db.ratings, a, b, fr)],
               Paid(db.ratings, a.user, b.user, Move(a), Move(b)), db.ledger)
  {
    SortedPair(a, b);
    var m, r := db.matches[mid], db.ratings;
    ScoresCommute(m, a.user, a.score, r[a.user], r[a.user] + Move(a), b.user, b.score, r[b.user], r[b.user] + Move(b));
    if a.user < b.user {
      RatePair(db, mid, a, b);
    } else {
      RatePair(db, mid, b, a);
      assert r[b.user := r[b.user] + Move(b)][a.user := r[a.user] + Move(a)]
          == r[a.user := r[a.user] + Move(a)][b.user := r[b.user] + Move(b)];
    }
    var one := RatePlayer(db, mid, SortedPlayers(fr.players)[0]);
    assert one.matches[mid := ResultRow(m, r, a, b, fr)] == db.matches[mid := ResultRow(m, r, a, b, fr)];
  }

  predicate OppositeMoves(a: PlayerResult, b: PlayerResult) {
    Move(a) == -Move(b) && -32 <= Move(a) <= 32
  }

  lemma RowReplaced(db: Db, mid: MatchId, n: Match, ratings: seq<int>, ledger: seq<LedgerRow>)
    requires RowsValid(db) && mid < |db.matches| && |ratings| >= |db.ratings|
    requires ValidMatch(n) && Moved(db.matches[mid], n) && RosterKnown(n, ratings)
    ensures var next := Db(db.matches[mid := n], ratings, ledger);
            RowsValid(next) && DbMoved(db, next)
  {
    var next := Db(db.matches[mid := n], ratings, ledger);
    forall i | 0 <= i < |next.matches|
      ensures ValidMatch(next.matches[i]) && RosterKnown(next.matches[i], ratings)
    {
      if i != mid { assert next.matches[i] == db.matches[i]; }
    }
    forall i | 0 <= i < |db.matches|
      ensures Moved(db.matches[i], next.matches[i])
    {
      if i != mid { SameRow(db.matches[i]); }
    }
  }

  lemma PaidSum(ratings: seq<int>, u: UserId, v: UserId, move: int)
    requires u != v && u < |ratings| && v < |ratings|
    ensures Sum(Paid(ratings, u, v, move, -move)) == Sum(ratings)
  {
    var half := ratings[u := ratings[u] + move];
    SumUpdate(ratings, u, ratings[u] + move);
    SumUpdate(half, v, ratings[v] - move);
  }

  lemma MovedRatings(db: Db, mid: MatchId, n: Match, u: UserId, v: UserId, move: int)
    requires RatingsConserved(db) && mid < |db.matches| && u != v && u < |db.ratings| && v < |db.ratings|
    requires AllUnrated(db.matches[mid])
    requires forall w: UserId :: GainIn(n.seats, w) == if w == u then move else if w == v then -move else 0
    ensures RatingsConserved(Db(db.matches[mid := n], Paid(db.ratings, u, v, move, -move), db.ledger))
  {
    var ratings := Paid(db.ratings, u, v, move, -move);
    PaidSum(db.ratings, u, v, move);
    forall w | 0 <= w < |ratings|
      ensures ratings[w] == START_RATING + SumBy(db.matches[mid := n], GainOf(w))
    {
      SumByUpdate(db.matches, GainOf(w), mid, n);
      NoGain(db.matches[mid].seats, w);
    }
  }

  lemma UnbilledLedger(db: Db, mid: MatchId, n: Match, ratings: seq<int>)
    requires LedgerBalanced(db) && mid < |db.matches|
    requires SameUsers(db.matches[mid], n) && n.deadline == db.matches[mid].deadline
    requires n.attempts == db.matches[mid].attempts
    ensures LedgerBalanced(Db(db.matches[mid := n], ratings, db.ledger))
  {
    SumByUpdate(db.matches, Attempts(), mid, n);
    forall w: UserId
      ensures Count(db.ledger, PlayerRow(w)) == SumBy(db.matches[mid := n], StartedWith(w))
    {
      SumByUpdate(db.matches, StartedWith(w), mid, n);
      SameSeatSums(db.matches[mid].seats, n.seats, w);
    }
  }

  /** Moving two distinct ratings by opposite amounts and recording it on one unrated row keeps
      the tables valid. */
  lemma ResultTables(db: Db, mid: MatchId, n: Match, u: UserId, v: UserId, move: int)
    requires ValidDb(db) && mid < |db.matches| && u != v && u < |db.ratings| && v < |db.ratings|
    requires ValidMatch(n) && Moved(db.matches[mid], n) && AllUnrated(db.matches[mid])
    requires SameUsers(db.matches[mid], n) && n.deadline == db.matches[mid].deadline
    requires n.attempts == db.matches[mid].attempts && RosterKnown(n, db.ratings)
    requires forall w: UserId :: GainIn(n.seats, w) == if w == u then move else if w == v then -move else 0
    ensures var next := Db(db.matches[mid := n], Paid(db.ratings, u, v, move, -move), db.ledger);
            ValidDb(next) && DbMoved(db, next)
  {
    var ratings := Paid(db.ratings, u, v, move, -move);
    MovedRatings(db, mid, n, u, v, move);
    UnbilledLedger(db, mid, n, ratings);
    RowReplaced(db, mid, n, ratings, db.ledger);
  }

  predicate SeatsAre(m: Match, u: UserId, v: UserId) {
    FullRoster(m)
    && ((u == m.seats[0].user && v == m.seats[1].user) || (u == m.seats[1].user && v == m.seats[0].user))
  }

  lemma ResultRowShape(m: Match, ratings: seq<int>, a: PlayerResult, b: PlayerResult, fr: FinalResult)
    requires a.user < |ratings| && b.user < |ratings| && SeatsAre(m, a.user, b.user)
    ensures var n := ResultRow(m, ratings, a, b, fr);
            SameUsers(m, n) && n.deadline == m.deadline && n.attempts == m.attempts
            && forall w: UserId ::
                 GainIn(n.seats, w) == if w == a.user then Move(a) else if w == b.user then Move(b) else 0
  {
    var n := ResultRow(m, ratings, a, b, fr);
    forall w: UserId
      ensures GainIn(n.seats, w) == if w == a.user then Move(a) else if w == b.user then Move(b) else 0
    {
      SeatsOfTwoBy(n.seats, w);
    }
  }

  /** A final result with opposite moves for the two seated players conserves every rating
      invariant, whatever ratings those moves were sized from. */
  lemma FinalResultConserves(db: Db, mid: MatchId, fr: FinalResult, a: PlayerResult, b: PlayerResult, n: Match)
    requires ValidDb(db) && mid < |db.matches| && fr.players == [a, b]
    requires a.user < |db.ratings| && b.user < |db.ratings|
    requires SeatsAre(db.matches[mid], a.user, b.user) && AllUnrated(db.matches[mid])
    requires OppositeMoves(a, b)
    requires n == ResultRow(db.matches[mid], db.ratings, a, b, fr)
    requires ValidMatch(n) && Moved(db.matches[mid], n)
    ensures ValidDb(WriteFinalResult(db, mid, fr)) && DbMoved(db, WriteFinalResult(db, mid, fr))
    ensures WriteFinalResult(db, mid, fr).matches == db.matches[mid := n]
  {
    FinalResultEffect(db, mid, fr, a, b);
    MovedTables(db, mid, fr, a, b, n);
  }

  lemma MovedTables(db: Db, mid: MatchId, fr: FinalResult, a: PlayerResult, b: PlayerResult, n: Match)
    requires ValidDb(db) && mid < |db.matches| && a.user < |db.ratings| && b.user < |db.ratings|
    requires SeatsAre(db.matches[mid], a.user, b.user) && AllUnrated(db.matches[mid]) && OppositeMoves(a, b)
    requires n == ResultRow(db.matches[mid], db.ratings, a, b, fr)
    requires ValidMatch(n) && Moved(db.matches[mid], n)
    ensures var next := Db(db.matches[mid := n], Paid(db.ratings, a.user, b.user, Move(a), Move(b)), db.ledger);
            ValidDb(next) && DbMoved(db, next)
  {
    ResultRowShape(db.matches[mid], db.ratings, a, b, fr);
    assert RosterKnown(db.matches[mid], db.ratings);
    ResultTables(db, mid, n, a.user, b.user, Move(a));
  }
}
