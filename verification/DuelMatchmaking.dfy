/** A player is in at most one match in play, as long as the transactions that take the
    matchmaking lock start in the order they take it; and how it fails when they do not. */
module DuelMatchmaking {
  import opened Wrappers
  import opened DuelState
  import opened DuelTransactions
  import opened DuelInvariants
  import opened DuelRows
  import opened DuelTables
  import opened DuelCommits
  import opened DuelMachine
  import opened DuelRuns
  import Elo

  /** No player is in two matches that are drawing, judging or open within the TTL at time t. */
  ghost predicate OneInPlay(db: Db, t: Time) {
    forall u: UserId, i, j :: 0 <= i < j < |db.matches| ==>
      !(LiveFor(db.matches[i], u, t) && LiveFor(db.matches[j], u, t))
  }

  ghost predicate OneInPlayNow(w: World) {
    match w.lastPlay
    case None => w.db.matches == []
    case Some(t) => OneInPlay(w.db, t)
  }

  /** Transactions take the matchmaking lock in the order of their clocks. */
  ghost predicate PlaysInOrder(ws: seq<World>, es: seq<Event>) {
    |ws| == |es| + 1
    && forall i {:trigger es[i]} :: 0 <= i < |es| ==>
         es[i].PlayEvent? && ws[i].lastPlay.Some? ==> ws[i].lastPlay.value <= es[i].now
  }

  lemma InPlayShrinks(db: Db, t: Time, later: Time)
    requires OneInPlay(db, t) && t <= later
    ensures OneInPlay(db, later)
  {
    forall u: UserId, i, j | 0 <= i < j < |db.matches|
      ensures !(LiveFor(db.matches[i], u, later) && LiveFor(db.matches[j], u, later))
    {
      assert LiveFor(db.matches[i], u, later) ==> LiveFor(db.matches[i], u, t);
      assert LiveFor(db.matches[j], u, later) ==> LiveFor(db.matches[j], u, t);
    }
  }

  /** The row seats the same players, and is in play only if it was. */
  predicate NotRevived(m: Match, n: Match) {
    SameUsers(m, n) && m.createdAt == n.createdAt
    && (n.status.Open? ==> m.status.Open?)
    && (n.status.Drawing? || n.status.Judging? ==> m.status.Drawing? || m.status.Judging?)
  }

  lemma RowNotRevived(m: Match, n: Match, u: UserId, t: Time)
    requires NotRevived(m, n) && LiveFor(n, u, t)
    ensures LiveFor(m, u, t)
  {
    var i :| 0 <= i < |n.seats| && n.seats[i].user == u;
    assert m.seats[i].user == u;
  }

  /** Only matchmaking takes a match out of open other than to abandon it. */
  lemma OtherTxStartsNothing(curve: Elo.Curve, db: Db, tx: Tx, i: MatchId)
    requires Elo.IsCurve(curve) && !tx.PlayTx? && i < |db.matches| && db.matches[i].status.Open?
    ensures var next := Commit(curve, db, tx);
            |next.matches| == |db.matches|
            && (next.matches[i].status.Open? || next.matches[i].status.Abandoned?)
  {
  }

  lemma OtherTxKeepsTable(curve: Elo.Curve, db: Db, tx: Tx)
    requires Elo.IsCurve(curve) && !tx.PlayTx?
    ensures |Commit(curve, db, tx).matches| == |db.matches|
  {
  }

  lemma OtherTxRevivesNothing(curve: Elo.Curve, db: Db, tx: Tx)
    requires Elo.IsCurve(curve) && ValidDb(db) && TxOk(db, tx) && !tx.PlayTx?
    ensures var next := Commit(curve, db, tx);
            |next.matches| == |db.matches|
            && forall i :: 0 <= i < |db.matches| ==> NotRevived(db.matches[i], next.matches[i])
  {
    var next := Commit(curve, db, tx);
    CommitStep(curve, db, tx);
    OtherTxKeepsTable(curve, db, tx);
    forall i | 0 <= i < |db.matches| ensures NotRevived(db.matches[i], next.matches[i]) {
      var m, n := db.matches[i], next.matches[i];
      assert Moved(m, n);
      if m.status.Open? { OtherTxStartsNothing(curve, db, tx, i); }
      if SameButSeen(m, n) { SeenKeepsSeats(m, n); }
    }
  }

  lemma QuietStepOneInPlay(db: Db, next: Db, t: Time)
    requires OneInPlay(db, t) && |next.matches| == |db.matches|
    requires forall i :: 0 <= i < |db.matches| ==> NotRevived(db.matches[i], next.matches[i])
    ensures OneInPlay(next, t)
  {
    forall u: UserId, i, j | 0 <= i < j < |next.matches|
      ensures !(LiveFor(next.matches[i], u, t) && LiveFor(next.matches[j], u, t))
    {
      if LiveFor(next.matches[i], u, t) && LiveFor(next.matches[j], u, t) {
        RowNotRevived(db.matches[i], next.matches[i], u, t);
        RowNotRevived(db.matches[j], next.matches[j], u, t);
      }
    }
  }

  // also when the clock of the creation lags behind t
  lemma CreateOneInPlay(db: Db, u: UserId, now: Time, t: Time)
    requires OneInPlay(db, t) && NotInPlay(db, u, now) && now <= t
    ensures OneInPlay(Play(db, u, now, Create), t)
  {
    assert forall i :: 0 <= i < |db.matches| && LiveFor(db.matches[i], u, t) ==> LiveFor(db.matches[i], u, now);
    var next := Play(db, u, now, Create);
    forall v: UserId, i, j | 0 <= i < j < |next.matches|
      ensures !(LiveFor(next.matches[i], v, t) && LiveFor(next.matches[j], v, t))
    {
      if j == |db.matches| && LiveFor(next.matches[j], v, t) {
        assert v == u && next.matches[i] == db.matches[i] && !LiveFor(db.matches[i], u, t);
      } else if j < |db.matches| {
        assert next.matches[i] == db.matches[i] && next.matches[j] == db.matches[j];
      }
    }
  }

  // a player in play elsewhere is neither the joiner nor the creator
  lemma JoinedElsewhere(db: Db, u: UserId, now: Time, mid: MatchId, v: UserId, i: MatchId)
    requires OneInPlay(db, now) && PlayChoiceOk(db, u, now, Join(mid)) && |db.matches[mid].seats| >= 1
    requires i < |db.matches| && i != mid && LiveFor(db.matches[i], v, now)
    ensures v != u && v != db.matches[mid].seats[0].user
  {
    if v == db.matches[mid].seats[0].user {
      assert LiveFor(db.matches[mid], v, now);
    }
  }

  lemma JoinOneInPlay(db: Db, u: UserId, now: Time, mid: MatchId)
    requires ValidDb(db) && u < |db.ratings|
    requires OneInPlay(db, now) && PlayChoiceOk(db, u, now, Join(mid))
    ensures OneInPlay(Play(db, u, now, Join(mid)), now)
  {
    var next := Play(db, u, now, Join(mid));
    var m, n := db.matches[mid], next.matches[mid];
    assert ValidMatch(m);
    JoinRow(m, u, now);
    forall v: UserId, i | 0 <= i < |next.matches| && i != mid && LiveFor(next.matches[i], v, now)
      ensures !LiveFor(n, v, now)
    {
      JoinedElsewhere(db, u, now, mid, v, i);
      assert forall k :: 0 <= k < |n.seats| ==> n.seats[k].user == u || n.seats[k].user == m.seats[0].user;
    }
    forall v: UserId, i, j | 0 <= i < j < |next.matches|
      ensures !(LiveFor(next.matches[i], v, now) && LiveFor(next.matches[j], v, now))
    {
      if i != mid && j != mid {
        assert next.matches[i] == db.matches[i] && next.matches[j] == db.matches[j];
      }
    }
  }

  lemma ResumeOneInPlay(db: Db, u: UserId, now: Time, mid: MatchId)
    requires OneInPlay(db, now) && PlayChoiceOk(db, u, now, Resume(mid))
    ensures OneInPlay(Play(db, u, now, Resume(mid)), now)
  {
    QuietStepOneInPlay(db, Play(db, u, now, Resume(mid)), now);
  }

  lemma StepOneInPlay(curve: Elo.Curve, w: World, e: Event)
    requires Elo.IsCurve(curve) && Inv(w) && Enabled(curve, w, e) && OneInPlayNow(w)
    requires e.PlayEvent? && w.lastPlay.Some? ==> w.lastPlay.value <= e.now
    ensures OneInPlayNow(Step(curve, w, e))
  {
    if e.PlayEvent? {
      EnabledTx(curve, w, e);
      if w.lastPlay.Some? { InPlayShrinks(w.db, w.lastPlay.value, e.now); }
      match e.choice
      case Resume(mid) => ResumeOneInPlay(w.db, e.user, e.now, mid);
      case Join(mid) => JoinOneInPlay(w.db, e.user, e.now, mid);
      case Create => CreateOneInPlay(w.db, e.user, e.now, e.now);
    } else {
      OtherStepOneInPlay(curve, w, e);
    }
  }

  lemma OtherStepOneInPlay(curve: Elo.Curve, w: World, e: Event)
    requires Elo.IsCurve(curve) && Inv(w) && Enabled(curve, w, e) && OneInPlayNow(w) && !e.PlayEvent?
    ensures OneInPlayNow(Step(curve, w, e))
  {
    EnabledTx(curve, w, e);
    NoPlay(curve, w, e);
    OtherTxRevivesNothing(curve, w.db, TxOf(w, e));
    if w.lastPlay.Some? { QuietStepOneInPlay(w.db, Step(curve, w, e).db, w.lastPlay.value); }
  }

  lemma NoPlay(curve: Elo.Curve, w: World, e: Event)
    requires Elo.IsCurve(curve) && !e.PlayEvent?
    ensures Step(curve, w, e).lastPlay == w.lastPlay && Step(curve, w, e).db == Commit(curve, w.db, TxOf(w, e))
    ensures !TxOf(w, e).PlayTx?
  {
  }

  /** When the matchmaking transactions' clocks never run backwards in lock order, no player is
      ever in two matches that are drawing, judging or open within the TTL: not at the last
      matchmaking decision, nor at any later time. */
  lemma {:induction false} OneMatchInPlay(curve: Elo.Curve, ws: seq<World>, es: seq<Event>, i: nat)
    requires Elo.IsCurve(curve) && IsRun(curve, ws, es) && PlaysInOrder(ws, es) && i < |ws|
    ensures OneInPlayNow(ws[i])
    ensures forall t :: ws[i].lastPlay.Some? && ws[i].lastPlay.value <= t ==> OneInPlay(ws[i].db, t)
  {
    if i > 0 {
      OneMatchInPlay(curve, ws, es, i - 1);
      RunStepOneInPlay(curve, ws, es, i - 1);
    }
    forall t | ws[i].lastPlay.Some? && ws[i].lastPlay.value <= t
      ensures OneInPlay(ws[i].db, t)
    {
      InPlayShrinks(ws[i].db, ws[i].lastPlay.value, t);
    }
  }

  lemma RunStepOneInPlay(curve: Elo.Curve, ws: seq<World>, es: seq<Event>, i: nat)
    requires Elo.IsCurve(curve) && IsRun(curve, ws, es) && PlaysInOrder(ws, es) && i < |es|
    requires OneInPlayNow(ws[i])
    ensures OneInPlayNow(ws[i + 1])
  {
    RunStep(curve, ws, es, i);
    StepOneInPlay(curve, ws[i], es[i]);
  }

  /** Exactly when a join whose clock may lag behind keeps players in one match: the creator of
      the joined match is in no other match in play.  Nothing in the join looks at that. */
  lemma LateJoinIff(db: Db, u: UserId, now: Time, mid: MatchId, t: Time)
    requires ValidDb(db) && u < |db.ratings| && PlayChoiceOk(db, u, now, Join(mid))
    requires now <= t && OneInPlay(db, t)
    ensures |db.matches[mid].seats| == 1
    ensures OneInPlay(Play(db, u, now, Join(mid)), t)
       <==> forall i :: 0 <= i < |db.matches| && i != mid ==> !LiveFor(db.matches[i], db.matches[mid].seats[0].user, t)
  {
    var next := Play(db, u, now, Join(mid));
    var m, n := db.matches[mid], next.matches[mid];
    assert ValidMatch(m);
    var creator := m.seats[0].user;
    JoinRow(m, u, now);
    assert n.seats[0].user == creator && LiveFor(n, creator, t);
    assert forall v: UserId, i :: 0 <= i < |db.matches| && i != mid ==>
             LiveFor(next.matches[i], v, t) == LiveFor(db.matches[i], v, t);
    if i :| 0 <= i < |db.matches| && i != mid && LiveFor(db.matches[i], creator, t) {
      assert LiveFor(next.matches[i], creator, t);
      var lo, hi := if i < mid then i else mid, if i < mid then mid else i;
      assert LiveFor(next.matches[lo], creator, t) && LiveFor(next.matches[hi], creator, t);
    } else {
      JoinKeepsOthers(db, next, u, now, mid, t);
    }
  }

  lemma JoinKeepsOthers(db: Db, next: Db, u: UserId, now: Time, mid: MatchId, t: Time)
    requires mid < |db.matches| && |db.matches[mid].seats| == 1 && NotInPlay(db, u, now) && now <= t
    requires OneInPlay(db, t) && |next.matches| == |db.matches|
    requires forall i :: 0 <= i < |db.matches| && i != mid ==> next.matches[i] == db.matches[i]
    requires next.matches[mid].seats == db.matches[mid].seats + [NewSeat(u, now)]
    requires forall i :: 0 <= i < |db.matches| && i != mid ==> !LiveFor(db.matches[i], db.matches[mid].seats[0].user, t)
    ensures OneInPlay(next, t)
  {
    var n := next.matches[mid];
    forall v: UserId, i, j | 0 <= i < j < |next.matches|
      ensures !(LiveFor(next.matches[i], v, t) && LiveFor(next.matches[j], v, t))
    {
      if i != mid && j != mid {
        assert !(LiveFor(db.matches[i], v, t) && LiveFor(db.matches[j], v, t));
      } else {
        var k := if i == mid then j else i;
        assert LiveFor(db.matches[k], u, t) ==> LiveFor(db.matches[k], u, now);
        assert !LiveFor(db.matches[k], u, t);
        var creator := db.matches[mid].seats[0].user;
        assert forall s :: 0 <= s < |n.seats| ==> n.seats[s].user == u || n.seats[s].user == creator;
      }
    }
  }

  /** Of all late matchmaking decisions only a join can put a player into two matches in play, and
      exactly under the condition above. */
  lemma LatePlayIff(db: Db, u: UserId, now: Time, choice: PlayChoice, t: Time)
    requires ValidDb(db) && u < |db.ratings| && PlayChoiceOk(db, u, now, choice)
    requires now <= t && OneInPlay(db, t)
    ensures choice.Join? ==> |db.matches[choice.mid].seats| == 1
    ensures OneInPlay(Play(db, u, now, choice), t)
       <==> (choice.Join? ==> forall i :: 0 <= i < |db.matches| && i != choice.mid ==>
               !LiveFor(db.matches[i], db.matches[choice.mid].seats[0].user, t))
  {
    match choice
    case Resume(mid) => QuietStepOneInPlay(db, Play(db, u, now, choice), t);
    case Join(mid) => LateJoinIff(db, u, now, mid, t);
    case Create => CreateOneInPlay(db, u, now, t);
  }

  // ---- without the order of clocks ----

  // player 0's first match, past its TTL at 120 but last polled at 110
  function OldOpen(): Match {
    NewMatch(0, 0).(seats := [NewSeat(0, 110)])
  }

  // one more step of a run
  lemma Next(curve: Elo.Curve, ws: seq<World>, es: seq<Event>, e: Event, w: World)
    requires Elo.IsCurve(curve) && IsRun(curve, ws, es) && Enabled(curve, ws[|es|], e) && w == Step(curve, ws[|es|], e)
    ensures IsRun(curve, ws + [w], es + [e])
  {
    Extend(curve, ws, es, e);
  }

  lemma ThreeUsers(curve: Elo.Curve) returns (ws: seq<World>, es: seq<Event>)
    requires Elo.IsCurve(curve)
    ensures IsRun(curve, ws, es) && |es| == 3 && ws[3] == World(Db([], [1200, 1200, 1200], []), [], [], None)
  {
    ws, es := [Init()], [];
    var w1 := Step(curve, Init(), SignUp);
    Next(curve, ws, es, SignUp, w1);
    ws, es := ws + [w1], es + [SignUp];
    var w2 := Step(curve, w1, SignUp);
    Next(curve, ws, es, SignUp, w2);
    ws, es := ws + [w2], es + [SignUp];
    var w3 := Step(curve, w2, SignUp);
    Next(curve, ws, es, SignUp, w3);
    ws, es := ws + [w3], es + [SignUp];
  }

  lemma OpenLeftBehind(curve: Elo.Curve) returns (ws: seq<World>, es: seq<Event>)
    requires Elo.IsCurve(curve)
    ensures IsRun(curve, ws, es)
    ensures ws[|es|] == World(Db([OldOpen(), NewMatch(0, 120)], [1200, 1200, 1200], []), [], [], Some(120))
  {
    ws, es := ThreeUsers(curve);
    var users, m0 := ws[|es|].db, NewMatch(0, 0);
    var create, poll, again := PlayEvent(0, 0, Create), Poll(0, 0, 110), PlayEvent(0, 120, Create);
    var w4 := World(users.(matches := [m0]), [], [], Some(0));
    assert w4 == Step(curve, ws[|es|], create);
    Next(curve, ws, es, create, w4);
    ws, es := ws + [w4], es + [create];
    var w5 := World(users.(matches := [OldOpen()]), [], [], Some(0));
    assert WithTouch(m0, 0, 110) == OldOpen();
    assert w5 == Step(curve, w4, poll);
    Next(curve, ws, es, poll, w5);
    ws, es := ws + [w5], es + [poll];
    var w6 := World(users.(matches := [OldOpen(), NewMatch(0, 120)]), [], [], Some(120));
    assert w6 == Step(curve, w5, again);
    Next(curve, ws, es, again, w6);
    ws, es := ws + [w6], es + [again];
  }

  // a join adds the joiner and starts the round, on that row alone
  lemma JoinDraws(curve: Elo.Curve, w: World, u: UserId, now: Time, mid: MatchId)
    requires Elo.IsCurve(curve) && Enabled(curve, w, PlayEvent(u, now, Join(mid)))
    ensures var next := Step(curve, w, PlayEvent(u, now, Join(mid)));
            |next.db.matches| == |w.db.matches| && mid < |w.db.matches|
            && next.db.matches[mid].status.Drawing?
            && next.db.matches[mid].seats == w.db.matches[mid].seats + [NewSeat(u, now)]
            && (forall i :: 0 <= i < |w.db.matches| && i != mid ==> next.db.matches[i] == w.db.matches[i])
            && next.db.ratings == w.db.ratings && next.lastPlay == Some(now)
  {
  }

  /** A run in which a transaction that started at 119 takes the matchmaking lock after one that
      started at 120: player 0 ends up drawing in two matches. */
  lemma ClocksOutOfOrder(curve: Elo.Curve) returns (ws: seq<World>, es: seq<Event>)
    requires Elo.IsCurve(curve)
    ensures IsRun(curve, ws, es) && !PlaysInOrder(ws, es)
    ensures var db := ws[|es|].db;
            |db.matches| == 2 && db.matches[0].status.Drawing? && db.matches[1].status.Drawing?
            && Seated(db.matches[0], 0) && Seated(db.matches[1], 0)
  {
    ws, es := OpenLeftBehind(curve);
    var m0, m1 := OldOpen(), NewMatch(0, 120);
    assert m0.seats[0].seenAt == 110 && m0.seats[0].user == 0 && m1.seats[0].seenAt == 120 && m1.seats[0].user == 0;
    var join1, join0 := PlayEvent(1, 120, Join(1)), PlayEvent(2, 119, Join(0));
    assert Joinable(m1, 1, 120);
    JoinDraws(curve, ws[|es|], 1, 120, 1);
    var w7 := Step(curve, ws[|es|], join1);
    Next(curve, ws, es, join1, w7);
    ws, es := ws + [w7], es + [join1];
    ws, es := JoinBoth(curve, ws, es, join0);
  }

  // player 0 seated in both matches, and player 2 joins the older one late
  lemma JoinBoth(curve: Elo.Curve, ws: seq<World>, es: seq<Event>, late: Event)
    returns (ws': seq<World>, es': seq<Event>)
    requires Elo.IsCurve(curve) && IsRun(curve, ws, es) && ws[|es|].lastPlay == Some(120)
    requires late == PlayEvent(2, 119, Join(0))
    requires var db := ws[|es|].db;
             |db.ratings| == 3 && |db.matches| == 2 && db.matches[0] == OldOpen() && db.matches[1].status.Drawing?
             && db.matches[1].seats == [NewSeat(0, 120), NewSeat(1, 120)]
    ensures IsRun(curve, ws', es') && !PlaysInOrder(ws', es')
    ensures var db := ws'[|es'|].db;
            |db.matches| == 2 && db.matches[0].status.Drawing? && db.matches[1].status.Drawing?
            && Seated(db.matches[0], 0) && Seated(db.matches[1], 0)
  {
    assert OldOpen().seats[0] == NewSeat(0, 110);
    assert Joinable(OldOpen(), 2, 119);
    JoinDraws(curve, ws[|es|], 2, 119, 0);
    var w := Step(curve, ws[|es|], late);
    Next(curve, ws, es, late, w);
    ws', es' := ws + [w], es + [late];
    assert es'[|es|] == late && ws'[|es|] == ws[|es|];
    assert w.db.matches[0].seats[0].user == 0 && w.db.matches[1].seats[0].user == 0;
  }
}
