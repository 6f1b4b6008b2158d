/** Safety over whole runs of the duel service. */
module DuelRuns {
  import opened Wrappers
  import opened DuelState
  import opened DuelTransactions
  import opened DuelInvariants
  import opened DuelRows
  import opened DuelTables
  import opened DuelCommits
  import opened DuelMachine
  import opened DuelRanks
  import opened DuelSteps
  import opened Sums
  import Elo

  ghost predicate IsPath(curve: Elo.Curve, ws: seq<World>, es: seq<Event>)
    requires Elo.IsCurve(curve)
  {
    |ws| == |es| + 1
    && forall i {:trigger es[i]} :: 0 <= i < |es| ==>
         Enabled(curve, ws[i], es[i]) && ws[i + 1] == Step(curve, ws[i], es[i])
  }

  /** A run from empty tables, with every interleaving of the events. */
  ghost predicate IsRun(curve: Elo.Curve, ws: seq<World>, es: seq<Event>)
    requires Elo.IsCurve(curve)
  {
    IsPath(curve, ws, es) && ws[0] == Init()
  }

  lemma {:induction false} PathInv(curve: Elo.Curve, ws: seq<World>, es: seq<Event>, i: nat)
    requires Elo.IsCurve(curve) && IsPath(curve, ws, es) && Inv(ws[0]) && i < |ws|
    ensures Inv(ws[i])
    ensures i > 0 ==> DbMoved(ws[i - 1].db, ws[i].db)
  {
    if i > 0 {
      PathInv(curve, ws, es, i - 1);
      assert Enabled(curve, ws[i - 1], es[i - 1]) && ws[i] == Step(curve, ws[i - 1], es[i - 1]);
      StepKeepsInv(curve, ws[i - 1], es[i - 1]);
    }
  }

  /** Every reachable state satisfies the invariant. */
  lemma RunInv(curve: Elo.Curve, ws: seq<World>, es: seq<Event>, i: nat)
    requires Elo.IsCurve(curve) && IsRun(curve, ws, es) && i < |ws|
    ensures Inv(ws[i])
  {
    InitInv();
    PathInv(curve, ws, es, i);
  }

  lemma RunStep(curve: Elo.Curve, ws: seq<World>, es: seq<Event>, i: nat)
    requires Elo.IsCurve(curve) && IsRun(curve, ws, es) && i < |es|
    ensures Inv(ws[i]) && Enabled(curve, ws[i], es[i]) && ws[i + 1] == Step(curve, ws[i], es[i])
    ensures Inv(ws[i + 1]) && DbMoved(ws[i].db, ws[i + 1].db)
  {
    InitInv();
    PathInv(curve, ws, es, i);
    PathInv(curve, ws, es, i + 1);
  }

  // ---- paths ----

  lemma PathConcat(curve: Elo.Curve, ws: seq<World>, es: seq<Event>, xs: seq<World>, ds: seq<Event>)
    requires Elo.IsCurve(curve) && IsPath(curve, ws, es) && IsPath(curve, xs, ds)
    requires ws[|es|] == xs[0]
    ensures IsPath(curve, ws[..|es|] + xs, es + ds)
    ensures (ws[..|es|] + xs)[0] == ws[0] && (ws[..|es|] + xs)[|es + ds|] == xs[|ds|]
  {
    var all, events := ws[..|es|] + xs, es + ds;
    forall i {:trigger events[i]} | 0 <= i < |events|
      ensures Enabled(curve, all[i], events[i]) && all[i + 1] == Step(curve, all[i], events[i])
    {
      if i < |es| {
        assert events[i] == es[i] && all[i] == ws[i];
        assert all[i + 1] == ws[i + 1];
      } else {
        var k := i - |es|;
        assert events[i] == ds[k] && all[i] == xs[k] && all[i + 1] == xs[k + 1];
      }
    }
  }

  lemma OneStepPath(curve: Elo.Curve, w: World, e: Event)
    requires Elo.IsCurve(curve) && Enabled(curve, w, e)
    ensures IsPath(curve, [w, Step(curve, w, e)], [e])
  {
  }

  lemma Extend(curve: Elo.Curve, ws: seq<World>, es: seq<Event>, e: Event)
    requires Elo.IsCurve(curve) && IsPath(curve, ws, es) && Enabled(curve, ws[|es|], e)
    ensures IsPath(curve, ws + [Step(curve, ws[|es|], e)], es + [e])
  {
    OneStepPath(curve, ws[|es|], e);
    PathConcat(curve, ws, es, [ws[|es|], Step(curve, ws[|es|], e)], [e]);
    assert ws[..|es|] + [ws[|es|], Step(curve, ws[|es|], e)] == ws + [Step(curve, ws[|es|], e)];
  }

  // ---- terminal matches ----

  lemma SeenTransitive(m: Match, n: Match, o: Match)
    requires SameButSeen(m, n) && SameButSeen(n, o)
    ensures SameButSeen(m, o)
  {
    SeenKeepsSeats(m, n);
    SeenKeepsSeats(n, o);
  }

  lemma MovedDown(m: Match, n: Match)
    requires ValidMatch(m) && Moved(m, n)
    ensures Rank(n) <= Rank(m) && (Terminal(m) ==> SameButSeen(m, n))
    ensures !SameButSeen(m, n) ==> Rank(n) < Rank(m)
  {
    if SameButSeen(m, n) { SeenKeepsSeats(m, n); }
  }

  lemma RunRowStep(curve: Elo.Curve, ws: seq<World>, es: seq<Event>, i: nat, mid: MatchId)
    requires Elo.IsCurve(curve) && IsRun(curve, ws, es) && i < |es| && mid < |ws[i].db.matches|
    ensures mid < |ws[i + 1].db.matches|
    ensures var m, n := ws[i].db.matches[mid], ws[i + 1].db.matches[mid];
            Rank(n) <= Rank(m) && (Terminal(m) ==> SameButSeen(m, n)) && (!SameButSeen(m, n) ==> Rank(n) < Rank(m))
  {
    RunStep(curve, ws, es, i);
    assert ValidMatch(ws[i].db.matches[mid]);
    MovedDown(ws[i].db.matches[mid], ws[i + 1].db.matches[mid]);
  }

  /** Along any run no row's rank grows, and a done or abandoned row never changes again, except
      for the pulse of a poll that read it while it was open. */
  lemma {:induction false} TerminalFrozen(
    curve: Elo.Curve, ws: seq<World>, es: seq<Event>, i: nat, j: nat, mid: MatchId)
    requires Elo.IsCurve(curve) && IsRun(curve, ws, es) && i <= j < |ws|
    requires mid < |ws[i].db.matches|
    ensures mid < |ws[j].db.matches|
    ensures Rank(ws[j].db.matches[mid]) <= Rank(ws[i].db.matches[mid])
    ensures Terminal(ws[i].db.matches[mid]) ==> SameButSeen(ws[i].db.matches[mid], ws[j].db.matches[mid])
    decreases j - i
  {
    var m := ws[i].db.matches[mid];
    if i == j {
      SameRow(m);
    } else {
      TerminalFrozen(curve, ws, es, i, j - 1, mid);
      RunRowStep(curve, ws, es, j - 1, mid);
      if Terminal(m) {
        SeenTransitive(m, ws[j - 1].db.matches[mid], ws[j].db.matches[mid]);
      }
    }
  }

  // ---- Elo at most once ----

  /** The match whose final result, with its rating changes, the transaction writes. */
  ghost function RatedBy(curve: Elo.Curve, db: Db, tx: Tx): Option<MatchId>
    requires Elo.IsCurve(curve)
  {
    match tx
    case ExpireTx(mid, now) =>
      if RowKnown(db, mid) && ResolveExpiry(curve, db, mid, now).1.OutcomeForfeit? then Some(mid) else None
    case SubmitTx(u, mid, now, _) =>
      if RowKnown(db, mid) && SeatOf(db.matches[mid].seats, u).Some?
         && ResolveExpiry(curve, db, mid, now).1.OutcomeForfeit? then Some(mid) else None
    case PersistTx(mid, a, b, _, _, _) =>
      if mid < |db.matches| && a < |db.ratings| && b < |db.ratings| && db.matches[mid].status.Judging?
      then Some(mid) else None
    case _ => None
  }

  /** A transaction that writes no final result moves no rating. */
  lemma UnratedKeepsRatings(curve: Elo.Curve, db: Db, tx: Tx)
    requires Elo.IsCurve(curve) && ValidDb(db) && TxOk(db, tx) && RatedBy(curve, db, tx).None?
    ensures Commit(curve, db, tx).ratings == if tx.Register? then db.ratings + [START_RATING] else db.ratings
  {
  }

  lemma RatedSubmitEnds(curve: Elo.Curve, db: Db, tx: Tx)
    requires Elo.IsCurve(curve) && ValidDb(db) && tx.SubmitTx? && RatedBy(curve, db, tx).Some?
    ensures var mid := RatedBy(curve, db, tx).value;
            mid < |db.matches| && mid < |Commit(curve, db, tx).matches|
            && !Terminal(db.matches[mid])
            && Commit(curve, db, tx).matches[mid].status.Done?
  {
    ExpireStep(curve, db, tx.mid, tx.now);
  }

  /** A transaction that writes a final result finds the match in drawing or judging and leaves it
      done. */
  lemma RatedMatchEnds(curve: Elo.Curve, db: Db, tx: Tx)
    requires Elo.IsCurve(curve) && ValidDb(db) && TxOk(db, tx) && RatedBy(curve, db, tx).Some?
    ensures var mid := RatedBy(curve, db, tx).value;
            mid < |db.matches| && mid < |Commit(curve, db, tx).matches|
            && !Terminal(db.matches[mid])
            && Commit(curve, db, tx).matches[mid].status.Done?
  {
    match tx
    case ExpireTx(mid, now) => ExpireStep(curve, db, mid, now);
    case SubmitTx(_, _, _, _) => RatedSubmitEnds(curve, db, tx);
    case PersistTx(mid, a, b, ra, rb, v) => PersistStep(curve, db, mid, a, b, ra, rb, v);
  }

  predicate ReachesEnd(ws: seq<World>, i: nat, mid: MatchId) {
    i + 1 < |ws| && mid < |ws[i].db.matches| && mid < |ws[i + 1].db.matches|
    && !Terminal(ws[i].db.matches[mid]) && ws[i + 1].db.matches[mid].status.Done?
  }

  lemma RatedStepEnds(curve: Elo.Curve, ws: seq<World>, es: seq<Event>, i: nat, mid: MatchId)
    requires Elo.IsCurve(curve) && IsRun(curve, ws, es) && i < |es|
    requires RatedBy(curve, ws[i].db, TxOf(ws[i], es[i])) == Some(mid)
    ensures ReachesEnd(ws, i, mid)
  {
    RunStep(curve, ws, es, i);
    EnabledTx(curve, ws[i], es[i]);
    RatedMatchEnds(curve, ws[i].db, TxOf(ws[i], es[i]));
  }

  /** Over every interleaving of submits, cancels, sweeps and live, re-fired or late passes, a
      match's final result and its Elo are written at most once. */
  lemma EloAtMostOnce(curve: Elo.Curve, ws: seq<World>, es: seq<Event>, i: nat, j: nat, mid: MatchId)
    requires Elo.IsCurve(curve) && IsRun(curve, ws, es) && i < j < |es|
    requires RatedBy(curve, ws[i].db, TxOf(ws[i], es[i])) == Some(mid)
    ensures RatedBy(curve, ws[j].db, TxOf(ws[j], es[j])) != Some(mid)
  {
    RatedStepEnds(curve, ws, es, i, mid);
    EndsOnce(curve, ws, es, i, j, mid);
    if RatedBy(curve, ws[j].db, TxOf(ws[j], es[j])) == Some(mid) {
      RatedStepEnds(curve, ws, es, j, mid);
    }
  }

  lemma EndsOnce(curve: Elo.Curve, ws: seq<World>, es: seq<Event>, i: nat, j: nat, mid: MatchId)
    requires Elo.IsCurve(curve) && IsRun(curve, ws, es) && i < j < |ws|
    requires ReachesEnd(ws, i, mid)
    ensures !ReachesEnd(ws, j, mid)
  {
    TerminalFrozen(curve, ws, es, i + 1, j, mid);
  }

  /** In every reachable state the ratings add up to 1200 per player, and each player's rating is
      1200 plus what that player's match rows record, however stale the ratings each result was
      sized from. */
  lemma RatingsConservedOverRuns(curve: Elo.Curve, ws: seq<World>, es: seq<Event>, i: nat)
    requires Elo.IsCurve(curve) && IsRun(curve, ws, es) && i < |ws|
    ensures Sum(ws[i].db.ratings) == START_RATING * |ws[i].db.ratings|
    ensures forall u :: 0 <= u < |ws[i].db.ratings| ==>
              ws[i].db.ratings[u] == START_RATING + SumBy(ws[i].db.matches, GainOf(u))
    ensures forall m :: 0 <= m < |ws[i].db.matches| && ws[i].db.matches[m].status.Done? ==>
              FullRoster(ws[i].db.matches[m])
              && (ZeroSum(ws[i].db.matches[m]) || AllUnrated(ws[i].db.matches[m]))
  {
    RunInv(curve, ws, es, i);
    forall m | 0 <= m < |ws[i].db.matches| && ws[i].db.matches[m].status.Done?
      ensures FullRoster(ws[i].db.matches[m])
              && (ZeroSum(ws[i].db.matches[m]) || AllUnrated(ws[i].db.matches[m]))
    {
      assert ValidMatch(ws[i].db.matches[m]);
    }
  }

  /** The ledger bills one provider call per pass ever started and one player row per seat of
      every match that left open by a join. */
  lemma BillingConserved(curve: Elo.Curve, ws: seq<World>, es: seq<Event>, i: nat)
    requires Elo.IsCurve(curve) && IsRun(curve, ws, es) && i < |ws|
    ensures Count(ws[i].db.ledger, ProviderRow) == SumBy(ws[i].db.matches, Attempts())
    ensures forall u: UserId :: Count(ws[i].db.ledger, PlayerRow(u)) == SumBy(ws[i].db.matches, StartedWith(u))
  {
    RunInv(curve, ws, es, i);
  }

  // ---- how often a match changes ----

  /** Steps below k that change the row by more than a pulse. */
  function Changes(ws: seq<World>, mid: MatchId, from: nat, k: nat): nat
    requires from <= k < |ws|
    requires forall i :: from <= i <= k ==> mid < |ws[i].db.matches|
    decreases k
  {
    if k == from then 0
    else Changes(ws, mid, from, k - 1)
         + (if SameButSeen(ws[k - 1].db.matches[mid], ws[k].db.matches[mid]) then 0 else 1)
  }

  lemma {:induction false} ChangesSpendRank(
    curve: Elo.Curve, ws: seq<World>, es: seq<Event>, mid: MatchId, from: nat, k: nat)
    requires Elo.IsCurve(curve) && IsRun(curve, ws, es) && from <= k < |ws|
    requires forall i :: from <= i <= k ==> mid < |ws[i].db.matches|
    ensures Changes(ws, mid, from, k) + Rank(ws[k].db.matches[mid]) <= Rank(ws[from].db.matches[mid])
    decreases k
  {
    if k > from {
      ChangesSpendRank(curve, ws, es, mid, from, k - 1);
      RunRowStep(curve, ws, es, k - 1, mid);
    }
  }

  /** No run changes a match more than seven times. */
  lemma AtMostSevenChanges(curve: Elo.Curve, ws: seq<World>, es: seq<Event>, mid: MatchId, from: nat, k: nat)
    requires Elo.IsCurve(curve) && IsRun(curve, ws, es) && from <= k < |ws|
    requires mid < |ws[from].db.matches|
    ensures forall i :: from <= i <= k ==> mid < |ws[i].db.matches|
    ensures Changes(ws, mid, from, k) <= 7
  {
    forall i | from <= i <= k ensures mid < |ws[i].db.matches| {
      TerminalFrozen(curve, ws, es, from, i, mid);
    }
    ChangesSpendRank(curve, ws, es, mid, from, k);
    RunInv(curve, ws, es, from);
    RunInv(curve, ws, es, k);
    RankBounds(ws[from].db.matches[mid]);
    RankBounds(ws[k].db.matches[mid]);
  }

  // ---- judging bookkeeping ----

  // the current pass is younger than the stale window
  predicate PassFresh(m: Match, now: Time) {
    m.status.Judging? && m.startedAt.Some? && m.startedAt.value > now - JUDGE_STALE_SECS
  }

  /** At any time a judging match is in exactly one of: its pass still fresh, the stuck list, the
      exhausted list; attempts never exceed 3 and are zero exactly while it is queued. */
  lemma JudgingTrichotomy(curve: Elo.Curve, ws: seq<World>, es: seq<Event>, i: nat, mid: MatchId, now: Time)
    requires Elo.IsCurve(curve) && IsRun(curve, ws, es) && i < |ws| && mid < |ws[i].db.matches|
    requires ws[i].db.matches[mid].status.Judging?
    ensures var m := ws[i].db.matches[mid];
            var running, stuck, exhausted :=
              PassFresh(m, now), Candidate(StuckJudging, m, now), Candidate(ExhaustedJudging, m, now);
            (running || stuck || exhausted)
            && !(running && stuck) && !(running && exhausted) && !(stuck && exhausted)
            && m.attempts <= MAX_JUDGE_ATTEMPTS && (m.startedAt.None? <==> m.attempts == 0)
  {
    RunInv(curve, ws, es, i);
    assert ValidMatch(ws[i].db.matches[mid]);
  }

  /** An abort writes only a match whose third attempt started at least the stale window before
      the list that named it was read, although the abort itself does not look at the start. */
  lemma AbortsOnlyStale(curve: Elo.Curve, ws: seq<World>, es: seq<Event>, i: nat, tid: nat, now: Time)
    requires Elo.IsCurve(curve) && IsRun(curve, ws, es) && i < |es| && es[i] == SweepRow(tid, now)
    requires JobOf(ws[i], tid).Sweep? && JobOf(ws[i], tid).phase.ExhaustedJudging?
    requires ws[i + 1].db != ws[i].db
    ensures var job := JobOf(ws[i], tid);
            job.ids != [] && job.ids[0] < |ws[i].db.matches|
            && var m := ws[i].db.matches[job.ids[0]];
               m.status.Judging? && m.attempts == MAX_JUDGE_ATTEMPTS
               && m.startedAt.Some? && m.startedAt.value + JUDGE_STALE_SECS <= job.listedAt
               && ws[i + 1].db.matches[job.ids[0]] == WithResult(m, None, Aborted)
  {
    RunInv(curve, ws, es, i);
    assert Enabled(curve, ws[i], es[i]) && ws[i + 1] == Step(curve, ws[i], es[i]);
    var job := JobOf(ws[i], tid);
    assert JobOk(ws[i].db, job);
    assert ExhaustedAt(ws[i].db.matches[job.ids[0]], job.listedAt);
    assert ws[i].db.(matches := ws[i].db.matches) == ws[i].db;
  }

  // ---- deadlines ----

  /** A drawing match never holds two submissions, every stamp in any match is strictly before its
      deadline, and resolving an expiry never takes the judging branch. */
  lemma DeadlineSafety(curve: Elo.Curve, ws: seq<World>, es: seq<Event>, i: nat, mid: MatchId, now: Time)
    requires Elo.IsCurve(curve) && IsRun(curve, ws, es) && i < |ws| && mid < |ws[i].db.matches|
    ensures StampsInTime(ws[i].db.matches[mid])
    ensures ws[i].db.matches[mid].status.Drawing? ==> Stamps(ws[i].db.matches[mid]) <= 1
    ensures RowKnown(ws[i].db, mid)
    ensures !ResolveExpiry(curve, ws[i].db, mid, now).1.OutcomeJudging?
    ensures var (next, outcome) := ResolveExpiry(curve, ws[i].db, mid, now);
            IsExpiredDrawing(ws[i].db.matches[mid], now) ==>
              (if Stamps(ws[i].db.matches[mid]) == 0 then next.matches[mid].status.Abandoned?
               else next.matches[mid].resolution == Some(Forfeit)
                    && next.matches[mid].winner == Some(Submitted(ws[i].db.matches[mid].seats)[0].user))
  {
    RunInv(curve, ws, es, i);
    var db := ws[i].db;
    var m := db.matches[mid];
    assert ValidMatch(m) && RosterKnown(m, db.ratings);
    ExpireStep(curve, db, mid, now);
    if m.status.Drawing? {
      SeatsOfTwo(m.seats);
      if IsExpiredDrawing(m, now) && Stamps(m) == 1 {
        ExpiryDecision(curve, m, db.ratings);
        ForfeitRow(curve, m, db.ratings);
        var fr := ForfeitResult(curve, Submitter(m).user, Forfeiter(m).user, db.ratings);
        FinalResultEffect(db, mid, fr, fr.players[0], fr.players[1]);
      }
    }
  }

  // ---- rosters ----

  /** Open matches seat one player; drawing, judging and done matches seat two different ones. */
  lemma RosterSizes(curve: Elo.Curve, ws: seq<World>, es: seq<Event>, i: nat, mid: MatchId)
    requires Elo.IsCurve(curve) && IsRun(curve, ws, es) && i < |ws| && mid < |ws[i].db.matches|
    ensures var m := ws[i].db.matches[mid];
            (m.status.Open? ==> |m.seats| == 1)
            && (m.status.Drawing? || m.status.Judging? || m.status.Done? ==> FullRoster(m))
  {
    RunInv(curve, ws, es, i);
    assert ValidMatch(ws[i].db.matches[mid]);
  }

  // ---- judging slots ----

  /** Slots taken are those of running passes and of transactions not yet handed off, plus drained
      ones, and never exceed the limit; once drain has them all, no pass runs. */
  lemma SlotsOverRuns(curve: Elo.Curve, ws: seq<World>, es: seq<Event>, i: nat, p: nat)
    requires Elo.IsCurve(curve) && IsRun(curve, ws, es) && i < |ws| && p < |ws[i].procs|
    ensures var l := ws[i].procs[p];
            l.taken == Holders(ws[i].agents, p) + l.drained && l.taken <= l.limit
            && (l.drained == l.limit ==>
                  !SlotFree(l)
                  && forall t :: 0 <= t < |ws[i].agents| ==>
                       ws[i].agents[t].proc == p ==> !HoldsSlot(ws[i].agents[t].job))
  {
    RunInv(curve, ws, es, i);
    var l := ws[i].procs[p];
    HoldersNonNegative(ws[i].agents, p);
    if l.drained == l.limit {
      forall t | 0 <= t < |ws[i].agents| && ws[i].agents[t].proc == p
        ensures !HoldsSlot(ws[i].agents[t].job)
      {
        OneHolder(ws[i].agents, p, t);
      }
    }
  }

  lemma {:induction false} OneHolder(agents: seq<Agent>, p: nat, t: nat)
    requires t < |agents|
    ensures Holders(agents, p) >= HolderIn(p)(agents[t])
  {
    HoldersNonNegative(agents[1..], p);
    if t > 0 { OneHolder(agents[1..], p, t - 1); }
  }

  lemma DrainedStep(curve: Elo.Curve, w: World, e: Event, p: nat)
    requires Elo.IsCurve(curve) && Inv(w) && Enabled(curve, w, e) && p < |w.procs|
    requires w.procs[p].drained == w.procs[p].limit && e != Crash(p)
    ensures var next := Schedule(w, e);
            p < |next.procs| && next.procs[p].drained == next.procs[p].limit
  {
    assert !SlotFree(w.procs[p]) by { HoldersNonNegative(w.agents, p); }
  }

  lemma RunDrainedStep(curve: Elo.Curve, ws: seq<World>, es: seq<Event>, i: nat, p: nat)
    requires Elo.IsCurve(curve) && IsRun(curve, ws, es) && i < |es| && p < |ws[i].procs|
    requires ws[i].procs[p].drained == ws[i].procs[p].limit && es[i] != Crash(p)
    ensures p < |ws[i + 1].procs| && ws[i + 1].procs[p].drained == ws[i + 1].procs[p].limit
  {
    RunStep(curve, ws, es, i);
    DrainedStep(curve, ws[i], es[i], p);
  }

  lemma {:induction false} DrainStays(curve: Elo.Curve, ws: seq<World>, es: seq<Event>, i: nat, j: nat, p: nat)
    requires Elo.IsCurve(curve) && IsRun(curve, ws, es) && i <= j < |ws| && p < |ws[i].procs|
    requires ws[i].procs[p].drained == ws[i].procs[p].limit
    requires forall k :: i <= k < j ==> es[k] != Crash(p)
    ensures p < |ws[j].procs| && ws[j].procs[p].drained == ws[j].procs[p].limit
    decreases j - i
  {
    if j > i {
      DrainStays(curve, ws, es, i, j - 1, p);
      RunDrainedStep(curve, ws, es, j - 1, p);
    }
  }

  /** After drain has taken every slot of a process, no pass runs there again while it lives. */
  lemma DrainIsFinal(curve: Elo.Curve, ws: seq<World>, es: seq<Event>, i: nat, j: nat, p: nat)
    requires Elo.IsCurve(curve) && IsRun(curve, ws, es) && i <= j < |ws| && p < |ws[i].procs|
    requires ws[i].procs[p].drained == ws[i].procs[p].limit
    requires forall k :: i <= k < j ==> es[k] != Crash(p)
    ensures p < |ws[j].procs| && !SlotFree(ws[j].procs[p])
    ensures forall t :: 0 <= t < |ws[j].agents| && ws[j].agents[t].proc == p ==> !IsPass(ws[j].agents[t].job)
  {
    DrainStays(curve, ws, es, i, j, p);
    SlotsOverRuns(curve, ws, es, j, p);
    forall t | 0 <= t < |ws[j].agents| && ws[j].agents[t].proc == p
      ensures !IsPass(ws[j].agents[t].job)
    {
      assert !HoldsSlot(ws[j].agents[t].job);
    }
  }
}
