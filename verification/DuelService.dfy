/** The game service and its sweeper as they run: methods that read and write the tables in place,
    statement by statement, and take and return judging slots
    (server/internal/game/service.go, sweeper.go, deadline.go, limiter.go).

    Each transaction is proved to commit what DuelTransactions says it commits.  `fails` marks a
    statement or commit that errors: the transaction rolls back. */
module DuelService {
  import opened Wrappers
  import opened DuelState
  import opened DuelTransactions
  import opened DuelTables
  import opened DuelCommits
  import opened DuelLists
  import opened DuelBacklog
  import opened DuelRanks
  import opened DuelVerdicts
  import opened Seqs
  import opened Sums
  import Elo

  /** judgeLimiter: a channel used as a counting semaphore. */
  class JudgeLimiter {
    const limit: nat
    var taken: nat

    ghost predicate Valid() reads this {
      1 <= limit && taken <= limit
    }

    constructor (n: int)
      ensures Valid() && taken == 0 && limit == if n < 1 then 1 else n
    {
      limit := if n < 1 then 1 else n;
      taken := 0;
    }

    method TryAcquire() returns (ok: bool)
      requires Valid()
      modifies this
      ensures Valid() && ok == (old(taken) < limit)
      ensures taken == old(taken) + if ok then 1 else 0
    {
      ok := taken < limit;
      if ok { taken := taken + 1; }
    }

    method Release()
      requires Valid() && taken > 0
      modifies this
      ensures Valid() && taken == old(taken) - 1
    {
      taken := taken - 1;
    }
  }

  /** The tables, and the SQL statements that write them. */
  class Store {
    var matches: seq<Match>
    var ratings: seq<int>
    var ledger: seq<LedgerRow>

    function Tables(): Db reads this {
      Db(matches, ratings, ledger)
    }

    constructor ()
      ensures Tables() == Db([], [], [])
    {
      matches, ratings, ledger := [], [], [];
    }

    // replaces one matches row, as every `update matches ... where id = $1` does
    method UpdateMatch(mid: MatchId, m: Match)
      requires mid < |matches|
      modifies this`matches
      ensures matches == old(matches)[mid := m]
    {
      matches := matches[mid := m];
    }

    method ApplyRatingDelta(u: UserId, delta: int) returns (after: int)
      requires u < |ratings|
      modifies this`ratings
      ensures ratings == old(ratings)[u := after] && after == old(ratings[u]) + delta
    {
      ratings := ratings[u := ratings[u] + delta];
      after := ratings[u];
    }

    method RecordProviderAICall()
      modifies this`ledger
      ensures ledger == old(ledger) + [ProviderRow]
    {
      ledger := ledger + [ProviderRow];
    }

    method RecordPlayerAICalls(rows: seq<LedgerRow>)
      modifies this`ledger
      ensures ledger == old(ledger) + rows
    {
      ledger := ledger + rows;
    }

    method Rollback(saved: Db)
      modifies this
      ensures Tables() == saved
    {
      matches, ratings, ledger := saved.matches, saved.ratings, saved.ledger;
    }

    /** One of the sweeper's list queries, while other transactions hold the rows in `locked`. */
    method ListCandidates(phase: Phase, now: Time, locked: set<MatchId>) returns (ids: seq<MatchId>)
      ensures IsWorkList(phase, matches, now, locked, ids)
    {
      ids := [];
      var k := 0;
      while k < |matches|
        invariant k <= |matches| && ids == OldestFirst(phase, matches, now, locked, k)
      {
        if Free(phase, matches, now, locked, k) { ids := InsertByAge(phase, matches, ids, k); }
        k := k + 1;
      }
      BatchIsWorkList(phase, matches, now, locked);
      ids := Batch(ids);
    }

    /** The newest match the player has in play. */
    method FindMyLiveMatch(u: UserId, now: Time) returns (found: Option<MatchId>)
      ensures found.None? ==> NotInPlay(Tables(), u, now)
      ensures found.Some? ==> PlayChoiceOk(Tables(), u, now, Resume(found.value))
    {
      found := None;
      for k := 0 to |matches|
        invariant found.None? ==> forall i :: 0 <= i < k ==> !LiveFor(matches[i], u, now)
        invariant found.Some? ==> found.value < k && LiveFor(matches[found.value], u, now)
        invariant found.Some? ==>
          forall i :: 0 <= i < k && LiveFor(matches[i], u, now) ==>
            matches[i].createdAt <= matches[found.value].createdAt
      {
        if LiveFor(matches[k], u, now) && (found.None? || matches[k].createdAt > matches[found.value].createdAt) {
          found := Some(k);
        }
      }
    }

    /** The oldest match the player can join whose row no other transaction holds locked. */
    method FindOpenMatchToJoin(u: UserId, now: Time, locked: set<MatchId>) returns (found: Option<MatchId>)
      ensures found.None? ==> forall i :: 0 <= i < |matches| && Joinable(matches[i], u, now) ==> i in locked
      ensures found.Some? ==> IsOldestToJoin(matches, u, now, locked, found.value)
    {
      found := None;
      for k := 0 to |matches|
        invariant found.None? ==> forall i :: 0 <= i < k && Joinable(matches[i], u, now) ==> i in locked
        invariant found.Some? ==>
          found.value < k && Joinable(matches[found.value], u, now) && found.value !in locked
          && forall i :: 0 <= i < k && Joinable(matches[i], u, now) && i !in locked ==>
               matches[found.value].createdAt <= matches[i].createdAt
      {
        if k !in locked && Joinable(matches[k], u, now)
           && (found.None? || matches[k].createdAt < matches[found.value].createdAt) {
          found := Some(k);
        }
      }
    }
  }

  predicate IsOldestToJoin(matches: seq<Match>, u: UserId, now: Time, locked: set<MatchId>, mid: MatchId) {
    mid < |matches| && mid !in locked && Joinable(matches[mid], u, now)
    && forall i :: 0 <= i < |matches| && Joinable(matches[i], u, now) && i !in locked ==>
         matches[mid].createdAt <= matches[i].createdAt
  }

  datatype PlayReply = Resumed(mid: MatchId) | Refused | Seated(choice: PlayChoice) | Failed

  class Service {
    const store: Store
    const judging: JudgeLimiter
    const curve: Elo.Curve

    ghost predicate Valid() reads this, store, judging {
      Elo.IsCurve(curve) && judging.Valid() && ValidDb(store.Tables())
    }

    constructor (store: Store, concurrency: int, curve: Elo.Curve)
      requires Elo.IsCurve(curve) && ValidDb(store.Tables())
      ensures Valid() && this.store == store && this.curve == curve && fresh(judging) && judging.taken == 0
    {
      this.store := store;
      this.judging := new JudgeLimiter(concurrency);
      this.curve := curve;
    }

    // ---- results ----

    method WriteFinalResult(mid: MatchId, fr: FinalResult)
      requires mid < |store.matches| && KnownPlayers(store.Tables(), fr.players)
      modifies store
      ensures store.Tables() == DuelTransactions.WriteFinalResult(old(store.Tables()), mid, fr)
    {
      var players := SortedPlayers(fr.players);
      var i := 0;
      while i < |players|
        invariant i <= |players| && |store.matches| == old(|store.matches|) && |store.ratings| == old(|store.ratings|)
        invariant RatePlayers(store.Tables(), mid, players[i..]) == RatePlayers(old(store.Tables()), mid, players)
      {
        var p := players[i];
        ghost var before' := store.Tables();
        var delta := p.after - p.before;
        var after := store.ApplyRatingDelta(p.user, delta);
        var before := after - delta;
        store.UpdateMatch(mid, WithScore(store.matches[mid], p.user, p.score, before, after));
        assert store.Tables() == RatePlayer(before', mid, p);
        assert players[i..][1..] == players[i + 1..];
        i := i + 1;
      }
      store.UpdateMatch(mid, WithResult(store.matches[mid], fr.winner, fr.resolution));
    }

    method EnterJudging(mid: MatchId, now: Time, slotHeld: bool)
      requires mid < |store.matches|
      modifies store
      ensures store.Tables() == DuelTransactions.EnterJudging(old(store.Tables()), mid, now, slotHeld)
    {
      if !slotHeld {
        store.UpdateMatch(mid, WithJudgingQueued(store.matches[mid]));
        return;
      }
      store.UpdateMatch(mid, WithJudging(store.matches[mid], now));
      store.RecordProviderAICall();
    }

    // ---- deadline.go ----

    /** The loop of decideExpiry. */
    method PartitionRoster(players: seq<Seat>) returns (submitted: seq<Seat>, missing: seq<Seat>)
      ensures submitted == Submitted(players) && missing == Missing(players)
    {
      submitted, missing := [], [];
      NonePartitioned(players);
      var i := 0;
      while i < |players|
        invariant i <= |players|
        invariant Partitioned(players, i, submitted, missing)
      {
        NextSeat(players, i, submitted, missing);
        if players[i].submittedAt.Some? {
          submitted := submitted + [players[i]];
        } else {
          missing := missing + [players[i]];
        }
        i := i + 1;
      }
      AllPartitioned(players, submitted, missing);
    }

    method ResolveExpiry(mid: MatchId, now: Time) returns (outcome: ExpiryOutcome)
      requires Elo.IsCurve(curve) && RowKnown(store.Tables(), mid)
      modifies store
      ensures (store.Tables(), outcome) == DuelTransactions.ResolveExpiry(curve, old(store.Tables()), mid, now)
    {
      var m := store.matches[mid];
      if !IsExpiredDrawing(m, now) {
        return OutcomeNone;
      }
      var submitted, missing := PartitionRoster(m.seats);
      if |submitted| == 0 {
        store.UpdateMatch(mid, WithAbandoned(m));
        outcome := OutcomeAbandoned;
      } else if |submitted| == 1 && |missing| == 1 {
        assert submitted[0] in m.seats && missing[0] in m.seats;
        var fr := ForfeitResult(curve, submitted[0].user, missing[0].user, store.ratings);
        WriteFinalResult(mid, fr);
        outcome := OutcomeForfeit(fr);
      } else {
        EnterJudging(mid, now, false);
        outcome := OutcomeJudging;
      }
    }

    // ---- requests ----

    /** A submit.  On every path the slots taken afterwards are those taken before plus one exactly
        when a pass was started with it; a transaction that fails leaves the tables as they were. */
    method Submit(u: UserId, mid: MatchId, now: Time, enterFails: bool, commitFails: bool)
      returns (reply: Option<SubmitReply>, passStarted: bool)
      requires Valid()
      modifies store, judging
      ensures Valid()
      ensures judging.taken == old(judging.taken) + if passStarted then 1 else 0
      ensures reply.None? ==> store.Tables() == old(store.Tables()) && !passStarted
      ensures mid < |old(store.matches)| && reply.Some? ==>
        RosterKnown(old(store.matches[mid]), old(store.ratings))
        && (store.Tables(), reply.value)
           == DuelTransactions.Submit(curve, old(store.Tables()), u, mid, now, old(judging.taken) < judging.limit)
      ensures passStarted <==> reply == Some(Stored(Judging)) && old(judging.taken) < judging.limit
      ensures !enterFails && !commitFails ==> reply.Some?
    {
      passStarted := false;
      if mid >= |store.matches| { return Some(NotFound), false; }
      var saved := store.Tables();
      var m := store.matches[mid];
      assert RowKnown(saved, mid);
      SubmitStep(curve, saved, u, mid, now, judging.taken < judging.limit);
      var player := SeatOf(m.seats, u);
      if player.None? { return Some(NotPlayer), false; }
      if IsExpiredDrawing(m, now) {
        var outcome := ResolveExpiry(mid, now);
        if commitFails {
          store.Rollback(saved);
          return None, false;
        }
        return Some(RoundExpired), false;
      }
      if !m.status.Drawing? { return Some(NotSubmittable), false; }
      if player.value.submittedAt.Some? { return Some(AlreadySubmitted), false; }
      reply, passStarted := StampAndEnter(u, mid, now, enterFails);
      if reply.None? || commitFails {
        store.Rollback(saved);
        if passStarted { judging.Release(); }
        return None, false;
      }
    }

    /** The stamp, and the step into judging when it is the last one. */
    method StampAndEnter(u: UserId, mid: MatchId, now: Time, enterFails: bool)
      returns (reply: Option<SubmitReply>, slot: bool)
      requires judging.Valid() && mid < |store.matches|
      modifies store, judging
      ensures judging.Valid() && judging.taken == old(judging.taken) + if slot then 1 else 0
      ensures reply.Some? ==>
        (store.Tables(), reply.value)
        == DuelTransactions.StampAndEnter(old(store.Tables()), u, mid, now, old(judging.taken) < judging.limit)
        && slot == (reply == Some(Stored(Judging)) && old(judging.taken) < judging.limit)
      ensures !enterFails ==> reply.Some?
    {
      store.UpdateMatch(mid, WithStamp(store.matches[mid], u, now));
      if CountUnsubmitted(store.matches[mid].seats) > 0 { return Some(Stored(Drawing)), false; }
      slot := judging.TryAcquire();
      if enterFails { return None, slot; }
      EnterJudging(mid, now, slot);
      return Some(Stored(Judging)), slot;
    }

    method Cancel(u: UserId, mid: MatchId, commitFails: bool) returns (reply: Option<CancelReply>)
      requires Valid()
      modifies store
      ensures Valid()
      ensures reply.None? ==> store.Tables() == old(store.Tables())
      ensures reply.Some? ==> (store.Tables(), reply.value) == DuelTransactions.Cancel(old(store.Tables()), u, mid)
    {
      CommitStep(curve, store.Tables(), CancelTx(u, mid));
      if mid >= |store.matches| { return Some(CancelNotFound); }
      if SeatOf(store.matches[mid].seats, u).None? { return Some(CancelNotFound); }
      if !store.matches[mid].status.Open? { return Some(CancelNotOpen); }
      var saved := store.Tables();
      store.UpdateMatch(mid, WithAbandoned(store.matches[mid]));
      if commitFails {
        store.Rollback(saved);
        return None;
      }
      return Some(Cancelled);
    }

    method JoinMatch(u: UserId, mid: MatchId, now: Time)
      requires PlayChoiceOk(store.Tables(), u, now, Join(mid))
      modifies store
      ensures store.Tables() == Play(old(store.Tables()), u, now, Join(mid))
    {
      var m := WithPlayer(store.matches[mid], u, now);
      store.UpdateMatch(mid, m);
      store.UpdateMatch(mid, WithDrawing(m, now));
      store.RecordPlayerAICalls(PlayerRows(store.matches[mid].seats));
    }

    // resume: pressing play again counts as a pulse
    method ResumeMatch(u: UserId, mid: MatchId, now: Time)
      requires Valid() && u < |store.ratings| && PlayChoiceOk(store.Tables(), u, now, Resume(mid))
      modifies store
      ensures Valid() && store.Tables() == Play(old(store.Tables()), u, now, Resume(mid))
    {
      PlayStep(store.Tables(), u, now, Resume(mid));
      if store.matches[mid].status.Open? {
        store.UpdateMatch(mid, WithTouch(store.matches[mid], u, now));
      }
    }

    // the transaction under the matchmaking lock
    method PlayLocked(u: UserId, now: Time, locked: set<MatchId>) returns (choice: PlayChoice)
      requires Valid() && u < |store.ratings|
      modifies store
      ensures Valid()
      ensures PlayChoiceOk(old(store.Tables()), u, now, choice)
      ensures store.Tables() == Play(old(store.Tables()), u, now, choice)
      ensures choice.Create? ==>
        forall i :: 0 <= i < |old(store.matches)| && Joinable(old(store.matches)[i], u, now) ==> i in locked
      ensures choice.Join? ==> IsOldestToJoin(old(store.matches), u, now, locked, choice.mid)
    {
      var mine := store.FindMyLiveMatch(u, now);
      if mine.Some? {
        ResumeMatch(u, mine.value, now);
        return Resume(mine.value);
      }
      var open := store.FindOpenMatchToJoin(u, now, locked);
      if open.Some? {
        PlayStep(store.Tables(), u, now, Join(open.value));
        JoinMatch(u, open.value, now);
        return Join(open.value);
      }
      PlayStep(store.Tables(), u, now, Create);
      store.matches := store.matches + [NewMatch(u, now)];
      return Create;
    }

    /** CreateOrJoin: a match in play at `first` is given back before the budget is looked at; a spent
        budget refuses everything else; and the rest happens at `now`, under the lock. */
    method CreateOrJoin(
      u: UserId, first: Time, overBudget: bool, now: Time, locked: set<MatchId>, commitFails: bool)
      returns (reply: PlayReply)
      requires Valid() && u < |store.ratings|
      modifies store
      ensures Valid()
      ensures reply.Resumed? <==> !NotInPlay(old(store.Tables()), u, first)
      ensures reply.Resumed? ==>
        PlayChoiceOk(old(store.Tables()), u, first, Resume(reply.mid))
        && store.Tables() == Play(old(store.Tables()), u, first, Resume(reply.mid))
      ensures reply.Refused? <==> overBudget && NotInPlay(old(store.Tables()), u, first)
      ensures reply.Refused? || reply.Failed? ==> store.Tables() == old(store.Tables())
      ensures reply.Failed? ==> commitFails
      ensures reply.Seated? ==>
        PlayChoiceOk(old(store.Tables()), u, now, reply.choice)
        && store.Tables() == Play(old(store.Tables()), u, now, reply.choice)
        && (reply.choice.Create? ==>
              forall i :: 0 <= i < |old(store.matches)| && Joinable(old(store.matches)[i], u, now) ==> i in locked)
        && (reply.choice.Join? ==>
              reply.choice.mid !in locked
              && forall i ::
                   0 <= i < |old(store.matches)| && i !in locked && Joinable(old(store.matches)[i], u, now) ==>
                     old(store.matches)[reply.choice.mid].createdAt <= old(store.matches)[i].createdAt)
    {
      var mine := store.FindMyLiveMatch(u, first);
      if mine.Some? {
        ResumeMatch(u, mine.value, first);
        return Resumed(mine.value);
      }
      if overBudget { return Refused; }
      var saved := store.Tables();
      var choice := PlayLocked(u, now, locked);
      if commitFails {
        store.Rollback(saved);
        return Failed;
      }
      return Seated(choice);
    }

    /** persistResult: the status is checked again under the lock. */
    method PersistResult(mid: MatchId, a: UserId, b: UserId, ratingA: int, ratingB: int, v: Verdict, commitFails: bool)
      returns (written: bool)
      requires Valid() && TxOk(store.Tables(), PersistTx(mid, a, b, ratingA, ratingB, v))
      modifies store
      ensures Valid()
      ensures written == (old(store.matches[mid]).status.Judging? && !commitFails)
      ensures store.Tables()
           == if written then Commit(curve, old(store.Tables()), PersistTx(mid, a, b, ratingA, ratingB, v))
              else old(store.Tables())
      ensures written ==> ByVerdict(curve, old(store.Tables()), store.Tables(), mid, a, b, ratingA, ratingB, v)
    {
      var saved := store.Tables();
      PersistDecides(curve, saved, mid, a, b, ratingA, ratingB, v);
      if !store.matches[mid].status.Judging? { return false; }
      WriteVerdict(mid, a, b, ratingA, ratingB, v);
      if commitFails {
        store.Rollback(saved);
        return false;
      }
      return true;
    }

    method WriteVerdict(mid: MatchId, a: UserId, b: UserId, ratingA: int, ratingB: int, v: Verdict)
      requires Valid() && mid < |store.matches| && store.matches[mid].status.Judging?
      requires a < |store.ratings| && b < |store.ratings|
      modifies store
      ensures store.Tables() == Commit(curve, old(store.Tables()), PersistTx(mid, a, b, ratingA, ratingB, v))
    {
      WriteFinalResult(mid, JudgedResult(curve, a, b, ratingA, ratingB, v));
    }

    // ---- sweeper.go ----

    method RefireJudging(mid: MatchId, now: Time, fails: bool) returns (refired: Option<bool>)
      requires Valid() && mid < |store.matches|
      modifies store
      ensures Valid() && store.ratings == old(store.ratings)
      ensures refired.None? <==> fails && RefireAllowed(old(store.matches[mid]), now)
      ensures refired.Some? ==> refired.value == RefireAllowed(old(store.matches[mid]), now)
      ensures store.matches
           == if refired == Some(true) then old(store.matches)[mid := WithJudging(old(store.matches[mid]), now)]
              else old(store.matches)
      ensures store.ledger == if refired == Some(true) then old(store.ledger) + [ProviderRow] else old(store.ledger)
    {
      var saved := store.Tables();
      RefireStep(saved, mid, now);
      var m := store.matches[mid];
      if !m.status.Judging? { return Some(false); }
      if m.attempts >= MAX_JUDGE_ATTEMPTS { return Some(false); }
      if m.startedAt.Some? && m.startedAt.value > now - JUDGE_STALE_SECS { return Some(false); }
      EnterJudging(mid, now, true);
      if fails {
        store.Rollback(saved);
        return None;
      }
      return Some(true);
    }

    method AbortJudging(mid: MatchId) returns (aborted: bool)
      requires Valid() && mid < |store.matches|
      modifies store
      ensures Valid() && (store.Tables(), aborted) == Abort(old(store.Tables()), mid)
    {
      AbortStep(store.Tables(), mid);
      var m := store.matches[mid];
      if !m.status.Judging? { return false; }
      if m.attempts < MAX_JUDGE_ATTEMPTS { return false; }
      store.UpdateMatch(mid, WithResult(m, None, Aborted));
      return true;
    }

    method ReapOpenMatch(mid: MatchId)
      requires Valid() && mid < |store.matches|
      modifies store
      ensures Valid() && store.Tables() == Reap(old(store.Tables()), mid)
    {
      ReapStep(store.Tables(), mid);
      if store.matches[mid].status.Open? {
        store.UpdateMatch(mid, WithAbandoned(store.matches[mid]));
      }
    }

    /** One row of the stuck-judging phase: the slot is taken first, and given back unless the row
        is re-fired. */
    method RefireWithSlot(mid: MatchId, now: Time, fails: bool) returns (ok: bool, refired: Option<bool>)
      requires Valid() && mid < |store.matches|
      modifies store, judging
      ensures Valid() && ok == (old(judging.taken) < judging.limit)
      ensures judging.taken == old(judging.taken) + if refired == Some(true) then 1 else 0
      ensures refired.None? <==> !ok || (fails && RefireAllowed(old(store.matches[mid]), now))
      ensures refired.Some? ==> refired.value == RefireAllowed(old(store.matches[mid]), now)
      ensures store.matches
           == if refired == Some(true) then old(store.matches)[mid := WithJudging(old(store.matches[mid]), now)]
              else old(store.matches)
      ensures store.ledger == if refired == Some(true) then old(store.ledger) + [ProviderRow] else old(store.ledger)
    {
      refired := None;
      ok := judging.TryAcquire();
      if ok {
        refired := RefireJudging(mid, now, fails);
        if refired != Some(true) { judging.Release(); }
      }
    }

    // one turn of the stuck-judging loop; without a slot nothing happens
    method RefireNext(
      ids: seq<MatchId>, i: nat, at: Time, now: Time, fails: bool, handled: nat, started: set<MatchId>, ghost was: Db)
      returns (ok: bool, handled': nat, started': set<MatchId>)
      requires Valid() && i < |ids| && ids[i] < |store.matches| && Distinct(ids) && at <= now
      requires Swept(was, store.Tables(), ids, i, handled, started, at)
      modifies store, judging
      ensures Valid() && ok == (old(judging.taken) < judging.limit)
      ensures judging.taken == old(judging.taken) + |started'| - |started|
      ensures Swept(was, store.Tables(), ids, if ok then i + 1 else i, handled', started', at)
      ensures ok && !fails ==> handled' == handled + 1
      ensures !ok ==> handled' == handled && started' == started
    {
      handled', started' := handled, started;
      ghost var before := store.Tables();
      var refired;
      ok, refired := RefireWithSlot(ids[i], now, fails);
      if refired == Some(true) { started' := started + {ids[i]}; }
      if refired.Some? { handled' := handled + 1; }
      if ok {
        SweptOneMore(was, before, store.Tables(), ids, i, handled, started, at, now, refired, handled', started');
      }
    }

    /** The stuck-judging phase over a list read at `at`, stale or not, each row at some later time.
        Every slot taken is either handed to a pass it started or given back, and a list handled in
        full leaves none of its matches stuck since. */
    method SweepStuckJudging(ids: seq<MatchId>, at: Time, failing: set<MatchId>)
      returns (handled: nat, started: set<MatchId>)
      requires Valid() && Distinct(ids) && forall i :: 0 <= i < |ids| ==> ids[i] < |store.matches|
      modifies store, judging
      ensures Valid()
      ensures judging.taken == old(judging.taken) + |started|
      ensures |started| <= handled <= |ids| && started <= Elements(ids)
      ensures PassesStarted(old(store.matches), store.matches, started, at)
      ensures store.ledger == old(store.ledger) + Repeat(ProviderRow, |started|)
      ensures handled == |ids| ==> NoneStuck(store.matches, ids, at)
      ensures failing == {} && judging.taken < judging.limit ==> handled == |ids|
      ensures FreshList(old(store.matches), ids, at) ==> handled == |started|
    {
      handled, started := 0, {};
      ghost var was := store.Tables();
      SweptNone(was, ids, at);
      var i := 0;
      while i < |ids|
        invariant Valid() && Swept(was, store.Tables(), ids, i, handled, started, at)
        invariant failing == {} ==> handled == i
        invariant judging.taken == old(judging.taken) + |started|
      {
        var now: Time :| at <= now;
        var ok;
        ok, handled, started := RefireNext(ids, i, at, now, ids[i] in failing, handled, started, was);
        if !ok { break; }
        i := i + 1;
      }
      SweptList(was, store.Tables(), ids, i, handled, started, at);
    }

    // resolveExpiredMatch
    method ResolveExpiredMatch(mid: MatchId, now: Time) returns (outcome: ExpiryOutcome)
      requires Valid() && mid < |store.matches|
      modifies store
      ensures Valid() && RowKnown(old(store.Tables()), mid)
      ensures (store.Tables(), outcome) == DuelTransactions.ResolveExpiry(curve, old(store.Tables()), mid, now)
    {
      assert RowKnown(store.Tables(), mid);
      ExpireStep(curve, store.Tables(), mid, now);
      outcome := ResolveExpiry(mid, now);
    }

    /** One row of the other phases: the status is checked again under its lock. */
    method HandleRow(phase: Phase, mid: MatchId, now: Time)
      requires Valid() && mid < |store.matches| && !phase.StuckJudging?
      modifies store
      ensures Valid() && store.Tables() == Commit(curve, old(store.Tables()), SweepTx(phase, mid, now))
    {
      assert RowKnown(store.Tables(), mid);
      SweptRowIs(curve, store.Tables(), mid, now);
      match phase
      case ExpiredDrawing =>
        var outcome := ResolveExpiredMatch(mid, now);
      case ExhaustedJudging =>
        var aborted := AbortJudging(mid);
      case StaleOpen =>
        ReapOpenMatch(mid);
    }

    // one turn of the loop: the row is handled, at some time since the list was read, or fails
    method HandleNext(
      phase: Phase, ids: seq<MatchId>, i: nat, at: Time, failing: set<MatchId>, handled: nat,
      ghost was: Db, ghost done: set<MatchId>)
      returns (handled': nat, ghost done': set<MatchId>)
      requires Valid() && !phase.StuckJudging? && Distinct(ids) && i < |ids| && ids[i] < |store.matches|
      requires RowsHandled(phase, was, store.Tables(), ids, i, at, failing, handled, done)
      modifies store
      ensures Valid() && |store.matches| == old(|store.matches|)
      ensures RowsHandled(phase, was, store.Tables(), ids, i + 1, at, failing, handled', done')
    {
      handled', done' := handled, done;
      NextHandled(ids, i, done, failing);
      if ids[i] !in failing {
        var now: Time :| at <= now;
        ghost var before := store.Tables();
        assert RowKnown(before, ids[i]);
        HandleRow(phase, ids[i], now);
        RowProgress(curve, phase, was, before, ids[i], at, now, done);
        handled', done' := handled + 1, done + {ids[i]};
      }
    }

    /** The loop of the expired-drawing, exhausted-judging and stale-open phases, over a list read at
        `at`, stale or not, each row at some later time: every row handled without error is off the
        phase's backlog. */
    method SweepRows(phase: Phase, ids: seq<MatchId>, at: Time, failing: set<MatchId>) returns (handled: nat)
      requires Valid() && !phase.StuckJudging? && Distinct(ids)
      requires forall i :: 0 <= i < |ids| ==> ids[i] < |store.matches|
      modifies store
      ensures Valid() && handled == |Elements(ids) - failing| <= |ids|
      ensures Progress(phase, old(store.Tables()), store.Tables(), at, Elements(ids) - failing)
    {
      ghost var was := store.Tables();
      ghost var done: set<MatchId> := {};
      NoProgress(phase, was, at);
      handled := 0;
      var i := 0;
      while i < |ids|
        invariant Valid() && |store.matches| == old(|store.matches|)
        invariant RowsHandled(phase, was, store.Tables(), ids, i, at, failing, handled, done)
      {
        handled, done := HandleNext(phase, ids, i, at, failing, handled, was, done);
        i := i + 1;
      }
      AllHandled(ids, done, failing);
    }

    /** One batch of a phase, listed at `at`.  Every row it handles leaves the phase's backlog and
        lowers the rank of the whole table, no other phase's backlog grows, and a batch that comes back
        short without an error or a lack of slots leaves only rows that others held locked. */
    method SweepPhase(phase: Phase, at: Time, locked: set<MatchId>, failing: set<MatchId>) returns (handled: nat)
      requires Valid()
      modifies store, judging
      ensures Valid() && handled <= SWEEP_BATCH
      ensures judging.taken == old(judging.taken) + if phase.StuckJudging? then handled else 0
      ensures |Backlog(phase, store.matches, at)| + handled == |old(Backlog(phase, store.matches, at))|
      ensures NoneGrows(old(store.matches), store.matches, at)
      ensures handled > 0 ==> TotalRank(store.Tables()) < old(TotalRank(store.Tables()))
      ensures failing == {} && handled < SWEEP_BATCH && (phase.StuckJudging? ==> judging.taken < judging.limit) ==>
                Backlog(phase, store.matches, at) <= locked
    {
      var ids := store.ListCandidates(phase, at, locked);
      ghost var before := store.Tables();
      WorkListIsBacklog(phase, before.matches, at, locked, ids);
      ListKnown(phase, before.matches, at, locked, ids);
      if phase.StuckJudging? {
        var started;
        handled, started := SweepStuckJudging(ids, at, failing);
        StartedPhase(before, store.Tables(), ids, locked, started, at);
      } else {
        handled := SweepRows(phase, ids, at, failing);
        SweptPhase(phase, before, store.Tables(), ids, failing, at);
      }
    }

    /** The boot drain of one phase, on a clock that only goes forward and whatever rows others hold
        locked at each batch.  A full batch lowers the rank of the table, so it stops.  `at` and
        `locked` are those of the last batch. */
    method Drain(phase: Phase, start: Time, failing: set<MatchId>) returns (at: Time, locked: set<MatchId>)
      requires Valid()
      modifies store, judging
      ensures Valid() && judging.taken >= old(judging.taken) && at >= start
      ensures !phase.StuckJudging? ==> judging.taken == old(judging.taken)
      ensures NoneGrows(old(store.matches), store.matches, start)
      ensures failing == {} && (phase.StuckJudging? ==> judging.taken < judging.limit) ==>
                Backlog(phase, store.matches, at) <= locked
    {
      at, locked := start, {};
      while true
        invariant Valid() && judging.taken >= old(judging.taken) && at >= start
        invariant !phase.StuckJudging? ==> judging.taken == old(judging.taken)
        invariant NoneGrows(old(store.matches), store.matches, start)
        decreases TotalRank(store.Tables())
      {
        TotalNonNegative(store.Tables());
        ghost var before := store.matches;
        var now: Time :| at <= now;
        at, locked := now, *;
        var n := SweepPhase(phase, at, locked, failing);
        StillNoneGrows(old(store.matches), before, store.matches, start, at);
        if n < SWEEP_BATCH { break; }
      }
    }

    // one of several drains in a row, seen from the start of the first
    method DrainNext(phase: Phase, start: Time, from: Time, failing: set<MatchId>)
      returns (at: Time, locked: set<MatchId>)
      requires Valid() && start <= from
      modifies store, judging
      ensures Valid() && at >= from && (!phase.StuckJudging? ==> judging.taken == old(judging.taken))
      ensures NoneGrows(old(store.matches), store.matches, start)
      ensures failing == {} && (phase.StuckJudging? ==> judging.taken < judging.limit) ==>
                Backlog(phase, store.matches, start) <= locked
    {
      at, locked := Drain(phase, from, failing);
      BacklogGrows(phase, store.matches, start, at);
    }

    /** What RunSweeper does at boot: all four phases in turn.  With no failing row nothing that was due
        at the start is left, but for rows that others held locked at the last batch of their phase, and
        for stuck matches when the judging slots ran out. */
    method DrainAll(start: Time, failing: set<MatchId>)
      returns (expired: set<MatchId>, stuck: set<MatchId>, exhausted: set<MatchId>, stale: set<MatchId>)
      requires Valid()
      modifies store, judging
      ensures Valid()
      ensures failing == {} ==>
                Backlog(ExpiredDrawing, store.matches, start) <= expired
                && (judging.taken < judging.limit ==> Backlog(StuckJudging, store.matches, start) <= stuck)
                && Backlog(ExhaustedJudging, store.matches, start) <= exhausted
                && Backlog(StaleOpen, store.matches, start) <= stale
    {
      var at;
      at, expired := DrainNext(ExpiredDrawing, start, start, failing);
      at, stuck := DrainNext(StuckJudging, start, at, failing);
      at, exhausted := DrainNext(ExhaustedJudging, start, at, failing);
      at, stale := DrainNext(StaleOpen, start, at, failing);
    }
  }

  // the first i seats are sorted into the two lists
  ghost predicate Partitioned(players: seq<Seat>, i: nat, submitted: seq<Seat>, missing: seq<Seat>) {
    i <= |players|
    && Submitted(players) == submitted + Submitted(players[i..])
    && Missing(players) == missing + Missing(players[i..])
  }

  lemma NonePartitioned(players: seq<Seat>)
    ensures Partitioned(players, 0, [], [])
  {
    assert players[0..] == players;
  }

  lemma AllPartitioned(players: seq<Seat>, submitted: seq<Seat>, missing: seq<Seat>)
    requires Partitioned(players, |players|, submitted, missing)
    ensures submitted == Submitted(players) && missing == Missing(players)
  {
    assert players[|players|..] == [];
  }

  lemma FirstSeat(players: seq<Seat>, i: nat)
    requires i < |players|
    ensures Submitted(players[i..])
         == if players[i].submittedAt.Some? then [players[i]] + Submitted(players[i + 1..])
            else Submitted(players[i + 1..])
    ensures Missing(players[i..])
         == if players[i].submittedAt.None? then [players[i]] + Missing(players[i + 1..])
            else Missing(players[i + 1..])
  {
    assert players[i..][1..] == players[i + 1..];
  }

  lemma NextSeat(players: seq<Seat>, i: nat, submitted: seq<Seat>, missing: seq<Seat>)
    requires i < |players| && Partitioned(players, i, submitted, missing)
    ensures players[i].submittedAt.Some? ==> Partitioned(players, i + 1, submitted + [players[i]], missing)
    ensures players[i].submittedAt.None? ==> Partitioned(players, i + 1, submitted, missing + [players[i]])
  {
    FirstSeat(players, i);
    Shift(submitted, players[i], Submitted(players[i + 1..]));
    Shift(missing, players[i], Missing(players[i + 1..]));
  }

  lemma Shift<T>(a: seq<T>, x: T, rest: seq<T>)
    ensures a + ([x] + rest) == (a + [x]) + rest
  {
  }

  function Repeat<T>(x: T, n: nat): (r: seq<T>)
    ensures |r| == n && forall i :: 0 <= i < n ==> r[i] == x
  {
    seq(n, _ => x)
  }

  lemma RepeatMore<T>(xs: seq<T>, x: T, n: nat)
    ensures (xs + Repeat(x, n)) + [x] == xs + Repeat(x, n + 1)
  {
  }

  // ---- a list of stuck matches ----

  predicate NoneStuck(matches: seq<Match>, ids: seq<MatchId>, at: Time) {
    forall i :: 0 <= i < |ids| ==> ids[i] < |matches| && !RefireAllowed(matches[ids[i]], at)
  }

  // judging again, since a time `at`
  predicate StartedSince(m: Match, n: Match, at: Time) {
    m.status.Judging? && n.startedAt.Some? && at <= n.startedAt.value && n == WithJudging(m, n.startedAt.value)
  }

  /** Exactly the rows in `started` have moved, each by the start of one pass since `at`. */
  predicate PassesStarted(before: seq<Match>, after: seq<Match>, started: set<MatchId>, at: Time) {
    |after| == |before|
    && (forall id :: id in started ==> id < |before|)
    && (forall i :: 0 <= i < |before| ==>
          if i in started then StartedSince(before[i], after[i], at) else after[i] == before[i])
  }

  /** The first i rows of a list have been gone through. */
  predicate Swept(was: Db, db: Db, ids: seq<MatchId>, i: nat, handled: nat, started: set<MatchId>, at: Time) {
    i <= |ids| && |started| <= handled <= i && started <= Elements(ids[..i])
    && PassesStarted(was.matches, db.matches, started, at)
    && db.ledger == was.ledger + Repeat(ProviderRow, |started|)
    && (handled == i ==> NoneStuck(db.matches, ids[..i], at))
    && (FreshList(was.matches, ids, at) ==> handled == |started|)
  }

  lemma SweptNone(was: Db, ids: seq<MatchId>, at: Time)
    ensures Swept(was, was, ids, 0, 0, {}, at)
  {
    assert was.ledger + Repeat(ProviderRow, 0) == was.ledger;
  }

  lemma SweptList(was: Db, db: Db, ids: seq<MatchId>, i: nat, handled: nat, started: set<MatchId>, at: Time)
    requires Swept(was, db, ids, i, handled, started, at)
    ensures |started| <= handled <= |ids| && started <= Elements(ids)
    ensures handled == |ids| ==> NoneStuck(db.matches, ids, at)
  {
    if i == |ids| { assert ids[..i] == ids; }
    forall id | id in started ensures id in ids {
      assert id in ids[..i];
    }
  }

  lemma SweptOneMore(
    was: Db, before: Db, db: Db, ids: seq<MatchId>, i: nat, handled: nat, started: set<MatchId>,
    at: Time, now: Time, refired: Option<bool>, handled': nat, started': set<MatchId>)
    requires i < |ids| && ids[i] < |before.matches| && Distinct(ids) && at <= now
    requires Swept(was, before, ids, i, handled, started, at)
    requires refired.Some? ==> refired.value == RefireAllowed(before.matches[ids[i]], now)
    requires db.matches
          == if refired == Some(true) then before.matches[ids[i] := WithJudging(before.matches[ids[i]], now)]
             else before.matches
    requires db.ledger == if refired == Some(true) then before.ledger + [ProviderRow] else before.ledger
    requires handled' == if refired.Some? then handled + 1 else handled
    requires started' == if refired == Some(true) then started + {ids[i]} else started
    ensures Swept(was, db, ids, i + 1, handled', started', at)
    ensures |started'| == |started| + if refired == Some(true) then 1 else 0
  {
    NextElement(ids, i);
    if refired.Some? { OneMoreHandled(before.matches, db.matches, ids, i, at, now); }
    if refired == Some(true) {
      OneMoreStarted(was.matches, before.matches, started, ids[i], at, now);
      RepeatMore(was.ledger, ProviderRow, |started|);
    }
    if FreshList(was.matches, ids, at) {
      LaterAllowed(was.matches[ids[i]], at, now);
      assert before.matches[ids[i]] == was.matches[ids[i]];
    }
  }

  lemma LaterAllowed(m: Match, at: Time, now: Time)
    requires RefireAllowed(m, at) && at <= now
    ensures RefireAllowed(m, now)
  {
  }

  lemma OneMoreStarted(before: seq<Match>, after: seq<Match>, started: set<MatchId>, id: MatchId, at: Time, now: Time)
    requires PassesStarted(before, after, started, at) && id < |before| && id !in started
    requires RefireAllowed(after[id], now) && at <= now
    ensures PassesStarted(before, after[id := WithJudging(after[id], now)], started + {id}, at)
    ensures |started + {id}| == |started| + 1
  {
  }

  lemma OneMoreHandled(before: seq<Match>, after: seq<Match>, ids: seq<MatchId>, i: nat, at: Time, now: Time)
    requires i < |ids| && ids[i] < |before| && at <= now
    requires after
          == if RefireAllowed(before[ids[i]], now) then before[ids[i] := WithJudging(before[ids[i]], now)] else before
    ensures NoneStuck(before, ids[..i], at) ==> NoneStuck(after, ids[..i + 1], at)
  {
  }

  // ---- a list just read ----

  // no id twice, and every row still to be re-fired
  predicate FreshList(matches: seq<Match>, ids: seq<MatchId>, at: Time) {
    Distinct(ids) && forall i :: 0 <= i < |ids| ==> ids[i] < |matches| && RefireAllowed(matches[ids[i]], at)
  }

  lemma ListKnown(phase: Phase, matches: seq<Match>, at: Time, locked: set<MatchId>, ids: seq<MatchId>)
    requires IsWorkList(phase, matches, at, locked, ids)
    ensures forall i :: 0 <= i < |ids| ==> ids[i] < |matches|
    ensures phase.StuckJudging? ==> FreshList(matches, ids, at)
  {
    forall i | 0 <= i < |ids| ensures ids[i] < |matches| && Candidate(phase, matches[ids[i]], at) {
      assert Free(phase, matches, at, locked, ids[i]);
    }
  }

  /** Rows whose pass was started are stuck no longer, and are on no other backlog. */
  lemma StartedLeave(before: seq<Match>, after: seq<Match>, started: set<MatchId>, at: Time)
    requires PassesStarted(before, after, started, at)
    ensures Backlog(StuckJudging, after, at) == Backlog(StuckJudging, before, at) - started
    ensures NoneGrows(before, after, at)
  {
  }

  lemma AllStarted(ids: seq<MatchId>, started: set<MatchId>)
    requires started <= Elements(ids) && |started| == |Elements(ids)|
    ensures started == Elements(ids)
  {
    SizeOfRest(Elements(ids), started);
  }

  lemma StartedRanks(before: Db, after: Db, started: set<MatchId>, at: Time)
    requires PassesStarted(before.matches, after.matches, started, at) && started != {}
    ensures TotalRank(after) < TotalRank(before)
  {
    var k :| k in started;
    forall i | 0 <= i < |before.matches| ensures RankOf()(after.matches[i]) <= RankOf()(before.matches[i]) {
    }
    SumByAtMost(before.matches, after.matches, RankOf(), k);
  }

  /** One batch of the stuck-judging phase. */
  lemma StartedPhase(
    before: Db, after: Db, ids: seq<MatchId>, locked: set<MatchId>, started: set<MatchId>, at: Time)
    requires IsWorkList(StuckJudging, before.matches, at, locked, ids) && started <= Elements(ids)
    requires PassesStarted(before.matches, after.matches, started, at)
    ensures |Backlog(StuckJudging, after.matches, at)| + |started| == |Backlog(StuckJudging, before.matches, at)|
    ensures NoneGrows(before.matches, after.matches, at)
    ensures |started| > 0 ==> TotalRank(after) < TotalRank(before)
    ensures |started| == |ids| < SWEEP_BATCH ==> Backlog(StuckJudging, after.matches, at) <= locked
  {
    WorkListIsBacklog(StuckJudging, before.matches, at, locked, ids);
    StartedLeave(before.matches, after.matches, started, at);
    SizeOfRest(Backlog(StuckJudging, before.matches, at), started);
    if |started| > 0 { StartedRanks(before, after, started, at); }
    if |started| == |ids| { AllStarted(ids, started); }
  }

  // ---- the other phases' loop ----

  // the three phases' transactions
  lemma SweptRowIs(curve: Elo.Curve, db: Db, mid: MatchId, now: Time)
    requires Elo.IsCurve(curve) && RowKnown(db, mid)
    ensures Commit(curve, db, SweepTx(ExpiredDrawing, mid, now))
         == DuelTransactions.ResolveExpiry(curve, db, mid, now).0
    ensures Commit(curve, db, SweepTx(ExhaustedJudging, mid, now)) == Abort(db, mid).0
    ensures Commit(curve, db, SweepTx(StaleOpen, mid, now)) == Reap(db, mid)
  {
  }

  /** What handling the rows in `done` has come to, for a phase listed at `at`. */
  ghost predicate Progress(phase: Phase, was: Db, db: Db, at: Time, done: set<MatchId>) {
    |db.matches| == |was.matches|
    && Backlog(phase, db.matches, at) == Backlog(phase, was.matches, at) - done
    && NoneGrows(was.matches, db.matches, at)
    && TotalRank(db) <= TotalRank(was)
    && (done * Backlog(phase, was.matches, at) != {} ==> TotalRank(db) < TotalRank(was))
  }

  // of the first i rows listed, those not failing are done
  ghost predicate RowsHandled(
    phase: Phase, was: Db, db: Db, ids: seq<MatchId>, i: nat, at: Time, failing: set<MatchId>,
    handled: nat, done: set<MatchId>)
  {
    HandledOf(ids, i, done, failing) && |done| == handled && Progress(phase, was, db, at, done)
  }

  lemma NoProgress(phase: Phase, was: Db, at: Time)
    ensures Progress(phase, was, was, at, {})
  {
  }

  lemma StillNoneGrows(was: seq<Match>, before: seq<Match>, after: seq<Match>, start: Time, at: Time)
    requires NoneGrows(was, before, start) && NoneGrows(before, after, at) && start <= at
    ensures NoneGrows(was, after, start)
  {
  }

  lemma RowProgress(
    curve: Elo.Curve, phase: Phase, was: Db, before: Db, mid: MatchId, at: Time, now: Time, done: set<MatchId>)
    requires Elo.IsCurve(curve) && ValidDb(before) && RowKnown(before, mid) && at <= now && mid !in done
    requires Progress(phase, was, before, at, done)
    ensures Progress(phase, was, Commit(curve, before, SweepTx(phase, mid, now)), at, done + {mid})
  {
    var next := Commit(curve, before, SweepTx(phase, mid, now));
    SweptRowClears(curve, before, phase, mid, at, now);
    ClearedBacklog(phase, before, next, mid, at);
    RestWithout(Backlog(phase, was.matches, at), done, mid);
    StillNoneGrows(was.matches, before.matches, next.matches, at, at);
    SweptTotal(curve, before, phase, mid, now);
    if mid in Backlog(phase, was.matches, at) {
      assert mid in Backlog(phase, before.matches, at);
      BacklogGrows(phase, before.matches, at, now);
      assert Candidate(phase, before.matches[mid], now);
    } else {
      assert (done + {mid}) * Backlog(phase, was.matches, at) == done * Backlog(phase, was.matches, at);
    }
  }

  /** One batch of the other phases. */
  lemma SweptPhase(phase: Phase, before: Db, after: Db, ids: seq<MatchId>, failing: set<MatchId>, at: Time)
    requires Elements(ids) <= Backlog(phase, before.matches, at)
    requires Progress(phase, before, after, at, Elements(ids) - failing)
    ensures |Backlog(phase, after.matches, at)| + |Elements(ids) - failing| == |Backlog(phase, before.matches, at)|
    ensures |Elements(ids) - failing| > 0 ==> TotalRank(after) < TotalRank(before)
    ensures NoneGrows(before.matches, after.matches, at)
    ensures failing == {} ==> Backlog(phase, after.matches, at) == Backlog(phase, before.matches, at) - Elements(ids)
  {
    var backlog, done := Backlog(phase, before.matches, at), Elements(ids) - failing;
    SizeOfRest(backlog, done);
    assert done * backlog == done;
    if failing == {} { assert done == Elements(ids); }
  }
}
