/** No match is ever stuck: once its time has come a sweeper lists and moves it, and from every
    reachable state the sweeper of one process with a free slot can bring it to an end, taking its
    work lists as the queries return them. */
module DuelLiveness {
  import opened DuelState
  import opened DuelInvariants
  import opened DuelCommits
  import opened DuelMachine
  import opened DuelLists
  import opened DuelRanks
  import opened DuelRuns
  import Elo

  /** The match's TTL, deadline or stale window has passed. */
  predicate Due(m: Match, now: Time) {
    match m.status
    case Open => m.createdAt + OPEN_TTL_SECS <= now
    case Drawing => m.deadline.Some? && m.deadline.value <= now
    case Judging => m.startedAt.None? || m.startedAt.value + JUDGE_STALE_SECS <= now
    case _ => false
  }

  function PhaseFor(m: Match): Phase {
    match m.status
    case Drawing => ExpiredDrawing
    case Judging => if m.attempts < MAX_JUDGE_ATTEMPTS then StuckJudging else ExhaustedJudging
    case _ => StaleOpen
  }

  /** A due match is on exactly one sweeper's list. */
  lemma DueIsListed(m: Match, now: Time)
    requires ValidMatch(m) && Due(m, now)
    ensures forall phase :: Candidate(phase, m, now) <==> phase == PhaseFor(m)
  {
  }

  lemma StaysDue(m: Match, now: Time, later: Time)
    requires Due(m, now) && now <= later
    ensures Due(m, later)
  {
  }

  /** Every match that has not ended becomes due, from any time on. */
  lemma EventuallyDue(m: Match, from: Time) returns (now: Time)
    requires ValidMatch(m) && !Terminal(m)
    ensures now >= from && Due(m, now)
  {
    var due := match m.status
      case Open => m.createdAt + OPEN_TTL_SECS
      case Drawing => m.deadline.value
      case Judging => if m.startedAt.Some? then m.startedAt.value + JUDGE_STALE_SECS else from
      case _ => from;
    now := if due < from then from else due;
    StaysDue(m, due, now);
  }

  // ---- a sweeper's paths ----

  /** A path in which every list is what the query returns, no row being locked. */
  ghost predicate IsSweep(curve: Elo.Curve, ws: seq<World>, es: seq<Event>)
    requires Elo.IsCurve(curve)
  {
    IsPath(curve, ws, es)
    && forall i {:trigger es[i]} :: 0 <= i < |es| && es[i].List? ==>
         IsWorkList(es[i].phase, ws[i].db.matches, es[i].now, {}, es[i].ids)
  }

  // the events that read the clock
  predicate Timed(e: Event) {
    e.List? || e.SweepRow?
  }

  /** The clock never shows less than `from`, and never runs back. */
  predicate ClocksFrom(es: seq<Event>, from: Time) {
    (forall i :: 0 <= i < |es| && Timed(es[i]) ==> from <= es[i].now)
    && forall i, j :: 0 <= i < j < |es| && Timed(es[i]) && Timed(es[j]) ==> es[i].now <= es[j].now
  }

  predicate AllAt(es: seq<Event>, now: Time) {
    forall i :: 0 <= i < |es| && Timed(es[i]) ==> es[i].now == now
  }

  lemma LaterClocks(es: seq<Event>, ds: seq<Event>, from: Time, now: Time)
    requires AllAt(es, now) && from <= now && ClocksFrom(ds, now)
    ensures ClocksFrom(es + ds, from)
  {
    var all := es + ds;
    forall i | 0 <= i < |all| && Timed(all[i]) ensures i < |es| ==> all[i].now == now {
      assert all[i] == if i < |es| then es[i] else ds[i - |es|];
    }
    forall i, j | 0 <= i < j < |all| && Timed(all[i]) && Timed(all[j]) ensures all[i].now <= all[j].now {
      assert all[j] == if j < |es| then es[j] else ds[j - |es|];
    }
  }

  lemma SweepConcat(curve: Elo.Curve, ws: seq<World>, es: seq<Event>, xs: seq<World>, ds: seq<Event>)
    requires Elo.IsCurve(curve) && IsSweep(curve, ws, es) && IsSweep(curve, xs, ds) && ws[|es|] == xs[0]
    ensures IsSweep(curve, ws[..|es|] + xs, es + ds)
    ensures (ws[..|es|] + xs)[0] == ws[0] && (ws[..|es|] + xs)[|es + ds|] == xs[|ds|]
  {
    var all, events := ws[..|es|] + xs, es + ds;
    PathConcat(curve, ws, es, xs, ds);
    forall i {:trigger events[i]} | 0 <= i < |events| && events[i].List?
      ensures IsWorkList(events[i].phase, all[i].db.matches, events[i].now, {}, events[i].ids)
    {
      if i < |es| {
        assert events[i] == es[i] && all[i] == ws[i];
      } else {
        assert events[i] == ds[i - |es|] && all[i] == xs[i - |es|];
      }
    }
  }

  lemma OneStepSweep(curve: Elo.Curve, w: World, e: Event)
    requires Elo.IsCurve(curve) && Enabled(curve, w, e)
    requires e.List? ==> IsWorkList(e.phase, w.db.matches, e.now, {}, e.ids)
    ensures IsSweep(curve, [w, Step(curve, w, e)], [e])
  {
    OneStepPath(curve, w, e);
  }

  lemma ExtendSweep(curve: Elo.Curve, ws: seq<World>, es: seq<Event>, e: Event)
    requires Elo.IsCurve(curve) && IsSweep(curve, ws, es) && Enabled(curve, ws[|es|], e) && !e.List?
    ensures IsSweep(curve, ws + [Step(curve, ws[|es|], e)], es + [e])
  {
    OneStepSweep(curve, ws[|es|], e);
    SweepConcat(curve, ws, es, [ws[|es|], Step(curve, ws[|es|], e)], [e]);
    assert ws[..|es|] + [ws[|es|], Step(curve, ws[|es|], e)] == ws + [Step(curve, ws[|es|], e)];
  }

  predicate HasFreeSlot(w: World, p: nat) {
    p < |w.procs| && SlotFree(w.procs[p])
  }

  /** Goroutine `tid` is a sweeper of the process with these rows still to do, and no slot. */
  predicate Sweeping(w: World, p: nat, tid: nat, phase: Phase, at: Time, ids: seq<MatchId>) {
    HasFreeSlot(w, p) && tid < |w.agents| && w.agents[tid] == Agent(p, Sweep(phase, at, ids, false))
  }

  // ---- single steps ----

  lemma ListStep(curve: Elo.Curve, w: World, p: nat, phase: Phase, now: Time, ids: seq<MatchId>)
    requires Elo.IsCurve(curve) && HasFreeSlot(w, p) && IsWorkList(phase, w.db.matches, now, {}, ids)
    ensures Enabled(curve, w, List(p, phase, now, ids))
    ensures var next := Step(curve, w, List(p, phase, now, ids));
            next.db == w.db && Sweeping(next, p, |w.agents|, phase, now, ids)
  {
  }

  lemma RowStep(curve: Elo.Curve, w: World, p: nat, tid: nat, phase: Phase, at: Time, ids: seq<MatchId>, now: Time)
    requires Elo.IsCurve(curve) && Sweeping(w, p, tid, phase, at, ids) && ids != [] && !phase.StuckJudging?
    ensures Enabled(curve, w, SweepRow(tid, now))
    ensures var next := Step(curve, w, SweepRow(tid, now));
            next.db == Commit(curve, w.db, SweepTx(phase, ids[0], now))
            && Sweeping(next, p, tid, phase, at, ids[1..])
  {
  }

  lemma AcquireStep(curve: Elo.Curve, w: World, p: nat, tid: nat, at: Time, ids: seq<MatchId>)
    requires Elo.IsCurve(curve) && Sweeping(w, p, tid, StuckJudging, at, ids) && ids != []
    ensures Enabled(curve, w, SweepAcquire(tid))
    ensures Step(curve, w, SweepAcquire(tid))
         == w.(procs := w.procs[p := Take(w.procs[p])],
               agents := w.agents[tid := Agent(p, Sweep(StuckJudging, at, ids, true))])
  {
  }

  // the slot passes to the pass that was started
  lemma FireStep(curve: Elo.Curve, w: World, p: nat, tid: nat, at: Time, ids: seq<MatchId>, now: Time)
    requires Elo.IsCurve(curve) && p < |w.procs| && tid < |w.agents| && ids != []
    requires w.agents[tid] == Agent(p, Sweep(StuckJudging, at, ids, true)) && Refires(w.db, w.agents[tid].job, now)
    ensures Enabled(curve, w, SweepRow(tid, now))
    ensures var next := Step(curve, w, SweepRow(tid, now));
            next.db == Commit(curve, w.db, RefireTx(ids[0], now)) && next.procs == w.procs
            && next.agents
               == w.agents[tid := Agent(p, Sweep(StuckJudging, at, ids[1..], false))] + [Agent(p, PassStarted(ids[0]))]
  {
  }

  lemma FailStep(curve: Elo.Curve, w: World, p: nat, tid: nat, mid: MatchId)
    requires Elo.IsCurve(curve) && p < |w.procs| && tid < |w.agents| && w.agents[tid] == Agent(p, PassStarted(mid))
    ensures Enabled(curve, w, PassFail(tid))
    ensures Step(curve, w, PassFail(tid))
         == w.(procs := w.procs[p := Release(w.procs[p])], agents := w.agents[tid := Agent(p, Ended)])
  {
  }

  // the row needs no pass any more: the slot is given back
  lemma RefuseStep(curve: Elo.Curve, w: World, p: nat, tid: nat, at: Time, ids: seq<MatchId>, now: Time)
    requires Elo.IsCurve(curve) && p < |w.procs| && tid < |w.agents| && ids != []
    requires w.agents[tid] == Agent(p, Sweep(StuckJudging, at, ids, true)) && !Refires(w.db, w.agents[tid].job, now)
    ensures Enabled(curve, w, SweepRow(tid, now))
    ensures var next := Step(curve, w, SweepRow(tid, now));
            next.db == Commit(curve, w.db, RefireTx(ids[0], now)) && next.procs == w.procs[p := Release(w.procs[p])]
            && next.agents == w.agents[tid := Agent(p, Sweep(StuckJudging, at, ids[1..], false))]
  {
  }

  lemma EndStep(curve: Elo.Curve, w: World, p: nat, tid: nat, phase: Phase, at: Time, ids: seq<MatchId>)
    requires Elo.IsCurve(curve) && Sweeping(w, p, tid, phase, at, ids)
    ensures Enabled(curve, w, SweepEnd(tid))
    ensures var next := Step(curve, w, SweepEnd(tid));
            next.db == w.db && HasFreeSlot(next, p)
  {
  }

  // ---- one row ----

  /** One stuck row: a slot, the re-fire, and a pass that fails, or the slot back at once. */
  lemma StuckRowSweep(curve: Elo.Curve, w: World, p: nat, tid: nat, at: Time, ids: seq<MatchId>, now: Time)
    returns (ws: seq<World>, es: seq<Event>)
    requires Elo.IsCurve(curve) && Sweeping(w, p, tid, StuckJudging, at, ids) && ids != []
    ensures IsSweep(curve, ws, es) && ws[0] == w && Sweeping(ws[|es|], p, tid, StuckJudging, at, ids[1..])
    ensures ws[|es|].db == Commit(curve, w.db, RefireTx(ids[0], now)) && AllAt(es, now)
  {
    AcquireStep(curve, w, p, tid, at, ids);
    OneStepSweep(curve, w, SweepAcquire(tid));
    var held := Step(curve, w, SweepAcquire(tid));
    ws, es := [w, held], [SweepAcquire(tid)];
    ExtendSweepRow(curve, ws, es, p, tid, at, ids, now);
    var fired := Step(curve, held, SweepRow(tid, now));
    ws, es := ws + [fired], es + [SweepRow(tid, now)];
    if Refires(held.db, held.agents[tid].job, now) {
      FireStep(curve, held, p, tid, at, ids, now);
      ws, es := FailSweep(curve, ws, es, p, |w.agents|, ids[0], now);
    } else {
      RefuseStep(curve, held, p, tid, at, ids, now);
    }
  }

  // the pass that was started fails
  lemma FailSweep(curve: Elo.Curve, ws: seq<World>, es: seq<Event>, p: nat, tid: nat, mid: MatchId, now: Time)
    returns (ws': seq<World>, es': seq<Event>)
    requires Elo.IsCurve(curve) && IsSweep(curve, ws, es) && AllAt(es, now)
    requires p < |ws[|es|].procs| && tid < |ws[|es|].agents| && ws[|es|].agents[tid] == Agent(p, PassStarted(mid))
    ensures IsSweep(curve, ws', es') && ws'[0] == ws[0] && AllAt(es', now)
    ensures var w := ws[|es|];
            ws'[|es'|] == w.(procs := w.procs[p := Release(w.procs[p])], agents := w.agents[tid := Agent(p, Ended)])
  {
    FailStep(curve, ws[|es|], p, tid, mid);
    ExtendSweep(curve, ws, es, PassFail(tid));
    ws', es' := ws + [Step(curve, ws[|es|], PassFail(tid))], es + [PassFail(tid)];
  }

  lemma ExtendSweepRow(
    curve: Elo.Curve, ws: seq<World>, es: seq<Event>, p: nat, tid: nat, at: Time, ids: seq<MatchId>, now: Time)
    requires Elo.IsCurve(curve) && IsSweep(curve, ws, es) && ids != []
    requires var w := ws[|es|];
             p < |w.procs| && tid < |w.agents| && w.agents[tid] == Agent(p, Sweep(StuckJudging, at, ids, true))
    ensures IsSweep(curve, ws + [Step(curve, ws[|es|], SweepRow(tid, now))], es + [SweepRow(tid, now)])
  {
    ExtendSweep(curve, ws, es, SweepRow(tid, now));
  }

  lemma RowSweep(curve: Elo.Curve, w: World, p: nat, tid: nat, phase: Phase, at: Time, ids: seq<MatchId>, now: Time)
    returns (ws: seq<World>, es: seq<Event>)
    requires Elo.IsCurve(curve) && Sweeping(w, p, tid, phase, at, ids) && ids != []
    ensures IsSweep(curve, ws, es) && ws[0] == w && Sweeping(ws[|es|], p, tid, phase, at, ids[1..])
    ensures ws[|es|].db == Commit(curve, w.db, SweepTx(phase, ids[0], now)) && AllAt(es, now)
  {
    if phase.StuckJudging? {
      ws, es := StuckRowSweep(curve, w, p, tid, at, ids, now);
    } else {
      RowStep(curve, w, p, tid, phase, at, ids, now);
      OneStepSweep(curve, w, SweepRow(tid, now));
      ws, es := [w, Step(curve, w, SweepRow(tid, now))], [SweepRow(tid, now)];
    }
  }

  // ---- one batch ----

  predicate Known(w: World, ids: seq<MatchId>) {
    forall i :: 0 <= i < |ids| ==> ids[i] < |w.db.matches|
  }

  /** A sweeper can go through its whole list, and no rank goes up. */
  lemma {:induction false} RowsSweep(
    curve: Elo.Curve, w: World, p: nat, tid: nat, phase: Phase, at: Time, ids: seq<MatchId>, now: Time)
    returns (ws: seq<World>, es: seq<Event>)
    requires Elo.IsCurve(curve) && Inv(w) && Sweeping(w, p, tid, phase, at, ids) && Known(w, ids)
    ensures IsSweep(curve, ws, es) && ws[0] == w && Sweeping(ws[|es|], p, tid, phase, at, []) && AllAt(es, now)
    ensures |ws[|es|].db.matches| == |w.db.matches| && TotalRank(ws[|es|].db) <= TotalRank(w.db)
    ensures ids != [] && Candidate(phase, w.db.matches[ids[0]], now) ==> TotalRank(ws[|es|].db) < TotalRank(w.db)
    decreases |ids|
  {
    if ids == [] {
      ws, es := [w], [];
    } else {
      var ws1, es1 := RowSweep(curve, w, p, tid, phase, at, ids, now);
      assert RowKnown(w.db, ids[0]);
      SweptTotal(curve, w.db, phase, ids[0], now);
      PathInv(curve, ws1, es1, |es1|);
      var ws2, es2 := RowsSweep(curve, ws1[|es1|], p, tid, phase, at, ids[1..], now);
      SweepConcat(curve, ws1, es1, ws2, es2);
      ws, es := ws1[..|es1|] + ws2, es1 + es2;
    }
  }

  lemma BothAt(es: seq<Event>, ds: seq<Event>, now: Time)
    requires AllAt(es, now) && AllAt(ds, now)
    ensures AllAt(es + ds, now)
  {
    forall i | 0 <= i < |es + ds| && Timed((es + ds)[i]) ensures (es + ds)[i].now == now {
      assert (es + ds)[i] == if i < |es| then es[i] else ds[i - |es|];
    }
  }

  // the list is read
  lemma ListSweep(curve: Elo.Curve, w: World, p: nat, phase: Phase, now: Time, ids: seq<MatchId>)
    returns (ws: seq<World>, es: seq<Event>)
    requires Elo.IsCurve(curve) && HasFreeSlot(w, p) && IsWorkList(phase, w.db.matches, now, {}, ids)
    ensures IsSweep(curve, ws, es) && |es| == 1 && ws[0] == w && AllAt(es, now)
    ensures ws[1].db == w.db && Sweeping(ws[1], p, |w.agents|, phase, now, ids)
  {
    ListStep(curve, w, p, phase, now, ids);
    OneStepSweep(curve, w, List(p, phase, now, ids));
    ws, es := [w, Step(curve, w, List(p, phase, now, ids))], [List(p, phase, now, ids)];
  }

  // the list is done
  lemma EndSweep(curve: Elo.Curve, ws: seq<World>, es: seq<Event>, p: nat, tid: nat, phase: Phase, now: Time)
    returns (ws': seq<World>, es': seq<Event>)
    requires Elo.IsCurve(curve) && IsSweep(curve, ws, es) && AllAt(es, now)
    requires Sweeping(ws[|es|], p, tid, phase, now, [])
    ensures IsSweep(curve, ws', es') && ws'[0] == ws[0] && AllAt(es', now)
    ensures ws'[|es'|].db == ws[|es|].db && HasFreeSlot(ws'[|es'|], p)
  {
    EndStep(curve, ws[|es|], p, tid, phase, now, []);
    ExtendSweep(curve, ws, es, SweepEnd(tid));
    ws', es' := ws + [Step(curve, ws[|es|], SweepEnd(tid))], es + [SweepEnd(tid)];
  }

  /** While a match is due, one sweep of its phase, with the list the query returns, lowers the rank
      of the whole table: of the match itself or, if the batch is full without it, of older ones. */
  lemma SweepAdvances(curve: Elo.Curve, w: World, p: nat, mid: MatchId, now: Time)
    returns (ws: seq<World>, es: seq<Event>)
    requires Elo.IsCurve(curve) && Inv(w) && HasFreeSlot(w, p)
    requires mid < |w.db.matches| && Due(w.db.matches[mid], now)
    ensures IsSweep(curve, ws, es) && ws[0] == w && HasFreeSlot(ws[|es|], p) && AllAt(es, now)
    ensures |ws[|es|].db.matches| == |w.db.matches| && TotalRank(ws[|es|].db) < TotalRank(w.db)
  {
    var m := w.db.matches[mid];
    assert ValidMatch(m);
    DueIsListed(m, now);
    var phase, tid := PhaseFor(m), |w.agents|;
    var ids := Batch(OldestFirst(phase, w.db.matches, now, {}, |w.db.matches|));
    BatchIsWorkList(phase, w.db.matches, now, {});
    assert Free(phase, w.db.matches, now, {}, mid);
    var ws0, es0 := ListSweep(curve, w, p, phase, now, ids);
    PathInv(curve, ws0, es0, 1);
    var ws1, es1 := RowsSweep(curve, ws0[1], p, tid, phase, now, ids, now);
    SweepConcat(curve, ws0, es0, ws1, es1);
    BothAt(es0, es1, now);
    ws, es := EndSweep(curve, ws0[..1] + ws1, es0 + es1, p, tid, phase, now);
  }

  /** From every reachable state, and whatever its goroutines are doing, the sweeper of one process
      with a free slot can bring any match to its end, on a clock that starts anywhere and only
      goes forward. */
  lemma {:induction false} EveryMatchCanEnd(curve: Elo.Curve, w: World, p: nat, mid: MatchId, from: Time)
    returns (ws: seq<World>, es: seq<Event>)
    requires Elo.IsCurve(curve) && Inv(w) && HasFreeSlot(w, p) && mid < |w.db.matches|
    ensures IsSweep(curve, ws, es) && ws[0] == w && ClocksFrom(es, from)
    ensures mid < |ws[|es|].db.matches| && Terminal(ws[|es|].db.matches[mid])
    decreases TotalRank(w.db)
  {
    var m := w.db.matches[mid];
    assert ValidMatch(m);
    TotalNonNegative(w.db);
    if Terminal(m) {
      ws, es := [w], [];
    } else {
      var now := EventuallyDue(m, from);
      var ws1, es1 := SweepAdvances(curve, w, p, mid, now);
      PathInv(curve, ws1, es1, |es1|);
      TotalNonNegative(ws1[|es1|].db);
      var ws2, es2 := EveryMatchCanEnd(curve, ws1[|es1|], p, mid, now);
      SweepConcat(curve, ws1, es1, ws2, es2);
      LaterClocks(es1, es2, from, now);
      ws, es := ws1[..|es1|] + ws2, es1 + es2;
    }
  }
}
