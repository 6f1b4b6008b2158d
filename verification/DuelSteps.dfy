/** Every step of the running system keeps the invariant. */
module DuelSteps {
  import opened Wrappers
  import opened DuelState
  import opened DuelTransactions
  import opened DuelInvariants
  import opened DuelRows
  import opened DuelTables
  import opened DuelCommits
  import opened DuelMachine
  import opened Sums
  import Elo

  // ---- slots ----

  lemma {:induction false} HoldersNonNegative(agents: seq<Agent>, p: nat)
    ensures Holders(agents, p) >= 0
  {
    if agents != [] { HoldersNonNegative(agents[1..], p); }
  }

  lemma BecomeHolders(w: World, tid: nat, job: Job)
    requires SlotsConserved(w)
    requires !HoldsSlot(JobOf(w, tid)) && HoldsSlot(job) && JobOf(w, tid) != Ended ==>
               SlotFree(w.procs[w.agents[tid].proc])
    requires JobOf(w, tid) == Ended ==> !HoldsSlot(job)
    ensures SlotsConserved(Become(w, tid, job))
  {
    if tid < |w.agents| && w.agents[tid].proc < |w.procs| {
      var next := Become(w, tid, job);
      forall p | 0 <= p < |next.procs|
        ensures 1 <= next.procs[p].limit && next.procs[p].taken <= next.procs[p].limit
                && next.procs[p].taken == Holders(next.agents, p) + next.procs[p].drained
      {
        SumByUpdate(w.agents, HolderIn(p), tid, w.agents[tid].(job := job));
        HoldersNonNegative(next.agents, p);
      }
    }
  }

  lemma SpawnHolders(w: World, proc: nat, job: Job)
    requires SlotsConserved(w) && proc < |w.procs| && (HoldsSlot(job) ==> SlotFree(w.procs[proc]))
    ensures SlotsConserved(Spawn(w, proc, job))
  {
    var next := Spawn(w, proc, job);
    forall p | 0 <= p < |next.procs|
      ensures next.procs[p].taken == Holders(next.agents, p) + next.procs[p].drained
    {
      SumByAppend(w.agents, HolderIn(p), Agent(proc, job));
    }
  }

  lemma HandOverHolders(w: World, tid: nat, job: Job, pass: Job)
    requires SlotsConserved(w) && HoldsSlot(JobOf(w, tid)) && !HoldsSlot(job) && HoldsSlot(pass)
    ensures SlotsConserved(HandOver(w, tid, job, pass))
  {
    var a := w.agents[tid];
    var kept := w.agents[tid := a.(job := job)];
    forall p | 0 <= p < |w.procs|
      ensures Holders(kept + [Agent(a.proc, pass)], p) == Holders(w.agents, p)
    {
      SumByUpdate(w.agents, HolderIn(p), tid, a.(job := job));
      SumByAppend(kept, HolderIn(p), Agent(a.proc, pass));
    }
  }

  lemma CrashHolders(w: World, proc: nat)
    requires SlotsConserved(w) && proc < |w.procs|
    ensures SlotsConserved(w.(agents := Killed(w.agents, proc),
                              procs := w.procs[proc := Limiter(w.procs[proc].limit, 0, 0)]))
  {
    var next := w.(agents := Killed(w.agents, proc), procs := w.procs[proc := Limiter(w.procs[proc].limit, 0, 0)]);
    forall p | 0 <= p < |next.procs|
      ensures 1 <= next.procs[p].limit && next.procs[p].taken <= next.procs[p].limit
              && next.procs[p].taken == Holders(next.agents, p) + next.procs[p].drained
    {
      if p == proc {
        SumByZero(next.agents, HolderIn(p));
      } else {
        SumByAgrees(next.agents, w.agents, HolderIn(p));
      }
    }
  }

  lemma NobodyHoldsYet(w: World, p: nat)
    requires AgentsOk(w) && p >= |w.procs|
    ensures Holders(w.agents, p) == 0
  {
    forall t | 0 <= t < |w.agents| ensures HolderIn(p)(w.agents[t]) == 0 {
      assert w.agents[t].proc < |w.procs|;
    }
    SumByZero(w.agents, HolderIn(p));
  }

  lemma BootSlots(w: World, l: Limiter)
    requires SlotsConserved(w) && AgentsOk(w) && l.limit >= 1 && l.taken == 0 && l.drained == 0
    ensures SlotsConserved(w.(procs := w.procs + [l]))
  {
    NobodyHoldsYet(w, |w.procs|);
  }

  /** Each step takes or gives back exactly the slots its goroutines gain or lose. */
  lemma ScheduleSlots(curve: Elo.Curve, w: World, e: Event)
    requires Elo.IsCurve(curve) && Inv(w) && Enabled(curve, w, e)
    ensures SlotsConserved(Schedule(w, e))
  {
    match e
    case Boot(limit) => BootSlots(w, Limiter(if limit < 1 then 1 else limit, 0, 0));
    case Crash(proc) => CrashHolders(w, proc);
    case SubmitAcquire(proc, mid) => SpawnHolders(w, proc, SubmitHolding(mid));
    case SubmitCommit(_, mid, _, held) =>
      if held.Some? { BecomeHolders(w, held.value, PassStarted(mid)); }
    case List(proc, phase, now, ids) => SpawnHolders(w, proc, Sweep(phase, now, ids, false));
    case SweepAcquire(tid) => BecomeHolders(w, tid, JobOf(w, tid).(slot := true));
    case SweepRow(tid, now) =>
      var job := JobOf(w, tid);
      if Refires(w.db, job, now) {
        HandOverHolders(w, tid, NextRow(job), PassStarted(job.ids[0]));
      } else {
        BecomeHolders(w, tid, NextRow(job));
      }
    case SweepError(tid) => BecomeHolders(w, tid, NextRow(JobOf(w, tid)));
    case SubmitRollback(tid) => BecomeHolders(w, tid, Ended);
    case SweepEnd(tid) => BecomeHolders(w, tid, Ended);
    case PassCheck(tid) => BecomeHolders(w, tid, AfterCheck(w.db, JobOf(w, tid)));
    case PassReadSubmissions(tid) => BecomeHolders(w, tid, AfterRead(w.db, JobOf(w, tid)));
    case PassPersist(tid, _) => BecomeHolders(w, tid, Ended);
    case PassFail(tid) => BecomeHolders(w, tid, Ended);
    case _ =>
  }

  // ---- goroutines ----

  lemma MovedFromJudging(m: Match, n: Match)
    requires ValidMatch(m) && ValidMatch(n) && Moved(m, n) && (m.status.Judging? || m.status.Done?)
    ensures n.status.Judging? || n.status.Done?
    ensures n.attempts >= m.attempts
    ensures SubmissionsForJudging(n) == SubmissionsForJudging(m)
    ensures m.attempts == MAX_JUDGE_ATTEMPTS && n.status.Judging? ==>
              n.attempts == m.attempts && n.startedAt == m.startedAt
  {
    assert SameSubmissions(m, n) by {
      if SameButSeen(m, n) { SeenKeepsSeats(m, n); }
    }
    SameReading(m, n);
  }

  lemma SameReading(m: Match, n: Match)
    requires FullRoster(m) && SameSubmissions(m, n)
    ensures SubmissionsForJudging(n) == SubmissionsForJudging(m)
  {
    SeatsOfTwo(m.seats);
    SeatsOfTwo(n.seats);
  }

  lemma OnceDecided(m: Match, n: Match)
    requires ValidMatch(m) && ValidMatch(n) && Moved(m, n) && !m.status.Judging?
    ensures m.status.Done? || m.status.Abandoned? ==> n.status == m.status
  {
  }

  /** What a goroutine read stays true enough: no later transaction invalidates it. */
  lemma JobStable(db: Db, next: Db, job: Job)
    requires ValidDb(db) && ValidDb(next) && DbMoved(db, next)
    requires JobOk(db, job)
    ensures JobOk(next, job)
  {
    match job
    case Sweep(phase, at, ids, _) =>
      if phase.ExhaustedJudging? {
        forall i | 0 <= i < |ids| ensures ExhaustedAt(next.matches[ids[i]], at) {
          var m, n := db.matches[ids[i]], next.matches[ids[i]];
          assert ValidMatch(m) && ValidMatch(n) && Moved(m, n);
          if m.status.Judging? { MovedFromJudging(m, n); } else { OnceDecided(m, n); }
        }
      }
    case PassStarted(mid) => CountedStays(db, next, mid);
    case PassChecked(mid) => CountedStays(db, next, mid);
    case PassReady(mid, _, _, _, _) => CountedStays(db, next, mid);
    case _ =>
  }

  lemma CountedStays(db: Db, next: Db, mid: MatchId)
    requires ValidDb(db) && ValidDb(next) && DbMoved(db, next)
    requires mid < |db.matches| && PassCounted(db.matches[mid])
    ensures PassCounted(next.matches[mid])
    ensures SubmissionsForJudging(next.matches[mid]) == SubmissionsForJudging(db.matches[mid])
  {
    var m, n := db.matches[mid], next.matches[mid];
    assert ValidMatch(m) && ValidMatch(n) && Moved(m, n);
    MovedFromJudging(m, n);
  }

  lemma AgentsStable(w: World, next: Db)
    requires AgentsOk(w) && ValidDb(w.db) && ValidDb(next) && DbMoved(w.db, next)
    ensures AgentsOk(w.(db := next))
  {
    forall t | 0 <= t < |w.agents| ensures JobOk(next, w.agents[t].job) {
      JobStable(w.db, next, w.agents[t].job);
    }
  }

  lemma BecomeAgents(w: World, tid: nat, job: Job)
    requires AgentsOk(w) && (JobOf(w, tid) != Ended ==> JobOk(w.db, job))
    requires JobOf(w, tid) == Ended ==> job == Ended
    ensures AgentsOk(Become(w, tid, job))
  {
  }

  lemma SpawnAgents(w: World, proc: nat, job: Job)
    requires AgentsOk(w) && proc < |w.procs| && JobOk(w.db, job)
    ensures AgentsOk(Spawn(w, proc, job))
  {
  }

  lemma NextRowOk(db: Db, job: Job)
    requires JobOk(db, job)
    ensures JobOk(db, NextRow(job))
  {
  }

  lemma ListOk(curve: Elo.Curve, w: World, phase: Phase, now: Time, ids: seq<MatchId>)
    requires ValidDb(w.db) && IsList(w.db, phase, now, ids)
    ensures JobOk(w.db, Sweep(phase, now, ids, false))
  {
    forall i | 0 <= i < |ids| && phase.ExhaustedJudging? ensures ExhaustedAt(w.db.matches[ids[i]], now) {
      assert ValidMatch(w.db.matches[ids[i]]);
    }
  }

  lemma AfterReadOk(db: Db, job: Job)
    requires JobOk(db, job)
    ensures JobOk(db, AfterCheck(db, job)) && JobOk(db, AfterRead(db, job))
  {
  }

  lemma SubmitAgents(curve: Elo.Curve, w: World, u: UserId, mid: MatchId, now: Time, held: Option<nat>, next: Db)
    requires Elo.IsCurve(curve) && Inv(w) && Enabled(curve, w, SubmitCommit(u, mid, now, held))
    requires AgentsOk(w.(db := next)) && ValidDb(next)
    requires RowKnown(w.db, mid) ==> next == Submit(curve, w.db, u, mid, now, held.Some?).0
    ensures AgentsOk(Schedule(w, SubmitCommit(u, mid, now, held)).(db := next))
  {
    if held.Some? {
      SubmitStep(curve, w.db, u, mid, now, true);
      BecomeAgents(w.(db := next), held.value, PassStarted(mid));
    }
  }

  lemma SweepRowAgents(w: World, tid: nat, now: Time, next: Db)
    requires Inv(w) && JobOf(w, tid).Sweep? && JobOf(w, tid).ids != []
    requires AgentsOk(w.(db := next)) && ValidDb(next)
    requires Refires(w.db, JobOf(w, tid), now) ==> next == Refire(w.db, JobOf(w, tid).ids[0], now).0
    ensures AgentsOk(Schedule(w, SweepRow(tid, now)).(db := next))
  {
    var v := w.(db := next);
    var job := JobOf(v, tid);
    NextRowOk(next, job);
    if Refires(w.db, job, now) {
      RefireStep(w.db, job.ids[0], now);
      HandOverAgents(v, tid, NextRow(job), PassStarted(job.ids[0]));
    } else {
      BecomeAgents(v, tid, NextRow(job));
    }
  }

  predicate OfPass(e: Event) {
    e.PassCheck? || e.PassReadSubmissions? || e.PassPersist? || e.PassFail?
  }

  // the steps of a judging pass
  lemma PassAgents(curve: Elo.Curve, w: World, e: Event, next: Db)
    requires Elo.IsCurve(curve) && Inv(w) && Enabled(curve, w, e) && OfPass(e)
    requires AgentsOk(w.(db := next)) && (TxOf(w, e) == NoTx ==> next == w.db)
    ensures AgentsOk(Schedule(w, e).(db := next))
  {
    var v := w.(db := next);
    match e
    case PassCheck(tid) =>
      AfterReadOk(next, JobOf(v, tid));
      BecomeAgents(v, tid, AfterCheck(next, JobOf(v, tid)));
    case PassReadSubmissions(tid) =>
      AfterReadOk(next, JobOf(v, tid));
      BecomeAgents(v, tid, AfterRead(next, JobOf(v, tid)));
    case PassPersist(tid, _) => BecomeAgents(v, tid, Ended);
    case PassFail(tid) => BecomeAgents(v, tid, Ended);
  }

  // steps whose goroutines do not look at what they commit
  lemma OtherAgents(curve: Elo.Curve, w: World, e: Event, next: Db)
    requires Elo.IsCurve(curve) && Inv(w) && Enabled(curve, w, e) && !e.SubmitCommit? && !e.SweepRow? && !OfPass(e)
    requires AgentsOk(w.(db := next)) && (TxOf(w, e) == NoTx ==> next == w.db)
    ensures AgentsOk(Schedule(w, e).(db := next))
  {
    var v := w.(db := next);
    match e
    case SubmitAcquire(proc, mid) => SpawnAgents(v, proc, SubmitHolding(mid));
    case List(proc, phase, now, ids) =>
      ListOk(curve, w, phase, now, ids);
      SpawnAgents(v, proc, Sweep(phase, now, ids, false));
    case SweepAcquire(tid) => BecomeAgents(v, tid, JobOf(w, tid).(slot := true));
    case SweepError(tid) =>
      NextRowOk(next, JobOf(v, tid));
      BecomeAgents(v, tid, NextRow(JobOf(v, tid)));
    case SubmitRollback(tid) => BecomeAgents(v, tid, Ended);
    case SweepEnd(tid) => BecomeAgents(v, tid, Ended);
    case _ =>
  }

  // what the step commits is all that its goroutines depend on
  predicate CommitsTo(curve: Elo.Curve, w: World, e: Event, next: Db)
    requires Elo.IsCurve(curve)
  {
    (e.SubmitCommit? && RowKnown(w.db, e.mid) ==>
       next == Submit(curve, w.db, e.user, e.mid, e.now, e.held.Some?).0)
    && (e.SweepRow? && Refires(w.db, JobOf(w, e.tid), e.now) ==>
          next == Refire(w.db, JobOf(w, e.tid).ids[0], e.now).0)
    && (TxOf(w, e) == NoTx ==> next == w.db)
  }

  lemma CommitIs(curve: Elo.Curve, w: World, e: Event)
    requires Elo.IsCurve(curve)
    ensures CommitsTo(curve, w, e, Commit(curve, w.db, TxOf(w, e)))
  {
  }

  /** The goroutines a step moves are consistent with the tables the step commits. */
  lemma ScheduleAgents(curve: Elo.Curve, w: World, e: Event, next: Db)
    requires Elo.IsCurve(curve) && Inv(w) && Enabled(curve, w, e) && CommitsTo(curve, w, e, next)
    requires ValidDb(next) && DbMoved(w.db, next)
    ensures AgentsOk(Schedule(w, e).(db := next))
  {
    AgentsStable(w, next);
    if e.SubmitCommit? {
      SubmitAgents(curve, w, e.user, e.mid, e.now, e.held, next);
    } else if e.SweepRow? {
      SweepRowAgents(w, e.tid, e.now, next);
    } else if OfPass(e) {
      PassAgents(curve, w, e, next);
    } else {
      OtherAgents(curve, w, e, next);
    }
  }

  lemma HandOverAgents(w: World, tid: nat, job: Job, pass: Job)
    requires AgentsOk(w) && JobOk(w.db, job) && JobOk(w.db, pass)
    ensures AgentsOk(HandOver(w, tid, job, pass))
  {
  }

  /** Every step keeps the invariant and moves every row at most downwards. */
  lemma StepKeepsInv(curve: Elo.Curve, w: World, e: Event)
    requires Elo.IsCurve(curve) && Inv(w) && Enabled(curve, w, e)
    ensures Inv(Step(curve, w, e)) && DbMoved(w.db, Step(curve, w, e).db)
  {
    EnabledTx(curve, w, e);
    CommitStep(curve, w.db, TxOf(w, e));
    ScheduleSlots(curve, w, e);
    CommitIs(curve, w, e);
    ScheduleAgents(curve, w, e, Commit(curve, w.db, TxOf(w, e)));
  }

  lemma InitInv()
    ensures Inv(Init())
  {
  }
}
