/** The running system: the tables, any number of server processes, and in each process any number
    of requests, sweepers and judging passes interleaved.  A transaction commits in one step;
    every unlocked read is an earlier step of its own, whose result may be stale by the time the
    transaction that uses it takes its lock. */
module DuelMachine {
  import opened Wrappers
  import opened DuelState
  import opened DuelTransactions
  import opened DuelTables
  import opened DuelCommits
  import opened Sums
  import Elo

  /** A goroutine between its steps, with what it read before. */
  datatype Job =
      // a sweeper phase: the candidates it listed and has not handled yet, and whether it holds a
      // judging slot for the first of them
    | Sweep(phase: Phase, listedAt: Time, ids: seq<MatchId>, slot: bool)
      // a submit transaction that holds a judging slot and has not committed
    | SubmitHolding(mid: MatchId)
      // a judging pass: not yet begun, past its status check, past its submissions read
    | PassStarted(mid: MatchId)
    | PassChecked(mid: MatchId)
    | PassReady(mid: MatchId, a: UserId, b: UserId, ratingA: int, ratingB: int)
    | Ended

  datatype Agent = Agent(proc: nat, job: Job)

  // judgeLimiter: slots taken by passes and their starters, and slots kept by drain
  datatype Limiter = Limiter(limit: nat, taken: nat, drained: nat)

  datatype World = World(db: Db, procs: seq<Limiter>, agents: seq<Agent>, lastPlay: Option<Time>)

  datatype Event =
    | SignUp
    | Boot(limit: int)
    | Crash(proc: nat)
    | PlayEvent(user: UserId, now: Time, choice: PlayChoice)
    | Poll(user: UserId, mid: MatchId, now: Time)
    | CancelEvent(user: UserId, mid: MatchId)
    | SubmitAcquire(proc: nat, mid: MatchId)
    | SubmitRollback(tid: nat)
    | SubmitCommit(user: UserId, mid: MatchId, now: Time, held: Option<nat>)
    | List(proc: nat, phase: Phase, now: Time, ids: seq<MatchId>)
    | SweepAcquire(tid: nat)
    | SweepRow(tid: nat, now: Time)
    | SweepError(tid: nat)
    | SweepEnd(tid: nat)
    | PassCheck(tid: nat)
    | PassReadSubmissions(tid: nat)
    | PassPersist(tid: nat, verdict: Verdict)
    | PassFail(tid: nat)
    | DrainSlot(proc: nat)

  predicate HoldsSlot(job: Job) {
    match job
    case Sweep(_, _, _, slot) => slot
    case Ended => false
    case _ => true
  }

  predicate IsPass(job: Job) {
    job.PassStarted? || job.PassChecked? || job.PassReady?
  }

  function HolderIn(proc: nat): Agent -> int {
    (a: Agent) => if a.proc == proc && HoldsSlot(a.job) then 1 else 0
  }

  function Holders(agents: seq<Agent>, proc: nat): int {
    SumBy(agents, HolderIn(proc))
  }

  predicate SlotFree(l: Limiter) {
    l.taken < l.limit
  }

  function Take(l: Limiter): Limiter { l.(taken := l.taken + 1) }

  function Release(l: Limiter): Limiter { l.(taken := if l.taken > 0 then l.taken - 1 else 0) }

  /** What goroutine `tid` is doing; Ended when there is none. */
  function JobOf(w: World, tid: nat): Job {
    if tid < |w.agents| && w.agents[tid].proc < |w.procs| then w.agents[tid].job else Ended
  }

  predicate IsList(db: Db, phase: Phase, now: Time, ids: seq<MatchId>) {
    |ids| <= SWEEP_BATCH
    && (forall i :: 0 <= i < |ids| ==> ids[i] < |db.matches| && Candidate(phase, db.matches[ids[i]], now))
    && (forall i, j :: 0 <= i < j < |ids| ==> ids[i] != ids[j])
  }

  /** The transaction the event commits, if any. */
  function TxOf(w: World, e: Event): Tx {
    match e
    case SignUp => Register
    case PlayEvent(u, now, choice) => PlayTx(u, now, choice)
    case Poll(u, mid, now) => TouchTx(u, mid, now)
    case CancelEvent(u, mid) => CancelTx(u, mid)
    case SubmitCommit(u, mid, now, held) => SubmitTx(u, mid, now, held.Some?)
    case SweepRow(tid, now) =>
      var job := JobOf(w, tid);
      if job.Sweep? && job.ids != [] then
        match job.phase
        case ExpiredDrawing => ExpireTx(job.ids[0], now)
        case StuckJudging => RefireTx(job.ids[0], now)
        case ExhaustedJudging => AbortTx(job.ids[0])
        case StaleOpen => ReapTx(job.ids[0])
      else NoTx
    case PassPersist(tid, v) =>
      var job := JobOf(w, tid);
      if job.PassReady? then PersistTx(job.mid, job.a, job.b, job.ratingA, job.ratingB, v) else NoTx
    case _ => NoTx
  }

  /** When a step can happen. */
  ghost predicate Enabled(curve: Elo.Curve, w: World, e: Event)
    requires Elo.IsCurve(curve)
  {
    match e
    case SignUp => true
    case Boot(_) => true
    case Crash(proc) => proc < |w.procs|
    case PlayEvent(u, now, choice) => u < |w.db.ratings| && PlayChoiceOk(w.db, u, now, choice)
    case Poll(_, _, _) => true
    case CancelEvent(_, _) => true
    case SubmitAcquire(proc, _) => proc < |w.procs| && SlotFree(w.procs[proc])
    case SubmitRollback(tid) => JobOf(w, tid).SubmitHolding?
    case SubmitCommit(u, mid, now, held) =>
      held.Some? ==>
        JobOf(w, held.value) == SubmitHolding(mid)
        && RowKnown(w.db, mid) && Submit(curve, w.db, u, mid, now, true).1 == Stored(Judging)
    case List(proc, phase, now, ids) => proc < |w.procs| && IsList(w.db, phase, now, ids)
    case SweepAcquire(tid) =>
      var job := JobOf(w, tid);
      job.Sweep? && job.phase.StuckJudging? && job.ids != [] && !job.slot && SlotFree(w.procs[w.agents[tid].proc])
    case SweepRow(tid, _) =>
      var job := JobOf(w, tid);
      job.Sweep? && job.ids != [] && (job.phase.StuckJudging? ==> job.slot)
    case SweepError(tid) => JobOf(w, tid).Sweep? && JobOf(w, tid).ids != []
    case SweepEnd(tid) => JobOf(w, tid).Sweep? && !JobOf(w, tid).slot
    case PassCheck(tid) => JobOf(w, tid).PassStarted?
    case PassReadSubmissions(tid) => JobOf(w, tid).PassChecked?
    case PassPersist(tid, _) => JobOf(w, tid).PassReady?
    case PassFail(tid) => IsPass(JobOf(w, tid))
    case DrainSlot(proc) => proc < |w.procs| && SlotFree(w.procs[proc])
  }

  /** The goroutine goes on with another job, keeping its slot or giving it back. */
  function Become(w: World, tid: nat, job: Job): World {
    if tid < |w.agents| && w.agents[tid].proc < |w.procs| then
      var a := w.agents[tid];
      var l := w.procs[a.proc];
      w.(agents := w.agents[tid := a.(job := job)],
         procs := w.procs[a.proc :=
           if HoldsSlot(a.job) && !HoldsSlot(job) then Release(l)
           else if !HoldsSlot(a.job) && HoldsSlot(job) then Take(l) else l])
    else w
  }

  /** A new goroutine of the process, taking a slot if its job holds one. */
  function Spawn(w: World, proc: nat, job: Job): World
    requires proc < |w.procs|
  {
    w.(agents := w.agents + [Agent(proc, job)],
       procs := if HoldsSlot(job) then w.procs[proc := Take(w.procs[proc])] else w.procs)
  }

  /** A sweeper whose head row was re-fired hands its slot to the pass it starts. */
  function HandOver(w: World, tid: nat, job: Job, pass: Job): World {
    if tid < |w.agents| then
      w.(agents := w.agents[tid := w.agents[tid].(job := job)] + [Agent(w.agents[tid].proc, pass)])
    else w
  }

  function Killed(agents: seq<Agent>, proc: nat): (r: seq<Agent>)
    ensures |r| == |agents|
    ensures forall i :: 0 <= i < |agents| ==>
              r[i] == if agents[i].proc == proc then agents[i].(job := Ended) else agents[i]
  {
    seq(|agents|, i requires 0 <= i < |agents| =>
      if agents[i].proc == proc then agents[i].(job := Ended) else agents[i])
  }

  // past the head of the list, without a slot
  function NextRow(job: Job): Job {
    if job.Sweep? && job.ids != [] then job.(ids := job.ids[1..], slot := false) else job
  }

  predicate Refires(db: Db, job: Job, now: Time) {
    job.Sweep? && job.phase.StuckJudging? && job.ids != [] && job.ids[0] < |db.matches|
    && RefireAllowed(db.matches[job.ids[0]], now)
  }

  function AfterCheck(db: Db, job: Job): Job {
    if job.PassStarted? && job.mid < |db.matches| && db.matches[job.mid].status.Judging?
    then PassChecked(job.mid) else Ended
  }

  function AfterRead(db: Db, job: Job): Job {
    if job.PassChecked? && job.mid < |db.matches| then
      var subs := SubmissionsForJudging(db.matches[job.mid]);
      if subs.Some? && subs.value.0 < |db.ratings| && subs.value.1 < |db.ratings|
      then PassReady(job.mid, subs.value.0, subs.value.1, db.ratings[subs.value.0], db.ratings[subs.value.1])
      else Ended
    else Ended
  }

  /** The step's effect on processes and goroutines; the tables are left to Commit. */
  function Schedule(w: World, e: Event): World {
    match e
    case Boot(limit) => w.(procs := w.procs + [Limiter(if limit < 1 then 1 else limit, 0, 0)])
    case Crash(proc) =>
      if proc < |w.procs| then
        w.(agents := Killed(w.agents, proc), procs := w.procs[proc := Limiter(w.procs[proc].limit, 0, 0)])
      else w
    case PlayEvent(_, now, _) => w.(lastPlay := Some(now))
    case SubmitAcquire(proc, mid) => if proc < |w.procs| then Spawn(w, proc, SubmitHolding(mid)) else w
    case SubmitRollback(tid) => Become(w, tid, Ended)
    case SubmitCommit(_, mid, _, held) => if held.Some? then Become(w, held.value, PassStarted(mid)) else w
    case List(proc, phase, now, ids) =>
      if proc < |w.procs| then Spawn(w, proc, Sweep(phase, now, ids, false)) else w
    case SweepAcquire(tid) =>
      var job := JobOf(w, tid);
      if job.Sweep? then Become(w, tid, job.(slot := true)) else w
    case SweepRow(tid, now) =>
      var job := JobOf(w, tid);
      if Refires(w.db, job, now) then HandOver(w, tid, NextRow(job), PassStarted(job.ids[0]))
      else Become(w, tid, NextRow(job))
    case SweepError(tid) => Become(w, tid, NextRow(JobOf(w, tid)))
    case SweepEnd(tid) => Become(w, tid, Ended)
    case PassCheck(tid) => Become(w, tid, AfterCheck(w.db, JobOf(w, tid)))
    case PassReadSubmissions(tid) => Become(w, tid, AfterRead(w.db, JobOf(w, tid)))
    case PassPersist(tid, _) => Become(w, tid, Ended)
    case PassFail(tid) => Become(w, tid, Ended)
    case DrainSlot(proc) =>
      if proc < |w.procs| then
        w.(procs := w.procs[proc := Take(w.procs[proc]).(drained := w.procs[proc].drained + 1)])
      else w
    case _ => w
  }

  // ---- the invariant ----

  /** The match has been in judging with a pass counted, and only its end can follow. */
  predicate PassCounted(m: Match) {
    (m.status.Judging? || m.status.Done?) && m.attempts >= 1
  }

  /** Listed as exhausted at time `at`: unless it has ended since, its last attempt started at
      least the stale window before. */
  predicate ExhaustedAt(m: Match, at: Time) {
    (m.status.Judging? || m.status.Done?)
    && (m.status.Judging? ==>
      m.attempts == MAX_JUDGE_ATTEMPTS && m.startedAt.Some? && m.startedAt.value + JUDGE_STALE_SECS <= at)
  }

  predicate JobOk(db: Db, job: Job) {
    match job
    case Sweep(phase, at, ids, slot) =>
      (forall i :: 0 <= i < |ids| ==> ids[i] < |db.matches|)
      && (slot ==> phase.StuckJudging? && ids != [])
      && (phase.ExhaustedJudging? ==> forall i :: 0 <= i < |ids| ==> ExhaustedAt(db.matches[ids[i]], at))
    case PassStarted(mid) => mid < |db.matches| && PassCounted(db.matches[mid])
    case PassChecked(mid) => mid < |db.matches| && PassCounted(db.matches[mid])
    case PassReady(mid, a, b, _, _) =>
      mid < |db.matches| && PassCounted(db.matches[mid])
      && SubmissionsForJudging(db.matches[mid]) == Some((a, b))
    case _ => true
  }

  ghost predicate AgentsOk(w: World) {
    forall t :: 0 <= t < |w.agents| ==> w.agents[t].proc < |w.procs| && JobOk(w.db, w.agents[t].job)
  }

  /** Slots taken are exactly those held by passes, by transactions that have one and have not
      handed it on, and by a draining shutdown. */
  ghost predicate SlotsConserved(w: World) {
    forall p :: 0 <= p < |w.procs| ==>
      1 <= w.procs[p].limit && w.procs[p].taken <= w.procs[p].limit
      && w.procs[p].taken == Holders(w.agents, p) + w.procs[p].drained
  }

  ghost predicate Inv(w: World) {
    ValidDb(w.db) && AgentsOk(w) && SlotsConserved(w)
  }

  function Init(): World {
    World(Db([], [], []), [], [], None)
  }

  // ---- one step ----

  /** In an invariant state every enabled step commits a transaction whose assumptions hold. */
  lemma EnabledTx(curve: Elo.Curve, w: World, e: Event)
    requires Elo.IsCurve(curve) && Inv(w) && Enabled(curve, w, e)
    ensures TxOk(w.db, TxOf(w, e))
  {
    if e.PassPersist? || e.SweepRow? {
      assert JobOk(w.db, JobOf(w, e.tid));
    }
  }

  ghost function Step(curve: Elo.Curve, w: World, e: Event): World
    requires Elo.IsCurve(curve)
  {
    Schedule(w, e).(db := Commit(curve, w.db, TxOf(w, e)))
  }
}
