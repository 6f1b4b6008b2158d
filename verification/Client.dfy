/** The client's duel reducer (apps/web/src/features/play/duel.ts): a pure function from what the
    client has heard to what it shows. */
module Client {
  import opened Wrappers
  import opened DuelState

  datatype DuelPhase =
    | PhaseConnecting | PhaseWaiting | PhaseDrawing | PhaseSubmitting | PhaseSubmitted | PhaseJudging
    | PhaseDone | PhaseEnded

  datatype DuelEnd = QueueEnded | NobodySubmitted | Left | Auth | Budget | Gone | Failed

  datatype Opponent = Opponent(userId: UserId, name: Option<string>, submitted: bool)

  datatype Clock = Clock(drawingDeadline: Option<Time>, serverTime: Time)

  // a match snapshot
  datatype PlayerView = PlayerView(userId: UserId, displayName: Option<string>, submitted: bool)
  datatype MatchView = MatchView(
    id: MatchId,
    status: Status,
    prompt: Option<string>,
    players: seq<PlayerView>,
    drawingDeadline: Option<Time>,
    serverTime: Time)

  // a decided result
  datatype PlayerScore = PlayerScore(
    userId: UserId, score: Option<real>, ratingBefore: Option<int>, ratingAfter: Option<int>)
  datatype ResultView = ResultView(winner: Option<UserId>, resolution: Option<Resolution>, players: seq<PlayerScore>)

  datatype SubmitMatch = SubmitMatch(status: Status, drawingDeadline: Option<Time>, serverTime: Time)

  datatype DuelView = DuelView(
    phase: DuelPhase,
    end: Option<DuelEnd>,
    me: UserId,
    matchId: Option<MatchId>,
    status: Option<Status>,
    started: bool,
    prompt: string,
    opponent: Option<Opponent>,
    opponentOnline: Option<bool>,
    clock: Option<Clock>,
    result: Option<ResultView>,
    submitFailed: bool,
    offline: bool)

  datatype DuelEvent =
    | Start(me: UserId)
    | MatchSnapshot(view: MatchView)
    | Result(result: ResultView)
    | Pending(status: Status)
    | PlayerSubmitted(userId: UserId)
    | JudgingFrame
    | AbandonedFrame
    | Presence(userId: UserId, online: bool)
    | SubmitSent
    | SubmitOk(reply: SubmitMatch)
    | SubmitConflict
    | SubmitFailed
    | Offline
    | End(end: DuelEnd)

  function InitialDuel(me: UserId): DuelView {
    DuelView(PhaseConnecting, None, me, None, None, false, "", None, None, None, None, false, false)
  }

  predicate IsTerminal(phase: DuelPhase) {
    phase.PhaseDone? || phase.PhaseEnded?
  }

  predicate BeforeRound(phase: DuelPhase) {
    phase.PhaseConnecting? || phase.PhaseWaiting?
  }

  function StatusOrder(s: Status): nat {
    match s
    case Open => 0
    case Drawing => 1
    case Judging => 2
    case _ => 3
  }

  function Furthest(prev: Option<Status>, next: Status): Status {
    if prev.Some? && StatusOrder(prev.value) > StatusOrder(next) then prev.value else next
  }

  function Abandon(s: DuelView): DuelView {
    s.(phase := PhaseEnded, end := Some(if s.started then NobodySubmitted else QueueEnded), status := Some(Abandoned))
  }

  function WithOpponentSubmitted(s: DuelView): DuelView {
    if s.opponent.Some? then s.(opponent := Some(s.opponent.value.(submitted := true))) else s
  }

  // players.find((p) => p.userId === me)
  function Mine(players: seq<PlayerView>, me: UserId): (r: Option<PlayerView>)
    ensures r.Some? ==> r.value in players && r.value.userId == me
    ensures r.None? ==> forall p :: p in players ==> p.userId != me
  {
    if players == [] then None
    else if players[0].userId == me then Some(players[0])
    else Mine(players[1..], me)
  }

  // players.find((p) => p.userId !== me)
  function Other(players: seq<PlayerView>, me: UserId): (r: Option<PlayerView>)
    ensures r.Some? ==> r.value in players && r.value.userId != me
    ensures r.None? ==> forall p :: p in players ==> p.userId == me
  {
    if players == [] then None
    else if players[0].userId != me then Some(players[0])
    else Other(players[1..], me)
  }

  function Seen(s: DuelView, m: MatchView): DuelView {
    var opp := Other(m.players, s.me);
    s.(matchId := Some(m.id),
       status := Some(Furthest(s.status, m.status)),
       started := s.started || m.drawingDeadline.Some?,
       prompt := if m.prompt.Some? then m.prompt.value else s.prompt,
       opponent := if opp.None? then s.opponent else
         Some(Opponent(opp.value.userId, opp.value.displayName,
           opp.value.submitted
           || (s.opponent.Some? && s.opponent.value.userId == opp.value.userId && s.opponent.value.submitted))),
       clock := Some(Clock(m.drawingDeadline, m.serverTime)),
       offline := false)
  }

  function ApplyMatch(s: DuelView, m: MatchView): DuelView {
    if s.matchId.Some? && m.id != s.matchId.value then s
    else
      var mine := Mine(m.players, s.me);
      var next := Seen(s, m);
      match m.status
      case Open =>
        if BeforeRound(s.phase) then next.(phase := PhaseWaiting) else next
      case Drawing =>
        if mine.Some? && mine.value.submitted then
          if s.phase.PhaseJudging? then next else next.(phase := PhaseSubmitted, submitFailed := false)
        else if BeforeRound(s.phase) then next.(phase := PhaseDrawing) else next
      case Judging => WithOpponentSubmitted(next.(phase := PhaseJudging))
      case Done => next
      case Abandoned => Abandon(next)
  }

  function ReduceDuel(s: DuelView, e: DuelEvent): DuelView {
    if e.Start? then InitialDuel(e.me)
    else if IsTerminal(s.phase) then s
    else
      match e
      case MatchSnapshot(m) => ApplyMatch(s, m)
      case Result(r) =>
        s.(phase := PhaseDone, status := Some(Done), started := true, result := Some(r), offline := false)
      case Pending(status) =>
        if status.Abandoned? then Abandon(s)
        else if status.Judging? then
          WithOpponentSubmitted(s.(phase := PhaseJudging, status := Some(Judging), offline := false))
        else s.(status := Some(Furthest(s.status, status)), offline := false)
      case PlayerSubmitted(u) =>
        if u != s.me then WithOpponentSubmitted(s)
        else if s.phase.PhaseDrawing? || s.phase.PhaseSubmitting?
        then s.(phase := PhaseSubmitted, submitFailed := false)
        else s
      case JudgingFrame => WithOpponentSubmitted(s.(phase := PhaseJudging, status := Some(Judging)))
      case AbandonedFrame => Abandon(s)
      case Presence(u, online) => if u == s.me then s else s.(opponentOnline := Some(online))
      case SubmitSent => if s.phase.PhaseDrawing? then s.(phase := PhaseSubmitting, submitFailed := false) else s
      case SubmitOk(reply) =>
        if !s.phase.PhaseSubmitting? then s
        else
          var status := Furthest(s.status, reply.status);
          var clock := Some(Clock(reply.drawingDeadline, reply.serverTime));
          var next := s.(status := Some(status), clock := clock, offline := false);
          if status.Judging? then WithOpponentSubmitted(next.(phase := PhaseJudging))
          else next.(phase := PhaseSubmitted)
      case SubmitConflict => if s.phase.PhaseSubmitting? then s.(phase := PhaseSubmitted) else s
      case SubmitFailed => if s.phase.PhaseSubmitting? then s.(phase := PhaseDrawing, submitFailed := true) else s
      case Offline => s.(offline := true)
      case End(end) => s.(phase := PhaseEnded, end := Some(end))
  }

  // ---- what holds of the reducer on any events at all, truthful or not ----

  function PhaseOrder(p: DuelPhase): nat {
    match p
    case PhaseConnecting => 0
    case PhaseWaiting => 1
    case PhaseDrawing => 2
    case PhaseSubmitting => 3
    case PhaseSubmitted => 4
    case PhaseJudging => 5
    case _ => 6
  }

  /** The phase moves back exactly when a new round starts, or when a submit that is still out
      fails. */
  lemma PhaseMovesBackIff(s: DuelView, e: DuelEvent)
    ensures PhaseOrder(ReduceDuel(s, e).phase) < PhaseOrder(s.phase)
       <==> (e.Start? && !s.phase.PhaseConnecting?) || (e.SubmitFailed? && s.phase.PhaseSubmitting?)
  {
    if e.MatchSnapshot? {
      if !IsTerminal(s.phase) { SnapshotPhase(s, e.view); }
    } else if e.SubmitOk? {
      assert ReduceDuel(s, e).phase == s.phase || s.phase.PhaseSubmitting?;
    }
  }

  lemma SnapshotPhase(s: DuelView, m: MatchView)
    requires !IsTerminal(s.phase)
    ensures PhaseOrder(s.phase) <= PhaseOrder(ApplyMatch(s, m).phase)
  {
  }

  function StatusRank(s: Option<Status>): nat {
    if s.None? then 0 else 1 + StatusOrder(s.value)
  }

  // judging and done rank equal
  function CoarseRank(s: Option<Status>): nat {
    if StatusRank(s) > 3 then 3 else StatusRank(s)
  }

  /** The status never drops below judging once there, and drops at all exactly when news of
      judging overtakes done. */
  lemma StatusNeverDrops(s: DuelView, e: DuelEvent)
    requires !e.Start?
    ensures CoarseRank(s.status) <= CoarseRank(ReduceDuel(s, e).status)
    ensures StatusRank(ReduceDuel(s, e).status) < StatusRank(s.status)
       <==> !IsTerminal(s.phase) && StatusRank(s.status) == 4 && (e.JudgingFrame? || e == Pending(Judging))
  {
    match e
    case MatchSnapshot(m) => SnapshotStatus(s, m);
    case SubmitOk(reply) => FurthestRank(s.status, reply.status);
    case Pending(status) => FurthestRank(s.status, status);
    case _ =>
  }

  lemma FurthestRank(prev: Option<Status>, next: Status)
    ensures StatusRank(prev) <= StatusRank(Some(Furthest(prev, next)))
  {
  }

  lemma SnapshotStatus(s: DuelView, m: MatchView)
    ensures StatusRank(s.status) <= StatusRank(ApplyMatch(s, m).status)
  {
    FurthestRank(s.status, m.status);
    assert ApplyMatch(s, m).status
        == if s.matchId.Some? && m.id != s.matchId.value then s.status
           else Some(Furthest(s.status, m.status));
  }

  predicate ShownSubmitted(s: DuelView, u: UserId) {
    s.opponent.Some? && s.opponent.value.userId == u && s.opponent.value.submitted
  }

  predicate ShownOpponent(s: DuelView, u: UserId) {
    s.opponent.Some? && s.opponent.value.userId == u
  }

  /** One run of a client: an initial state and any events. */
  predicate IsClientPath(ss: seq<DuelView>, es: seq<DuelEvent>) {
    |ss| == |es| + 1
    && forall j {:trigger es[j]} :: 0 <= j < |es| ==> ss[j + 1] == ReduceDuel(ss[j], es[j])
  }

  // until the next 'start'
  predicate OneRound(es: seq<DuelEvent>) {
    forall j :: 0 <= j < |es| ==> !es[j].Start?
  }

  // what one event keeps
  predicate NoWorse(s: DuelView, t: DuelView) {
    (IsTerminal(s.phase) ==> t == s)
    && CoarseRank(s.status) <= CoarseRank(t.status)
    && (s.matchId.Some? ==> t.matchId == s.matchId)
    && (PhaseOrder(s.phase) <= PhaseOrder(t.phase) || (s.phase.PhaseSubmitting? && t.phase.PhaseDrawing?))
  }

  lemma ReduceNoWorse(s: DuelView, e: DuelEvent)
    requires !e.Start?
    ensures NoWorse(s, ReduceDuel(s, e))
  {
    PhaseMovesBackIff(s, e);
    StatusNeverDrops(s, e);
  }

  lemma NoWorseTransitive(s: DuelView, t: DuelView, u: DuelView)
    requires NoWorse(s, t) && NoWorse(t, u)
    ensures NoWorse(s, u)
  {
  }

  /** Within a round, whatever arrives and in whatever order: the phase stays where it was or later
      unless a submit failed, a terminal state never changes, the status keeps its coarse rank,
      and the match never changes. */
  lemma {:induction false} RoundNeverRunsBack(ss: seq<DuelView>, es: seq<DuelEvent>, i: nat, j: nat)
    requires IsClientPath(ss, es) && OneRound(es) && i <= j < |ss|
    ensures NoWorse(ss[i], ss[j])
    decreases j - i
  {
    if i < j {
      RoundNeverRunsBack(ss, es, i, j - 1);
      ReduceNoWorse(ss[j - 1], es[j - 1]);
      NoWorseTransitive(ss[i], ss[j - 1], ss[j]);
    }
  }

  lemma MarkStaysOnce(s: DuelView, e: DuelEvent, u: UserId)
    requires !e.Start? && ShownSubmitted(s, u) && ShownOpponent(ReduceDuel(s, e), u)
    ensures ShownSubmitted(ReduceDuel(s, e), u)
  {
  }

  /** While the client shows the same opponent, that opponent's submitted mark is never taken
      back. */
  lemma {:induction false} SubmittedMarkStays(ss: seq<DuelView>, es: seq<DuelEvent>, i: nat, j: nat, u: UserId)
    requires IsClientPath(ss, es) && OneRound(es) && i <= j < |ss|
    requires ShownSubmitted(ss[i], u)
    requires forall k :: i <= k <= j ==> ShownOpponent(ss[k], u)
    ensures ShownSubmitted(ss[j], u)
    decreases j - i
  {
    if i < j {
      SubmittedMarkStays(ss, es, i, j - 1, u);
      MarkStaysOnce(ss[j - 1], es[j - 1], u);
    }
  }
}
