/** The AI-call ledger and its daily ceilings (server/internal/aibudget, server/internal/db/ai_calls.sql.go).
    Inserts are serialized; a row's created_at is the start of the transaction that inserts it, so
    times need not be in insertion order. */
module AiLedger {
  import opened Wrappers

  type User = nat
  type Kind = nat
  type Provider = string
  type Time = int

  const WINDOW := 86_400
  const RETENTION := 604_800
  const MAX_INT32 := 2_147_483_647

  // an ai_calls row: it bills a player or a provider, never both
  datatype CallRow = CallRow(user: Option<User>, kind: Kind, provider: Option<Provider>, createdAt: Time)

  // an empty provider: the kind is unbudgeted
  datatype Policy = Policy(provider: Provider, perUser: int)

  type Policies = map<Kind, Policy>

  predicate Budgeted(ps: Policies, k: Kind) {
    k in ps && ps[k].provider != ""
  }

  function Allowance(p: Policy): int {
    if p.perUser < MAX_INT32 then p.perUser else MAX_INT32
  }

  // ---- the queries ----

  predicate Bills(r: CallRow, u: User, k: Kind) {
    r.user == Some(u) && r.kind == k
  }

  // rows of the player and kind with from < created_at <= to
  function PlayerRows(rows: seq<CallRow>, u: User, k: Kind, from: Time, to: Time): nat {
    if rows == [] then 0
    else
      var r := rows[|rows| - 1];
      PlayerRows(rows[..|rows| - 1], u, k, from, to)
      + if Bills(r, u, k) && from < r.createdAt <= to then 1 else 0
  }

  // CountUserKindCallsInWindow: no upper bound
  function CountUserKind(rows: seq<CallRow>, u: User, k: Kind, now: Time): nat {
    if rows == [] then 0
    else
      var r := rows[|rows| - 1];
      CountUserKind(rows[..|rows| - 1], u, k, now) + if Bills(r, u, k) && r.createdAt > now - WINDOW then 1 else 0
  }

  // CountProviderCallsInWindow, across every kind
  function CountProvider(rows: seq<CallRow>, p: Provider, now: Time): nat {
    if rows == [] then 0
    else
      var r := rows[|rows| - 1];
      CountProvider(rows[..|rows| - 1], p, now) + if r.provider == Some(p) && r.createdAt > now - WINDOW then 1 else 0
  }

  // RecordAICallUnderCap: both rows, or neither
  function UnderCap(rows: seq<CallRow>, k: Kind, u: User, p: Provider, cap: int, now: Time): seq<CallRow> {
    if CountUserKind(rows, u, k, now) < cap
    then [CallRow(Some(u), k, None, now), CallRow(None, k, Some(p), now)]
    else []
  }

  // RecordPlayerAICalls
  function PlayersBilled(k: Kind, users: seq<User>, now: Time): (r: seq<CallRow>)
    ensures |r| == |users| && forall i :: 0 <= i < |users| ==> r[i] == CallRow(Some(users[i]), k, None, now)
  {
    seq(|users|, i requires 0 <= i < |users| => CallRow(Some(users[i]), k, None, now))
  }

  // DeleteAICallsBefore
  function Kept(rows: seq<CallRow>, cutoff: Time): seq<CallRow> {
    if rows == [] then []
    else
      var r := rows[|rows| - 1];
      Kept(rows[..|rows| - 1], cutoff) + if r.createdAt < cutoff then [] else [r]
  }

  // ---- the budget ----

  datatype Answer = Ok | KindSpent | GlobalSpent

  function Check(ps: Policies, global: int, rows: seq<CallRow>, k: Kind, u: User, now: Time): Answer {
    if !Budgeted(ps, k) then Ok
    else if CountUserKind(rows, u, k, now) >= ps[k].perUser then KindSpent
    else if CountProvider(rows, ps[k].provider, now) >= global then GlobalSpent
    else Ok
  }

  /** Budget and the table it writes. */
  class Budget {
    const policies: Policies
    const global: int
    var rows: seq<CallRow>

    constructor (policies: Policies, global: int)
      ensures this.policies == policies && this.global == global && rows == []
    {
      this.policies, this.global := policies, global;
      rows := [];
    }

    method CheckCall(k: Kind, u: User, now: Time) returns (answer: Answer)
      ensures answer == Check(policies, global, rows, k, u, now)
    {
      if k !in policies || policies[k].provider == "" { return Ok; }
      if CountUserKind(rows, u, k, now) >= policies[k].perUser { return KindSpent; }
      if CountProvider(rows, policies[k].provider, now) >= global { return GlobalSpent; }
      return Ok;
    }

    method Spend(k: Kind, u: User, now: Time) returns (answer: Answer)
      modifies this
      ensures rows == old(rows) + Inserted(policies, old(rows), SpendCall(k, u, now))
      ensures answer == if Budgeted(policies, k) && rows == old(rows) then KindSpent else Ok
    {
      if k !in policies || policies[k].provider == "" { return Ok; }
      var p := policies[k];
      var allowance := if p.perUser < MAX_INT32 then p.perUser else MAX_INT32;
      var new' := UnderCap(rows, k, u, p.provider, allowance, now);
      rows := rows + new';
      if |new'| == 0 { return KindSpent; }
      assert |rows| > |old(rows)|;
      return Ok;
    }

    method BillPlayers(k: Kind, users: seq<User>, now: Time)
      modifies this
      ensures rows == old(rows) + Inserted(policies, old(rows), BillPlayersCall(k, users, now))
    {
      if k !in policies || policies[k].provider == "" { return; }
      if |users| == 0 { return; }
      rows := rows + PlayersBilled(k, users, now);
    }

    method BillProvider(k: Kind, now: Time)
      modifies this
      ensures rows == old(rows) + Inserted(policies, old(rows), BillProviderCall(k, now))
    {
      if k !in policies || policies[k].provider == "" { return; }
      rows := rows + [CallRow(None, k, Some(policies[k].provider), now)];
    }

    method Sweep(appNow: Time)
      modifies this
      ensures rows == Kept(old(rows), appNow - RETENTION)
    {
      rows := Kept(rows, appNow - RETENTION);
    }
  }

  // ---- runs ----

  datatype Event =
    | CheckCall(kind: Kind, user: User, now: Time)
    | SpendCall(kind: Kind, user: User, now: Time)
    | BillPlayersCall(kind: Kind, users: seq<User>, now: Time)
    | BillProviderCall(kind: Kind, now: Time)
    | SweepCall(appNow: Time)

  function Inserted(ps: Policies, rows: seq<CallRow>, e: Event): seq<CallRow> {
    match e
    case SpendCall(k, u, now) =>
      if Budgeted(ps, k) then UnderCap(rows, k, u, ps[k].provider, Allowance(ps[k]), now) else []
    case BillPlayersCall(k, users, now) => if Budgeted(ps, k) then PlayersBilled(k, users, now) else []
    case BillProviderCall(k, now) => if Budgeted(ps, k) then [CallRow(None, k, Some(ps[k].provider), now)] else []
    case _ => []
  }

  /** The table; and, to compare it with, every row ever inserted, the latest retention cutoff, and
      how many spends of each kind went through. */
  datatype Books = Books(rows: seq<CallRow>, log: seq<CallRow>, horizon: Option<Time>, spends: map<Kind, nat>)

  function Later(h: Option<Time>, t: Time): Time {
    if h.Some? && h.value > t then h.value else t
  }

  function SpendsOf(b: Books, k: Kind): nat {
    if k in b.spends then b.spends[k] else 0
  }

  function Step(ps: Policies, b: Books, e: Event): Books {
    var new' := Inserted(ps, b.rows, e);
    match e
    case SweepCall(appNow) =>
      b.(rows := Kept(b.rows, appNow - RETENTION), horizon := Some(Later(b.horizon, appNow - RETENTION)))
    case SpendCall(k, _, _) =>
      b.(rows := b.rows + new', log := b.log + new',
         spends := if new' == [] then b.spends else b.spends[k := SpendsOf(b, k) + 1])
    case _ => b.(rows := b.rows + new', log := b.log + new')
  }

  /** The database clock of a write or check is less than six days behind the app clock of any
      sweep before it. */
  predicate ClocksAgree(b: Books, now: Time) {
    b.horizon.Some? ==> b.horizon.value <= now - WINDOW
  }

  predicate Sane(b: Books, e: Event) {
    match e
    case SweepCall(_) => true
    case _ => ClocksAgree(b, e.now)
  }

  predicate IsRun(ps: Policies, bs: seq<Books>, es: seq<Event>) {
    |bs| == |es| + 1 && bs[0] == Books([], [], None, map[])
    && forall i {:trigger es[i]} :: 0 <= i < |es| ==> Sane(bs[i], es[i]) && bs[i + 1] == Step(ps, bs[i], es[i])
  }

  // ---- retention ----

  function Remaining(b: Books): seq<CallRow> {
    if b.horizon.Some? then Kept(b.log, b.horizon.value) else b.log
  }

  lemma {:induction false} KeptAppend(rows: seq<CallRow>, more: seq<CallRow>, cutoff: Time)
    requires forall r :: r in more ==> r.createdAt >= cutoff
    ensures Kept(rows + more, cutoff) == Kept(rows, cutoff) + more
    decreases |more|
  {
    if more == [] {
      assert rows + more == rows && Kept(rows, cutoff) + more == Kept(rows, cutoff);
    } else {
      var last := |more| - 1;
      KeptAppend(rows, more[..last], cutoff);
      assert (rows + more)[..|rows| + last] == rows + more[..last];
      assert Kept(rows, cutoff) + more == Kept(rows, cutoff) + more[..last] + [more[last]];
    }
  }

  lemma {:induction false} KeptTwice(rows: seq<CallRow>, a: Time, b: Time)
    ensures Kept(Kept(rows, a), b) == Kept(rows, if a > b then a else b)
  {
    if rows != [] {
      var some, r := rows[..|rows| - 1], rows[|rows| - 1];
      KeptTwice(some, a, b);
      if r.createdAt >= a {
        assert (Kept(some, a) + [r])[..|Kept(some, a)|] == Kept(some, a);
      } else {
        assert Kept(some, a) + [] == Kept(some, a);
        assert Kept(some, if a > b then a else b) + [] == Kept(some, if a > b then a else b);
      }
    }
  }

  lemma InsertedNow(ps: Policies, rows: seq<CallRow>, e: Event)
    requires !e.SweepCall?
    ensures forall r :: r in Inserted(ps, rows, e) ==> r.createdAt == e.now
  {
  }

  /** The table is always the log without what the retention horizon has passed. */
  lemma TableStep(ps: Policies, b: Books, e: Event)
    requires b.rows == Remaining(b) && Sane(b, e)
    ensures Step(ps, b, e).rows == Remaining(Step(ps, b, e))
  {
    match e
    case SweepCall(appNow) =>
      if b.horizon.Some? { KeptTwice(b.log, b.horizon.value, appNow - RETENTION); }
    case _ =>
      var new' := Inserted(ps, b.rows, e);
      InsertedNow(ps, b.rows, e);
      if b.horizon.Some? { KeptAppend(b.log, new', b.horizon.value); }
  }

  lemma {:induction false} TableIsRecentLog(ps: Policies, bs: seq<Books>, es: seq<Event>, i: nat)
    requires IsRun(ps, bs, es) && i < |bs|
    ensures bs[i].rows == Remaining(bs[i])
  {
    if i > 0 {
      TableIsRecentLog(ps, bs, es, i - 1);
      assert Sane(bs[i - 1], es[i - 1]);
      TableStep(ps, bs[i - 1], es[i - 1]);
    }
  }

  lemma {:induction false} KeptCounts(rows: seq<CallRow>, cutoff: Time, u: User, k: Kind, p: Provider, now: Time)
    requires cutoff <= now - WINDOW
    ensures CountUserKind(Kept(rows, cutoff), u, k, now) == CountUserKind(rows, u, k, now)
    ensures CountProvider(Kept(rows, cutoff), p, now) == CountProvider(rows, p, now)
  {
    if rows != [] {
      var some, r := rows[..|rows| - 1], rows[|rows| - 1];
      KeptCounts(some, cutoff, u, k, p, now);
      if r.createdAt >= cutoff {
        assert (Kept(some, cutoff) + [r])[..|Kept(some, cutoff)|] == Kept(some, cutoff);
      } else {
        assert Kept(some, cutoff) + [] == Kept(some, cutoff);
      }
    }
  }

  /** The week's retention changes no window count: neither a player's nor a provider's. */
  lemma RetentionUnseen(ps: Policies, bs: seq<Books>, es: seq<Event>, i: nat, u: User, k: Kind, p: Provider, now: Time)
    requires IsRun(ps, bs, es) && i < |bs| && ClocksAgree(bs[i], now)
    ensures CountUserKind(bs[i].rows, u, k, now) == CountUserKind(bs[i].log, u, k, now)
    ensures CountProvider(bs[i].rows, p, now) == CountProvider(bs[i].log, p, now)
  {
    TableIsRecentLog(ps, bs, es, i);
    if bs[i].horizon.Some? { KeptCounts(bs[i].log, bs[i].horizon.value, u, k, p, now); }
  }

  // ---- the cap ----

  /** Each row was inserted while the window before it was under the cap. */
  predicate Capped(log: seq<CallRow>, u: User, k: Kind, cap: int) {
    forall i :: 0 <= i < |log| && Bills(log[i], u, k) ==> CountUserKind(log[..i], u, k, log[i].createdAt) < cap
  }

  lemma {:induction false} WindowInCount(log: seq<CallRow>, u: User, k: Kind, from: Time, to: Time, now: Time)
    requires now - WINDOW <= from
    ensures PlayerRows(log, u, k, from, to) <= CountUserKind(log, u, k, now)
  {
    if log != [] { WindowInCount(log[..|log| - 1], u, k, from, to, now); }
  }

  /** The last row inserted into a window was under the cap with all the others of the window
      counted, whatever the order of the clocks. */
  lemma {:induction false} CappedWindow(log: seq<CallRow>, u: User, k: Kind, cap: int, end: Time)
    requires Capped(log, u, k, cap)
    ensures PlayerRows(log, u, k, end - WINDOW, end) <= if cap > 0 then cap else 0
  {
    if log != [] {
      var last := |log| - 1;
      if Bills(log[last], u, k) && end - WINDOW < log[last].createdAt <= end {
        WindowInCount(log[..last], u, k, end - WINDOW, end, log[last].createdAt);
      } else {
        assert forall i :: 0 <= i < last ==> log[..last][i] == log[i] && log[..last][..i] == log[..i];
        CappedWindow(log[..last], u, k, cap, end);
      }
    }
  }

  // the kind is billed to players through spend only
  predicate SpentOnly(es: seq<Event>, k: Kind) {
    forall i :: 0 <= i < |es| ==> !(es[i].BillPlayersCall? && es[i].kind == k)
  }

  lemma CappedStep(ps: Policies, b: Books, e: Event, u: User, k: Kind)
    requires Budgeted(ps, k) && Capped(b.log, u, k, Allowance(ps[k]))
    requires !(e.BillPlayersCall? && e.kind == k)
    requires e.SpendCall? ==> CountUserKind(b.rows, u, k, e.now) == CountUserKind(b.log, u, k, e.now)
    ensures Capped(Step(ps, b, e).log, u, k, Allowance(ps[k]))
  {
    var next, new' := Step(ps, b, e).log, Inserted(ps, b.rows, e);
    if !e.SweepCall? {
      forall i | 0 <= i < |next| && Bills(next[i], u, k)
        ensures CountUserKind(next[..i], u, k, next[i].createdAt) < Allowance(ps[k])
      {
        if i < |b.log| {
          assert next[i] == b.log[i] && next[..i] == b.log[..i];
        } else {
          assert next[i] == new'[i - |b.log|];
          assert i == |b.log| && next[..i] == b.log;
        }
      }
    }
  }

  lemma {:induction false} RunCapped(ps: Policies, bs: seq<Books>, es: seq<Event>, i: nat, u: User, k: Kind)
    requires IsRun(ps, bs, es) && i < |bs| && Budgeted(ps, k) && SpentOnly(es, k)
    ensures Capped(bs[i].log, u, k, Allowance(ps[k]))
  {
    if i > 0 {
      RunCapped(ps, bs, es, i - 1, u, k);
      var e := es[i - 1];
      assert Sane(bs[i - 1], e);
      if e.SpendCall? { RetentionUnseen(ps, bs, es, i - 1, u, k, "", e.now); }
      CappedStep(ps, bs[i - 1], e, u, k);
    }
  }

  /** For any interleaving of checks, spends, duel bills of other kinds and sweeps: of all the rows
      ever written, at most the cap bill one player for one kind in any 24 hours. */
  lemma DailyCap(ps: Policies, bs: seq<Books>, es: seq<Event>, i: nat, u: User, k: Kind, end: Time)
    requires IsRun(ps, bs, es) && i < |bs| && Budgeted(ps, k) && SpentOnly(es, k) && ps[k].perUser >= 1
    ensures PlayerRows(bs[i].log, u, k, end - WINDOW, end) <= ps[k].perUser
  {
    RunCapped(ps, bs, es, i, u, k);
    CappedWindow(bs[i].log, u, k, Allowance(ps[k]), end);
  }

  // ---- provider rows ----

  function ProviderRows(log: seq<CallRow>, k: Kind): nat {
    if log == [] then 0
    else ProviderRows(log[..|log| - 1], k)
         + if log[|log| - 1].kind == k && log[|log| - 1].provider.Some? then 1 else 0
  }

  lemma {:induction false} ProviderAppend(log: seq<CallRow>, more: seq<CallRow>, k: Kind)
    ensures ProviderRows(log + more, k) == ProviderRows(log, k) + ProviderRows(more, k)
    decreases |more|
  {
    if more == [] {
      assert log + more == log;
    } else {
      assert (log + more)[..|log| + |more| - 1] == log + more[..|more| - 1];
      ProviderAppend(log, more[..|more| - 1], k);
    }
  }

  lemma {:induction false} NoProviderRows(rows: seq<CallRow>, k: Kind)
    requires forall i :: 0 <= i < |rows| ==> rows[i].kind != k || rows[i].provider.None?
    ensures ProviderRows(rows, k) == 0
  {
    if rows != [] { NoProviderRows(rows[..|rows| - 1], k); }
  }

  // the kind is billed to its provider through spend only
  predicate NotSplit(es: seq<Event>, k: Kind) {
    forall i :: 0 <= i < |es| ==> !(es[i].BillProviderCall? && es[i].kind == k)
  }

  lemma ProviderStep(ps: Policies, b: Books, e: Event, k: Kind)
    requires ProviderRows(b.log, k) == SpendsOf(b, k) && !(e.BillProviderCall? && e.kind == k)
    ensures ProviderRows(Step(ps, b, e).log, k) == SpendsOf(Step(ps, b, e), k)
  {
    var new' := Inserted(ps, b.rows, e);
    ProviderAppend(b.log, new', k);
    if e.SpendCall? && e.kind == k && new' != [] {
      assert new'[..1] == [new'[0]] && new'[..1][..0] == [];
      assert ProviderRows(new'[..1], k) == ProviderRows([], k);
      assert ProviderRows(new', k) == ProviderRows(new'[..1], k) + 1;
    } else {
      NoProviderRows(new', k);
    }
  }

  /** Provider rows are exactly the spends that went through: no failed spend bills a provider, and
      no provider call goes unbilled. */
  lemma {:induction false} ProviderRowsAreSpends(ps: Policies, bs: seq<Books>, es: seq<Event>, i: nat, k: Kind)
    requires IsRun(ps, bs, es) && i < |bs| && NotSplit(es, k)
    ensures ProviderRows(bs[i].log, k) == SpendsOf(bs[i], k)
  {
    if i > 0 {
      ProviderRowsAreSpends(ps, bs, es, i - 1, k);
      assert bs[i] == Step(ps, bs[i - 1], es[i - 1]);
      ProviderStep(ps, bs[i - 1], es[i - 1], k);
    }
  }

  // ---- checks ----

  lemma {:induction false} CountShrinks(rows: seq<CallRow>, u: User, k: Kind, now: Time, later: Time)
    requires now <= later
    ensures CountUserKind(rows, u, k, later) <= CountUserKind(rows, u, k, now)
  {
    if rows != [] { CountShrinks(rows[..|rows| - 1], u, k, now, later); }
  }

  /** A passed check promises a later spend only while nobody bills the player in between; the spend
      counts again. */
  lemma CheckedSpend(ps: Policies, global: int, rows: seq<CallRow>, k: Kind, u: User, now: Time, later: Time)
    requires Budgeted(ps, k) && ps[k].perUser <= MAX_INT32 && now <= later
    requires Check(ps, global, rows, k, u, now).Ok?
    ensures |Inserted(ps, rows, SpendCall(k, u, later))| == 2
  {
    CountShrinks(rows, u, k, now, later);
  }
}
