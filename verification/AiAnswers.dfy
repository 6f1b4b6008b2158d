/** When the AI budget says yes and no, counted in ledger rows of the last 24 hours
    (server/internal/aibudget/aibudget.go:98-154, server/internal/db/ai_calls.sql.go). */
module AiAnswers {
  import opened Wrappers
  import opened AiLedger

  /** The rows that bill the player for the kind and are less than 24 hours old. */
  function Mine(rows: seq<CallRow>, u: User, k: Kind, now: Time): set<nat> {
    set i: nat | i < |rows| && rows[i].user == Some(u) && rows[i].kind == k && rows[i].createdAt > now - 86_400
  }

  /** The rows that bill the provider, for whatever kind, and are less than 24 hours old. */
  function Theirs(rows: seq<CallRow>, p: Provider, now: Time): set<nat> {
    set i: nat | i < |rows| && rows[i].provider == Some(p) && rows[i].createdAt > now - 86_400
  }

  lemma {:induction false} CountsAreRows(rows: seq<CallRow>, u: User, k: Kind, p: Provider, now: Time)
    ensures CountUserKind(rows, u, k, now) == |Mine(rows, u, k, now)|
    ensures CountProvider(rows, p, now) == |Theirs(rows, p, now)|
  {
    if rows != [] {
      var last := |rows| - 1;
      var some, r := rows[..last], rows[last];
      CountsAreRows(some, u, k, p, now);
      var mine := if r.user == Some(u) && r.kind == k && r.createdAt > now - 86_400 then {last} else {};
      var theirs := if r.provider == Some(p) && r.createdAt > now - 86_400 then {last} else {};
      MineNext(rows, u, k, now, mine);
      TheirsNext(rows, p, now, theirs);
    }
  }

  lemma MineNext(rows: seq<CallRow>, u: User, k: Kind, now: Time, last: set<nat>)
    requires rows != []
    requires last == if |rows| - 1 in Mine(rows, u, k, now) then {|rows| - 1} else {}
    ensures |Mine(rows, u, k, now)| == |Mine(rows[..|rows| - 1], u, k, now)| + |last|
  {
    var some := Mine(rows[..|rows| - 1], u, k, now);
    assert Mine(rows, u, k, now) == some + last;
  }

  lemma TheirsNext(rows: seq<CallRow>, p: Provider, now: Time, last: set<nat>)
    requires rows != []
    requires last == if |rows| - 1 in Theirs(rows, p, now) then {|rows| - 1} else {}
    ensures |Theirs(rows, p, now)| == |Theirs(rows[..|rows| - 1], p, now)| + |last|
  {
    var some := Theirs(rows[..|rows| - 1], p, now);
    assert Theirs(rows, p, now) == some + last;
  }

  /** The advisory check: a kind without a provider is never refused; otherwise the player's own
      ceiling for the kind comes first, then the provider's for all players and kinds together. */
  lemma CheckIff(ps: Policies, global: int, rows: seq<CallRow>, k: Kind, u: User, now: Time)
    ensures var answer := Check(ps, global, rows, k, u, now);
            var mine := |Mine(rows, u, k, now)|;
            if k !in ps || ps[k].provider == "" then answer.Ok?
            else
              (answer.KindSpent? <==> mine >= ps[k].perUser)
              && (answer.GlobalSpent? <==>
                    mine < ps[k].perUser && |Theirs(rows, ps[k].provider, now)| >= global)
              && (answer.Ok? <==> mine < ps[k].perUser && |Theirs(rows, ps[k].provider, now)| < global)
  {
    CountsAreRows(rows, u, k, if k in ps then ps[k].provider else "", now);
  }

  /** A spend of a budgeted kind goes through exactly when the player is under the ceiling, clamped to
      32 bits, and then bills the player once and the provider once; it does not look at the
      provider's ceiling. */
  lemma SpendIff(ps: Policies, rows: seq<CallRow>, k: Kind, u: User, now: Time)
    ensures var new' := Inserted(ps, rows, SpendCall(k, u, now));
            if k !in ps || ps[k].provider == "" then new' == []
            else if |Mine(rows, u, k, now)| < ps[k].perUser && |Mine(rows, u, k, now)| < 0x7fff_ffff then
              new' == [CallRow(Some(u), k, None, now), CallRow(None, k, Some(ps[k].provider), now)]
            else new' == []
  {
    CountsAreRows(rows, u, k, "", now);
  }

  /** Starting a round bills each of its players once and its judging pass the provider once,
      without looking at any ceiling. */
  lemma SplitBills(ps: Policies, rows: seq<CallRow>, k: Kind, users: seq<User>, now: Time)
    requires k in ps && ps[k].provider != ""
    ensures var new' := Inserted(ps, rows, BillPlayersCall(k, users, now));
            |new'| == |users|
            && (forall i :: 0 <= i < |users| ==> new'[i] == CallRow(Some(users[i]), k, None, now))
    ensures Inserted(ps, rows, BillProviderCall(k, now)) == [CallRow(None, k, Some(ps[k].provider), now)]
  {
  }

  /** The retention delete keeps every copy of a row that is not older than the cutoff and no other
      row. */
  lemma {:induction false} KeptIff(rows: seq<CallRow>, cutoff: Time, r: CallRow)
    ensures multiset(Kept(rows, cutoff))[r] == if r.createdAt >= cutoff then multiset(rows)[r] else 0
  {
    if rows != [] {
      var last := |rows| - 1;
      KeptIff(rows[..last], cutoff, r);
      assert rows == rows[..last] + [rows[last]];
    }
  }

  /** A retention sweep keeps the last seven days on the clock it is given. */
  lemma SweepKeepsAWeek(ps: Policies, b: Books, appNow: Time, r: CallRow)
    ensures multiset(Step(ps, b, SweepCall(appNow)).rows)[r]
         == if r.createdAt >= appNow - 604_800 then multiset(b.rows)[r] else 0
  {
    KeptIff(b.rows, appNow - 604_800, r);
  }
}
