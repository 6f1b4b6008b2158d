/** The sweeper's work lists: the oldest candidates of a phase, at most a batch of them
    (the four list queries of server/internal/db/matches.sql.go). */
module DuelLists {
  import opened Wrappers
  import opened DuelState
  import opened Seqs

  // the column each query orders by
  function Key(phase: Phase, m: Match): Option<Time> {
    match phase
    case ExpiredDrawing => m.deadline
    case StuckJudging => m.startedAt
    case ExhaustedJudging => m.startedAt
    case StaleOpen => Some(m.createdAt)
  }

  // nulls first
  predicate Before(a: Option<Time>, b: Option<Time>) {
    a.None? || (b.Some? && a.value <= b.value)
  }

  predicate Older(phase: Phase, matches: seq<Match>, i: MatchId, j: MatchId)
    requires i < |matches| && j < |matches|
  {
    Before(Key(phase, matches[i]), Key(phase, matches[j]))
  }

  predicate Ordered(phase: Phase, matches: seq<Match>, ids: seq<MatchId>)
    requires forall i :: 0 <= i < |ids| ==> ids[i] < |matches|
  {
    forall i, j :: 0 <= i < j < |ids| ==> Older(phase, matches, ids[i], ids[j])
  }

  // the query's `for update skip locked` passes over the rows others hold locked
  predicate Free(phase: Phase, matches: seq<Match>, now: Time, locked: set<MatchId>, k: MatchId) {
    k < |matches| && k !in locked && Candidate(phase, matches[k], now)
  }

  predicate Listed(phase: Phase, matches: seq<Match>, now: Time, locked: set<MatchId>, ids: seq<MatchId>) {
    forall i :: 0 <= i < |ids| ==> Free(phase, matches, now, locked, ids[i])
  }

  /** What the query returns: unlocked candidates only, oldest first, all of them when they fit in the
      batch, and otherwise none younger than one left out. */
  predicate IsWorkList(phase: Phase, matches: seq<Match>, now: Time, locked: set<MatchId>, ids: seq<MatchId>) {
    |ids| <= SWEEP_BATCH && Distinct(ids) && Listed(phase, matches, now, locked, ids) && Ordered(phase, matches, ids)
    && forall k :: 0 <= k < |matches| && Free(phase, matches, now, locked, k) && k !in ids ==>
         |ids| == SWEEP_BATCH && forall i :: 0 <= i < |ids| ==> Older(phase, matches, ids[i], k)
  }

  // ---- computing it ----

  /** The id put after every id older than it. */
  function InsertByAge(phase: Phase, matches: seq<Match>, ids: seq<MatchId>, k: MatchId): (r: seq<MatchId>)
    requires k < |matches| && forall i :: 0 <= i < |ids| ==> ids[i] < |matches|
    ensures |r| == |ids| + 1
    ensures forall i :: 0 <= i < |r| ==> r[i] < |matches|
  {
    if ids == [] then [k]
    else if Older(phase, matches, ids[0], k) then [ids[0]] + InsertByAge(phase, matches, ids[1..], k)
    else [k] + ids
  }

  /** The unlocked candidates among the first n matches, oldest first. */
  function OldestFirst(phase: Phase, matches: seq<Match>, now: Time, locked: set<MatchId>, n: nat): (r: seq<MatchId>)
    requires n <= |matches|
    ensures forall i :: 0 <= i < |r| ==> r[i] < |matches|
  {
    if n == 0 then []
    else
      var ids := OldestFirst(phase, matches, now, locked, n - 1);
      if Free(phase, matches, now, locked, n - 1) then InsertByAge(phase, matches, ids, n - 1) else ids
  }

  function Batch(ids: seq<MatchId>): seq<MatchId> {
    if |ids| <= SWEEP_BATCH then ids else ids[..SWEEP_BATCH]
  }

  lemma {:induction false} InsertedMembers(phase: Phase, matches: seq<Match>, ids: seq<MatchId>, k: MatchId, x: MatchId)
    requires k < |matches| && forall i :: 0 <= i < |ids| ==> ids[i] < |matches|
    ensures x in InsertByAge(phase, matches, ids, k) <==> x == k || x in ids
  {
    if ids != [] {
      InsertedMembers(phase, matches, ids[1..], k, x);
      assert ids == [ids[0]] + ids[1..];
    }
  }

  lemma {:induction false} InsertedOrdered(phase: Phase, matches: seq<Match>, ids: seq<MatchId>, k: MatchId)
    requires k < |matches| && (forall i :: 0 <= i < |ids| ==> ids[i] < |matches|)
    requires Ordered(phase, matches, ids) && Distinct(ids) && k !in ids
    ensures Ordered(phase, matches, InsertByAge(phase, matches, ids, k))
    ensures Distinct(InsertByAge(phase, matches, ids, k))
  {
    if ids != [] && Older(phase, matches, ids[0], k) {
      var rest := InsertByAge(phase, matches, ids[1..], k);
      InsertedOrdered(phase, matches, ids[1..], k);
      forall i | 0 <= i < |rest| ensures Older(phase, matches, ids[0], rest[i]) && rest[i] != ids[0] {
        InsertedMembers(phase, matches, ids[1..], k, rest[i]);
        assert forall j :: 0 <= j < |ids[1..]| ==> ids[1..][j] == ids[j + 1];
      }
    }
  }

  lemma {:induction false} OldestFirstMembers(
    phase: Phase, matches: seq<Match>, now: Time, locked: set<MatchId>, n: nat, x: MatchId)
    requires n <= |matches|
    ensures x in OldestFirst(phase, matches, now, locked, n) <==> x < n && Free(phase, matches, now, locked, x)
  {
    if n > 0 {
      OldestFirstMembers(phase, matches, now, locked, n - 1, x);
      InsertedMembers(phase, matches, OldestFirst(phase, matches, now, locked, n - 1), n - 1, x);
    }
  }

  lemma {:induction false} OldestFirstOrdered(
    phase: Phase, matches: seq<Match>, now: Time, locked: set<MatchId>, n: nat)
    requires n <= |matches|
    ensures Ordered(phase, matches, OldestFirst(phase, matches, now, locked, n))
    ensures Distinct(OldestFirst(phase, matches, now, locked, n))
  {
    if n > 0 {
      OldestFirstOrdered(phase, matches, now, locked, n - 1);
      OldestFirstMembers(phase, matches, now, locked, n - 1, n - 1);
      if Free(phase, matches, now, locked, n - 1) {
        InsertedOrdered(phase, matches, OldestFirst(phase, matches, now, locked, n - 1), n - 1);
      }
    }
  }

  lemma BatchListed(phase: Phase, matches: seq<Match>, now: Time, locked: set<MatchId>)
    ensures Listed(phase, matches, now, locked, Batch(OldestFirst(phase, matches, now, locked, |matches|)))
  {
    var all := OldestFirst(phase, matches, now, locked, |matches|);
    var ids := Batch(all);
    forall i | 0 <= i < |ids| ensures Free(phase, matches, now, locked, ids[i]) {
      assert ids[i] == all[i] && all[i] in all;
      OldestFirstMembers(phase, matches, now, locked, |matches|, all[i]);
    }
  }

  /** Sorting by age and cutting the batch off answers the query. */
  lemma BatchIsWorkList(phase: Phase, matches: seq<Match>, now: Time, locked: set<MatchId>)
    ensures IsWorkList(phase, matches, now, locked, Batch(OldestFirst(phase, matches, now, locked, |matches|)))
  {
    var all := OldestFirst(phase, matches, now, locked, |matches|);
    var ids := Batch(all);
    OldestFirstOrdered(phase, matches, now, locked, |matches|);
    BatchListed(phase, matches, now, locked);
    forall k | 0 <= k < |matches| && Free(phase, matches, now, locked, k) && k !in ids
      ensures |ids| == SWEEP_BATCH && forall i :: 0 <= i < |ids| ==> Older(phase, matches, ids[i], k)
    {
      OldestFirstMembers(phase, matches, now, locked, |matches|, k);
      var j :| 0 <= j < |all| && all[j] == k;
      assert j >= |ids|;
    }
  }

  /** The first row's turn comes no later than the second's: its deadline, the start of its pass (a
      queued one has none yet and comes first), or its creation is no later. */
  predicate NoLater(phase: Phase, m: Match, n: Match) {
    match phase
    case ExpiredDrawing => m.deadline.Some? && n.deadline.Some? && m.deadline.value <= n.deadline.value
    case StaleOpen => m.createdAt <= n.createdAt
    case _ => m.startedAt.None? || (n.startedAt.Some? && m.startedAt.value <= n.startedAt.value)
  }

  /** A sweep takes its rows in the order they became due: of two listed rows the first is due no
      later, and a due row that is left out for lack of room is due no earlier than any of the 256
      listed. */
  lemma OldestServedFirst(phase: Phase, matches: seq<Match>, now: Time, locked: set<MatchId>)
    ensures var ids := Batch(OldestFirst(phase, matches, now, locked, |matches|));
            |ids| <= 256
            && (forall i, j :: 0 <= i < j < |ids| ==> NoLater(phase, matches[ids[i]], matches[ids[j]]))
            && forall k ::
                 0 <= k < |matches| && k !in locked && Candidate(phase, matches[k], now) && k !in ids ==>
                   |ids| == 256 && forall i :: 0 <= i < |ids| ==> NoLater(phase, matches[ids[i]], matches[k])
  {
    BatchIsWorkList(phase, matches, now, locked);
    var ids := Batch(OldestFirst(phase, matches, now, locked, |matches|));
    forall i, j | 0 <= i < j < |ids| ensures NoLater(phase, matches[ids[i]], matches[ids[j]]) {
      assert Older(phase, matches, ids[i], ids[j]);
    }
    forall k | 0 <= k < |matches| && k !in locked && Candidate(phase, matches[k], now) && k !in ids
      ensures |ids| == 256 && forall i :: 0 <= i < |ids| ==> NoLater(phase, matches[ids[i]], matches[k])
    {
      assert Free(phase, matches, now, locked, k);
      forall i | 0 <= i < |ids| ensures NoLater(phase, matches[ids[i]], matches[k]) {
        assert Older(phase, matches, ids[i], k);
      }
    }
  }
}
