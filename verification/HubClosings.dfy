/** Whom the hub closes, and what one registration or unregistration changes
    (server/internal/ws/hub.go:179-226, server/internal/ws/room.go). */
module HubClosings {
  import opened Wrappers
  import opened Hub

  // ---- one event ----

  /** A registration admits the newcomer under the next number.  Exactly when its user has five
      clients the oldest of them goes and is closed, and nobody else is; the room is told exactly
      when it is the user's first. */
  lemma Registered(hs: seq<State>, es: seq<Event>, i: nat)
    requires IsRun(hs, es) && i < |es| && es[i].RegisterEvent?
    ensures var e, h, next := es[i], hs[i], hs[i + 1];
            var was, now := View(h, e.room, e.user), View(next, e.room, e.user);
            next.lastSeq == h.lastSeq + 1
            && (e.victim.Some? <==> |was.Keys| == MAX_CONNS_PER_USER)
            && (e.victim.Some? ==> IsOldest(was, e.victim.value) && next.closed == h.closed + {e.victim.value})
            && (e.victim.None? ==> next.closed == h.closed)
            && e.client in now && now[e.client] == next.lastSeq
            && (forall d :: d != e.client ==> (d in now <==> d in was && Some(d) != e.victim))
            && (forall d :: d != e.client && d in now ==> now[d] == was[d])
            && next.log == h.log + (if was.Keys == {} then [Connected(e.room, e.user)] else [])
            && forall n: MatchId, v: User :: (n, v) != (e.room, e.user) ==> View(next, n, v) == View(h, n, v)
  {
    var e, h := es[i], hs[i];
    RunValid(hs, es, i);
    assert Enabled(h, e) && hs[i + 1] == Step(h, e);
    assert UserOk(h, e.room, e.user);
    assert |View(h, e.room, e.user)| == |View(h, e.room, e.user).Keys|;
    RegisterView(h, e.room, e.user, e.client, e.victim);
  }

  /** An unregistration closes nobody and takes out that client alone; the room is told exactly when
      it was the user's only one. */
  lemma Unregistered(hs: seq<State>, es: seq<Event>, i: nat)
    requires IsRun(hs, es) && i < |es| && es[i].UnregisterEvent?
    ensures var e, h, next := es[i], hs[i], hs[i + 1];
            var was, now := View(h, e.room, e.user), View(next, e.room, e.user);
            next.lastSeq == h.lastSeq && next.closed == h.closed
            && (forall d :: d in now <==> d in was && d != e.client) && (forall d :: d in now ==> now[d] == was[d])
            && next.log == h.log + (if was.Keys == {e.client} then [Disconnected(e.room, e.user)] else [])
            && forall n: MatchId, v: User :: (n, v) != (e.room, e.user) ==> View(next, n, v) == View(h, n, v)
  {
    var e, h := es[i], hs[i];
    assert hs[i + 1] == Step(h, e);
    UnregisterView(h, e.room, e.user, e.client);
    var was := View(h, e.room, e.user);
    assert (was - {e.client}).Keys == was.Keys - {e.client};
  }

  lemma OneEvent(hs: seq<State>, es: seq<Event>, i: nat)
    requires IsRun(hs, es) && i < |es|
    ensures hs[i + 1].lastSeq == hs[i].lastSeq + if es[i].RegisterEvent? then 1 else 0
    ensures hs[i].closed <= hs[i + 1].closed
  {
    assert hs[i + 1] == Step(hs[i], es[i]);
  }

  // ---- who is ever closed ----

  /** Every client ever closed was, at some earlier registration, the oldest of five clients of its
      user in that room, and was closed there to admit another. */
  lemma {:induction false} ClosedWasOldest(hs: seq<State>, es: seq<Event>, i: nat, c: Client) returns (j: nat)
    requires IsRun(hs, es) && i < |hs| && c in hs[i].closed
    ensures j < i && es[j].RegisterEvent? && es[j].victim == Some(c)
    ensures IsOldest(View(hs[j], es[j].room, es[j].user), c)
    ensures |View(hs[j], es[j].room, es[j].user).Keys| == MAX_CONNS_PER_USER
  {
    assert i > 0;
    var e := es[i - 1];
    if e.RegisterEvent? { Registered(hs, es, i - 1); } else { Unregistered(hs, es, i - 1); }
    if c in hs[i - 1].closed {
      j := ClosedWasOldest(hs, es, i - 1, c);
    } else {
      j := i - 1;
    }
  }

  /** Once closed, a client stays closed. */
  lemma {:induction false} StaysClosed(hs: seq<State>, es: seq<Event>, i: nat, j: nat)
    requires IsRun(hs, es) && i <= j < |hs|
    ensures hs[i].closed <= hs[j].closed
    decreases j - i
  {
    if i < j {
      StaysClosed(hs, es, i, j - 1);
      OneEvent(hs, es, j - 1);
    }
  }

  // ---- oldest means first to register ----

  // the event registers or unregisters this client there
  predicate About(e: Event, m: MatchId, u: User, c: Client) {
    e.room == m && e.user == u && e.client == c
  }

  /** Event j is the last one about the client before state i, and it registered it. */
  predicate LastRegistered(es: seq<Event>, i: nat, j: nat, m: MatchId, u: User, c: Client) {
    j < i <= |es| && es[j].RegisterEvent? && About(es[j], m, u, c)
    && forall k :: j < k < i ==> !About(es[k], m, u, c)
  }

  /** A client that is there was registered, and its number is the count of registrations up to its
      own. */
  lemma {:induction false} NumberIsWhen(
    hs: seq<State>, es: seq<Event>, i: nat, m: MatchId, u: User, c: Client)
    returns (j: nat)
    requires IsRun(hs, es) && i < |hs| && c in View(hs[i], m, u)
    ensures LastRegistered(es, i, j, m, u, c) && View(hs[i], m, u)[c] == hs[j + 1].lastSeq
  {
    assert i > 0;
    var e := es[i - 1];
    if e.RegisterEvent? { Registered(hs, es, i - 1); } else { Unregistered(hs, es, i - 1); }
    if e.RegisterEvent? && About(e, m, u, c) {
      j := i - 1;
    } else {
      j := NumberIsWhen(hs, es, i - 1, m, u, c);
    }
  }

  // the number after event j, against the one after an earlier event k
  lemma {:induction false} NumbersGrow(hs: seq<State>, es: seq<Event>, k: nat, j: nat)
    requires IsRun(hs, es) && k <= j < |es|
    ensures hs[k + 1].lastSeq <= hs[j + 1].lastSeq
    ensures k < j && es[j].RegisterEvent? ==> hs[k + 1].lastSeq < hs[j + 1].lastSeq
    decreases j - k
  {
    if k < j {
      NumbersGrow(hs, es, k, j - 1);
      OneEvent(hs, es, j);
    }
  }

  lemma VictimIsOldest(hs: seq<State>, es: seq<Event>, i: nat)
    requires IsRun(hs, es) && i < |es| && es[i].RegisterEvent? && es[i].victim.Some?
    ensures IsOldest(View(hs[i], es[i].room, es[i].user), es[i].victim.value)
  {
    assert Enabled(hs[i], es[i]);
  }

  lemma SmallerCameFirst(hs: seq<State>, es: seq<Event>, j: nat, k: nat)
    requires IsRun(hs, es) && j < |es| && k < |es| && es[j].RegisterEvent?
    requires hs[j + 1].lastSeq <= hs[k + 1].lastSeq
    ensures j <= k
  {
    if k < j { NumbersGrow(hs, es, k, j); }
  }

  /** Of two clients of a user the one with the smaller number registered first. */
  lemma OlderCameFirst(hs: seq<State>, es: seq<Event>, i: nat, m: MatchId, u: User, c: Client, d: Client)
    returns (j: nat, k: nat)
    requires IsRun(hs, es) && i < |hs| && c in View(hs[i], m, u) && d in View(hs[i], m, u) && c != d
    requires View(hs[i], m, u)[c] <= View(hs[i], m, u)[d]
    ensures LastRegistered(es, i, j, m, u, c) && LastRegistered(es, i, k, m, u, d) && j < k
  {
    j := NumberIsWhen(hs, es, i, m, u, c);
    k := NumberIsWhen(hs, es, i, m, u, d);
    SmallerCameFirst(hs, es, j, k);
    NotBoth(es, i, j, k, m, u, c, d);
  }

  lemma NotBoth(es: seq<Event>, i: nat, j: nat, k: nat, m: MatchId, u: User, c: Client, d: Client)
    requires LastRegistered(es, i, j, m, u, c) && LastRegistered(es, i, k, m, u, d) && c != d
    ensures j != k
  {
  }

  /** The client that is evicted registered before every other client its user has there. */
  lemma EvictedCameFirst(hs: seq<State>, es: seq<Event>, i: nat, d: Client) returns (j: nat, k: nat)
    requires IsRun(hs, es) && i < |es| && es[i].RegisterEvent? && es[i].victim.Some?
    requires d in View(hs[i], es[i].room, es[i].user) && d != es[i].victim.value
    ensures LastRegistered(es, i, j, es[i].room, es[i].user, es[i].victim.value)
    ensures LastRegistered(es, i, k, es[i].room, es[i].user, d)
    ensures j < k
  {
    var m, u, c := es[i].room, es[i].user, es[i].victim.value;
    VictimIsOldest(hs, es, i);
    j, k := OlderCameFirst(hs, es, i, m, u, c, d);
  }
}
