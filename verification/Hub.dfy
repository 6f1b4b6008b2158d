/** The WebSocket hub's rooms (server/internal/ws/hub.go, room.go): one goroutine owns them and
    handles one registration or unregistration at a time.  A room keeps each client with the
    sequence number it was registered under; `log` is every presence frame broadcast. */
module Hub {
  import opened Wrappers

  type Client = nat
  type User = nat
  type MatchId = nat

  const MAX_CONNS_PER_USER := 5

  type Clients = map<Client, nat>
  type Conns = map<User, Clients>

  datatype Frame = Connected(room: MatchId, user: User) | Disconnected(room: MatchId, user: User)

  // ---- one user's clients in one room ----

  predicate IsOldest(clients: Clients, c: Client) {
    c in clients && forall d :: d in clients ==> clients[c] <= clients[d]
  }

  /** The client evicted to admit another of the same user, if any. */
  predicate IsVictim(clients: Clients, victim: Option<Client>) {
    if |clients| >= MAX_CONNS_PER_USER then victim.Some? && IsOldest(clients, victim.value) else victim.None?
  }

  function Rest(clients: Clients, victim: Option<Client>): Clients {
    if victim.Some? then clients - {victim.value} else clients
  }

  function Of(conns: Conns, u: User): Clients {
    if u in conns then conns[u] else map[]
  }

  class Room {
    const matchId: MatchId
    var conns: Conns

    // a user with no client left is forgotten
    predicate NoEmpty() reads this {
      forall u :: u in conns ==> conns[u].Keys != {}
    }

    constructor (matchId: MatchId)
      ensures this.matchId == matchId && conns == map[]
    {
      this.matchId := matchId;
      conns := map[];
    }

    method Add(u: User, c: Client, n: nat) returns (firstForUser: bool)
      modifies this
      ensures conns == old(conns)[u := Of(old(conns), u)[c := n]] && firstForUser == (u !in old(conns))
    {
      firstForUser := u !in conns;
      var clients: Clients := if u in conns then conns[u] else map[];
      conns := conns[u := clients[c := n]];
    }

    method Remove(u: User, c: Client) returns (lastForUser: bool)
      modifies this
      ensures old(NoEmpty()) ==> NoEmpty()
      ensures c !in Of(old(conns), u) ==> conns == old(conns) && !lastForUser
      ensures c in Of(old(conns), u) ==>
                lastForUser == ((old(conns)[u] - {c}).Keys == {})
                && conns == if lastForUser then old(conns) - {u} else old(conns)[u := old(conns)[u] - {c}]
    {
      if u !in conns { return false; }
      if c !in conns[u] { return false; }
      var rest := conns[u] - {c};
      if rest.Keys == {} {
        conns := conns - {u};
        return true;
      }
      conns := conns[u := rest];
      return false;
    }

    method Count(u: User) returns (n: nat)
      ensures n == |Of(conns, u)|
    {
      n := if u in conns then |conns[u]| else 0;
    }

    /** The user's client with the smallest sequence number. */
    method Oldest(u: User) returns (oldest: Option<Client>)
      ensures oldest.None? <==> Of(conns, u).Keys == {}
      ensures oldest.Some? ==> IsOldest(Of(conns, u), oldest.value)
    {
      oldest := None;
      var clients := if u in conns then conns[u] else map[];
      var left := clients.Keys;
      while left != {}
        invariant left <= clients.Keys
        invariant oldest.None? <==> left == clients.Keys
        invariant oldest.Some? ==> oldest.value in clients
                                   && forall d :: d in clients && d !in left ==> clients[oldest.value] <= clients[d]
      {
        var c :| c in left;
        left := left - {c};
        if oldest.None? || clients[c] < clients[oldest.value] { oldest := Some(c); }
      }
    }

    /** The per-user cap, and then the newcomer. */
    method Admit(u: User, c: Client, n: nat) returns (victim: Option<Client>, firstForUser: bool)
      modifies this
      requires NoEmpty()
      ensures NoEmpty() && IsVictim(Of(old(conns), u), victim)
      ensures conns == old(conns)[u := Rest(Of(old(conns), u), victim)[c := n]]
      ensures firstForUser == (Of(old(conns), u).Keys == {})
    {
      victim := None;
      var count := Count(u);
      if count >= MAX_CONNS_PER_USER {
        assert |Of(conns, u)| == |Of(conns, u).Keys|;
        victim := Oldest(u);
        if victim.Some? {
          OneOut(Of(conns, u), victim.value);
          var _ := Remove(u, victim.value);
        }
      }
      OneIn(Of(conns, u), c, n);
      firstForUser := Add(u, c, n);
    }
  }

  // ---- the hub ----

  /** Which clients each user has in each match's room. */
  type Presence = map<(MatchId, User), Clients>

  datatype State = State(present: Presence, lastSeq: nat, log: seq<Frame>, closed: set<Client>)

  function View(h: State, m: MatchId, u: User): Clients {
    if (m, u) in h.present then h.present[(m, u)] else map[]
  }

  // handleRegister
  function Register(h: State, m: MatchId, u: User, c: Client, victim: Option<Client>): State {
    var clients := View(h, m, u);
    State(h.present[(m, u) := Rest(clients, victim)[c := h.lastSeq + 1]], h.lastSeq + 1,
          if clients.Keys == {} then h.log + [Connected(m, u)] else h.log,
          h.closed + if victim.Some? then {victim.value} else {})
  }

  // handleUnregister
  function Unregister(h: State, m: MatchId, u: User, c: Client): State {
    var clients := View(h, m, u);
    var rest := clients - {c};
    if c !in clients then h
    else h.(present := h.present[(m, u) := rest],
            log := if rest.Keys == {} then h.log + [Disconnected(m, u)] else h.log)
  }

  lemma RegisterView(h: State, m: MatchId, u: User, c: Client, victim: Option<Client>)
    ensures var next := Register(h, m, u, c, victim);
            View(next, m, u) == Rest(View(h, m, u), victim)[c := h.lastSeq + 1]
            && forall n: MatchId, v: User :: (n, v) != (m, u) ==> View(next, n, v) == View(h, n, v)
  {
  }

  lemma RegisterViews(h: State, m: MatchId, u: User, c: Client)
    ensures forall victim: Option<Client>, n: MatchId, v: User ::
              View(Register(h, m, u, c, victim), n, v)
              == if (n, v) == (m, u) then Rest(View(h, m, u), victim)[c := h.lastSeq + 1] else View(h, n, v)
  {
  }

  lemma UnregisterView(h: State, m: MatchId, u: User, c: Client)
    ensures var next := Unregister(h, m, u, c);
            View(next, m, u) == (if c in View(h, m, u) then View(h, m, u) - {c} else View(h, m, u))
            && forall n: MatchId, v: User :: (n, v) != (m, u) ==> View(next, n, v) == View(h, n, v)
  {
  }

  class Hub {
    var rooms: map<MatchId, Room>
    var lastSeq: nat
    var log: seq<Frame>
    var closed: set<Client>

    ghost predicate Valid() reads this`rooms, rooms.Values {
      (forall m, n :: m in rooms && n in rooms && m != n ==> rooms[m] != rooms[n])
      && forall m :: m in rooms ==> rooms[m].NoEmpty()
    }

    function ClientsOf(m: MatchId, u: User): Clients reads this`rooms, rooms.Values {
      if m in rooms then Of(rooms[m].conns, u) else map[]
    }

    /** The hub is in this state. */
    ghost predicate Shows(h: State) reads this, rooms.Values {
      lastSeq == h.lastSeq && log == h.log && closed == h.closed
      && forall m: MatchId, u: User :: ClientsOf(m, u) == View(h, m, u)
    }

    constructor ()
      ensures Valid() && Shows(State(map[], 0, [], {}))
    {
      rooms, lastSeq, log, closed := map[], 0, [], {};
    }

    method HandleRegister(m: MatchId, u: User, c: Client, ghost h: State) returns (ghost victim: Option<Client>)
      requires Valid() && Shows(h)
      modifies this, rooms.Values
      ensures Valid() && IsVictim(View(h, m, u), victim) && Shows(Register(h, m, u, c, victim))
      ensures closed == old(closed) + if victim.Some? then {victim.value} else {}
      ensures c in ClientsOf(m, u) && (victim.Some? && victim.value != c ==> victim.value !in ClientsOf(m, u))
    {
      RegisterViews(h, m, u, c);
      var evicted, firstForUser := Seat(m, u, c);
      victim := evicted;
      Announce(evicted, if firstForUser then [Connected(m, u)] else []);
    }

    // closes the evicted client and broadcasts
    method Announce(evicted: Option<Client>, frames: seq<Frame>)
      modifies this`lastSeq, this`closed, this`log
      ensures lastSeq == old(lastSeq) + 1 && log == old(log) + frames
      ensures closed == old(closed) + if evicted.Some? then {evicted.value} else {}
      ensures forall n: MatchId, v: User :: ClientsOf(n, v) == old(ClientsOf(n, v))
    {
      lastSeq := lastSeq + 1;
      if evicted.Some? { closed := closed + {evicted.value}; }
      log := log + frames;
    }

    method Seat(m: MatchId, u: User, c: Client) returns (victim: Option<Client>, firstForUser: bool)
      requires Valid()
      modifies this`rooms, rooms.Values
      ensures Valid() && IsVictim(old(ClientsOf(m, u)), victim)
      ensures firstForUser == (old(ClientsOf(m, u)).Keys == {})
      ensures ClientsOf(m, u) == Rest(old(ClientsOf(m, u)), victim)[c := lastSeq + 1]
      ensures forall n: MatchId, v: User :: (n, v) != (m, u) ==> ClientsOf(n, v) == old(ClientsOf(n, v))
    {
      var rm := EnsureRoom(m);
      victim, firstForUser := AdmitTo(m, rm, u, c);
    }

    // a room nobody is in yet changes nothing
    method EnsureRoom(m: MatchId) returns (rm: Room)
      requires Valid()
      modifies this`rooms
      ensures Valid() && m in rooms && rooms[m] == rm && (fresh(rm) || rm in old(rooms.Values))
      ensures forall n: MatchId, v: User :: ClientsOf(n, v) == old(ClientsOf(n, v))
      ensures forall n :: n in rooms ==> fresh(rooms[n]) || rooms[n] in old(rooms.Values)
    {
      if m in rooms {
        rm := rooms[m];
      } else {
        rm := new Room(m);
        rooms := rooms[m := rm];
      }
    }

    method AdmitTo(m: MatchId, rm: Room, u: User, c: Client) returns (victim: Option<Client>, firstForUser: bool)
      requires Valid() && m in rooms && rooms[m] == rm
      modifies rm
      ensures Valid() && IsVictim(old(ClientsOf(m, u)), victim)
      ensures firstForUser == (old(ClientsOf(m, u)).Keys == {})
      ensures ClientsOf(m, u) == Rest(old(ClientsOf(m, u)), victim)[c := lastSeq + 1]
      ensures forall n: MatchId, v: User :: (n, v) != (m, u) ==> ClientsOf(n, v) == old(ClientsOf(n, v))
    {
      victim, firstForUser := rm.Admit(u, c, lastSeq + 1);
    }

    method HandleUnregister(m: MatchId, u: User, c: Client, ghost h: State)
      requires Valid() && Shows(h)
      modifies this, rooms.Values
      ensures Valid() && Shows(Unregister(h, m, u, c))
      ensures closed == old(closed) && c !in ClientsOf(m, u)
    {
      if m !in rooms { return; }
      var rm := rooms[m];
      var lastForUser := RemoveFrom(m, rm, u, c);
      if lastForUser { log := log + [Disconnected(m, u)]; }
      UnregisterView(h, m, u, c);
      if rm.conns.Keys == {} { DropRoom(m); }
    }

    method RemoveFrom(m: MatchId, rm: Room, u: User, c: Client) returns (lastForUser: bool)
      requires Valid() && m in rooms && rooms[m] == rm
      modifies rm
      ensures Valid()
      ensures lastForUser == (c in old(ClientsOf(m, u)) && (old(ClientsOf(m, u)) - {c}).Keys == {})
      ensures ClientsOf(m, u) == if c in old(ClientsOf(m, u)) then old(ClientsOf(m, u)) - {c} else old(ClientsOf(m, u))
      ensures forall n: MatchId, v: User :: (n, v) != (m, u) ==> ClientsOf(n, v) == old(ClientsOf(n, v))
    {
      lastForUser := rm.Remove(u, c);
    }

    method DropRoom(m: MatchId)
      requires Valid() && m in rooms && rooms[m].conns.Keys == {}
      modifies this`rooms
      ensures Valid() && forall n: MatchId, v: User :: ClientsOf(n, v) == old(ClientsOf(n, v))
    {
      rooms := rooms - {m};
    }

    /** Closes every client and forgets every room, without a presence frame. */
    method Shutdown()
      requires Valid()
      modifies this
      ensures Valid() && rooms == map[] && log == old(log)
      ensures forall m, u, c :: m in old(rooms) && u in old(rooms[m].conns) && c in old(rooms[m].conns)[u] ==>
                c in closed
    {
      closed := closed + set m, u, c | m in rooms && u in rooms[m].conns && c in rooms[m].conns[u] :: c;
      rooms := map[];
    }
  }

  // ---- presence ----

  /** What the room's members were told about the user: true for connected. */
  function Told(log: seq<Frame>, m: MatchId, u: User): seq<bool> {
    if log == [] then []
    else
      var f := log[|log| - 1];
      Told(log[..|log| - 1], m, u) + if f.room == m && f.user == u then [f.Connected?] else []
  }

  /** Connected, disconnected, connected, ... */
  predicate Alternates(told: seq<bool>) {
    forall i :: 0 <= i < |told| ==> told[i] == (i % 2 == 0)
  }

  predicate NumbersApart(last: nat, clients: Clients) {
    (forall c :: c in clients ==> clients[c] <= last)
    && forall c, d :: c in clients && d in clients && clients[c] == clients[d] ==> c == d
  }

  /** The frames agree with the room, and the cap holds. */
  predicate FramesAgree(told: seq<bool>, clients: Clients, last: nat) {
    Alternates(told) && (clients.Keys != {} <==> told != [] && told[|told| - 1])
    && |clients.Keys| <= MAX_CONNS_PER_USER && NumbersApart(last, clients)
  }

  predicate UserOk(h: State, m: MatchId, u: User) {
    FramesAgree(Told(h.log, m, u), View(h, m, u), h.lastSeq)
  }

  ghost predicate ValidState(h: State) {
    forall m: MatchId, u: User :: UserOk(h, m, u)
  }

  lemma ToldAppend(log: seq<Frame>, f: Frame, m: MatchId, u: User)
    ensures Told(log + [f], m, u)
         == Told(log, m, u) + if f.room == m && f.user == u then [f.Connected?] else []
  {
    assert (log + [f])[..|log|] == log;
    assert Told(log, m, u) + [] == Told(log, m, u);
  }

  lemma AlternatesNext(told: seq<bool>, next: bool)
    requires Alternates(told) && if told == [] then next else next != told[|told| - 1]
    ensures Alternates(told + [next])
  {
    if told != [] { assert told[|told| - 1] == ((|told| - 1) % 2 == 0); }
  }

  // ---- one client more or less ----

  lemma OneOut(clients: Clients, c: Client)
    requires c in clients
    ensures |(clients - {c}).Keys| == |clients.Keys| - 1
  {
    assert (clients - {c}).Keys == clients.Keys - {c};
  }

  lemma OneIn(clients: Clients, c: Client, n: nat)
    ensures |clients[c := n].Keys| <= |clients.Keys| + 1 && c in clients[c := n].Keys
  {
    assert clients[c := n].Keys == clients.Keys + {c};
  }

  // a full set without its oldest has room, and is not empty
  lemma CapKept(clients: Clients, victim: Option<Client>)
    requires |clients.Keys| <= MAX_CONNS_PER_USER && IsVictim(clients, victim)
    ensures |Rest(clients, victim).Keys| < MAX_CONNS_PER_USER
    ensures Rest(clients, victim).Keys != {} <==> clients.Keys != {}
  {
    assert |clients| == |clients.Keys|;
    if victim.Some? { OneOut(clients, victim.value); }
  }

  // one more client: told of only when there was none
  lemma OneMore(told: seq<bool>, clients: Clients, last: nat, victim: Option<Client>, c: Client)
    requires FramesAgree(told, clients, last) && IsVictim(clients, victim)
    ensures var more := if clients.Keys == {} then told + [true] else told;
            FramesAgree(more, Rest(clients, victim)[c := last + 1], last + 1)
  {
    CapKept(clients, victim);
    OneIn(Rest(clients, victim), c, last + 1);
    NewestApart(Rest(clients, victim), last, c);
    if clients.Keys == {} { AlternatesNext(told, true); }
  }

  lemma NewestApart(clients: Clients, last: nat, c: Client)
    requires NumbersApart(last, clients)
    ensures NumbersApart(last + 1, clients[c := last + 1])
  {
  }

  // one client fewer: told of only when none is left
  lemma OneLess(told: seq<bool>, clients: Clients, last: nat, c: Client)
    requires FramesAgree(told, clients, last) && c in clients
    ensures FramesAgree(if (clients - {c}).Keys == {} then told + [false] else told, clients - {c}, last)
  {
    OneOut(clients, c);
    assert clients.Keys != {};
    if (clients - {c}).Keys == {} { AlternatesNext(told, false); }
  }

  // ---- steps ----

  lemma RegisterUser(h: State, m: MatchId, u: User, c: Client, victim: Option<Client>)
    requires UserOk(h, m, u) && IsVictim(View(h, m, u), victim)
    ensures UserOk(Register(h, m, u, c, victim), m, u)
  {
    OneMore(Told(h.log, m, u), View(h, m, u), h.lastSeq, victim, c);
    RegisterSeen(h, m, u, c, victim);
  }

  // what one registration shows and tells of its user
  lemma RegisterSeen(h: State, m: MatchId, u: User, c: Client, victim: Option<Client>)
    ensures var told, next := Told(h.log, m, u), Register(h, m, u, c, victim);
            Told(next.log, m, u) == (if View(h, m, u).Keys == {} then told + [true] else told)
            && View(next, m, u) == Rest(View(h, m, u), victim)[c := h.lastSeq + 1]
            && next.lastSeq == h.lastSeq + 1
  {
    ToldAppend(h.log, Connected(m, u), m, u);
  }

  lemma RegisterOther(h: State, m: MatchId, u: User, c: Client, victim: Option<Client>, n: MatchId, v: User)
    requires UserOk(h, n, v) && (n, v) != (m, u)
    ensures UserOk(Register(h, m, u, c, victim), n, v)
  {
    ToldAppend(h.log, Connected(m, u), n, v);
    RegisterView(h, m, u, c, victim);
    assert Told(Register(h, m, u, c, victim).log, n, v) == Told(h.log, n, v);
  }

  lemma UnregisterUser(h: State, m: MatchId, u: User, c: Client)
    requires UserOk(h, m, u)
    ensures UserOk(Unregister(h, m, u, c), m, u)
  {
    if c in View(h, m, u) {
      OneLess(Told(h.log, m, u), View(h, m, u), h.lastSeq, c);
      ToldAppend(h.log, Disconnected(m, u), m, u);
    }
  }

  lemma UnregisterOther(h: State, m: MatchId, u: User, c: Client, n: MatchId, v: User)
    requires UserOk(h, n, v) && (n, v) != (m, u)
    ensures UserOk(Unregister(h, m, u, c), n, v)
  {
    ToldAppend(h.log, Disconnected(m, u), n, v);
  }

  // ---- runs ----

  datatype Event = RegisterEvent(room: MatchId, user: User, client: Client, victim: Option<Client>)
                 | UnregisterEvent(room: MatchId, user: User, client: Client)

  function Step(h: State, e: Event): State {
    match e
    case RegisterEvent(m, u, c, victim) => Register(h, m, u, c, victim)
    case UnregisterEvent(m, u, c) => Unregister(h, m, u, c)
  }

  predicate Enabled(h: State, e: Event) {
    e.RegisterEvent? ==> IsVictim(View(h, e.room, e.user), e.victim)
  }

  predicate IsRun(hs: seq<State>, es: seq<Event>) {
    |hs| == |es| + 1 && hs[0] == State(map[], 0, [], {})
    && forall i {:trigger es[i]} :: 0 <= i < |es| ==> Enabled(hs[i], es[i]) && hs[i + 1] == Step(hs[i], es[i])
  }

  lemma StepUser(h: State, e: Event, n: MatchId, v: User)
    requires ValidState(h) && Enabled(h, e)
    ensures UserOk(Step(h, e), n, v)
  {
    assert UserOk(h, n, v);
    match e
    case RegisterEvent(m, u, c, victim) =>
      if (n, v) == (m, u) { RegisterUser(h, m, u, c, victim); } else { RegisterOther(h, m, u, c, victim, n, v); }
    case UnregisterEvent(m, u, c) =>
      if (n, v) == (m, u) { UnregisterUser(h, m, u, c); } else { UnregisterOther(h, m, u, c, n, v); }
  }

  lemma StepValid(h: State, e: Event)
    requires ValidState(h) && Enabled(h, e)
    ensures ValidState(Step(h, e))
  {
    var next := Step(h, e);
    forall m: MatchId, u: User ensures UserOk(next, m, u) { StepUser(h, e, m, u); }
  }

  lemma {:induction false} RunValid(hs: seq<State>, es: seq<Event>, i: nat)
    requires IsRun(hs, es) && i < |hs|
    ensures ValidState(hs[i])
  {
    if i > 0 {
      RunValid(hs, es, i - 1);
      assert Enabled(hs[i - 1], es[i - 1]);
      StepValid(hs[i - 1], es[i - 1]);
    }
  }

  /** Over any registrations and unregistrations: what a room was told of a user strictly alternates,
      starting with connected; the user has a live client exactly when the last frame was connected;
      and nobody has more than five. */
  lemma PresenceOverRuns(hs: seq<State>, es: seq<Event>, i: nat, m: MatchId, u: User)
    requires IsRun(hs, es) && i < |hs|
    ensures var told := Told(hs[i].log, m, u);
            Alternates(told) && (told != [] ==> told[0])
            && (View(hs[i], m, u).Keys != {} <==> told != [] && told[|told| - 1])
            && |View(hs[i], m, u).Keys| <= MAX_CONNS_PER_USER
  {
    RunValid(hs, es, i);
    assert UserOk(hs[i], m, u);
  }

  /** An eviction takes out and closes the user's oldest client and nobody else's, and tells the room
      nothing. */
  lemma EvictionIsQuiet(hs: seq<State>, es: seq<Event>, i: nat)
    requires IsRun(hs, es) && i < |es| && es[i].RegisterEvent? && es[i].victim.Some?
    ensures var e, h, next := es[i], hs[i], hs[i + 1];
            IsOldest(View(h, e.room, e.user), e.victim.value) && next.log == h.log
            && next.closed == h.closed + {e.victim.value}
            && View(next, e.room, e.user) == (View(h, e.room, e.user) - {e.victim.value})[e.client := next.lastSeq]
            && forall n: MatchId, v: User :: (n, v) != (e.room, e.user) ==> View(next, n, v) == View(h, n, v)
  {
    RunValid(hs, es, i);
    assert Enabled(hs[i], es[i]) && hs[i + 1] == Step(hs[i], es[i]);
    assert UserOk(hs[i], es[i].room, es[i].user);
    assert es[i].victim.value in View(hs[i], es[i].room, es[i].user).Keys;
  }

  // no registration of the client in the room by events i to j - 1
  predicate NotBack(es: seq<Event>, i: nat, j: nat, m: MatchId, u: User, c: Client)
    requires j <= |es|
  {
    forall k :: i <= k < j && es[k].RegisterEvent? ==> (es[k].room, es[k].user, es[k].client) != (m, u, c)
  }

  lemma StaysAway(h: State, e: Event, m: MatchId, u: User, c: Client)
    requires c !in View(h, m, u)
    requires e.RegisterEvent? ==> (e.room, e.user, e.client) != (m, u, c)
    ensures c !in View(Step(h, e), m, u)
  {
    match e
    case RegisterEvent(n, v, d, victim) => RegisterView(h, n, v, d, victim);
    case UnregisterEvent(n, v, d) => UnregisterView(h, n, v, d);
  }

  lemma {:induction false} EvictedAway(hs: seq<State>, es: seq<Event>, i: nat, j: nat)
    requires IsRun(hs, es) && i < j <= |es| && es[i].RegisterEvent?
    requires es[i].victim.Some? && es[i].victim.value != es[i].client
    requires NotBack(es, i + 1, j, es[i].room, es[i].user, es[i].victim.value)
    ensures es[i].victim.value !in View(hs[j], es[i].room, es[i].user)
    decreases j - i
  {
    EvictionIsQuiet(hs, es, i);
    if j > i + 1 {
      EvictedAway(hs, es, i, j - 1);
      assert hs[j] == Step(hs[j - 1], es[j - 1]);
      StaysAway(hs[j - 1], es[j - 1], es[i].room, es[i].user, es[i].victim.value);
    }
  }

  /** Unregistering an evicted client, at any later time at which it has not registered again, changes
      and tells nothing. */
  lemma EvictedUnregisters(hs: seq<State>, es: seq<Event>, i: nat, j: nat)
    requires IsRun(hs, es) && i < j <= |es| && es[i].RegisterEvent?
    requires es[i].victim.Some? && es[i].victim.value != es[i].client
    requires NotBack(es, i + 1, j, es[i].room, es[i].user, es[i].victim.value)
    ensures Unregister(hs[j], es[i].room, es[i].user, es[i].victim.value) == hs[j]
  {
    EvictedAway(hs, es, i, j);
  }

  /** Two clients never tie for oldest: the one evicted is the one registered first. */
  lemma OneOldest(hs: seq<State>, es: seq<Event>, i: nat, m: MatchId, u: User, c: Client, d: Client)
    requires IsRun(hs, es) && i < |hs| && IsOldest(View(hs[i], m, u), c) && IsOldest(View(hs[i], m, u), d)
    ensures c == d
  {
    RunValid(hs, es, i);
    assert UserOk(hs[i], m, u);
  }
}
