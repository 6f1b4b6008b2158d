/** Which calls the rate limiters let through, exactly
    (server/internal/platform/ratelimit/limiter.go:72-132, server/internal/assist/ratelimit.go:52-76). */
module RateAdmission {
  import opened Wrappers
  import opened RateLimit

  // ---- a new key ----

  // the keys not idle for longer than the TTL
  function Active(c: Config, m: Buckets, now: int): set<Key> {
    set k | k in m && now - m[k].last <= c.idleTTL
  }

  lemma EvictKeepsActive(c: Config, m: Buckets, now: int)
    ensures EvictIdle(c, m, now).Keys == Active(c, m, now) && |EvictIdle(c, m, now)| == |Active(c, m, now)|
  {
    var r := EvictIdle(c, m, now);
    assert r.Keys == Active(c, m, now);
    assert |r| == |r.Keys|;
  }

  /** A new key is not remembered exactly when the map is full of active keys.  Then it is let
      through; otherwise it starts with a full burst, less this call if the burst has one. */
  lemma NewKey(c: Config, m: Buckets, key: Key, now: int)
    requires key !in m
    ensures var (next, ok) := Allow(c, m, key, now);
            (key !in next <==> |m| >= c.maxBuckets && |Active(c, m, now)| >= c.maxBuckets)
            && (key !in next ==> ok)
            && (key in next ==>
                  (ok <==> c.burst >= 1)
                  && next[key] == Bucket(if ok then c.burst as real - 1.0 else c.burst as real, now))
            && (forall k :: k != key ==>
                  (k in next <==> k in m && (|m| >= c.maxBuckets ==> now - m[k].last <= c.idleTTL)))
            && (forall k :: k != key && k in next ==> next[k] == m[k])
  {
    EvictKeepsActive(c, m, now);
  }

  /** At a map that is full of active keys a new key is let through and changes nothing. */
  lemma FullMapFailsOpen(c: Config, m: Buckets, key: Key, now: int)
    requires key !in m && |m| >= c.maxBuckets && forall k :: k in m ==> now - m[k].last <= c.idleTTL
    ensures Allow(c, m, key, now) == (m, true)
  {
    EvictKeepsActive(c, m, now);
    assert Active(c, m, now) == m.Keys && |m.Keys| == |m|;
    assert EvictIdle(c, m, now) == m;
  }

  /** A known key's bucket is the only one a call touches. */
  lemma KnownKey(c: Config, m: Buckets, key: Key, now: int)
    requires key in m
    ensures var next := Allow(c, m, key, now).0;
            next.Keys == m.Keys && next[key].last == now && forall k :: k in m && k != key ==> next[k] == m[k]
  {
  }

  // ---- which calls are admitted ----

  predicate Admits(es: seq<Event>, answers: seq<Option<bool>>, key: Key, k: nat)
    requires |answers| == |es| && k < |es|
  {
    es[k].Call? && es[k].key == key && answers[k] == Some(true)
  }

  /** The key's calls let through among events j to i - 1. */
  function Admitted(es: seq<Event>, answers: seq<Option<bool>>, key: Key, j: nat, i: nat): nat
    requires |answers| == |es| && i <= |es|
  {
    if i <= j then 0
    else Admitted(es, answers, key, j, i - 1) + if Admits(es, answers, key, i - 1) then 1 else 0
  }

  /** One more call at event i keeps the window from event j within burst and rate. */
  predicate Fits(c: Config, es: seq<Event>, answers: seq<Option<bool>>, key: Key, j: nat, i: nat)
    requires |answers| == |es| && j <= i < |es| && c.interval > 0
  {
    Admitted(es, answers, key, j, i) as real + 1.0 <= c.burst as real + Rate(c, es[i].now - es[j].now)
  }

  // the buckets before event i
  function At(c: Config, es: seq<Event>, i: nat): Buckets
    requires i <= |es|
  {
    ForeverAfter(c, map[], es[..i])
  }

  lemma NextAt(c: Config, es: seq<Event>, i: nat)
    requires i < |es|
    ensures At(c, es, i + 1) == StepForever(c, At(c, es, i), es[i])
    ensures AnswersForever(c, map[], es)[i]
         == if es[i].Call? then Some(AllowForever(c, At(c, es, i), es[i].key, es[i].now).1) else None
  {
    assert es[..i + 1] == es[..i] + [es[i]];
    MapAfterConcat(c, map[], es[..i], [es[i]]);
    AnswersSplit(c, map[], es, i);
    FirstAnswer(c, At(c, es, i), es[i..]);
    assert AnswersForever(c, map[], es)[i..][0] == AnswersForever(c, map[], es)[i];
  }

  lemma FirstAnswer(c: Config, n: Buckets, es: seq<Event>)
    requires es != []
    ensures ForeverAfter(c, n, [es[0]]) == StepForever(c, n, es[0])
    ensures AnswersForever(c, n, es)[0]
         == if es[0].Call? then Some(AllowForever(c, n, es[0].key, es[0].now).1) else None
  {
    assert [es[0]][1..] == [];
  }

  lemma AtLevels(c: Config, es: seq<Event>, i: nat, t: int)
    requires c.interval > 0 && c.burst >= 0 && InOrder(es) && i <= |es| && (i > 0 ==> es[i - 1].now <= t)
    ensures Levels(c, At(c, es, i)) && Past(At(c, es, i), t)
  {
    if i > 0 {
      assert forall k :: 0 <= k < i ==> es[..i][k] == es[k];
      ForeverLevels(c, map[], es[..i], es[0].now);
    }
  }

  // what event i does to the key's tokens at its own time
  lemma EventAt(c: Config, es: seq<Event>, key: Key, i: nat)
    requires c.interval > 0 && c.burst >= 0 && InOrder(es) && i < |es|
    ensures var now, answers := es[i].now, AnswersForever(c, map[], es);
            Tokens(c, At(c, es, i + 1), key, now) + (if Admits(es, answers, key, i) then 1.0 else 0.0)
            == Tokens(c, At(c, es, i), key, now)
    ensures es[i].Call? && es[i].key == key ==> key in At(c, es, i + 1) && At(c, es, i + 1)[key].last == es[i].now
    ensures !(es[i].Call? && es[i].key == key) ==>
              forall t :: Tokens(c, At(c, es, i + 1), key, t) == Tokens(c, At(c, es, i), key, t)
  {
    NextAt(c, es, i);
    AtLevels(c, es, i, es[i].now);
  }

  // no window holds more than burst and rate allow, what is left included
  lemma {:induction false} WindowLeaves(c: Config, es: seq<Event>, key: Key, j: nat, i: nat, t: int)
    requires c.interval > 0 && c.burst >= 0 && InOrder(es) && j <= i <= |es| && j < |es|
    requires es[j].now <= t && (i > 0 ==> es[i - 1].now <= t)
    ensures Tokens(c, At(c, es, i), key, t) + Admitted(es, AnswersForever(c, map[], es), key, j, i) as real
         <= c.burst as real + Rate(c, t - es[j].now)
    decreases i
  {
    AtLevels(c, es, i, t);
    RateAdds(c, 0, t - es[j].now);
    if i <= j {
      TokensLevel(c, At(c, es, i), key, t);
    } else {
      var s := es[i - 1].now;
      WindowLeaves(c, es, key, j, i - 1, s);
      EventAt(c, es, key, i - 1);
      AtLevels(c, es, i, s);
      RefillEarns(c, At(c, es, i), key, s, t);
      RateAdds(c, s - es[j].now, t - s);
    }
  }

  // a bucket touched at s is full at t or has earned exactly the time since
  lemma RefillExactly(c: Config, n: Buckets, key: Key, s: int, t: int)
    requires c.interval > 0 && s <= t && Levels(c, n) && key in n && n[key].last == s
    ensures Tokens(c, n, key, t) == c.burst as real
         || Tokens(c, n, key, t) == Tokens(c, n, key, s) + Rate(c, t - s)
  {
    if s == t { assert Rate(c, 0) == 0.0; }
  }

  /** The key has all its tokens, or some window that began with an event is used up exactly. */
  lemma {:induction false} FullPoint(c: Config, es: seq<Event>, key: Key, i: nat, t: int) returns (j: nat)
    requires c.interval > 0 && c.burst >= 0 && InOrder(es) && i <= |es| && (i > 0 ==> es[i - 1].now <= t)
    ensures j <= i && (j == i ==> Tokens(c, At(c, es, i), key, t) == c.burst as real)
    ensures j < i ==>
              Tokens(c, At(c, es, i), key, t) + Admitted(es, AnswersForever(c, map[], es), key, j, i) as real
              == c.burst as real + Rate(c, t - es[j].now)
    decreases i
  {
    if i == 0 {
      j := 0;
    } else {
      var e := es[i - 1];
      EventAt(c, es, key, i - 1);
      if e.Call? && e.key == key {
        AtLevels(c, es, i, e.now);
        RefillExactly(c, At(c, es, i), key, e.now, t);
        j := FullPoint(c, es, key, i - 1, e.now);
        RateAdds(c, e.now - es[j].now, t - e.now);
        if Tokens(c, At(c, es, i), key, t) == c.burst as real { j := i; }
      } else {
        j := FullPoint(c, es, key, i - 1, t);
        if j == i - 1 { j := i; }
      }
    }
  }

  lemma EnoughFits(c: Config, es: seq<Event>, key: Key, i: nat, j: nat)
    requires c.interval > 0 && c.burst >= 0 && InOrder(es) && j <= i < |es|
    requires Tokens(c, At(c, es, i), key, es[i].now) >= 1.0
    ensures Fits(c, es, AnswersForever(c, map[], es), key, j, i)
  {
    WindowLeaves(c, es, key, j, i, es[i].now);
  }

  lemma SomeWindowFull(c: Config, es: seq<Event>, key: Key, i: nat) returns (j: nat)
    requires c.interval > 0 && c.burst >= 0 && InOrder(es) && i < |es|
    requires Tokens(c, At(c, es, i), key, es[i].now) < 1.0
    ensures j <= i && !Fits(c, es, AnswersForever(c, map[], es), key, j, i)
  {
    j := FullPoint(c, es, key, i, es[i].now);
    assert Rate(c, 0) == 0.0;
  }

  /** The never-evicting limiter lets a call through if and only if, counted with it, no window that
      began with an earlier event or with the call itself holds more than burst + span / interval of
      the key's admitted calls. */
  lemma AdmittedIff(c: Config, es: seq<Event>, i: nat)
    requires c.interval > 0 && c.burst >= 0 && InOrder(es) && i < |es| && es[i].Call?
    ensures AnswersForever(c, map[], es)[i] == Some(true)
       <==> forall j :: 0 <= j <= i ==> Fits(c, es, AnswersForever(c, map[], es), es[i].key, j, i)
  {
    var key := es[i].key;
    NextAt(c, es, i);
    if Tokens(c, At(c, es, i), key, es[i].now) >= 1.0 {
      forall j | 0 <= j <= i ensures Fits(c, es, AnswersForever(c, map[], es), key, j, i) {
        EnoughFits(c, es, key, i, j);
      }
    } else {
      var j := SomeWindowFull(c, es, key, i);
    }
  }

  /** So does the evicting one, with a TTL that covers a full refill and room for every key. */
  lemma EvictingAdmittedIff(c: Config, es: seq<Event>, i: nat)
    requires TTLCovers(c) && c.idleTTL >= 0 && c.burst >= 0 && InOrder(es) && NeverFailsOpen(c, map[], es)
    requires i < |es| && es[i].Call?
    ensures Answers(c, map[], es)[i] == Some(true)
       <==> forall j :: 0 <= j <= i ==> Fits(c, es, Answers(c, map[], es), es[i].key, j, i)
  {
    SameAnswers(c, es);
    AdmittedIff(c, es, i);
  }
}
