/** What the limiter's stores hold over whole runs, and the smallest limiter at work (api_rate_limit.py). */
module RateLimiterStores {
  import opened RateLimiter

  /** Every counter expires with its window, and none lies ahead of window `w`. */
  ghost predicate ExpireWithWindow(r: Redis, w: nat, cfg: Config) {
    forall id | id in r.counters :: id.0 <= w && r.counters[id].expiresAt == WindowEnd(id.0, cfg)
  }

  ghost predicate OnlyWindow(r: Redis, w: nat) {
    forall id | id in r.counters :: id.0 == w
  }

  lemma EndedWindow(w: nat, now: nat, cfg: Config)
    requires cfg.Valid() && w < Window(now, cfg)
    ensures WindowEnd(w, cfg) <= now
  {
    InWindow(now, w + 1, cfg);
  }

  lemma LivingCounterIsCurrent(r: Redis, w: nat, now: nat, cfg: Config, id: (nat, Key))
    requires cfg.Valid() && ExpireWithWindow(r, w, cfg) && w <= Window(now, cfg) && id in Expire(r, now).counters
    ensures id.0 == Window(now, cfg) && Expire(r, now).counters[id].expiresAt == WindowEnd(id.0, cfg)
  {
    if id.0 < Window(now, cfg) { EndedWindow(id.0, now, cfg); }
  }

  lemma CheckKeepsCurrent(r: Redis, w: nat, c: Call, cfg: Config)
    requires cfg.Valid() && ExpireWithWindow(r, w, cfg) && w <= Window(c.now, cfg)
    ensures var r', v := RedisCheck(r, c, cfg).0, Window(c.now, cfg);
      ExpireWithWindow(r', v, cfg) && OnlyWindow(r', v)
  {
    var r', v := RedisCheck(r, c, cfg).0, Window(c.now, cfg);
    RetryAfterReachesWindowEnd(c.now, cfg);
    forall id | id in r'.counters ensures id.0 == v && r'.counters[id].expiresAt == WindowEnd(v, cfg) {
      if id in Expire(r, c.now).counters { LivingCounterIsCurrent(r, w, c.now, cfg, id); }
    }
  }

  lemma {:induction false} RunKeepsCurrent(r: Redis, w: nat, calls: seq<Call>, cfg: Config)
    requires cfg.Valid() && Ordered(calls) && ExpireWithWindow(r, w, cfg)
    requires calls != [] && w <= Window(calls[0].now, cfg)
    ensures OnlyWindow(RedisAfter(r, calls, cfg), Window(calls[|calls| - 1].now, cfg))
    decreases |calls|
  {
    var c, rest := calls[0], calls[1..];
    var r', v := RedisCheck(r, c, cfg).0, Window(c.now, cfg);
    CheckKeepsCurrent(r, w, c, cfg);
    if rest == [] {
      assert RedisAfter(r', rest, cfg) == r';
    } else {
      WindowMonotone(c.now, rest[0].now, cfg);
      assert rest[|rest| - 1] == calls[|calls| - 1];
      RunKeepsCurrent(r', v, rest, cfg);
    }
  }

  ghost predicate CountsActive(r: Redis, h: seq<Seen>, v: nat) {
    forall k :: (v, k) in r.counters <==> k in ActiveKeys(h, v)
  }

  lemma MatchCounts(r: Redis, h: seq<Seen>, w: nat, cfg: Config)
    requires RedisMatches(r, h, w, cfg)
    ensures CountsActive(r, h, w)
  {
  }

  /** The window of the last call, or `w` before any. */
  function LastWindow(calls: seq<Call>, w: nat, cfg: Config): nat
    requires cfg.Valid()
  {
    if calls == [] then w else Window(calls[|calls| - 1].now, cfg)
  }

  lemma RestIsLater(c: Call, rest: seq<Call>, w: nat, cfg: Config)
    requires cfg.Valid() && Ordered([c] + rest)
    ensures Ordered(rest) && LastWindow([c] + rest, w, cfg) == LastWindow(rest, Window(c.now, cfg), cfg)
    ensures rest != [] ==> Window(c.now, cfg) <= Window(rest[0].now, cfg)
  {
    var calls := [c] + rest;
    assert forall i | 0 <= i < |rest| :: calls[i + 1] == rest[i];
    if rest != [] {
      assert calls[0].now <= calls[1].now;
      WindowMonotone(c.now, rest[0].now, cfg);
    }
  }

  lemma {:induction false} RunCountsActive(r: Redis, h: seq<Seen>, w: nat, calls: seq<Call>, cfg: Config)
    requires cfg.Valid() && Ordered(calls) && RedisMatches(r, h, w, cfg)
    requires calls != [] ==> w <= Window(calls[0].now, cfg)
    ensures CountsActive(RedisAfter(r, calls, cfg), History(h, calls, cfg), LastWindow(calls, w, cfg))
    decreases |calls|
  {
    if calls == [] {
      MatchCounts(r, h, w, cfg);
    } else {
      var c, rest := calls[0], calls[1..];
      assert calls == [c] + rest;
      RestIsLater(c, rest, w, cfg);
      RedisStep(r, h, w, c, cfg);
      RunCountsActive(RedisCheck(r, c, cfg).0, Extend(h, c, cfg), Window(c.now, cfg), rest, cfg);
    }
  }

  /**
   On every run Redis holds counters of the last call's window alone: one for each client answered in it,
   and with that never more of them than the capacity.
   */
  lemma CountersAreCurrent(calls: seq<Call>, cfg: Config)
    requires cfg.Valid() && Ordered(calls) && calls != []
    ensures var r, v := RedisAfter(EMPTY, calls, cfg), Window(calls[|calls| - 1].now, cfg);
      && (forall w, k :: (w, k) in r.counters <==>
            w == v && k in ServedKeys(calls, RedisRun(EMPTY, calls, cfg), v, cfg))
      && |ServedKeys(calls, RedisRun(EMPTY, calls, cfg), v, cfg)| <= cfg.maxKeys
  {
    var r, v := RedisAfter(EMPTY, calls, cfg), Window(calls[|calls| - 1].now, cfg);
    EmptyMatches(cfg);
    RunKeepsCurrent(EMPTY, 0, calls, cfg);
    RunCountsActive(EMPTY, [], 0, calls, cfg);
    AnswersAreHistory(calls, cfg);
    BackendsAgree(calls, cfg);
    SameKeys(calls, RedisRun(EMPTY, calls, cfg), History([], calls, cfg), v, cfg);
    CapacityOverRuns(calls, cfg);
    assert |r.active| == |r.active.Keys|;
    forall w, k | (w, k) in r.counters ensures w == v {
      assert (w, k).0 == v;
    }
  }

  /**
   The smallest limiter: one client with one request a second. Its second request waits, another client finds
   no room, and with the next second both the quota and the room are back.
   */
  lemma SmallestLimiter(a: Key, b: Key, t: nat)
    requires a != b
    ensures var calls := [Call(a, t), Call(a, t), Call(b, t), Call(b, t + 1)];
      MemoryRun(map[], calls, Config(1, 1, 1))
        == [Answer(true, 1), Answer(false, 1), Exhausted, Answer(true, 1)]
  {
    var cfg := Config(1, 1, 1);
    var c1, c2, c3, c4 := Call(a, t), Call(a, t), Call(b, t), Call(b, t + 1);
    var e1 := map[a := Entry(t, 1)];
    assert MemoryCheck(map[], c1, cfg) == (e1, Answer(true, 1));
    assert MemoryCheck(e1, c2, cfg) == (e1, Answer(false, 1)) by { assert Prune(e1, t) == e1; }
    assert MemoryCheck(e1, c3, cfg) == (e1, Exhausted) by { assert Prune(e1, t) == e1; }
    assert Prune(e1, t + 1) == map[];
    var e4 := map[b := Entry(t + 1, 1)];
    assert MemoryCheck(e1, c4, cfg) == (e4, Answer(true, 1));
    MemoryRunCons(e1, c4, [], cfg);
    MemoryRunCons(e1, c3, [c4], cfg);
    MemoryRunCons(e1, c2, [c3, c4], cfg);
    MemoryRunCons(map[], c1, [c2, c3, c4], cfg);
  }

  lemma MemoryRunCons(entries: map<Key, Entry>, c: Call, rest: seq<Call>, cfg: Config)
    requires cfg.Valid()
    ensures var (entries', answer) := MemoryCheck(entries, c, cfg);
      MemoryRun(entries, [c] + rest, cfg) == [answer] + MemoryRun(entries', rest, cfg)
  {
    assert ([c] + rest)[1..] == rest;
  }

  /** No limiter works without a quota, a window or room. */
  lemma NothingIsZero(requests: nat, windowSeconds: nat, maxKeys: nat)
    ensures Config(requests, windowSeconds, maxKeys).Valid() <==> 0 !in {requests, windowSeconds, maxKeys}
  {
  }
}
