/**
 The fixed-window API rate limiter (api_rate_limit.py): the in-process dictionary, the Redis
 script, and one history-based description of what both decide. Times are whole seconds.
 */
module RateLimiter {
  import opened Arithmetic

  type Key = string // the SHA-256 digest stands for the key itself

  datatype Config = Config(requests: nat, windowSeconds: nat, maxKeys: nat) {
    predicate Valid() {
      requests >= 1 && windowSeconds >= 1 && maxKeys >= 1
    }
  }

  /** `Exhausted` is the RuntimeError raised at capacity. */
  datatype Answer = Exhausted | Answer(allowed: bool, retryAfter: int)

  datatype Call = Call(key: Key, now: nat)

  function Window(now: nat, cfg: Config): nat
    requires cfg.Valid()
  {
    now / cfg.windowSeconds
  }

  function RetryAfter(now: nat, cfg: Config): int
    requires cfg.Valid()
  {
    var rest := cfg.windowSeconds - now % cfg.windowSeconds;
    if rest > 1 then rest else 1
  }

  function WindowEnd(window: nat, cfg: Config): nat {
    (window + 1) * cfg.windowSeconds
  }

  /** The announced wait reaches exactly the end of the current window. */
  lemma RetryAfterReachesWindowEnd(now: nat, cfg: Config)
    requires cfg.Valid()
    ensures now + RetryAfter(now, cfg) == WindowEnd(Window(now, cfg), cfg)
    ensures Window(now, cfg) * cfg.windowSeconds <= now < WindowEnd(Window(now, cfg), cfg)
  {
    var ws := cfg.windowSeconds;
    assert now == ws * (now / ws) + now % ws;
    assert (now / ws + 1) * ws == ws * (now / ws) + ws;
  }

  lemma InWindow(t: nat, w: nat, cfg: Config)
    requires cfg.Valid()
    ensures Window(t, cfg) < w <==> t < w * cfg.windowSeconds
  {
    RetryAfterReachesWindowEnd(t, cfg);
    var ws, v := cfg.windowSeconds, Window(t, cfg);
    if v < w { Multiples(v + 1, w, ws); } else { Multiples(w, v, ws); }
  }

  /** Whoever waits `retry_after` seconds, or longer, is in a later window. */
  lemma WaitingEndsInLaterWindow(now: nat, later: nat, cfg: Config)
    requires cfg.Valid() && later >= now + RetryAfter(now, cfg)
    ensures Window(later, cfg) > Window(now, cfg)
  {
    RetryAfterReachesWindowEnd(now, cfg);
    InWindow(later, Window(now, cfg) + 1, cfg);
  }

  lemma WindowMonotone(t: nat, u: nat, cfg: Config)
    requires cfg.Valid() && t <= u
    ensures Window(t, cfg) <= Window(u, cfg)
  {
    InWindow(u, Window(t, cfg), cfg);
    RetryAfterReachesWindowEnd(t, cfg);
  }

  // ---------------------------------------------------------------- the history both limiters agree on

  /** One finished call: its key, its window and its answer. */
  datatype Seen = Seen(key: Key, window: nat, answer: Answer) {
    predicate Counts(k: Key, w: nat) {
      key == k && window == w && answer.Answer?
    }
  }

  /** Calls of key `k` in window `w` that did not fail at capacity. */
  function Answered(h: seq<Seen>, k: Key, w: nat): nat {
    if h == [] then 0 else Answered(h[..|h| - 1], k, w) + (if h[|h| - 1].Counts(k, w) then 1 else 0)
  }

  function ActiveKeys(h: seq<Seen>, w: nat): set<Key> {
    set s | s in h && s.window == w && s.answer.Answer? :: s.key
  }

  function Decide(h: seq<Seen>, c: Call, cfg: Config): Answer
    requires cfg.Valid()
  {
    var w := Window(c.now, cfg);
    var n := Answered(h, c.key, w);
    if n == 0 && |ActiveKeys(h, w)| >= cfg.maxKeys then Exhausted
    else Answer(n < cfg.requests, RetryAfter(c.now, cfg))
  }

  function Extend(h: seq<Seen>, c: Call, cfg: Config): seq<Seen>
    requires cfg.Valid()
  {
    h + [Seen(c.key, Window(c.now, cfg), Decide(h, c, cfg))]
  }

  lemma ExtendCounts(h: seq<Seen>, c: Call, cfg: Config, k: Key, w: nat)
    requires cfg.Valid()
    ensures Answered(Extend(h, c, cfg), k, w)
         == Answered(h, k, w) + (if k == c.key && w == Window(c.now, cfg) && Decide(h, c, cfg).Answer? then 1 else 0)
    ensures ActiveKeys(Extend(h, c, cfg), w)
         == ActiveKeys(h, w) + (if w == Window(c.now, cfg) && Decide(h, c, cfg).Answer? then {c.key} else {})
  {
    var h' := Extend(h, c, cfg);
    assert h'[..|h|] == h && h'[|h|] == Seen(c.key, Window(c.now, cfg), Decide(h, c, cfg));
    forall x ensures x in ActiveKeys(h', w)
      <==> x in ActiveKeys(h, w) || (x == c.key && w == Window(c.now, cfg) && Decide(h, c, cfg).Answer?)
    {
      if x == c.key && w == Window(c.now, cfg) && Decide(h, c, cfg).Answer? {
        assert h'[|h|] in h';
      }
    }
  }

  lemma {:induction false} AnsweredIffActive(h: seq<Seen>, k: Key, w: nat)
    ensures Answered(h, k, w) > 0 <==> k in ActiveKeys(h, w)
  {
    if h != [] {
      var front, last := h[..|h| - 1], h[|h| - 1];
      AnsweredIffActive(front, k, w);
      assert forall s | s in h :: s in front || s == last;
      assert forall s | s in front :: s in h;
    }
  }

  /** No call in `h` lies in a window after `w`. */
  ghost predicate UpTo(h: seq<Seen>, w: nat) {
    forall s | s in h :: s.window <= w
  }

  lemma NothingLater(h: seq<Seen>, w: nat, k: Key, later: nat)
    requires UpTo(h, w) && w < later
    ensures Answered(h, k, later) == 0 && ActiveKeys(h, later) == {}
  {
    assert ActiveKeys(h, later) == {};
    AnsweredIffActive(h, k, later);
  }

  // ---------------------------------------------------------------- the in-process limiter

  datatype Entry = Entry(window: nat, count: nat)

  function Prune(entries: map<Key, Entry>, window: nat): map<Key, Entry> {
    map k | k in entries && entries[k].window == window :: entries[k]
  }

  function MemoryCheck(entries: map<Key, Entry>, c: Call, cfg: Config): (map<Key, Entry>, Answer)
    requires cfg.Valid()
  {
    var w, retry := Window(c.now, cfg), RetryAfter(c.now, cfg);
    if c.key !in entries || entries[c.key].window != w then
      var kept := Prune(entries, w);
      if |kept| >= cfg.maxKeys then (kept, Exhausted) else (kept[c.key := Entry(w, 1)], Answer(true, retry))
    else if entries[c.key].count >= cfg.requests then (entries, Answer(false, retry))
    else (entries[c.key := Entry(w, entries[c.key].count + 1)], Answer(true, retry))
  }

  class FixedWindowLimiter {
    var entries: map<Key, Entry>

    constructor ()
      ensures entries == map[]
    {
      entries := map[];
    }

    method PruneEntries(currentWindow: nat, maxKeys: nat) returns (ok: bool)
      modifies this
      ensures entries == Prune(old(entries), currentWindow)
      ensures ok <==> |entries| < maxKeys
    {
      var stale := set k | k in entries && entries[k].window != currentWindow;
      ghost var all := stale;
      while stale != {}
        invariant stale <= all
        invariant entries == map k | k in old(entries) && k !in all - stale :: old(entries)[k]
        decreases |stale|
      {
        var k :| k in stale;
        entries := entries - {k};
        stale := stale - {k};
      }
      assert forall k | k in old(entries) :: k in all <==> old(entries)[k].window != currentWindow;
      assert entries.Keys == Prune(old(entries), currentWindow).Keys;
      ok := |entries| < maxKeys;
    }

    method Check(key: Key, cfg: Config, now: nat) returns (answer: Answer)
      requires cfg.Valid()
      modifies this
      ensures (entries, answer) == MemoryCheck(old(entries), Call(key, now), cfg)
    {
      var window := now / cfg.windowSeconds;
      var retryAfter := RetryAfter(now, cfg);
      if key !in entries || entries[key].window != window {
        var ok := PruneEntries(window, cfg.maxKeys);
        if !ok {
          return Exhausted;
        }
        entries := entries[key := Entry(window, 1)];
        return Answer(true, retryAfter);
      }
      var count := entries[key].count;
      if count >= cfg.requests {
        return Answer(false, retryAfter);
      }
      entries := entries[key := Entry(window, count + 1)];
      return Answer(true, retryAfter);
    }
  }

  /** Tracked keys never exceed the capacity. */
  lemma CapacityKept(entries: map<Key, Entry>, c: Call, cfg: Config)
    requires cfg.Valid() && |entries| <= cfg.maxKeys
    ensures |MemoryCheck(entries, c, cfg).0| <= cfg.maxKeys
  {
    var kept := Prune(entries, Window(c.now, cfg));
    assert kept.Keys <= entries.Keys;
    SubsetSize(kept.Keys, entries.Keys);
    assert kept[c.key := Entry(0, 1)].Keys == kept.Keys + {c.key};
  }

  /** What the dictionary remembers of the history, in window `w`. */
  ghost predicate MemoryMatches(entries: map<Key, Entry>, h: seq<Seen>, w: nat, cfg: Config) {
    && UpTo(h, w)
    && (forall k | k in entries :: entries[k].window <= w)
    && (forall k :: k in entries && entries[k].window == w <==> k in ActiveKeys(h, w))
    && (forall k | k in entries && entries[k].window == w ::
          var n := Answered(h, k, w); entries[k].count == if n < cfg.requests then n else cfg.requests)
  }

  /** One call: the dictionary gives the answer the history calls for. */
  lemma MemoryStep(entries: map<Key, Entry>, h: seq<Seen>, w: nat, c: Call, cfg: Config)
    requires cfg.Valid() && MemoryMatches(entries, h, w, cfg) && w <= Window(c.now, cfg)
    ensures var (entries', answer) := MemoryCheck(entries, c, cfg);
      && answer == Decide(h, c, cfg)
      && MemoryMatches(entries', Extend(h, c, cfg), Window(c.now, cfg), cfg)
  {
    var v := Window(c.now, cfg);
    assert Prune(entries, v).Keys == ActiveKeys(h, v);
    AnsweredIffActive(h, c.key, v);
    var (entries', answer) := MemoryCheck(entries, c, cfg);
    assert answer == Decide(h, c, cfg);
    MemoryStillMatches(entries, h, c, cfg);
  }

  lemma UpToExtend(h: seq<Seen>, c: Call, cfg: Config)
    requires cfg.Valid() && UpTo(h, Window(c.now, cfg))
    ensures UpTo(Extend(h, c, cfg), Window(c.now, cfg))
  {
  }

  /** The entry of one key, before and after a call in window `v`. */
  lemma MemoryEntry(entries: map<Key, Entry>, c: Call, cfg: Config, k: Key)
    requires cfg.Valid()
    ensures var v, (entries', answer) := Window(c.now, cfg), MemoryCheck(entries, c, cfg);
      var before := k in entries && entries[k].window == v;
      && (k in entries' ==> entries'[k].window == v || (k in entries && entries'[k] == entries[k]))
      && (k in entries' && entries'[k].window == v <==> before || (k == c.key && answer.Answer?))
      && (before && !(k == c.key && answer.Answer? && answer.allowed) ==> entries'[k] == entries[k])
      && (k == c.key && answer.Answer? && answer.allowed ==>
            entries'[k] == Entry(v, if before then entries[k].count + 1 else 1))
  {
  }

  lemma MemoryStillMatches(entries: map<Key, Entry>, h: seq<Seen>, c: Call, cfg: Config)
    requires cfg.Valid() && MemoryMatches(entries, h, Window(c.now, cfg), cfg)
    requires MemoryCheck(entries, c, cfg).1 == Decide(h, c, cfg)
    ensures MemoryMatches(MemoryCheck(entries, c, cfg).0, Extend(h, c, cfg), Window(c.now, cfg), cfg)
  {
    var v, h' := Window(c.now, cfg), Extend(h, c, cfg);
    var entries' := MemoryCheck(entries, c, cfg).0;
    UpToExtend(h, c, cfg);
    forall k
      ensures k in entries' ==> entries'[k].window <= v
      ensures k in entries' && entries'[k].window == v <==> k in ActiveKeys(h', v)
      ensures k in entries' && entries'[k].window == v ==>
                var n := Answered(h', k, v); entries'[k].count == if n < cfg.requests then n else cfg.requests
    {
      MemoryPoint(entries, h, c, cfg, k);
    }
  }

  lemma MemoryPoint(entries: map<Key, Entry>, h: seq<Seen>, c: Call, cfg: Config, k: Key)
    requires cfg.Valid() && MemoryMatches(entries, h, Window(c.now, cfg), cfg)
    requires MemoryCheck(entries, c, cfg).1 == Decide(h, c, cfg)
    ensures var v, h', entries' := Window(c.now, cfg), Extend(h, c, cfg), MemoryCheck(entries, c, cfg).0;
      && (k in entries' ==> entries'[k].window <= v)
      && (k in entries' && entries'[k].window == v <==> k in ActiveKeys(h', v))
      && (k in entries' && entries'[k].window == v ==>
            var n := Answered(h', k, v); entries'[k].count == if n < cfg.requests then n else cfg.requests)
  {
    var v := Window(c.now, cfg);
    MemoryEntry(entries, c, cfg, k);
    AnsweredIffActive(h, k, v);
    ExtendCounts(h, c, cfg, k, v);
    var entries', answer := MemoryCheck(entries, c, cfg).0, Decide(h, c, cfg);
    assert answer.Answer? ==> (answer.allowed <==> Answered(h, c.key, v) < cfg.requests);
    assert k in entries ==> entries[k].window <= v;
    assert k in entries && entries[k].window == v <==> k in ActiveKeys(h, v);
    CountPoint(k, v, entries, entries', c.key, answer, Answered(h, k, v), Answered(Extend(h, c, cfg), k, v), cfg);
  }

  /** The count stays the smaller of the answered calls and the quota. */
  lemma CountPoint(k: Key, v: nat, entries: map<Key, Entry>, entries': map<Key, Entry>, called: Key, answer: Answer,
                   n: nat, n': nat, cfg: Config)
    requires cfg.Valid()
    requires var before := k in entries && entries[k].window == v;
      && (before <==> n > 0)
      && (before ==> entries[k].count == if n < cfg.requests then n else cfg.requests)
      && (k in entries ==> entries[k].window <= v)
      && (k in entries' ==> entries'[k].window == v || (k in entries && entries'[k] == entries[k]))
      && (k in entries' && entries'[k].window == v <==> before || (k == called && answer.Answer?))
      && (before && !(k == called && answer.Answer? && answer.allowed) ==> entries'[k] == entries[k])
      && (k == called && answer.Answer? && answer.allowed ==>
            entries'[k] == Entry(v, if before then entries[k].count + 1 else 1))
      && n' == n + (if k == called && answer.Answer? then 1 else 0)
      && (k == called && answer.Answer? ==> (answer.allowed <==> n < cfg.requests))
    ensures k in entries' ==> entries'[k].window <= v
    ensures k in entries' && entries'[k].window == v <==> n' > 0
    ensures k in entries' && entries'[k].window == v ==>
              entries'[k].count == if n' < cfg.requests then n' else cfg.requests
  {
  }

  // ---------------------------------------------------------------- the Redis limiter

  datatype Counter = Counter(count: nat, expiresAt: nat)

  /** The keys the script touches; `active` is the sorted set, member to score. */
  datatype Redis = Redis(counters: map<(nat, Key), Counter>, active: map<Key, nat>, activeExpiresAt: nat)

  const EMPTY := Redis(map[], map[], 0)

  /** Redis drops a key once its time to live has passed. */
  function Expire(r: Redis, now: nat): Redis {
    Redis(map id | id in r.counters && r.counters[id].expiresAt > now :: r.counters[id],
          if r.activeExpiresAt > now then r.active else map[],
          r.activeExpiresAt)
  }

  /** `ZREMRANGEBYSCORE -inf window-1`. */
  function DropOlder(active: map<Key, nat>, window: nat): map<Key, nat> {
    map k | k in active && active[k] >= window :: active[k]
  }

  /** The Lua script; -1 is its capacity answer, the second number its time to live. */
  function Script(r: Redis, window: nat, member: Key, ttl: int, cfg: Config, now: nat): (Redis, int, int)
    requires ttl >= 0
  {
    var id := (window, member);
    var active := DropOlder(r.active, window);
    if id !in r.counters && |active| >= cfg.maxKeys then (r.(active := active), -1, ttl)
    else
      var current := if id in r.counters then r.counters[id].count + 1 else 1;
      var expiresAt := if current == 1 then now + ttl else r.counters[id].expiresAt;
      (Redis(r.counters[id := Counter(current, expiresAt)], active[member := window], now + 2 * cfg.windowSeconds),
       current, expiresAt - now)
  }

  function RedisCheck(r: Redis, c: Call, cfg: Config): (Redis, Answer)
    requires cfg.Valid()
  {
    var (r', count, ttl) :=
      Script(Expire(r, c.now), Window(c.now, cfg), c.key, RetryAfter(c.now, cfg), cfg, c.now);
    if count < 0 then (r', Exhausted)
    else
      var wait := if ttl > 0 then ttl else cfg.windowSeconds;
      (r', Answer(count <= cfg.requests, if wait > 1 then wait else 1))
  }

  class RedisFixedWindowLimiter {
    var redis: Redis

    constructor ()
      ensures redis == EMPTY
    {
      redis := EMPTY;
    }

    /** One atomic `EVAL`; the store is shared by every process. */
    method Check(key: Key, cfg: Config, now: nat) returns (answer: Answer)
      requires cfg.Valid()
      modifies this
      ensures (redis, answer) == RedisCheck(old(redis), Call(key, now), cfg)
    {
      redis := Expire(redis, now);
      var window, ttlSeconds := now / cfg.windowSeconds, RetryAfter(now, cfg);
      var id := (window, key);
      redis := redis.(active := DropOlder(redis.active, window));
      if id !in redis.counters && |redis.active| >= cfg.maxKeys {
        return Exhausted;
      }
      redis := redis.(active := redis.active[key := window]);
      var current := if id in redis.counters then redis.counters[id].count + 1 else 1;
      var expiresAt := if current == 1 then now + ttlSeconds else redis.counters[id].expiresAt;
      redis := redis.(counters := redis.counters[id := Counter(current, expiresAt)],
                      activeExpiresAt := now + cfg.windowSeconds * 2);
      var ttl: int := expiresAt - now;
      var retryAfter := if ttl > 0 then ttl else cfg.windowSeconds;
      return Answer(current <= cfg.requests, if retryAfter > 1 then retryAfter else 1);
    }
  }

  /** What Redis remembers of the history, in window `w`. */
  ghost predicate RedisMatches(r: Redis, h: seq<Seen>, w: nat, cfg: Config) {
    && UpTo(h, w)
    && (forall id | id in r.counters :: id.0 <= w)
    && (forall k :: (w, k) in r.counters <==> k in ActiveKeys(h, w))
    && (forall k | (w, k) in r.counters :: r.counters[(w, k)] == Counter(Answered(h, k, w), WindowEnd(w, cfg)))
    && (forall k | k in r.active :: r.active[k] <= w)
    && (forall k :: k in r.active && r.active[k] == w <==> k in ActiveKeys(h, w))
    && (ActiveKeys(h, w) != {} ==> r.activeExpiresAt >= WindowEnd(w, cfg))
  }

  /** Within the window nothing that matters expires. */
  lemma RedisAdvances(r: Redis, h: seq<Seen>, w: nat, now: nat, cfg: Config)
    requires cfg.Valid() && RedisMatches(r, h, w, cfg) && w <= Window(now, cfg)
    ensures RedisMatches(Expire(r, now), h, Window(now, cfg), cfg)
  {
    var v := Window(now, cfg);
    RetryAfterReachesWindowEnd(now, cfg);
    if w < v {
      forall k ensures Answered(h, k, v) == 0 && ActiveKeys(h, v) == {} { NothingLater(h, w, k, v); }
    }
  }

  lemma RedisStep(r: Redis, h: seq<Seen>, w: nat, c: Call, cfg: Config)
    requires cfg.Valid() && RedisMatches(r, h, w, cfg) && w <= Window(c.now, cfg)
    ensures var (r', answer) := RedisCheck(r, c, cfg);
      && answer == Decide(h, c, cfg)
      && RedisMatches(r', Extend(h, c, cfg), Window(c.now, cfg), cfg)
  {
    var v := Window(c.now, cfg);
    RedisAdvances(r, h, w, c.now, cfg);
    var e := Expire(r, c.now);
    assert DropOlder(e.active, v).Keys == ActiveKeys(h, v);
    AnsweredIffActive(h, c.key, v);
    RetryAfterReachesWindowEnd(c.now, cfg);
    assert RedisCheck(r, c, cfg).1 == Decide(h, c, cfg);
    RedisStillMatches(r, h, c, cfg);
  }

  lemma RedisStillMatches(r: Redis, h: seq<Seen>, c: Call, cfg: Config)
    requires cfg.Valid() && RedisMatches(Expire(r, c.now), h, Window(c.now, cfg), cfg)
    requires RedisCheck(r, c, cfg).1 == Decide(h, c, cfg)
    ensures RedisMatches(RedisCheck(r, c, cfg).0, Extend(h, c, cfg), Window(c.now, cfg), cfg)
  {
    var v, h' := Window(c.now, cfg), Extend(h, c, cfg);
    var r' := RedisCheck(r, c, cfg).0;
    UpToExtend(h, c, cfg);
    forall k
      ensures (v, k) in r'.counters <==> k in ActiveKeys(h', v)
      ensures (v, k) in r'.counters ==> r'.counters[(v, k)] == Counter(Answered(h', k, v), WindowEnd(v, cfg))
      ensures k in r'.active && r'.active[k] == v <==> k in ActiveKeys(h', v)
    {
      RedisPoint(r, h, c, cfg, k);
    }
    RedisExpiry(r, h, c, cfg);
  }

  /** The keys of one client, before and after a call in window `v`; `e` has already expired. */
  lemma RedisEntry(r: Redis, c: Call, cfg: Config, k: Key)
    requires cfg.Valid()
    requires var e, id := Expire(r, c.now), (Window(c.now, cfg), c.key); id in e.counters ==> e.counters[id].count > 0
    ensures var v, e, (r', answer) := Window(c.now, cfg), Expire(r, c.now), RedisCheck(r, c, cfg);
      var hit := k == c.key && answer.Answer?;
      && ((v, k) in r'.counters <==> (v, k) in e.counters || hit)
      && ((v, k) in e.counters && !hit ==> r'.counters[(v, k)] == e.counters[(v, k)])
      && (hit && (v, k) in e.counters ==>
            r'.counters[(v, k)] == Counter(e.counters[(v, k)].count + 1, e.counters[(v, k)].expiresAt))
      && (hit && (v, k) !in e.counters ==> r'.counters[(v, k)] == Counter(1, c.now + RetryAfter(c.now, cfg)))
      && (k in r'.active && r'.active[k] == v <==> (k in e.active && e.active[k] == v) || hit)
  {
  }

  lemma RedisTouches(r: Redis, c: Call, cfg: Config)
    requires cfg.Valid()
    ensures var v, e, (r', answer) := Window(c.now, cfg), Expire(r, c.now), RedisCheck(r, c, cfg);
      if answer == Exhausted then r' == e.(active := DropOlder(e.active, v))
      else && r'.counters.Keys == e.counters.Keys + {(v, c.key)}
           && r'.active == DropOlder(e.active, v)[c.key := v]
           && r'.activeExpiresAt == c.now + 2 * cfg.windowSeconds
  {
  }

  lemma RedisExpiry(r: Redis, h: seq<Seen>, c: Call, cfg: Config)
    requires cfg.Valid() && RedisMatches(Expire(r, c.now), h, Window(c.now, cfg), cfg)
    requires RedisCheck(r, c, cfg).1 == Decide(h, c, cfg)
    ensures var v, r' := Window(c.now, cfg), RedisCheck(r, c, cfg).0;
      && (ActiveKeys(Extend(h, c, cfg), v) != {} ==> r'.activeExpiresAt >= WindowEnd(v, cfg))
      && (forall id | id in r'.counters :: id.0 <= v)
      && (forall k | k in r'.active :: r'.active[k] <= v)
  {
    var v, r', e := Window(c.now, cfg), RedisCheck(r, c, cfg).0, Expire(r, c.now);
    RetryAfterReachesWindowEnd(c.now, cfg);
    RedisTouches(r, c, cfg);
    ExtendCounts(h, c, cfg, c.key, v);
    OnlyThisWindow(e, r', c.key, v);
  }

  lemma OnlyThisWindow(e: Redis, r': Redis, k: Key, v: nat)
    requires (forall id | id in e.counters :: id.0 <= v) && (forall k | k in e.active :: e.active[k] <= v)
    requires r'.counters.Keys <= e.counters.Keys + {(v, k)}
    requires r'.active == DropOlder(e.active, v) || r'.active == DropOlder(e.active, v)[k := v]
    ensures (forall id | id in r'.counters :: id.0 <= v) && (forall k | k in r'.active :: r'.active[k] <= v)
  {
    forall id | id in r'.counters ensures id.0 <= v { assert id in r'.counters.Keys; }
  }

  lemma RedisPoint(r: Redis, h: seq<Seen>, c: Call, cfg: Config, k: Key)
    requires cfg.Valid() && RedisMatches(Expire(r, c.now), h, Window(c.now, cfg), cfg)
    requires RedisCheck(r, c, cfg).1 == Decide(h, c, cfg)
    ensures var v, h', r' := Window(c.now, cfg), Extend(h, c, cfg), RedisCheck(r, c, cfg).0;
      && ((v, k) in r'.counters <==> k in ActiveKeys(h', v))
      && ((v, k) in r'.counters ==> r'.counters[(v, k)] == Counter(Answered(h', k, v), WindowEnd(v, cfg)))
      && (k in r'.active && r'.active[k] == v <==> k in ActiveKeys(h', v))
  {
    var v, e := Window(c.now, cfg), Expire(r, c.now);
    AnsweredIffActive(h, k, v);
    AnsweredIffActive(h, c.key, v);
    assert (v, c.key) in e.counters ==> e.counters[(v, c.key)] == Counter(Answered(h, c.key, v), WindowEnd(v, cfg));
    assert (v, k) in e.counters ==> e.counters[(v, k)] == Counter(Answered(h, k, v), WindowEnd(v, cfg));
    RedisEntry(r, c, cfg, k);
    RetryAfterReachesWindowEnd(c.now, cfg);
    ExtendCounts(h, c, cfg, k, v);
    RedisCount(k, v, e, RedisCheck(r, c, cfg).0, k == c.key && RedisCheck(r, c, cfg).1.Answer?,
               k in ActiveKeys(h, v), Answered(h, k, v), Answered(Extend(h, c, cfg), k, v), WindowEnd(v, cfg));
  }

  lemma RedisCount(k: Key, v: nat, e: Redis, r': Redis, hit: bool, active: bool, n: nat, n': nat, end: nat)
    requires ((v, k) in e.counters <==> active) && (active <==> n > 0)
    requires (k in e.active && e.active[k] == v) <==> active
    requires (v, k) in e.counters ==> e.counters[(v, k)] == Counter(n, end)
    requires (v, k) in r'.counters <==> (v, k) in e.counters || hit
    requires (v, k) in e.counters && !hit ==> r'.counters[(v, k)] == e.counters[(v, k)]
    requires hit ==> r'.counters[(v, k)] == if (v, k) in e.counters then Counter(n + 1, end) else Counter(1, end)
    requires (k in r'.active && r'.active[k] == v) <==> (k in e.active && e.active[k] == v) || hit
    requires n' == n + (if hit then 1 else 0)
    ensures (v, k) in r'.counters <==> active || hit
    ensures (v, k) in r'.counters ==> r'.counters[(v, k)] == Counter(n', end)
    ensures (k in r'.active && r'.active[k] == v) <==> active || hit
  {
  }

  // ---------------------------------------------------------------- whole runs

  function MemoryRun(entries: map<Key, Entry>, calls: seq<Call>, cfg: Config): seq<Answer>
    requires cfg.Valid()
    decreases |calls|
  {
    if calls == [] then []
    else
      var (entries', answer) := MemoryCheck(entries, calls[0], cfg);
      [answer] + MemoryRun(entries', calls[1..], cfg)
  }

  function RedisRun(r: Redis, calls: seq<Call>, cfg: Config): seq<Answer>
    requires cfg.Valid()
    decreases |calls|
  {
    if calls == [] then []
    else
      var (r', answer) := RedisCheck(r, calls[0], cfg);
      [answer] + RedisRun(r', calls[1..], cfg)
  }

  /** The history after `calls`. */
  function History(h: seq<Seen>, calls: seq<Call>, cfg: Config): (h': seq<Seen>)
    requires cfg.Valid()
    ensures |h'| == |h| + |calls| && h <= h'
    decreases |calls|
  {
    if calls == [] then h else History(Extend(h, calls[0], cfg), calls[1..], cfg)
  }

  ghost predicate Ordered(calls: seq<Call>) {
    forall i, j | 0 <= i < j < |calls| :: calls[i].now <= calls[j].now
  }

  lemma {:induction false} MemoryFollows(entries: map<Key, Entry>, h: seq<Seen>, w: nat, calls: seq<Call>, cfg: Config)
    requires cfg.Valid() && Ordered(calls) && MemoryMatches(entries, h, w, cfg)
    requires calls != [] ==> w <= Window(calls[0].now, cfg)
    ensures |MemoryRun(entries, calls, cfg)| == |calls|
    ensures forall i | 0 <= i < |calls| ::
      History(h, calls, cfg)[|h| + i]
        == Seen(calls[i].key, Window(calls[i].now, cfg), MemoryRun(entries, calls, cfg)[i])
    decreases |calls|
  {
    if calls != [] {
      var c, rest := calls[0], calls[1..];
      MemoryStep(entries, h, w, c, cfg);
      if rest != [] { WindowMonotone(c.now, rest[0].now, cfg); }
      var h1 := Extend(h, c, cfg);
      MemoryFollows(MemoryCheck(entries, c, cfg).0, h1, Window(c.now, cfg), rest, cfg);
      HistoryShifts(h, h1, calls, MemoryRun(entries, calls, cfg), History(h, calls, cfg), cfg);
    }
  }

  lemma {:induction false} RedisFollows(r: Redis, h: seq<Seen>, w: nat, calls: seq<Call>, cfg: Config)
    requires cfg.Valid() && Ordered(calls) && RedisMatches(r, h, w, cfg)
    requires calls != [] ==> w <= Window(calls[0].now, cfg)
    ensures |RedisRun(r, calls, cfg)| == |calls|
    ensures forall i | 0 <= i < |calls| ::
      History(h, calls, cfg)[|h| + i]
        == Seen(calls[i].key, Window(calls[i].now, cfg), RedisRun(r, calls, cfg)[i])
    decreases |calls|
  {
    if calls != [] {
      var c, rest := calls[0], calls[1..];
      RedisStep(r, h, w, c, cfg);
      if rest != [] { WindowMonotone(c.now, rest[0].now, cfg); }
      var h1 := Extend(h, c, cfg);
      RedisFollows(RedisCheck(r, c, cfg).0, h1, Window(c.now, cfg), rest, cfg);
      HistoryShifts(h, h1, calls, RedisRun(r, calls, cfg), History(h, calls, cfg), cfg);
    }
  }

  /** Both limiters give the answers of the history, call by call. */
  lemma RunsFollowHistory(
      entries: map<Key, Entry>, r: Redis, h: seq<Seen>, w: nat, calls: seq<Call>, cfg: Config)
    requires cfg.Valid() && Ordered(calls)
    requires MemoryMatches(entries, h, w, cfg) && RedisMatches(r, h, w, cfg)
    requires calls != [] ==> w <= Window(calls[0].now, cfg)
    ensures MemoryRun(entries, calls, cfg) == RedisRun(r, calls, cfg)
    ensures |MemoryRun(entries, calls, cfg)| == |calls|
    ensures forall i | 0 <= i < |calls| ::
      History(h, calls, cfg)[|h| + i]
        == Seen(calls[i].key, Window(calls[i].now, cfg), MemoryRun(entries, calls, cfg)[i])
  {
    MemoryFollows(entries, h, w, calls, cfg);
    RedisFollows(r, h, w, calls, cfg);
    var answers, others := MemoryRun(entries, calls, cfg), RedisRun(r, calls, cfg);
    forall i | 0 <= i < |calls| ensures answers[i] == others[i] {
      assert History(h, calls, cfg)[|h| + i].answer == answers[i];
    }
  }

  lemma HistoryShifts(h: seq<Seen>, h1: seq<Seen>, calls: seq<Call>, answers: seq<Answer>, all: seq<Seen>, cfg: Config)
    requires cfg.Valid() && calls != [] && |answers| == |calls| && |all| == |h| + |calls|
    requires h1 == h + [Seen(calls[0].key, Window(calls[0].now, cfg), answers[0])] && h1 <= all
    requires forall i | 0 <= i < |calls| - 1 ::
      all[|h1| + i] == Seen(calls[1..][i].key, Window(calls[1..][i].now, cfg), answers[1..][i])
    ensures forall i | 0 <= i < |calls| :: all[|h| + i] == Seen(calls[i].key, Window(calls[i].now, cfg), answers[i])
  {
    forall i | 0 <= i < |calls|
      ensures all[|h| + i] == Seen(calls[i].key, Window(calls[i].now, cfg), answers[i])
    {
      if i > 0 {
        assert all[|h1| + (i - 1)] ==
          Seen(calls[1..][i - 1].key, Window(calls[1..][i - 1].now, cfg), answers[1..][i - 1]);
      } else {
        assert all[|h|] == h1[|h|];
      }
    }
  }

  /** The two backends give the same answer to every call, retry times included. */
  lemma BackendsAgree(calls: seq<Call>, cfg: Config)
    requires cfg.Valid() && Ordered(calls)
    ensures MemoryRun(map[], calls, cfg) == RedisRun(EMPTY, calls, cfg)
  {
    RunsFollowHistory(map[], EMPTY, [], 0, calls, cfg);
  }

  function MemoryAfter(entries: map<Key, Entry>, calls: seq<Call>, cfg: Config): map<Key, Entry>
    requires cfg.Valid()
    decreases |calls|
  {
    if calls == [] then entries else MemoryAfter(MemoryCheck(entries, calls[0], cfg).0, calls[1..], cfg)
  }

  function RedisAfter(r: Redis, calls: seq<Call>, cfg: Config): Redis
    requires cfg.Valid()
    decreases |calls|
  {
    if calls == [] then r else RedisAfter(RedisCheck(r, calls[0], cfg).0, calls[1..], cfg)
  }

  lemma ActiveStaysBounded(h: seq<Seen>, w: nat, c: Call, cfg: Config)
    requires cfg.Valid() && UpTo(h, w) && w <= Window(c.now, cfg) && |ActiveKeys(h, w)| <= cfg.maxKeys
    ensures |ActiveKeys(Extend(h, c, cfg), Window(c.now, cfg))| <= cfg.maxKeys
  {
    var v := Window(c.now, cfg);
    if w < v { NothingLater(h, w, c.key, v); }
    ExtendCounts(h, c, cfg, c.key, v);
    AnsweredIffActive(h, c.key, v);
    assert c.key in ActiveKeys(h, v) ==> ActiveKeys(h, v) + {c.key} == ActiveKeys(h, v);
  }

  /** After a call the sorted set holds the clients of the current window and nobody else. */
  lemma ActiveIsCurrent(r: Redis, h: seq<Seen>, w: nat, c: Call, cfg: Config)
    requires cfg.Valid() && RedisMatches(r, h, w, cfg) && w <= Window(c.now, cfg)
    ensures RedisCheck(r, c, cfg).0.active.Keys == ActiveKeys(Extend(h, c, cfg), Window(c.now, cfg))
  {
    RedisStep(r, h, w, c, cfg);
    RedisTouches(r, c, cfg);
  }

  /** The clients whose calls in window `w` did not fail at capacity. */
  function ServedKeys(calls: seq<Call>, answers: seq<Answer>, w: nat, cfg: Config): set<Key>
    requires cfg.Valid()
  {
    set i | 0 <= i < |calls| && i < |answers| && Window(calls[i].now, cfg) == w && answers[i].Answer? :: calls[i].key
  }

  lemma SameKeys(calls: seq<Call>, answers: seq<Answer>, h: seq<Seen>, w: nat, cfg: Config)
    requires cfg.Valid() && |answers| == |calls| == |h|
    requires forall i | 0 <= i < |calls| :: h[i] == Seen(calls[i].key, Window(calls[i].now, cfg), answers[i])
    ensures ActiveKeys(h, w) == ServedKeys(calls, answers, w, cfg)
  {
    forall k | k in ActiveKeys(h, w) ensures k in ServedKeys(calls, answers, w, cfg) {
      var i :| 0 <= i < |h| && h[i].window == w && h[i].answer.Answer? && h[i].key == k;
      assert calls[i].key == k;
    }
    forall k | k in ServedKeys(calls, answers, w, cfg) ensures k in ActiveKeys(h, w) {
      var i :| 0 <= i < |calls| && Window(calls[i].now, cfg) == w && answers[i].Answer? && calls[i].key == k;
      assert h[i] in h;
    }
  }

  lemma CapacityStep(r: Redis, h: seq<Seen>, w: nat, c: Call, cfg: Config)
    requires cfg.Valid() && RedisMatches(r, h, w, cfg) && w <= Window(c.now, cfg) && |ActiveKeys(h, w)| <= cfg.maxKeys
    ensures RedisMatches(RedisCheck(r, c, cfg).0, Extend(h, c, cfg), Window(c.now, cfg), cfg)
    ensures |RedisCheck(r, c, cfg).0.active| <= cfg.maxKeys
    ensures |ActiveKeys(Extend(h, c, cfg), Window(c.now, cfg))| <= cfg.maxKeys
    ensures RedisCheck(r, c, cfg).0.active.Keys == ActiveKeys(Extend(h, c, cfg), Window(c.now, cfg))
  {
    RedisStep(r, h, w, c, cfg);
    ActiveIsCurrent(r, h, w, c, cfg);
    ActiveStaysBounded(h, w, c, cfg);
    var active := RedisCheck(r, c, cfg).0.active;
    assert |active| == |active.Keys|;
  }

  lemma {:induction false} RedisCapacity(r: Redis, h: seq<Seen>, w: nat, calls: seq<Call>, cfg: Config)
    requires cfg.Valid() && Ordered(calls) && RedisMatches(r, h, w, cfg)
    requires calls != [] ==> w <= Window(calls[0].now, cfg)
    requires |r.active| <= cfg.maxKeys && |ActiveKeys(h, w)| <= cfg.maxKeys
    ensures |RedisAfter(r, calls, cfg).active| <= cfg.maxKeys
    ensures calls != [] ==>
      RedisAfter(r, calls, cfg).active.Keys
        == ActiveKeys(History(h, calls, cfg), Window(calls[|calls| - 1].now, cfg))
    decreases |calls|
  {
    if calls != [] {
      var c, rest := calls[0], calls[1..];
      var r', h', v := RedisCheck(r, c, cfg).0, Extend(h, c, cfg), Window(c.now, cfg);
      CapacityStep(r, h, w, c, cfg);
      if rest == [] {
        assert RedisAfter(r', rest, cfg) == r' && History(h', rest, cfg) == h';
      } else {
        WindowMonotone(c.now, rest[0].now, cfg);
        assert rest[|rest| - 1] == calls[|calls| - 1];
        RedisCapacity(r', h', v, rest, cfg);
      }
    }
  }

  lemma {:induction false} MemoryCapacity(entries: map<Key, Entry>, calls: seq<Call>, cfg: Config)
    requires cfg.Valid() && |entries| <= cfg.maxKeys
    ensures |MemoryAfter(entries, calls, cfg)| <= cfg.maxKeys
    decreases |calls|
  {
    if calls != [] {
      CapacityKept(entries, calls[0], cfg);
      MemoryCapacity(MemoryCheck(entries, calls[0], cfg).0, calls[1..], cfg);
    }
  }

  lemma EmptyMatches(cfg: Config)
    ensures RedisMatches(EMPTY, [], 0, cfg) && ActiveKeys([], 0) == {}
  {
  }

  /**
   On every run neither store ever tracks more clients than the capacity, and what the Redis sorted set holds
   after the last call are exactly the clients answered in its window.
   */
  lemma CapacityOverRuns(calls: seq<Call>, cfg: Config)
    requires cfg.Valid() && Ordered(calls)
    ensures |MemoryAfter(map[], calls, cfg)| <= cfg.maxKeys && |RedisAfter(EMPTY, calls, cfg).active| <= cfg.maxKeys
    ensures calls != [] ==>
      RedisAfter(EMPTY, calls, cfg).active.Keys
        == ServedKeys(calls, RedisRun(EMPTY, calls, cfg), Window(calls[|calls| - 1].now, cfg), cfg)
  {
    MemoryCapacity(map[], calls, cfg);
    EmptyMatches(cfg);
    RedisCapacity(EMPTY, [], 0, calls, cfg);
    if calls != [] {
      AnswersAreHistory(calls, cfg);
      BackendsAgree(calls, cfg);
      SameKeys(calls, RedisRun(EMPTY, calls, cfg), History([], calls, cfg), Window(calls[|calls| - 1].now, cfg), cfg);
    }
  }

  predicate Grants(s: Seen, k: Key, w: nat) {
    s.key == k && s.window == w && s.answer.Answer? && s.answer.allowed
  }

  function Granted(h: seq<Seen>, k: Key, w: nat): nat {
    if h == [] then 0 else Granted(h[..|h| - 1], k, w) + (if Grants(h[|h| - 1], k, w) then 1 else 0)
  }

  /** Every entry of the history was decided by the entries before it. */
  ghost predicate Decided(h: seq<Seen>, cfg: Config) {
    forall i | 0 <= i < |h| && h[i].answer.Answer? ::
      h[i].answer.allowed <==> Answered(h[..i], h[i].key, h[i].window) < cfg.requests
  }

  lemma {:induction false} HistoryDecided(h: seq<Seen>, calls: seq<Call>, cfg: Config)
    requires cfg.Valid() && Decided(h, cfg)
    ensures Decided(History(h, calls, cfg), cfg)
    decreases |calls|
  {
    if calls != [] {
      var h' := Extend(h, calls[0], cfg);
      forall i | 0 <= i < |h'| && h'[i].answer.Answer?
        ensures h'[i].answer.allowed <==> Answered(h'[..i], h'[i].key, h'[i].window) < cfg.requests
      {
        if i < |h| { assert h'[..i] == h[..i]; } else { assert h'[..i] == h; }
      }
      HistoryDecided(h', calls[1..], cfg);
    }
  }

  lemma {:induction false} GrantedAtMostRequests(h: seq<Seen>, k: Key, w: nat, cfg: Config)
    requires cfg.Valid() && Decided(h, cfg)
    ensures Granted(h, k, w) == if Answered(h, k, w) < cfg.requests then Answered(h, k, w) else cfg.requests
  {
    if h != [] {
      var front := h[..|h| - 1];
      assert forall i | 0 <= i < |front| :: front[..i] == h[..i];
      GrantedAtMostRequests(front, k, w, cfg);
    }
  }

  lemma AnswersAreHistory(calls: seq<Call>, cfg: Config)
    requires cfg.Valid() && Ordered(calls)
    ensures |MemoryRun(map[], calls, cfg)| == |calls| == |History([], calls, cfg)|
    ensures Decided(History([], calls, cfg), cfg)
    ensures forall i | 0 <= i < |calls| ::
      History([], calls, cfg)[i] == Seen(calls[i].key, Window(calls[i].now, cfg), MemoryRun(map[], calls, cfg)[i])
  {
    RunsFollowHistory(map[], EMPTY, [], 0, calls, cfg);
    HistoryDecided([], calls, cfg);
    var h := History([], calls, cfg);
    forall i | 0 <= i < |calls|
      ensures h[i] == Seen(calls[i].key, Window(calls[i].now, cfg), MemoryRun(map[], calls, cfg)[i])
    {
      assert h[i] == h[0 + i];
    }
  }

  /** How many calls of `k` in window `w` did not fail at capacity. */
  function Served(calls: seq<Call>, answers: seq<Answer>, k: Key, w: nat, cfg: Config): nat
    requires cfg.Valid() && |answers| == |calls|
  {
    if calls == [] then 0
    else
      var n := |calls| - 1;
      Served(calls[..n], answers[..n], k, w, cfg)
      + (if calls[n].key == k && Window(calls[n].now, cfg) == w && answers[n].Answer? then 1 else 0)
  }

  lemma {:induction false} ServedIsAnswered(
      calls: seq<Call>, answers: seq<Answer>, h: seq<Seen>, k: Key, w: nat, cfg: Config)
    requires cfg.Valid() && |answers| == |calls| == |h|
    requires forall i | 0 <= i < |calls| :: h[i] == Seen(calls[i].key, Window(calls[i].now, cfg), answers[i])
    ensures Served(calls, answers, k, w, cfg) == Answered(h, k, w)
  {
    if calls != [] {
      var n := |calls| - 1;
      ServedIsAnswered(calls[..n], answers[..n], h[..n], k, w, cfg);
      assert h[n] == Seen(calls[n].key, Window(calls[n].now, cfg), answers[n]);
    }
  }

  /** The first `requests` calls of a key in a window that do not fail at capacity are the ones allowed. */
  lemma FirstRequestsAreAllowed(calls: seq<Call>, cfg: Config, i: nat)
    requires cfg.Valid() && Ordered(calls) && i < |calls|
    ensures |MemoryRun(map[], calls, cfg)| == |calls|
    ensures var answers := MemoryRun(map[], calls, cfg);
      var before := Served(calls[..i], answers[..i], calls[i].key, Window(calls[i].now, cfg), cfg);
      answers[i].Answer? ==> (answers[i].allowed <==> before < cfg.requests)
  {
    AnswersAreHistory(calls, cfg);
    var answers, h := MemoryRun(map[], calls, cfg), History([], calls, cfg);
    ServedIsAnswered(calls[..i], answers[..i], h[..i], calls[i].key, Window(calls[i].now, cfg), cfg);
    assert h[i] == Seen(calls[i].key, Window(calls[i].now, cfg), answers[i]);
  }

  /** Allowed calls of `k` with a timestamp in `[from, from + span)`. */
  function AllowedIn(calls: seq<Call>, answers: seq<Answer>, k: Key, from: nat, span: nat): nat
    requires |answers| == |calls|
  {
    if calls == [] then 0
    else
      var n := |calls| - 1;
      AllowedIn(calls[..n], answers[..n], k, from, span)
      + (if calls[n].key == k && from <= calls[n].now < from + span
            && answers[n].Answer? && answers[n].allowed then 1 else 0)
  }

  lemma {:induction false} SpanMeetsTwoWindows(
      calls: seq<Call>, answers: seq<Answer>, h: seq<Seen>, k: Key, from: nat, cfg: Config)
    requires cfg.Valid() && |answers| == |calls| == |h|
    requires forall i | 0 <= i < |calls| :: h[i] == Seen(calls[i].key, Window(calls[i].now, cfg), answers[i])
    ensures AllowedIn(calls, answers, k, from, cfg.windowSeconds)
         <= Granted(h, k, Window(from, cfg)) + Granted(h, k, Window(from, cfg) + 1)
  {
    if calls != [] {
      var n, w := |calls| - 1, Window(from, cfg);
      SpanMeetsTwoWindows(calls[..n], answers[..n], h[..n], k, from, cfg);
      assert h[n] == Seen(calls[n].key, Window(calls[n].now, cfg), answers[n]);
      if from <= calls[n].now < from + cfg.windowSeconds {
        SpanWindows(from, calls[n].now, cfg);
      }
    }
  }

  lemma SpanWindows(from: nat, t: nat, cfg: Config)
    requires cfg.Valid() && from <= t < from + cfg.windowSeconds
    ensures Window(t, cfg) == Window(from, cfg) || Window(t, cfg) == Window(from, cfg) + 1
  {
    var w := Window(from, cfg);
    WindowMonotone(from, t, cfg);
    RetryAfterReachesWindowEnd(from, cfg);
    assert WindowEnd(w, cfg) + cfg.windowSeconds == (w + 2) * cfg.windowSeconds;
    InWindow(t, w + 2, cfg);
  }

  lemma QuotaOverSpan(calls: seq<Call>, answers: seq<Answer>, h: seq<Seen>, k: Key, from: nat, cfg: Config)
    requires cfg.Valid() && |answers| == |calls| == |h| && Decided(h, cfg)
    requires forall i | 0 <= i < |calls| :: h[i] == Seen(calls[i].key, Window(calls[i].now, cfg), answers[i])
    ensures AllowedIn(calls, answers, k, from, cfg.windowSeconds) <= 2 * cfg.requests
  {
    SpanMeetsTwoWindows(calls, answers, h, k, from, cfg);
    GrantedAtMostRequests(h, k, Window(from, cfg), cfg);
    GrantedAtMostRequests(h, k, Window(from, cfg) + 1, cfg);
  }

  /** No key gets more than twice its quota in any span of one window length, wherever the span starts. */
  lemma AtMostTwiceTheQuota(calls: seq<Call>, cfg: Config, k: Key, from: nat)
    requires cfg.Valid() && Ordered(calls)
    ensures |MemoryRun(map[], calls, cfg)| == |calls|
    ensures AllowedIn(calls, MemoryRun(map[], calls, cfg), k, from, cfg.windowSeconds) <= 2 * cfg.requests
  {
    AnswersAreHistory(calls, cfg);
    QuotaOverSpan(calls, MemoryRun(map[], calls, cfg), History([], calls, cfg), k, from, cfg);
  }
}
