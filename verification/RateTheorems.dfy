/** How many requests the rate limiter lets through, under any pattern of store failures. */
module RateTheorems {
  import opened Options
  import opened LimitStores
  import opened RateLimiters

  // ----- Counting the log -----

  predicate OfClient(x: LogEntry, client: string, w: nat) {
    x.req.client == client && x.verdict.window == w
  }

  function Allowed(log: seq<LogEntry>, client: string, w: nat, source: Source): nat {
    if log == [] then 0 else
      var x := log[|log| - 1];
      Allowed(log[..|log| - 1], client, w, source) +
      if OfClient(x, client, w) && x.verdict.allowed && x.verdict.source == source then 1 else 0
  }

  /** Requests that reached INCR in window w of the clock read for the Redis key. */
  function CountedOnRedis(log: seq<LogEntry>, client: string, w: nat): nat
    requires forall i :: 0 <= i < |log| ==> log[i].req.window > 0
  {
    if log == [] then 0 else
      var x := log[|log| - 1];
      CountedOnRedis(log[..|log| - 1], client, w) +
      if x.req.client == client && !x.req.redis.Down? && WindowOf(x.req.at, x.req.window) == w then 1 else 0
  }

  /** How often the file was torn by a call that had read the clock in window w of `size` seconds. */
  function WipesIn(log: seq<LT.Record>, size: int, w: nat): nat
    requires size > 0
  {
    if log == [] then 0 else
      var x := log[|log| - 1];
      WipesIn(log[..|log| - 1], size, w) + if x.reply.wiped && WindowOf(x.event.readAt, size) == w then 1 else 0
  }

  // ----- Which runs are considered -----

  /** Window lengths belong to clients, other callers keep to their keys, and the one client of interest
      always meets the same limit. */
  ghost predicate Uses(ks: LT.Keys, client: string, limit: int, h: Happening) {
    match h
    case Asked(q) =>
      q.client in ks.windows && q.window == ks.windows[q.client] && (q.client == client ==> q.limit == limit)
    case Other(e) => LT.UsesKeys(ks, e)
  }

  ghost predicate AllUse(ks: LT.Keys, client: string, limit: int, hs: seq<Happening>) {
    forall i :: 0 <= i < |hs| ==> Uses(ks, client, limit, hs[i])
  }

  /** And its bucket fails closed. */
  ghost predicate Proper(ks: LT.Keys, client: string, limit: int, h: Happening) {
    Uses(ks, client, limit, h) && (h.Asked? && h.req.client == client ==> h.req.failClosed)
  }

  ghost predicate AllProper(ks: LT.Keys, client: string, limit: int, hs: seq<Happening>) {
    forall i :: 0 <= i < |hs| ==> Proper(ks, client, limit, hs[i])
  }

  function Min(a: int, b: int): int { if a < b then a else b }

  ghost predicate Windowed(s: System) {
    forall i :: 0 <= i < |s.log| ==> s.log[i].req.window > 0
  }

  /** Until its window is over, a Redis counter is there and holds every count made in it. */
  ghost predicate CountersHold(ks: LT.Keys, s: System)
    requires Windowed(s)
  {
    forall c, w: nat :: c in ks.windows && s.clock < WindowEnd(w, ks.windows[c]) ==>
      var k := CounterKey(c, w);
      var n := CountedOnRedis(s.log, c, w);
      if n == 0 then k !in s.redis
      else k in s.redis && s.redis[k].count == n &&
           (s.redis[k].expireAt.Some? ==> WindowEnd(w, ks.windows[c]) < s.redis[k].expireAt.value)
  }

  ghost predicate RedisBound(s: System, client: string, limit: int)
    requires Windowed(s)
  {
    forall w: nat :: Allowed(s.log, client, w, OnRedis) <= Min(limit, CountedOnRedis(s.log, client, w))
  }

  /** The length of the client's window. */
  function Length(ks: LT.Keys, client: string): (size: int)
    ensures size > 0
  {
    if client in ks.windows && ks.windows[client] > 0 then ks.windows[client] else 1
  }

  /** What the file has let through in window w: nothing before it begins; while it lasts, a limit for each
      torn write and what is counted since the last; and afterwards at most a whole limit for that. */
  ghost predicate FileBoundIn(s: System, client: string, limit: int, size: int, w: nat)
    requires size > 0
  {
    var n, counted := Allowed(s.log, client, w, OnFile), Min(limit, LT.Tally(s.store.log, client, w));
    && (s.clock < w * (size * SECOND) ==> n == 0)
    && n <= WipesIn(s.store.log, size, w) * limit + if s.clock < WindowEnd(w, size) then counted else limit
  }

  ghost predicate FileBound(s: System, client: string, limit: int, size: int)
    requires size > 0
  {
    forall w: nat :: FileBoundIn(s, client, limit, size, w)
  }

  ghost predicate Inv(ks: LT.Keys, client: string, limit: int, s: System) {
    && Windowed(s)
    && s.store.clock <= s.clock
    && LT.Inv(ks, s.store)
    && CountersHold(ks, s)
    && RedisBound(s, client, limit)
    && FileBound(s, client, limit, Length(ks, client))
  }

  lemma StoreStep(ks: LT.Keys, w: LT.World, e: Event)
    requires LT.Disjoint(ks) && LT.Inv(ks, w) && LT.Possible(w, e) && LT.UsesKeys(ks, e)
    ensures LT.Inv(ks, LT.Next(w, e))
  {
    if e.call.Incr? {
      LT.IncrStep(ks, w, e);
    } else {
      LT.CooldownStep(ks, w, e);
    }
  }

  lemma CountersStep(ks: LT.Keys, s: System, q: Request)
    requires LT.Disjoint(ks) && Windowed(s) && CountersHold(ks, s) && Possible(s, Asked(q))
    requires q.client in ks.windows && q.window == ks.windows[q.client]
    ensures Windowed(Next(s, Asked(q))) && CountersHold(ks, Next(s, Asked(q)))
    ensures var w := WindowOf(q.at, q.window);
            LiveCount(s.redis, CounterKey(q.client, w), q.at) == CountedOnRedis(s.log, q.client, w)
  {
    var s' := Next(s, Asked(q));
    var m := WindowOf(q.at, q.window);
    LT.WindowBounds(q.at, q.window);
    assert s'.log[..|s.log|] == s.log;
    assert WindowEnd(m, q.window) == m * (q.window * SECOND) + q.window * SECOND;
    forall c, w: nat | c in ks.windows && s'.clock < WindowEnd(w, ks.windows[c])
      ensures var k := CounterKey(c, w);
              var n := CountedOnRedis(s'.log, c, w);
              if n == 0 then k !in s'.redis
              else k in s'.redis && s'.redis[k].count == n &&
                   (s'.redis[k].expireAt.Some? ==> WindowEnd(w, ks.windows[c]) < s'.redis[k].expireAt.value)
    {
      if CounterKey(c, w) == CounterKey(q.client, m) {
        LT.CounterKeyInjective(c, w, q.client, m);
      }
    }
  }

  lemma MoreWipes(n: nat, limit: int)
    requires limit > 0
    ensures (n + 1) * limit == n * limit + limit
  {
  }

  lemma WindowsApart(at: nat, size: int, w: nat)
    requires size > 0
    ensures WindowOf(at, size) > w ==> WindowEnd(w, size) <= at
    ensures WindowOf(at, size) < w ==> at < w * (size * SECOND)
  {
    var m := WindowOf(at, size);
    LT.WindowBounds(at, size);
    if m > w {
      MoreTimes(w + 1, m, size * SECOND);
    } else if m < w {
      MoreTimes(m + 1, w, size * SECOND);
    }
  }

  lemma MoreTimes(a: int, b: int, length: int)
    requires a <= b && length > 0
    ensures a * length <= b * length
  {
  }

  /** A use of the file that lets nothing through in window w keeps the bound there. */
  lemma BoundKept(s: System, s': System, e: Event, client: string, limit: int, size: int, w: nat)
    requires limit > 0 && size > 0 && FileBoundIn(s, client, limit, size, w)
    requires s'.store == LT.Next(s.store, e) && s.clock <= e.readAt <= e.saveAt == s'.clock
    requires Allowed(s'.log, client, w, OnFile) == Allowed(s.log, client, w, OnFile)
    ensures FileBoundIn(s', client, limit, size, w)
  {
    LT.LogGrows(s.store, e);
    WindowsApart(e.readAt, size, w);
    MoreWipes(WipesIn(s.store.log, size, w), limit);
  }

  /** Nor does time alone break it. */
  lemma BoundLater(s: System, s': System, client: string, limit: int, size: int, w: nat)
    requires limit > 0 && size > 0 && FileBoundIn(s, client, limit, size, w)
    requires s'.store == s.store && s.clock <= s'.clock
    requires Allowed(s'.log, client, w, OnFile) == Allowed(s.log, client, w, OnFile)
    ensures FileBoundIn(s', client, limit, size, w)
  {
  }

  /** A request let through by the file is counted there, in a window that has begun and is not over. */
  lemma BoundCounts(ks: LT.Keys, client: string, limit: int, s: System, q: Request)
    requires limit > 0 && LT.Disjoint(ks) && Inv(ks, client, limit, s) && Possible(s, Asked(q))
    requires Proper(ks, client, limit, Asked(q)) && !q.redis.Up? && q.client == client
    requires Decide(s.redis, s.store.entries, q).allowed
    ensures FileBoundIn(Next(s, Asked(q)), client, limit, Length(ks, client), WindowOf(q.readAt, q.window))
  {
    var s', e, m := Next(s, Asked(q)), FileEvent(q), WindowOf(q.readAt, q.window);
    LT.LogGrows(s.store, e);
    assert s'.log[..|s.log|] == s.log;
    LT.WindowBounds(q.readAt, q.window);
    assert s.store.clock < WindowEnd(m, q.window) + SLACK;
    assert Step(s.store.entries, e).1.count == LT.Tally(s.store.log, q.client, m) + 1;
    assert FileBoundIn(s, client, limit, q.window, m);
  }

  lemma FileStep(ks: LT.Keys, client: string, limit: int, s: System, q: Request)
    requires limit > 0 && LT.Disjoint(ks) && Inv(ks, client, limit, s) && Possible(s, Asked(q))
    requires Proper(ks, client, limit, Asked(q)) && !q.redis.Up?
    ensures FileBound(Next(s, Asked(q)), client, limit, Length(ks, client))
  {
    var s', size := Next(s, Asked(q)), Length(ks, client);
    assert s'.log[..|s.log|] == s.log;
    forall w: nat ensures FileBoundIn(s', client, limit, size, w) {
      if q.client == client && Decide(s.redis, s.store.entries, q).allowed && w == WindowOf(q.readAt, q.window) {
        BoundCounts(ks, client, limit, s, q);
      } else {
        BoundKept(s, s', FileEvent(q), client, limit, size, w);
      }
    }
  }

  lemma OtherStep(ks: LT.Keys, client: string, limit: int, s: System, e: Event)
    requires limit > 0 && LT.Disjoint(ks) && Inv(ks, client, limit, s) && Possible(s, Other(e))
    requires Proper(ks, client, limit, Other(e))
    ensures Inv(ks, client, limit, Next(s, Other(e)))
  {
    var s', size := Next(s, Other(e)), Length(ks, client);
    StoreStep(ks, s.store, e);
    forall w: nat ensures FileBoundIn(s', client, limit, size, w) {
      BoundKept(s, s', e, client, limit, size, w);
    }
  }

  lemma RedisStep(ks: LT.Keys, client: string, limit: int, s: System, q: Request)
    requires limit > 0 && LT.Disjoint(ks) && Inv(ks, client, limit, s) && Possible(s, Asked(q))
    requires Proper(ks, client, limit, Asked(q))
    ensures Windowed(Next(s, Asked(q))) && CountersHold(ks, Next(s, Asked(q)))
    ensures RedisBound(Next(s, Asked(q)), client, limit)
  {
    CountersStep(ks, s, q);
    var s' := Next(s, Asked(q));
    assert s'.log[..|s.log|] == s.log;
    forall w: nat ensures Allowed(s'.log, client, w, OnRedis) <= Min(limit, CountedOnRedis(s'.log, client, w)) {
      assert Allowed(s.log, client, w, OnRedis) <= Min(limit, CountedOnRedis(s.log, client, w));
    }
  }

  lemma InvStep(ks: LT.Keys, client: string, limit: int, s: System, h: Happening)
    requires limit > 0 && LT.Disjoint(ks) && Inv(ks, client, limit, s) && Possible(s, h) && Proper(ks, client, limit, h)
    ensures Inv(ks, client, limit, Next(s, h))
  {
    match h
    case Other(e) => OtherStep(ks, client, limit, s, e);
    case Asked(q) =>
      RedisStep(ks, client, limit, s, q);
      if q.redis.Up? {
        var s' := Next(s, h);
        assert s'.log[..|s.log|] == s.log;
        forall w: nat ensures FileBoundIn(s', client, limit, Length(ks, client), w) {
          BoundLater(s, s', client, limit, Length(ks, client), w);
        }
      } else {
        StoreStep(ks, s.store, FileEvent(q));
        FileStep(ks, client, limit, s, q);
      }
  }

  lemma {:induction false} InvRun(ks: LT.Keys, client: string, limit: int, s: System, hs: seq<Happening>)
    requires limit > 0 && LT.Disjoint(ks) && Inv(ks, client, limit, s) && Legal(s, hs) &&
             AllProper(ks, client, limit, hs)
    ensures Inv(ks, client, limit, Run(s, hs))
    decreases |hs|
  {
    if hs != [] {
      assert Proper(ks, client, limit, hs[0]);
      InvStep(ks, client, limit, s, hs[0]);
      InvRun(ks, client, limit, Next(s, hs[0]), hs[1..]);
    }
  }

  // ----- Main results -----

  /** However Redis and the file fail, a client of a bucket that fails closed gets at most 2 * limit
      requests per window, and one more limit for each time the file was torn in that window. */
  lemma AtMostTwiceTheLimit(ks: LT.Keys, client: string, limit: int, hs: seq<Happening>, w: nat)
    requires limit > 0 && LT.Disjoint(ks) && Legal(NEW_SYSTEM, hs) && AllProper(ks, client, limit, hs)
    ensures var s := Run(NEW_SYSTEM, hs);
            var n := Allowed(s.log, client, w, OnRedis) + Allowed(s.log, client, w, OnFile);
            n <= (2 + WipesIn(s.store.log, Length(ks, client), w)) * limit
  {
    InvRun(ks, client, limit, NEW_SYSTEM, hs);
    var s := Run(NEW_SYSTEM, hs);
    var k := WipesIn(s.store.log, Length(ks, client), w);
    assert Allowed(s.log, client, w, OnRedis) <= limit;
    assert FileBoundIn(s, client, limit, Length(ks, client), w);
    assert (2 + k) * limit == k * limit + 2 * limit;
  }

  // ----- The bound is reached -----

  /** A first request of a client, at time 0. */
  function Ask(client: string, window: int, limit: int): Request {
    Request(client, window, limit, 0, 0, 0, Up, Saved, true)
  }

  function OnFileOnly(q: Request): Request { q.(redis := Down) }

  function Tearing(q: Request): Request { q.(redis := Down, write := Torn) }

  function Again(hs: seq<Happening>, q: Request, n: nat): seq<Happening> {
    if n == 0 then hs else Again(hs, q, n - 1) + [Asked(q)]
  }

  /** As many requests as the limit while Redis is up, as many when it is down, and after each of k torn writes
      as many again. */
  function Flood(q: Request, k: nat): seq<Happening>
    requires q.limit > 0
  {
    if k == 0 then Again(Again([], q, q.limit), OnFileOnly(q), q.limit)
    else Again(Flood(q, k - 1) + [Asked(Tearing(q))], OnFileOnly(q), q.limit)
  }

  /** So many were let through by Redis and by the file, whose counter stands at `c`, after k torn writes. */
  ghost predicate Stands(s: System, q: Request, a: nat, c: nat, b: nat, k: nat)
    requires q.window > 0
  {
    && s.clock == 0 && s.store.clock == 0
    && LiveCount(s.redis, CounterKey(q.client, 0), 0) == a && CountIn(s.store.entries, CounterKey(q.client, 0)) == c
    && Allowed(s.log, q.client, 0, OnRedis) == a && Allowed(s.log, q.client, 0, OnFile) == b
    && WipesIn(s.store.log, q.window, 0) == k
  }

  lemma FirstWindow(window: int)
    requires window > 0
    ensures WindowOf(0, window) == 0 && WindowEnd(0, window) + SLACK > 0 && window * SECOND + SLACK > 0
  {
  }

  lemma LogGrown(log: seq<LogEntry>, x: LogEntry, client: string, source: Source)
    ensures Allowed(log + [x], client, 0, source) ==
            Allowed(log, client, 0, source) +
            if OfClient(x, client, 0) && x.verdict.allowed && x.verdict.source == source then 1 else 0
  {
    assert (log + [x])[..|log|] == log;
  }

  lemma WipesGrown(log: seq<LT.Record>, r: LT.Record, size: int)
    requires size > 0 && r.event.readAt == 0
    ensures WipesIn(log + [r], size, 0) == WipesIn(log, size, 0) + if r.reply.wiped then 1 else 0
  {
    assert (log + [r])[..|log|] == log;
  }

  lemma StandsUp(s: System, q: Request, a: nat, c: nat, b: nat, k: nat)
    requires q.window > 0 && q.limit > 0 && q == Ask(q.client, q.window, q.limit)
    requires Stands(s, q, a, c, b, k) && a < q.limit
    ensures Possible(s, Asked(q)) && Stands(Next(s, Asked(q)), q, a + 1, c, b, k)
  {
    FirstWindow(q.window);
    var x := LogEntry(q, Decide(s.redis, s.store.entries, q));
    LogGrown(s.log, x, q.client, OnRedis);
    LogGrown(s.log, x, q.client, OnFile);
  }

  lemma StandsDown(s: System, q: Request, a: nat, c: nat, b: nat, k: nat)
    requires q.window > 0 && q.limit > 0 && q == Ask(q.client, q.window, q.limit)
    requires Stands(s, q, a, c, b, k) && c < q.limit
    ensures Possible(s, Asked(OnFileOnly(q))) && Stands(Next(s, Asked(OnFileOnly(q))), q, a, c + 1, b + 1, k)
  {
    FirstWindow(q.window);
    var d := OnFileOnly(q);
    var x := LogEntry(d, Decide(s.redis, s.store.entries, d));
    LogGrown(s.log, x, q.client, OnRedis);
    LogGrown(s.log, x, q.client, OnFile);
    WipesGrown(s.store.log, LT.Record(FileEvent(d), Step(s.store.entries, FileEvent(d)).1), q.window);
  }

  lemma StandsTorn(s: System, q: Request, a: nat, c: nat, b: nat, k: nat)
    requires q.window > 0 && q.limit > 0 && q == Ask(q.client, q.window, q.limit)
    requires Stands(s, q, a, c, b, k)
    ensures Possible(s, Asked(Tearing(q))) && Stands(Next(s, Asked(Tearing(q))), q, a, 0, b, k + 1)
  {
    FirstWindow(q.window);
    var d := Tearing(q);
    var x := LogEntry(d, Decide(s.redis, s.store.entries, d));
    LogGrown(s.log, x, q.client, OnRedis);
    LogGrown(s.log, x, q.client, OnFile);
    WipesGrown(s.store.log, LT.Record(FileEvent(d), Step(s.store.entries, FileEvent(d)).1), q.window);
  }

  lemma {:induction false} OneMore(s: System, hs: seq<Happening>, h: Happening)
    requires Legal(s, hs) && Possible(Run(s, hs), h)
    ensures Legal(s, hs + [h]) && Run(s, hs + [h]) == Next(Run(s, hs), h)
    decreases |hs|
  {
    if hs == [] {
      assert [] + [h] == [h] && [h][1..] == [];
    } else {
      OneMore(Next(s, hs[0]), hs[1..], h);
      assert (hs + [h])[1..] == hs[1..] + [h];
    }
  }

  lemma {:induction false} FloodUp(q: Request, n: nat)
    requires q.window > 0 && q.limit > 0 && q == Ask(q.client, q.window, q.limit) && n <= q.limit
    ensures Legal(NEW_SYSTEM, Again([], q, n)) && Stands(Run(NEW_SYSTEM, Again([], q, n)), q, n, 0, 0, 0)
  {
    if n > 0 {
      FloodUp(q, n - 1);
      StandsUp(Run(NEW_SYSTEM, Again([], q, n - 1)), q, n - 1, 0, 0, 0);
      OneMore(NEW_SYSTEM, Again([], q, n - 1), Asked(q));
    }
  }

  lemma {:induction false} FloodDown(hs: seq<Happening>, q: Request, a: nat, b: nat, k: nat, n: nat)
    requires q.window > 0 && q.limit > 0 && q == Ask(q.client, q.window, q.limit) && n <= q.limit
    requires Legal(NEW_SYSTEM, hs) && Stands(Run(NEW_SYSTEM, hs), q, a, 0, b, k)
    ensures var more := Again(hs, OnFileOnly(q), n);
            Legal(NEW_SYSTEM, more) && Stands(Run(NEW_SYSTEM, more), q, a, n, b + n, k)
  {
    if n > 0 {
      var before := Again(hs, OnFileOnly(q), n - 1);
      FloodDown(hs, q, a, b, k, n - 1);
      StandsDown(Run(NEW_SYSTEM, before), q, a, n - 1, b + n - 1, k);
      OneMore(NEW_SYSTEM, before, Asked(OnFileOnly(q)));
    }
  }

  /** A torn write, and the file counts from nothing again. */
  lemma OneRound(hs: seq<Happening>, q: Request, b: nat, k: nat)
    requires q.window > 0 && q.limit > 0 && q == Ask(q.client, q.window, q.limit)
    requires Legal(NEW_SYSTEM, hs) && Stands(Run(NEW_SYSTEM, hs), q, q.limit, q.limit, b, k)
    ensures var more := Again(hs + [Asked(Tearing(q))], OnFileOnly(q), q.limit);
            Legal(NEW_SYSTEM, more) && Stands(Run(NEW_SYSTEM, more), q, q.limit, q.limit, b + q.limit, k + 1)
  {
    StandsTorn(Run(NEW_SYSTEM, hs), q, q.limit, q.limit, b, k);
    OneMore(NEW_SYSTEM, hs, Asked(Tearing(q)));
    FloodDown(hs + [Asked(Tearing(q))], q, q.limit, b, k + 1, q.limit);
  }

  lemma {:induction false} FloodStands(q: Request, k: nat)
    requires q.window > 0 && q.limit > 0 && q == Ask(q.client, q.window, q.limit)
    ensures Legal(NEW_SYSTEM, Flood(q, k))
    ensures Stands(Run(NEW_SYSTEM, Flood(q, k)), q, q.limit, q.limit, (1 + k) * q.limit, k)
  {
    if k == 0 {
      FloodUp(q, q.limit);
      FloodDown(Again([], q, q.limit), q, q.limit, 0, 0, q.limit);
    } else {
      FloodStands(q, k - 1);
      assert k * q.limit + q.limit == (1 + k) * q.limit;
      OneRound(Flood(q, k - 1), q, k * q.limit, k - 1);
    }
  }

  ghost predicate AllAsk(q: Request, hs: seq<Happening>) {
    forall i :: 0 <= i < |hs| ==> hs[i] == Asked(q) || hs[i] == Asked(OnFileOnly(q)) || hs[i] == Asked(Tearing(q))
  }

  lemma {:induction false} AgainAsks(q: Request, hs: seq<Happening>, x: Request, n: nat)
    requires AllAsk(q, hs) && (x == q || x == OnFileOnly(q) || x == Tearing(q))
    ensures AllAsk(q, Again(hs, x, n))
  {
    if n > 0 {
      AgainAsks(q, hs, x, n - 1);
    }
  }

  lemma {:induction false} FloodAsks(q: Request, k: nat)
    requires q.limit > 0
    ensures AllAsk(q, Flood(q, k))
  {
    if k == 0 {
      AgainAsks(q, [], q, q.limit);
      AgainAsks(q, Again([], q, q.limit), OnFileOnly(q), q.limit);
    } else {
      FloodAsks(q, k - 1);
      AgainAsks(q, Flood(q, k - 1) + [Asked(Tearing(q))], OnFileOnly(q), q.limit);
    }
  }

  /** The bound is exact: for every client, limit and number of torn writes some run of the kind it speaks of
      lets that many requests of one window through. */
  lemma BoundIsReached(ks: LT.Keys, client: string, limit: int, k: nat)
    requires limit > 0 && LT.Disjoint(ks) && client in ks.windows
    ensures exists hs ::
              && Legal(NEW_SYSTEM, hs) && AllProper(ks, client, limit, hs)
              && WipesIn(Run(NEW_SYSTEM, hs).store.log, Length(ks, client), 0) == k
              && Allowed(Run(NEW_SYSTEM, hs).log, client, 0, OnRedis) +
                 Allowed(Run(NEW_SYSTEM, hs).log, client, 0, OnFile)
                   == (2 + k) * limit
  {
    var q := Ask(client, ks.windows[client], limit);
    var hs := Flood(q, k);
    FloodStands(q, k);
    FloodAsks(q, k);
    assert (2 + k) * limit == limit + (1 + k) * limit;
    assert AllProper(ks, client, limit, hs);
  }

  // ----- While Redis is up -----

  ghost predicate RedisUpFor(client: string, hs: seq<Happening>) {
    forall i :: 0 <= i < |hs| && hs[i].Asked? && hs[i].req.client == client ==> hs[i].req.redis.Up?
  }

  ghost predicate AllOnRedis(s: System, client: string) {
    forall i :: 0 <= i < |s.log| && s.log[i].req.client == client ==>
      && s.log[i].verdict.source == OnRedis && s.log[i].req.redis.Up? && s.log[i].req.window > 0
      && s.log[i].verdict.window == WindowOf(s.log[i].req.at, s.log[i].req.window)
  }

  ghost predicate ExactOnRedis(s: System, client: string, limit: int)
    requires Windowed(s)
  {
    forall w: nat :: Allowed(s.log, client, w, OnRedis) == Min(limit, CountedOnRedis(s.log, client, w))
  }

  lemma CountersKept(ks: LT.Keys, client: string, limit: int, s: System, h: Happening)
    requires LT.Disjoint(ks) && Possible(s, h) && Uses(ks, client, limit, h) && Windowed(s) && CountersHold(ks, s)
    ensures Windowed(Next(s, h)) && CountersHold(ks, Next(s, h))
  {
    if h.Asked? {
      CountersStep(ks, s, h.req);
    }
  }

  lemma {:induction false} CountersRun(ks: LT.Keys, client: string, limit: int, s: System, hs: seq<Happening>)
    requires LT.Disjoint(ks) && Legal(s, hs) && AllUse(ks, client, limit, hs) && Windowed(s) && CountersHold(ks, s)
    ensures Windowed(Run(s, hs)) && CountersHold(ks, Run(s, hs))
    decreases |hs|
  {
    if hs != [] {
      assert Uses(ks, client, limit, hs[0]);
      CountersKept(ks, client, limit, s, hs[0]);
      CountersRun(ks, client, limit, Next(s, hs[0]), hs[1..]);
    }
  }

  /** Whatever failed before and however the bucket fails: a request that Redis answers is let through exactly
      if fewer than `limit` requests of the client had reached INCR in that window. */
  lemma RedisAnswerIsExact(ks: LT.Keys, client: string, limit: int, hs: seq<Happening>, q: Request)
    requires LT.Disjoint(ks) && Legal(NEW_SYSTEM, hs) && AllUse(ks, client, limit, hs)
    requires Possible(Run(NEW_SYSTEM, hs), Asked(q)) && Uses(ks, client, limit, Asked(q))
    requires q.client == client && q.redis.Up?
    ensures var s := Run(NEW_SYSTEM, hs);
            && Windowed(s)
            && (Decide(s.redis, s.store.entries, q).allowed <==>
                  CountedOnRedis(s.log, client, q.at / (q.window * SECOND)) < limit)
  {
    CountersRun(ks, client, limit, NEW_SYSTEM, hs);
    CountersStep(ks, Run(NEW_SYSTEM, hs), q);
  }

  /** The key of a counter is given its time by the first count, five seconds more than the window, if that EXPIRE is
      carried out; later counts leave it alone, and a counter whose time is over starts again. */
  lemma CounterKeyLasts(redis: map<string, Counter>, q: Request)
    requires q.window > 0
    ensures var k := CounterKey(q.client, q.at / (q.window * 1_000_000));
            var after := CountOnRedis(redis, q);
            var over := k in redis && redis[k].expireAt.Some? && redis[k].expireAt.value <= q.at;
            var first := k !in redis || over || redis[k].count == 0;
            && after.Keys == redis.Keys + {k} && (forall x :: x in redis && x != k ==> after[x] == redis[x])
            && (!first ==> after[k] == Counter(redis[k].count + 1, redis[k].expireAt))
            && (first ==> after[k].count == 1)
            && (first && (q.redis.Up? || (q.redis.CountedThenLost? && q.redis.timed)) ==>
                  after[k].expireAt == Some(q.at + (q.window + 5) * 1_000_000))
  {
  }

  lemma ExactStep(ks: LT.Keys, client: string, limit: int, s: System, h: Happening)
    requires limit > 0 && LT.Disjoint(ks) && Possible(s, h) && Uses(ks, client, limit, h)
    requires Windowed(s) && CountersHold(ks, s) && (h.Asked? && h.req.client == client ==> h.req.redis.Up?)
    requires ExactOnRedis(s, client, limit) && AllOnRedis(s, client)
    ensures Windowed(Next(s, h)) && ExactOnRedis(Next(s, h), client, limit) && AllOnRedis(Next(s, h), client)
  {
    if h.Asked? {
      var s' := Next(s, h);
      CountersStep(ks, s, h.req);
      assert s'.log[..|s.log|] == s.log;
      forall w: nat ensures Allowed(s'.log, client, w, OnRedis) == Min(limit, CountedOnRedis(s'.log, client, w)) {
        assert Allowed(s.log, client, w, OnRedis) == Min(limit, CountedOnRedis(s.log, client, w));
      }
    }
  }

  lemma {:induction false} ExactRun(ks: LT.Keys, client: string, limit: int, s: System, hs: seq<Happening>)
    requires limit > 0 && LT.Disjoint(ks) && Legal(s, hs) && AllUse(ks, client, limit, hs)
    requires Windowed(s) && CountersHold(ks, s)
    requires RedisUpFor(client, hs) && ExactOnRedis(s, client, limit) && AllOnRedis(s, client)
    ensures Windowed(Run(s, hs)) && ExactOnRedis(Run(s, hs), client, limit) && AllOnRedis(Run(s, hs), client)
    decreases |hs|
  {
    if hs != [] {
      assert Uses(ks, client, limit, hs[0]);
      ExactStep(ks, client, limit, s, hs[0]);
      CountersKept(ks, client, limit, s, hs[0]);
      ExactRun(ks, client, limit, Next(s, hs[0]), hs[1..]);
    }
  }

  lemma {:induction false} NoneOnFile(log: seq<LogEntry>, client: string, w: nat)
    requires forall i :: 0 <= i < |log| && log[i].req.client == client ==> log[i].verdict.source == OnRedis
    ensures Allowed(log, client, w, OnFile) == 0
  {
    if log != [] {
      NoneOnFile(log[..|log| - 1], client, w);
    }
  }

  /** If Redis never fails the client, exactly the first `limit` of its requests per window pass: no key
      expiry resets a counter inside its window. */
  lemma ExactWhileRedisIsUp(ks: LT.Keys, client: string, limit: int, hs: seq<Happening>, w: nat)
    requires limit > 0 && LT.Disjoint(ks) && Legal(NEW_SYSTEM, hs) && AllUse(ks, client, limit, hs) &&
             RedisUpFor(client, hs)
    ensures var s := Run(NEW_SYSTEM, hs);
            && Windowed(s)
            && Allowed(s.log, client, w, OnRedis) == Min(limit, CountedOnRedis(s.log, client, w))
            && Allowed(s.log, client, w, OnFile) == 0
  {
    ExactRun(ks, client, limit, NEW_SYSTEM, hs);
    NoneOnFile(Run(NEW_SYSTEM, hs).log, client, w);
  }

  /** Requests let through whose clock lies in [from, from + one window). */
  function AllowedIn(log: seq<LogEntry>, client: string, from: nat, length: int): nat {
    if log == [] then 0 else
      var x := log[|log| - 1];
      AllowedIn(log[..|log| - 1], client, from, length) +
      if x.req.client == client && x.verdict.allowed && from <= x.req.at < from + length then 1 else 0
  }

  lemma LessByFactor(a: int, b: int, c: int)
    requires c > 0 && a * c < b * c
    ensures a < b
  {
  }

  lemma TwoWindows(at: nat, from: nat, window: int)
    requires window > 0 && from <= at < from + window * SECOND
    ensures WindowOf(at, window) == WindowOf(from, window) || WindowOf(at, window) == WindowOf(from, window) + 1
  {
    var size := window * SECOND;
    var a, f := at / size, from / size;
    LT.WindowBounds(at, window);
    LT.WindowBounds(from, window);
    assert (a + 1) * size == a * size + size && (f + 1) * size == f * size + size &&
           (f + 2) * size == f * size + 2 * size;
    LessByFactor(f, a + 1, size);
    LessByFactor(a, f + 2, size);
  }

  lemma {:induction false} IntervalCovered(log: seq<LogEntry>, client: string, window: int, from: nat)
    requires window > 0
    requires forall i :: 0 <= i < |log| && log[i].req.client == client ==>
               log[i].verdict.source == OnRedis && log[i].req.window == window &&
                   log[i].verdict.window == WindowOf(log[i].req.at, window)
    ensures AllowedIn(log, client, from, window * SECOND) <=
            Allowed(log, client, WindowOf(from, window), OnRedis) +
                Allowed(log, client, WindowOf(from, window) + 1, OnRedis)
  {
    if log != [] {
      var x := log[|log| - 1];
      IntervalCovered(log[..|log| - 1], client, window, from);
      if x.req.client == client && from <= x.req.at < from + window * SECOND {
        TwoWindows(x.req.at, from, window);
      }
    }
  }

  ghost predicate SameWindow(s: System, client: string, window: int) {
    forall i :: 0 <= i < |s.log| && s.log[i].req.client == client ==> s.log[i].req.window == window
  }

  lemma {:induction false} SameWindowRun(ks: LT.Keys, client: string, limit: int, s: System, hs: seq<Happening>)
    requires Legal(s, hs) && AllUse(ks, client, limit, hs) && client in ks.windows &&
             SameWindow(s, client, ks.windows[client])
    ensures SameWindow(Run(s, hs), client, ks.windows[client])
    decreases |hs|
  {
    if hs != [] {
      assert Uses(ks, client, limit, hs[0]);
      SameWindowRun(ks, client, limit, Next(s, hs[0]), hs[1..]);
    }
  }

  /** While Redis is up, any interval one window long, aligned or not, lets at most 2 * limit through. */
  lemma AnyIntervalAtMostTwice(ks: LT.Keys, client: string, limit: int, hs: seq<Happening>, from: nat)
    requires limit > 0 && LT.Disjoint(ks) && Legal(NEW_SYSTEM, hs) && AllUse(ks, client, limit, hs) &&
             RedisUpFor(client, hs)
    requires client in ks.windows
    ensures AllowedIn(Run(NEW_SYSTEM, hs).log, client, from, ks.windows[client] * SECOND) <= 2 * limit
  {
    var s, window := Run(NEW_SYSTEM, hs), ks.windows[client];
    ExactRun(ks, client, limit, NEW_SYSTEM, hs);
    SameWindowRun(ks, client, limit, NEW_SYSTEM, hs);
    var w := WindowOf(from, window);
    ExactWhileRedisIsUp(ks, client, limit, hs, w);
    ExactWhileRedisIsUp(ks, client, limit, hs, w + 1);
    IntervalCovered(s.log, client, window, from);
  }

  // ----- While Redis is away -----

  lemma {:induction false} StoreRun(ks: LT.Keys, client: string, limit: int, s: System, hs: seq<Happening>)
    requires LT.Disjoint(ks) && Legal(s, hs) && AllUse(ks, client, limit, hs)
    requires LT.Inv(ks, s.store) && s.store.clock <= s.clock
    ensures LT.Inv(ks, Run(s, hs).store) && Run(s, hs).store.clock <= Run(s, hs).clock
    decreases |hs|
  {
    if hs != [] {
      assert Uses(ks, client, limit, hs[0]);
      match hs[0] {
        case Asked(q) => if !q.redis.Up? { StoreStep(ks, s.store, FileEvent(q)); }
        case Other(e) => StoreStep(ks, s.store, e);
      }
      StoreRun(ks, client, limit, Next(s, hs[0]), hs[1..]);
    }
  }

  /** A request that Redis does not answer is let through exactly if fewer than `limit` calls are counted in the
      file for its window, and the count is written or the bucket fails open. */
  lemma FileAnswerIsExact(ks: LT.Keys, client: string, limit: int, hs: seq<Happening>, q: Request)
    requires LT.Disjoint(ks) && Legal(NEW_SYSTEM, hs) && AllUse(ks, client, limit, hs)
    requires Possible(Run(NEW_SYSTEM, hs), Asked(q)) && Uses(ks, client, limit, Asked(q))
    requires q.client == client && !q.redis.Up?
    ensures var s := Run(NEW_SYSTEM, hs);
            Decide(s.redis, s.store.entries, q).allowed <==>
              LT.Tally(s.store.log, client, q.readAt / (q.window * SECOND)) < limit && (q.write.Saved? || !q.failClosed)
  {
    StoreRun(ks, client, limit, NEW_SYSTEM, hs);
    var s, m := Run(NEW_SYSTEM, hs), WindowOf(q.readAt, q.window);
    LT.WindowBounds(q.readAt, q.window);
    assert s.store.clock < WindowEnd(m, q.window) + SLACK;
    assert Step(s.store.entries, FileEvent(q)).1.count == LT.Tally(s.store.log, client, m) + 1;
  }
}
