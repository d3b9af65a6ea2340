/** The HTTP rate limiter: fixed-window counters in Redis, the limit file when Redis is lost, and a
    refusal when neither store can count and the bucket is sensitive. */
module RateLimiters {
  import opened Options
  import opened LimitStores
  import LT = LimitTheorems

  /** How a request meets Redis: fine, no client (or INCR refused), or counted before the error; `timed` says
      whether the EXPIRE of a first count was carried out all the same. */
  datatype RedisLuck = Up | Down | CountedThenLost(timed: bool)

  /** One rate-limited request of a client (bucket and IP): the clock read for the Redis key, the later
      ones read by the limit file, the luck with both stores, and whether this bucket fails closed. */
  datatype Request = Request(client: string, window: int, limit: int, at: nat, readAt: nat, saveAt: nat,
                             redis: RedisLuck, write: Write, failClosed: bool)

  datatype Counter = Counter(count: nat, expireAt: Option<int>)

  datatype Source = OnRedis | OnFile

  datatype Verdict = Verdict(allowed: bool, source: Source, window: nat)

  /** Requests, and the other callers of the limit file that run in between. */
  datatype Happening = Asked(req: Request) | Other(event: Event)

  datatype LogEntry = LogEntry(req: Request, verdict: Verdict)

  datatype System = System(redis: map<string, Counter>, store: LT.World, clock: nat, log: seq<LogEntry>)

  const NEW_SYSTEM := System(map[], LT.NEW_WORLD, 0, [])

  predicate Alive(redis: map<string, Counter>, k: string, now: int) {
    k in redis && (redis[k].expireAt.None? || now < redis[k].expireAt.value)
  }

  function LiveCount(redis: map<string, Counter>, k: string, now: int): nat {
    if Alive(redis, k, now) then redis[k].count else 0
  }

  /** The EXPIRE of a first count is carried out. */
  predicate Timed(q: Request) { q.redis.Up? || (q.redis.CountedThenLost? && q.redis.timed) }

  /** INCR, and EXPIRE after a first count unless Redis is lost before it. */
  function CountOnRedis(redis: map<string, Counter>, q: Request): map<string, Counter>
    requires q.window > 0
  {
    var k := CounterKey(q.client, WindowOf(q.at, q.window));
    var n := LiveCount(redis, k, q.at) + 1;
    var kept := if Alive(redis, k, q.at) then redis[k].expireAt else None;
    redis[k := Counter(n, if n == 1 && Timed(q) then Some(q.at + (q.window * SECOND + SLACK)) else kept)]
  }

  function FileEvent(q: Request): Event {
    Event(Incr(q.client, q.window, q.limit), q.readAt, q.saveAt, q.write)
  }

  /** The answer to a request, given what the two stores hold. */
  function Decide(redis: map<string, Counter>, entries: Entries, q: Request): Verdict
    requires q.window > 0
  {
    if q.redis.Up? then
      var w := WindowOf(q.at, q.window);
      Verdict(LiveCount(redis, CounterKey(q.client, w), q.at) + 1 <= q.limit, OnRedis, w)
    else
      var r := Step(entries, FileEvent(q)).1;
      Verdict(r.ok || (r.count <= q.limit && !q.failClosed), OnFile, WindowOf(q.readAt, q.window))
  }

  function RedisAfter(redis: map<string, Counter>, q: Request): map<string, Counter>
    requires q.window > 0
  {
    if q.redis.Down? then redis else CountOnRedis(redis, q)
  }

  predicate Possible(s: System, h: Happening) {
    match h
    case Asked(q) => q.window > 0 && q.limit > 0 && s.clock <= q.at <= q.readAt <= q.saveAt
    case Other(e) => s.clock <= e.readAt <= e.saveAt
  }

  function Next(s: System, h: Happening): System
    requires Possible(s, h)
  {
    match h
    case Asked(q) =>
      System(RedisAfter(s.redis, q),
             if q.redis.Up? then s.store else LT.Next(s.store, FileEvent(q)),
             q.saveAt,
             s.log + [LogEntry(q, Decide(s.redis, s.store.entries, q))])
    case Other(e) => System(s.redis, LT.Next(s.store, e), e.saveAt, s.log)
  }

  ghost predicate Legal(s: System, hs: seq<Happening>)
    decreases |hs|
  {
    hs != [] ==> Possible(s, hs[0]) && Legal(Next(s, hs[0]), hs[1..])
  }

  ghost function Run(s: System, hs: seq<Happening>): System
    requires Legal(s, hs)
    decreases |hs|
  {
    if hs == [] then s else Run(Next(s, hs[0]), hs[1..])
  }

  /** The middleware object: its counters in Redis and its limit file. */
  class RateLimiter {
    var counters: map<string, Counter>
    const file: LimitStore

    constructor (file: LimitStore)
      ensures counters == map[] && this.file == file
    {
      counters := map[];
      this.file := file;
    }

    method Consume(q: Request) returns (allowed: bool)
      requires q.window > 0 && q.limit > 0
      modifies this, file
      ensures allowed == Decide(old(counters), old(file.entries), q).allowed
      ensures counters == RedisAfter(old(counters), q)
      ensures file.entries == if q.redis.Up? then old(file.entries) else Step(old(file.entries), FileEvent(q)).0
    {
      if !q.redis.Down? {
        var key := CounterKey(q.client, q.at / (q.window * SECOND));
        var count := 1;
        if key in counters && (counters[key].expireAt.None? || q.at < counters[key].expireAt.value) {
          count := counters[key].count + 1;
          counters := counters[key := counters[key].(count := count)];
        } else {
          counters := counters[key := Counter(1, None)];
        }
        if count == 1 && (q.redis.Up? || q.redis.timed) {
          counters := counters[key := Counter(1, Some(q.at + (q.window * SECOND + SLACK)))];
        }
        if q.redis.Up? {
          return count <= q.limit;
        }
      }
      allowed := ConsumeViaFile(q);
    }

    method ConsumeViaFile(q: Request) returns (allowed: bool)
      modifies file
      ensures file.entries == Step(old(file.entries), FileEvent(q)).0
      ensures var r := Step(old(file.entries), FileEvent(q)).1;
              allowed == (r.ok || (r.count <= q.limit && !q.failClosed))
    {
      var ok, count := file.Incr(q.client, q.window, q.limit, FileEvent(q));
      if ok {
        return true;
      }
      if count > q.limit {
        return false;
      }
      allowed := !q.failClosed;
    }
  }
}
