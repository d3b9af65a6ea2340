/** How stale the rules a request consults can be, in every interleaving. */
module FirewallTheorems {
  import opened Options
  import opened FirewallCache

  /** `snap` was what the table held at moment `q`. */
  ghost predicate Held<T>(table: seq<Version<T>>, snap: Snapshot<T>, q: nat) {
    && snap.version < |table| && snap.rules == table[snap.version].rules
    && table[snap.version].since <= q
    && (snap.version + 1 < |table| ==> q <= table[snap.version + 1].since)
  }

  ghost predicate HeldWithin<T>(table: seq<Version<T>>, snap: Snapshot<T>, from: int, to: nat) {
    exists q: nat :: from <= q <= to && Held(table, snap, q)
  }

  ghost predicate GoodFlight<T>(s: System<T>, f: Flight<T>) {
    && f.began <= s.clock
    && match f
       case Querying(_) => true
       case Fetched(t, snap) => HeldWithin(s.table, snap, t, s.clock)
       case Decided(t, snap) => HeldWithin(s.table, snap, t - CACHE_TTL + 1, s.clock)
  }

  ghost predicate GoodProcess<T>(s: System<T>, c: Process<T>) {
    && (c.cache.Some? ==>
          c.cache.value.stamp <= s.clock && HeldWithin(s.table, c.cache.value.snap, c.cache.value.stamp, s.clock))
    && forall r :: r in c.flights ==> GoodFlight(s, c.flights[r])
  }

  ghost predicate Inv<T>(s: System<T>) {
    && s.table != []
    && (forall i :: 0 <= i < |s.table| ==> s.table[i].since <= s.clock)
    && forall p :: p in s.procs ==> GoodProcess(s, s.procs[p])
  }

  /** What was held stays on record when time passes and the table grows. */
  lemma StaysHeld<T>(s: System<T>, s': System<T>, snap: Snapshot<T>, from: int)
    requires HeldWithin(s.table, snap, from, s.clock) && s.clock <= s'.clock
    requires s'.table == s.table ||
             (|s'.table| == |s.table| + 1 && s'.table[..|s.table|] == s.table && s'.table[|s.table|].since == s.clock)
    ensures HeldWithin(s'.table, snap, from, s'.clock)
  {
    var q: nat :| from <= q <= s.clock && Held(s.table, snap, q);
    assert s'.table[snap.version] == s.table[snap.version];
    assert snap.version + 1 < |s.table| ==> s'.table[snap.version + 1] == s.table[snap.version + 1];
    assert Held(s'.table, snap, q);
  }

  lemma StaysGood<T>(s: System<T>, s': System<T>, c: Process<T>)
    requires GoodProcess(s, c) && s.clock <= s'.clock
    requires s'.table == s.table ||
             (|s'.table| == |s.table| + 1 && s'.table[..|s.table|] == s.table && s'.table[|s.table|].since == s.clock)
    ensures GoodProcess(s', c)
  {
    if c.cache.Some? {
      StaysHeld(s, s', c.cache.value.snap, c.cache.value.stamp);
    }
    forall r | r in c.flights ensures GoodFlight(s', c.flights[r]) {
      match c.flights[r]
      case Querying(_) =>
      case Fetched(t, snap) => StaysHeld(s, s', snap, t);
      case Decided(t, snap) => StaysHeld(s, s', snap, t - CACHE_TTL + 1);
    }
  }

  lemma BeginGood<T>(s: System<T>, c: Process<T>, r: nat)
    requires GoodProcess(s, c)
    ensures GoodProcess(s, AfterBegin(c, r, s.clock))
  {
    if Fresh(c.cache, s.clock) {
      var q: nat :| c.cache.value.stamp <= q <= s.clock && Held(s.table, c.cache.value.snap, q);
      assert s.clock - CACHE_TTL + 1 <= q;
    }
  }

  lemma QueryGood<T>(s: System<T>, c: Process<T>, r: nat)
    requires Inv(s) && GoodProcess(s, c) && r in c.flights
    ensures GoodProcess(s, AfterQuery(c, r, Current(s.table)))
  {
    assert Held(s.table, Current(s.table), s.clock);
    assert GoodFlight(s, c.flights[r]);
  }

  lemma StoreGood<T>(s: System<T>, c: Process<T>, r: nat)
    requires GoodProcess(s, c) && r in c.flights && c.flights[r].Fetched?
    ensures GoodProcess(s, AfterStore(c, r))
  {
    var f := c.flights[r];
    assert GoodFlight(s, f);
    var q: nat :| f.began <= q <= s.clock && Held(s.table, f.snap, q);
    assert f.began - CACHE_TTL + 1 <= q;
  }

  lemma InvStep<T>(s: System<T>, e: Event<T>)
    requires Inv(s) && Enabled(s, e)
    ensures Inv(Next(s, e))
  {
    var s' := Next(s, e);
    forall p | p in s'.procs ensures GoodProcess(s', s'.procs[p]) {
      assert GoodProcess(s, s.procs[p]);
      match e
      case Begin(x, r) => if x == p { BeginGood(s, s.procs[p], r); }
      case Query(x, r) => if x == p { QueryGood(s, s.procs[p], r); }
      case Store(x, r) => if x == p { StoreGood(s, s.procs[p], r); }
      case _ =>
      StaysGood(s, s', s'.procs[p]);
    }
  }

  lemma {:induction false} InvRun<T>(s: System<T>, es: seq<Event<T>>)
    requires Inv(s) && Legal(s, es)
    ensures Inv(Run(s, es))
    decreases |es|
  {
    if es != [] {
      InvStep(s, es[0]);
      InvRun(Next(s, es[0]), es[1..]);
    }
  }

  /** In every interleaving of requests, edits and invalidations over any number of processes, a
      request that read the clock at t decides with rules the table held at some moment later than
      t minus 15 seconds. */
  lemma NeverStalerThanTtl<T>(rules: T, procs: set<nat>, es: seq<Event<T>>, p: nat, r: nat)
    requires Legal(Init(rules, procs), es)
    ensures var s := Run(Init(rules, procs), es);
            p in s.procs && r in s.procs[p].flights && s.procs[p].flights[r].Decided? ==>
              var f := s.procs[p].flights[r];
              exists q: nat :: f.began - CACHE_TTL < q <= s.clock && Held(s.table, f.snap, q)
  {
    InvRun(Init(rules, procs), es);
    var s := Run(Init(rules, procs), es);
    if p in s.procs && r in s.procs[p].flights && s.procs[p].flights[r].Decided? {
      assert GoodProcess(s, s.procs[p]);
      var f := s.procs[p].flights[r];
      assert GoodFlight(s, f);
      var q: nat :| f.began - CACHE_TTL + 1 <= q <= s.clock && Held(s.table, f.snap, q);
    }
  }

  // ----- What an invalidation achieves -----

  /** Version v was in force at some moment that request f can have seen. */
  ghost predicate InForce<T>(s: System<T>, f: Flight<T>, v: nat) {
    && v < |s.table|
    && exists q: nat :: f.began - CACHE_TTL < q <= s.clock && Held(s.table, Snapshot(v, s.table[v].rules), q)
  }

  /** What was true of the table throughout the last 15 seconds before a request and until it decided is true
      of what it decides with. */
  lemma SteadyTableDecides<T>(rules: T, procs: set<nat>, es: seq<Event<T>>, p: nat, r: nat, holds: T -> bool)
    requires Legal(Init(rules, procs), es)
    requires var s := Run(Init(rules, procs), es);
             p in s.procs && r in s.procs[p].flights && s.procs[p].flights[r].Decided?
    ensures var s := Run(Init(rules, procs), es);
            var f := s.procs[p].flights[r];
            (forall v: nat :: InForce(s, f, v) ==> holds(s.table[v].rules)) ==> holds(f.snap.rules)
  {
    NeverStalerThanTtl(rules, procs, es, p, r);
    var s := Run(Init(rules, procs), es);
    var f := s.procs[p].flights[r];
    var q: nat :| f.began - CACHE_TTL < q <= s.clock && Held(s.table, f.snap, q);
    assert f.snap == Snapshot(f.snap.version, s.table[f.snap.version].rules);
    assert InForce(s, f, f.snap.version);
  }

  /** So an action that was blocked all that time is refused, and one that was not blocked at any such moment is
      let through, in every interleaving with edits of the table and invalidations. */
  lemma SteadyActionsDecide(keys: set<string>, procs: set<nat>, es: seq<Event<set<string>>>, p: nat, r: nat,
                            key: string)
    requires Legal(Init(keys, procs), es)
    requires var s := Run(Init(keys, procs), es);
             p in s.procs && r in s.procs[p].flights && s.procs[p].flights[r].Decided?
    ensures var s := Run(Init(keys, procs), es);
            var f := s.procs[p].flights[r];
            && ((forall v: nat :: InForce(s, f, v) ==> key in s.table[v].rules) ==> key in f.snap.rules)
            && ((forall v: nat :: InForce(s, f, v) ==> key !in s.table[v].rules) ==> key !in f.snap.rules)
  {
    SteadyTableDecides(keys, procs, es, p, r, (blocked: set<string>) => key in blocked);
    SteadyTableDecides(keys, procs, es, p, r, (blocked: set<string>) => key !in blocked);
  }

  /** A request of process p holds rules older than version v and can still bring them back. */
  ghost predicate Lingering<T>(s: System<T>, p: nat, v: nat) {
    p in s.procs && exists r :: r in s.procs[p].flights && Revives(s, s.procs[p].flights[r], v)
  }

  predicate Revives<T>(s: System<T>, f: Flight<T>, v: nat) {
    f.Fetched? && f.snap.version < v && s.clock - f.began < CACHE_TTL
  }

  /** Process p can no longer consult anything older than version v in a request that begins now or
      later. */
  ghost predicate Renewed<T>(s: System<T>, p: nat, v: nat) {
    && s.table != [] && v < |s.table| && p in s.procs
    && (s.procs[p].cache.Some? ==>
          s.procs[p].cache.value.snap.version >= v || s.clock - s.procs[p].cache.value.stamp >= CACHE_TTL)
    && !Lingering(s, p, v)
  }

  lemma RenewedStep<T>(s: System<T>, e: Event<T>, p: nat, v: nat)
    requires Renewed(s, p, v) && Enabled(s, e)
    ensures Renewed(Next(s, e), p, v)
    ensures var flights := Next(s, e).procs[p].flights;
            forall r :: r in flights && r !in s.procs[p].flights && flights[r].Decided? ==> flights[r].snap.version >= v
  {
    var s' := Next(s, e);
    if Lingering(s', p, v) {
      var r :| r in s'.procs[p].flights && Revives(s', s'.procs[p].flights[r], v);
      assert r in s.procs[p].flights && Revives(s, s.procs[p].flights[r], v);
    }
    if e.Store? && e.p == p {
      assert !Revives(s, s.procs[p].flights[e.r], v);
    }
  }

  /** Requests of p that are not older than the invalidation keep seeing version v or newer. */
  ghost predicate SeesNew<T>(s: System<T>, p: nat, v: nat, before: set<nat>) {
    && p in s.procs
    && forall r :: r in s.procs[p].flights && r !in before ==>
         match s.procs[p].flights[r]
         case Querying(_) => true
         case Fetched(_, snap) => snap.version >= v
         case Decided(_, snap) => snap.version >= v
  }

  lemma {:induction false} RenewedRun<T>(s: System<T>, es: seq<Event<T>>, p: nat, v: nat, before: set<nat>)
    requires Renewed(s, p, v) && Legal(s, es) && SeesNew(s, p, v, before)
    ensures Renewed(Run(s, es), p, v) && SeesNew(Run(s, es), p, v, before)
    decreases |es|
  {
    if es != [] {
      RenewedStep(s, es[0], p, v);
      var s' := Next(s, es[0]);
      assert SeesNew(s', p, v, before) by {
        forall r | r in s'.procs[p].flights && r !in before
          ensures match s'.procs[p].flights[r]
                  case Querying(_) => true
                  case Fetched(_, snap) => snap.version >= v
                  case Decided(_, snap) => snap.version >= v
        {
        }
      }
      RenewedRun(s', es[1..], p, v, before);
    }
  }

  /** After an invalidation with no old result in flight, every request of that process that begins
      later decides with the table as of then or newer, for good. */
  lemma InvalidationHolds<T>(s: System<T>, p: nat, es: seq<Event<T>>)
    requires s.table != [] && p in s.procs && !Lingering(s, p, |s.table| - 1)
    requires Legal(Next(s, Invalidate(p)), es)
    ensures var last := Run(Next(s, Invalidate(p)), es);
            && p in last.procs
            && var flights := last.procs[p].flights;
            forall r :: r in flights && r !in s.procs[p].flights && flights[r].Decided? ==>
              flights[r].snap.version >= |s.table| - 1
  {
    var s1, v := Next(s, Invalidate(p)), |s.table| - 1;
    assert s1.procs[p].flights == s.procs[p].flights && s1.clock == s.clock;
    assert forall f: Flight<T> :: Revives(s1, f, v) == Revives(s, f, v);
    RenewedRun(s1, es, p, v, s.procs[p].flights.Keys);
  }

  /** And that condition is exact: a lingering old result is stored after the invalidation, and the
      next request decides with it. */
  lemma LingeringComesBack<T>(s: System<T>, p: nat, r: nat, later: nat)
    requires s.table != [] && p in s.procs && r in s.procs[p].flights &&
             Revives(s, s.procs[p].flights[r], |s.table| - 1)
    requires later !in s.procs[p].flights
    ensures var es := [Store(p, r), Begin(p, later)];
            var s1 := Next(s, Invalidate(p));
            && Legal(s1, es)
            && var last := Run(s1, es);
            && p in last.procs && later in last.procs[p].flights
            && var f := last.procs[p].flights[later];
            f.Decided? && f.snap.version < |s.table| - 1
  {
    var store: Event<T>, begin: Event<T> := Store(p, r), Begin(p, later);
    var s1 := Next(s, Invalidate(p));
    var s2 := Next(s1, store);
    var s3 := Next(s2, begin);
    assert [begin][1..] == [] && Legal(s3, []) && Run(s3, []) == s3;
    assert Legal(s2, [begin]) && Run(s2, [begin]) == s3;
    assert [store, begin][1..] == [begin];
  }

  // ----- The bound is reached -----

  /** One request fills the cache; the table is changed at once; and some time passes. */
  function StaleRun<T>(p: nat, rules: T, elapsed: nat): seq<Event<T>> {
    [Begin(p, 0), Query(p, 0), Store(p, 0), Edit(rules), Tick(elapsed)]
  }

  lemma StaleRunIs<T>(was: T, rules: T, p: nat, elapsed: nat)
    ensures Legal(Init(was, {p}), StaleRun(p, rules, elapsed))
    ensures var s := Run(Init(was, {p}), StaleRun(p, rules, elapsed));
            && s.clock == elapsed && p in s.procs && 1 !in s.procs[p].flights
            && s.table == [Version(0, was), Version(0, rules)]
            && s.procs[p].cache == Some(Cached(0, Snapshot(0, was)))
            && s.procs[p].flights == map[0 := Decided(0, Snapshot(0, was))]
  {
    var s0 := Init(was, {p});
    var begin: Event<T>, query: Event<T>, store: Event<T> := Begin(p, 0), Query(p, 0), Store(p, 0);
    var edit: Event<T>, tick: Event<T> := Edit(rules), Tick(elapsed);
    var s1 := Next(s0, begin);
    var s2 := Next(s1, query);
    var s3 := Next(s2, store);
    var s4 := Next(s3, edit);
    var s5 := Next(s4, tick);
    assert Legal(s5, []) && Run(s5, []) == s5;
    OneStepMore(s4, tick, []);
    OneStepMore(s3, edit, [tick]);
    OneStepMore(s2, store, [edit, tick]);
    OneStepMore(s1, query, [store, edit, tick]);
    OneStepMore(s0, begin, [query, store, edit, tick]);
    assert StaleRun(p, rules, elapsed) == [begin] + [query, store, edit, tick];
    assert [query] + [store, edit, tick] == [query, store, edit, tick];
    assert [store] + [edit, tick] == [store, edit, tick] && [edit] + [tick] == [edit, tick] && [tick] + [] == [tick];
  }

  lemma OneStepMore<T>(s: System<T>, e: Event<T>, es: seq<Event<T>>)
    requires s.table != [] && Enabled(s, e) && Legal(Next(s, e), es)
    ensures Legal(s, [e] + es) && Run(s, [e] + es) == Run(Next(s, e), es)
  {
    assert ([e] + es)[1..] == es;
  }

  /** The bound is exact: rules that were replaced are still decided with 14.999 seconds later, and from 15 seconds
      on the table is asked again. */
  lemma StaleForFifteenSeconds<T>(was: T, rules: T, p: nat, elapsed: nat)
    ensures Legal(Init(was, {p}), StaleRun(p, rules, elapsed))
    ensures var s := Run(Init(was, {p}), StaleRun(p, rules, elapsed));
            && s.table != [] && Enabled(s, Begin(p, 1))
            && Next(s, Begin(p, 1)).procs[p].flights[1] ==
                 if elapsed < 15_000 then Decided(elapsed, Snapshot(0, was)) else Querying(elapsed)
  {
    StaleRunIs(was, rules, p, elapsed);
  }
}
