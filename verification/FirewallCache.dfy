/** The firewall check and its short-lived per-process cache. The rule query is an await point, so
    requests, rule edits and invalidations interleave around it. Times are milliseconds. */
module FirewallCache {
  import opened Options

  const CACHE_TTL: int := 15_000

  datatype Rule = Rule(action: string, cidr: string)

  /** What one query returned, tagged with the edit it comes from. `T` is the table that is cached: the
      enabled firewall rules, or the keys of the blocked actions, whose check has the same cache. */
  datatype Snapshot<T> = Snapshot(version: nat, rules: T)

  /** A state of the table and the moment it was committed. */
  datatype Version<T> = Version(since: nat, rules: T)

  datatype Cached<T> = Cached(stamp: nat, snap: Snapshot<T>)

  /** A request after it read the clock: waiting for its query, holding the result, or decided. */
  datatype Flight<T> =
    | Querying(began: nat)
    | Fetched(began: nat, snap: Snapshot<T>)
    | Decided(began: nat, snap: Snapshot<T>)

  /** One worker process: its module-global cache and its requests. */
  datatype Process<T> = Process(cache: Option<Cached<T>>, flights: map<nat, Flight<T>>)

  datatype System<T> = System(clock: nat, table: seq<Version<T>>, procs: map<nat, Process<T>>)

  datatype Event<T> =
    | Tick(elapsed: nat)
    | Begin(p: nat, r: nat)
    | Query(p: nat, r: nat)
    | Store(p: nat, r: nat)
    | Edit(rules: T)
    | Invalidate(p: nat)

  function Init<T>(rules: T, procs: set<nat>): System<T> {
    System(0, [Version(0, rules)], map p | p in procs :: Process(None, map[]))
  }

  predicate Fresh<T>(cache: Option<Cached<T>>, now: nat) {
    cache.Some? && now - cache.value.stamp < CACHE_TTL
  }

  predicate Enabled<T>(s: System<T>, e: Event<T>) {
    match e
    case Tick(_) => true
    case Begin(p, r) => p in s.procs && r !in s.procs[p].flights
    case Query(p, r) => p in s.procs && r in s.procs[p].flights && s.procs[p].flights[r].Querying?
    case Store(p, r) => p in s.procs && r in s.procs[p].flights && s.procs[p].flights[r].Fetched?
    case Edit(_) => true
    case Invalidate(p) => p in s.procs
  }

  function Current<T>(table: seq<Version<T>>): Snapshot<T>
    requires table != []
  {
    Snapshot(|table| - 1, table[|table| - 1].rules)
  }

  /** Reading the clock and the cache is one step; a hit decides at once. */
  function AfterBegin<T>(c: Process<T>, r: nat, now: nat): Process<T> {
    c.(flights := c.flights[r := if Fresh(c.cache, now) then Decided(now, c.cache.value.snap) else Querying(now)])
  }

  function AfterQuery<T>(c: Process<T>, r: nat, snap: Snapshot<T>): Process<T>
    requires r in c.flights
  {
    c.(flights := c.flights[r := Fetched(c.flights[r].began, snap)])
  }

  /** The cache is stamped with the clock read before the query. */
  function AfterStore<T>(c: Process<T>, r: nat): Process<T>
    requires r in c.flights && c.flights[r].Fetched?
  {
    var f := c.flights[r];
    Process(Some(Cached(f.began, f.snap)), c.flights[r := Decided(f.began, f.snap)])
  }

  function Next<T>(s: System<T>, e: Event<T>): System<T>
    requires Enabled(s, e) && s.table != []
  {
    match e
    case Tick(elapsed) => s.(clock := s.clock + elapsed)
    case Begin(p, r) => s.(procs := s.procs[p := AfterBegin(s.procs[p], r, s.clock)])
    case Query(p, r) => s.(procs := s.procs[p := AfterQuery(s.procs[p], r, Current(s.table))])
    case Store(p, r) => s.(procs := s.procs[p := AfterStore(s.procs[p], r)])
    case Edit(rules) => s.(table := s.table + [Version(s.clock, rules)])
    case Invalidate(p) => s.(procs := s.procs[p := s.procs[p].(cache := None)])
  }

  ghost predicate Legal<T>(s: System<T>, es: seq<Event<T>>)
    decreases |es|
  {
    es != [] ==> s.table != [] && Enabled(s, es[0]) && Legal(Next(s, es[0]), es[1..])
  }

  ghost function Run<T>(s: System<T>, es: seq<Event<T>>): System<T>
    requires Legal(s, es)
    decreases |es|
  {
    if es == [] then s else Run(Next(s, es[0]), es[1..])
  }

  // ----- The verdict -----

  /** An address is parsed or not; `covers` says whether a CIDR contains it (never, for a bad CIDR). */
  datatype Ip = Ip(text: string)

  ghost predicate Permitted(rules: seq<Rule>, ip: Option<Ip>, covers: (Ip, string) -> bool) {
    rules == [] || (
      && ip.Some?
      && (forall i :: 0 <= i < |rules| && rules[i].action == "deny" ==> !covers(ip.value, rules[i].cidr))
      && ((exists i :: 0 <= i < |rules| && rules[i].action == "allow") ==>
            exists i :: 0 <= i < |rules| && rules[i].action == "allow" && covers(ip.value, rules[i].cidr)))
  }

  method CidrsOf(rules: seq<Rule>, action: string) returns (cidrs: seq<string>)
    ensures forall c :: c in cidrs <==> exists i :: 0 <= i < |rules| && rules[i].action == action && rules[i].cidr == c
  {
    cidrs := [];
    var i := 0;
    while i < |rules|
      invariant 0 <= i <= |rules|
      invariant forall c :: c in cidrs <==> exists k :: 0 <= k < i && rules[k].action == action && rules[k].cidr == c
    {
      if rules[i].action == action {
        cidrs := cidrs + [rules[i].cidr];
      }
      i := i + 1;
    }
  }

  /** The deny pass, then the allow pass. */
  method CheckRules(rules: seq<Rule>, ip: Option<Ip>, covers: (Ip, string) -> bool) returns (allowed: bool)
    ensures allowed <==> Permitted(rules, ip, covers)
  {
    if rules == [] {
      return true;
    }
    if ip.None? {
      return false;
    }
    var deny := CidrsOf(rules, "deny");
    var allow := CidrsOf(rules, "allow");
    var i := 0;
    while i < |deny|
      invariant 0 <= i <= |deny|
      invariant forall k :: 0 <= k < i ==> !covers(ip.value, deny[k])
    {
      if covers(ip.value, deny[i]) {
        assert deny[i] in deny;
        return false;
      }
      i := i + 1;
    }
    assert forall k :: 0 <= k < |rules| && rules[k].action == "deny" ==> rules[k].cidr in deny;
    if allow == [] {
      assert forall k :: 0 <= k < |rules| && rules[k].action == "allow" ==> rules[k].cidr in allow;
      return true;
    }
    assert allow[0] in allow;
    var k := 0;
    while k < |allow|
      invariant 0 <= k <= |allow|
      invariant forall x :: 0 <= x < k ==> !covers(ip.value, allow[x])
    {
      if covers(ip.value, allow[k]) {
        assert allow[k] in allow;
        return true;
      }
      k := k + 1;
    }
    assert forall x :: 0 <= x < |rules| && rules[x].action == "allow" ==> rules[x].cidr in allow;
    return false;
  }

  /** What the verdict means: without rules everybody is let in; with rules an address that cannot be read is not, nor
      is one that some deny rule covers; any other is, if there is no allow rule or one covers it. */
  lemma VerdictMeans(rules: seq<Rule>, ip: Option<Ip>, covers: (Ip, string) -> bool, denied: set<string>,
                     allowed: set<string>)
    requires denied == set r | r in rules && r.action == "deny" :: r.cidr
    requires allowed == set r | r in rules && r.action == "allow" :: r.cidr
    ensures rules == [] ==> Permitted(rules, ip, covers)
    ensures rules != [] ==>
              (Permitted(rules, ip, covers) <==>
                 && ip.Some? && (forall c :: c in denied ==> !covers(ip.value, c))
                 && (allowed == {} || exists c :: c in allowed && covers(ip.value, c)))
  {
    if rules != [] && ip.Some? {
      forall i | 0 <= i < |rules|
        ensures rules[i].action == "deny" ==> rules[i].cidr in denied
        ensures rules[i].action == "allow" ==> rules[i].cidr in allowed
      {
        assert rules[i] in rules;
      }
      forall c | c in denied ensures exists i :: 0 <= i < |rules| && rules[i].action == "deny" && rules[i].cidr == c {
        var r :| r in rules && r.action == "deny" && r.cidr == c;
        var i :| 0 <= i < |rules| && rules[i] == r;
      }
      forall c | c in allowed ensures exists i :: 0 <= i < |rules| && rules[i].action == "allow" && rules[i].cidr == c {
        var r :| r in rules && r.action == "allow" && r.cidr == c;
        var i :| 0 <= i < |rules| && rules[i] == r;
      }
      if i :| 0 <= i < |rules| && rules[i].action == "allow" {
        assert rules[i].cidr in allowed;
      }
      if c :| c in allowed {
        var i :| 0 <= i < |rules| && rules[i].action == "allow" && rules[i].cidr == c;
      }
    }
  }

  /** The verdict does not depend on the order (or the repetition) of the rules. */
  lemma OrderDoesNotMatter(a: seq<Rule>, b: seq<Rule>, ip: Option<Ip>, covers: (Ip, string) -> bool)
    requires forall r :: r in a <==> r in b
    ensures Permitted(a, ip, covers) <==> Permitted(b, ip, covers)
  {
    assert b != [] ==> b[0] in a;
    if a != [] {
      assert a[0] in b;
      if Permitted(a, ip, covers) { OneWay(a, b, ip, covers); }
      if Permitted(b, ip, covers) { OneWay(b, a, ip, covers); }
    }
  }

  lemma OneWay(a: seq<Rule>, b: seq<Rule>, ip: Option<Ip>, covers: (Ip, string) -> bool)
    requires (forall r :: r in a <==> r in b) && a != [] && b != [] && Permitted(a, ip, covers)
    ensures Permitted(b, ip, covers)
  {
    forall i | 0 <= i < |b| && b[i].action == "deny" ensures !covers(ip.value, b[i].cidr) {
      assert b[i] in a;
    }
    if i :| 0 <= i < |b| && b[i].action == "allow" {
      assert b[i] in a;
      var k :| 0 <= k < |a| && a[k].action == "allow" && covers(ip.value, a[k].cidr);
      assert a[k] in b;
    }
  }

  // ----- The process object -----

  class CacheGate<T> {
    var cache: Option<Cached<T>>

    constructor ()
      ensures cache == None
    {
      cache := None;
    }

    /** Up to the await: a fresh cache answers, otherwise the query has to be made. */
    method BeginCheck(now: nat) returns (flight: Flight<T>)
      ensures AfterBegin(Process(cache, map[]), 0, now) == Process(cache, map[0 := flight])
    {
      if cache.Some? && now - cache.value.stamp < CACHE_TTL {
        flight := Decided(now, cache.value.snap);
      } else {
        flight := Querying(now);
      }
    }

    /** After the await: the result is cached under the clock read at the beginning. */
    method CompleteCheck(began: nat, snap: Snapshot<T>) returns (flight: Flight<T>)
      modifies this
      ensures AfterStore(Process(old(cache), map[0 := Fetched(began, snap)]), 0) == Process(cache, map[0 := flight])
    {
      cache := Some(Cached(began, snap));
      flight := Decided(began, snap);
    }

    method InvalidateSecurityCaches()
      modifies this
      ensures cache == None
    {
      cache := None;
    }
  }

  /** `assert_action_allowed`, given the keys consulted; a missing key is never blocked. */
  method CheckAction(blocked: set<string>, key: Option<string>) returns (allowed: bool)
    ensures allowed <==> key.None? || key.value == "" || key.value !in blocked
  {
    if key.None? || key.value == "" {
      return true;
    }
    allowed := key.value !in blocked;
  }
}
