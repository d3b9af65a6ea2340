/** What the throttle decides and how long its blocks last. */
module BlacklistTheorems {
  import opened Options
  import opened Sets
  import opened Blacklists

  // ----- The 20-row window decides as the whole history does -----

  lemma {:induction false} StreakPrefix(l: seq<Attempt>, n: nat)
    ensures Streak(FirstRows(l, n)) == if Streak(l) < n then Streak(l) else if n <= |l| then n else Streak(l)
  {
    if l != [] && l[0].failure && n > 0 {
      StreakPrefix(l[1..], n - 1);
      assert FirstRows(l, n)[1..] == FirstRows(l[1..], n - 1);
    }
  }

  lemma {:induction false} StreakLeads(l: seq<Attempt>)
    ensures Streak(l) <= |l|
    ensures forall i :: 0 <= i < Streak(l) ==> l[i].failure
    ensures Streak(l) < |l| ==> !l[Streak(l)].failure
  {
    if l != [] && l[0].failure {
      StreakLeads(l[1..]);
    }
  }

  lemma {:induction false} FewerThanIndices(l: seq<Attempt>)
    ensures |set a | a in l| <= |l|
  {
    if l == [] {
      assert (set a | a in l) == {};
    } else {
      FewerThanIndices(l[1..]);
      assert (set a | a in l) == {l[0]} + (set a | a in l[1..]);
    }
  }

  lemma {:induction false} DistinctCount(l: seq<Attempt>)
    requires Distinct(l)
    ensures |set a | a in l| == |l|
  {
    if l == [] {
      assert (set a | a in l) == {};
    } else {
      DistinctCount(l[1..]);
      assert (set a | a in l) == {l[0]} + (set a | a in l[1..]);
      assert l[0] !in (set a | a in l[1..]);
    }
  }

  /** Failures later than every other row. */
  function SurelyTrailing(rows: set<Attempt>): set<Attempt> {
    set a | a in rows && a.failure && forall x :: x in rows && !x.failure ==> x.at < a.at
  }

  /** Failures not earlier than any other row. */
  function MaybeTrailing(rows: set<Attempt>): set<Attempt> {
    set a | a in rows && a.failure && forall x :: x in rows && !x.failure ==> x.at <= a.at
  }

  lemma SurelyLead(l: seq<Attempt>, rows: set<Attempt>)
    requires IsListing(l, rows)
    ensures |SurelyTrailing(rows)| <= Streak(l)
  {
    StreakLeads(l);
    var n := Streak(l);
    if n < |l| {
      assert l[n] in rows;
      forall a | a in SurelyTrailing(rows) ensures a in l[..n] {
        var i :| 0 <= i < |l| && l[i] == a;
      }
      FewerThanIndices(l[..n]);
      Larger(SurelyTrailing(rows), (set a | a in l[..n]));
    } else {
      FewerThanIndices(l);
      Larger(SurelyTrailing(rows), (set a | a in l));
    }
  }

  lemma LeadersMayTrail(l: seq<Attempt>, rows: set<Attempt>)
    requires IsListing(l, rows)
    ensures Streak(l) <= |MaybeTrailing(rows)|
  {
    StreakLeads(l);
    var lead := l[..Streak(l)];
    DistinctCount(lead);
    forall a | a in lead ensures a in MaybeTrailing(rows) {
      var i :| 0 <= i < |lead| && lead[i] == a;
      assert l[i] in rows;
      forall x | x in rows && !x.failure ensures x.at <= a.at {
        var k :| 0 <= k < |l| && l[k] == x;
      }
    }
    Larger((set a | a in lead), MaybeTrailing(rows));
  }

  /** Whatever window the query returns, the throttle decides as on the full history: it acts if ten
      failures are later than everything else, and only if ten are not earlier than anything else. */
  lemma WindowDecidesAsHistory(w: seq<Attempt>, rows: set<Attempt>)
    requires IsWindow(w, rows)
    ensures |SurelyTrailing(rows)| >= 10 ==> Streak(w) >= 10
    ensures Streak(w) >= 10 ==> |MaybeTrailing(rows)| >= 10
  {
    var l :| IsListing(l, rows) && w == FirstRows(l, WINDOW);
    StreakPrefix(l, WINDOW);
    SurelyLead(l, rows);
    LeadersMayTrail(l, rows);
  }

  /** When no failure shares its moment with another kind of row the decision is exact. */
  lemma WindowIsExact(w: seq<Attempt>, rows: set<Attempt>)
    requires IsWindow(w, rows)
    requires forall a, x :: a in rows && x in rows && a.failure && !x.failure ==> a.at != x.at
    ensures Streak(w) >= 10 <==> |SurelyTrailing(rows)| >= 10
  {
    WindowDecidesAsHistory(w, rows);
    assert SurelyTrailing(rows) == MaybeTrailing(rows);
  }

  // ----- What a failure does -----

  const QUARTER_HOUR: int := 900_000

  predicate TenFailures(w: seq<Attempt>) { |w| >= 10 && forall i :: 0 <= i < 10 ==> w[i].failure }

  /** An untrusted address has failed, and the ten newest rows are failures. */
  predicate Acts(e: Event) { e.Fail? && !e.trusted && TenFailures(e.window) }

  lemma TenIsStreak(w: seq<Attempt>)
    ensures TenFailures(w) <==> Streak(w) >= 10
  {
    StreakLeads(w);
  }

  /** A failure is put on record; an untrusted address whose ten newest rows are failures is blocked for a quarter
      of an hour, with the number of failures that lead noted; and otherwise the blacklist stays. */
  lemma FailureEffect(t: Tables, e: Event, n: nat)
    requires e.Fail? && n <= |e.window| && (n < |e.window| ==> !e.window[n].failure)
    requires forall i :: 0 <= i < n ==> e.window[i].failure
    ensures NextTables(t, e).attempts == t.attempts + {e.attempt}
    ensures NextTables(t, e).blacklist ==
              if Acts(e) then t.blacklist[e.attempt.ip := Entry(true, Some(e.now + 900_000), n)] else t.blacklist
  {
    TenIsStreak(e.window);
    StreakLeads(e.window);
  }

  /** Below ten failures that may be the newest, counted over the whole history, nobody is blocked; nor ever an
      address that is trusted. */
  lemma FewFailuresDoNothing(t: Tables, e: Event)
    requires e.Fail? && Possible(t, e)
    requires e.trusted || |MaybeTrailing(set a | a in t.attempts + {e.attempt} && a.ip == e.attempt.ip)| < 10
    ensures NextTables(t, e).blacklist == t.blacklist
  {
    var rows := Rows(t.attempts + {e.attempt}, e.attempt.ip);
    assert rows == set a | a in t.attempts + {e.attempt} && a.ip == e.attempt.ip;
    WindowDecidesAsHistory(e.window, rows);
  }

  /** A request ends the block of its address if its time is over, and changes nothing else. */
  lemma RequestEffect(t: Tables, ip: string, now: int)
    ensures var t' := NextTables(t, Request(ip, now));
            var over := ip in t.blacklist && t.blacklist[ip].until.Some? && t.blacklist[ip].until.value <= now;
            && t'.attempts == t.attempts && t'.blacklist.Keys == t.blacklist.Keys
            && forall x :: x in t.blacklist ==>
                 t'.blacklist[x] == if over && x == ip then t.blacklist[x].(active := false) else t.blacklist[x]
  {
  }

  /** The other ways in which the tables change. */
  lemma OtherEffects(t: Tables, ip: string, until: Option<int>, note: Attempt, now: int)
    ensures NextTables(t, Note(note, now)) == Tables(t.blacklist, t.attempts + {note})
    ensures NextTables(t, ManualBlock(ip, until, now)) == Tables(t.blacklist[ip := Entry(true, until, 0)], t.attempts)
    ensures var t' := NextTables(t, Unlock(ip, now));
            && t'.attempts == t.attempts && t'.blacklist.Keys == t.blacklist.Keys
            && forall x :: x in t.blacklist ==>
                 t'.blacklist[x] == if x == ip then t.blacklist[x].(active := false) else t.blacklist[x]
  {
  }

  // ----- Lazy expiry against an eager model -----

  /** The eager model: until when an address is blocked. */
  datatype Block = Free | Until(t: int) | Forever

  function BlockOf(blocks: map<string, Block>, ip: string): Block { if ip in blocks then blocks[ip] else Free }

  predicate BlockedAt(b: Block, now: int) { b.Forever? || (b.Until? && now < b.t) }

  function Reset(until: Option<int>): Block { if until.Some? then Until(until.value) else Forever }

  function NextBlocks(blocks: map<string, Block>, e: Event): map<string, Block> {
    match e
    case Request(_, _) => blocks
    case Fail(a, _, _, now) => if Acts(e) then blocks[a.ip := Until(now + QUARTER_HOUR)] else blocks
    case Note(_, _) => blocks
    case ManualBlock(ip, until, _) => blocks[ip := Reset(until)]
    case Unlock(ip, _) => blocks[ip := Free]
  }

  ghost predicate Ordered(now: int, es: seq<Event>)
    decreases |es|
  {
    es != [] ==> now <= es[0].now && Ordered(es[0].now, es[1..])
  }

  /** The answers to the requests among the events, lazily and eagerly. */
  function LazyAnswers(t: Tables, es: seq<Event>): seq<bool>
    decreases |es|
  {
    if es == [] then [] else
      (if es[0].Request? then [Admits(t, es[0].ip, es[0].now)] else []) + LazyAnswers(NextTables(t, es[0]), es[1..])
  }

  function EagerAnswers(blocks: map<string, Block>, es: seq<Event>): seq<bool>
    decreases |es|
  {
    if es == [] then [] else
      (if es[0].Request? then [!BlockedAt(BlockOf(blocks, es[0].ip), es[0].now)] else []) +
      EagerAnswers(NextBlocks(blocks, es[0]), es[1..])
  }

  /** From `now` on both say the same of every address. */
  ghost predicate Agree(t: Tables, blocks: map<string, Block>, now: int) {
    forall ip, m :: now <= m ==> Admits(t, ip, m) == !BlockedAt(BlockOf(blocks, ip), m)
  }

  lemma AgreeStep(t: Tables, blocks: map<string, Block>, e: Event, now: int)
    requires Agree(t, blocks, now) && now <= e.now
    ensures Agree(NextTables(t, e), NextBlocks(blocks, e), e.now)
  {
    var t', blocks' := NextTables(t, e), NextBlocks(blocks, e);
    if e.Fail? {
      TenIsStreak(e.window);
    }
    forall ip, m | e.now <= m ensures Admits(t', ip, m) == !BlockedAt(BlockOf(blocks', ip), m) {
      assert Admits(t, ip, m) == !BlockedAt(BlockOf(blocks, ip), m);
    }
  }

  lemma {:induction false} AgreeRun(t: Tables, blocks: map<string, Block>, es: seq<Event>, now: int)
    requires Agree(t, blocks, now) && Ordered(now, es)
    ensures LazyAnswers(t, es) == EagerAnswers(blocks, es)
    decreases |es|
  {
    if es != [] {
      AgreeStep(t, blocks, es[0], now);
      if es[0].Request? {
        assert Admits(t, es[0].ip, es[0].now) == !BlockedAt(BlockOf(blocks, es[0].ip), es[0].now);
      }
      AgreeRun(NextTables(t, es[0]), NextBlocks(blocks, es[0]), es[1..], es[0].now);
    }
  }

  /** Over any blocks, unlocks, failures and requests in time order, unlocking a block only when a
      request meets it answers every request as if blocks ended by themselves. */
  lemma LazyIsEager(es: seq<Event>, now: int)
    requires Ordered(now, es)
    ensures LazyAnswers(Tables(map[], {}), es) == EagerAnswers(map[], es)
  {
    AgreeRun(Tables(map[], {}), map[], es, now);
  }

  // ----- How long a block lasts -----

  function RunTables(t: Tables, es: seq<Event>): Tables
    decreases |es|
  {
    if es == [] then t else RunTables(NextTables(t, es[0]), es[1..])
  }

  predicate Resets(e: Event, ip: string) {
    (e.ManualBlock? && e.bip == ip) || (e.Unlock? && e.uip == ip)
  }

  ghost predicate BlockedUntil(t: Tables, ip: string, end: int) {
    ip in t.blacklist && t.blacklist[ip].active && t.blacklist[ip].until.Some? && end <= t.blacklist[ip].until.value
  }

  lemma {:induction false} StaysBlocked(t: Tables, ip: string, end: int, es: seq<Event>, now: int)
    requires BlockedUntil(t, ip, end) && Ordered(now, es) && end <= now + QUARTER_HOUR
    requires forall i :: 0 <= i < |es| ==> !Resets(es[i], ip) && es[i].now < end
    ensures BlockedUntil(RunTables(t, es), ip, end)
    decreases |es|
  {
    if es != [] {
      assert !Resets(es[0], ip) && es[0].now < end;
      StaysBlocked(NextTables(t, es[0]), ip, end, es[1..], es[0].now);
    }
  }

  /** A failure of an untrusted address whose history then ends in ten failures keeps the address out for
      fifteen minutes, whatever happens meanwhile short of an unlock or a manual block of it. */
  lemma {:induction false} BlockLastsFifteenMinutes(t: Tables, e: Event, es: seq<Event>, now: int)
    requires e.Fail? && Possible(t, e) && !e.trusted
    requires |SurelyTrailing(set a | a in t.attempts + {e.attempt} && a.ip == e.attempt.ip)| >= 10
    requires Ordered(e.now, es) && now < e.now + QUARTER_HOUR
    requires forall i :: 0 <= i < |es| ==> !Resets(es[i], e.attempt.ip) && es[i].now <= now
    ensures !Admits(RunTables(NextTables(t, e), es), e.attempt.ip, now)
  {
    var rows := Rows(t.attempts + {e.attempt}, e.attempt.ip);
    assert rows == set a | a in t.attempts + {e.attempt} && a.ip == e.attempt.ip;
    WindowDecidesAsHistory(e.window, rows);
    StaysBlocked(NextTables(t, e), e.attempt.ip, e.now + QUARTER_HOUR, es, e.now);
  }

  // ----- What failing logins do to a block -----

  /** When the throttle last acted on the address. */
  function LastThrottle(es: seq<Event>, ip: string): Option<int>
    decreases |es|
  {
    if es == [] then None
    else
      var later := LastThrottle(es[1..], ip);
      if later.Some? then later
      else if Acts(es[0]) && es[0].attempt.ip == ip then Some(es[0].now)
      else None
  }

  function EndTime(now: int, es: seq<Event>): int
    decreases |es|
  {
    if es == [] then now else EndTime(es[0].now, es[1..])
  }

  function RunBlocks(blocks: map<string, Block>, es: seq<Event>): map<string, Block>
    decreases |es|
  {
    if es == [] then blocks else RunBlocks(NextBlocks(blocks, es[0]), es[1..])
  }

  /** The eager model of some tables. */
  function BlocksOf(t: Tables): map<string, Block> {
    map ip | ip in t.blacklist :: if t.blacklist[ip].active then Reset(t.blacklist[ip].until) else Free
  }

  lemma {:induction false} AgreeTables(t: Tables, blocks: map<string, Block>, es: seq<Event>, now: int)
    requires Agree(t, blocks, now) && Ordered(now, es)
    ensures Agree(RunTables(t, es), RunBlocks(blocks, es), EndTime(now, es))
    decreases |es|
  {
    if es != [] {
      AgreeStep(t, blocks, es[0], now);
      AgreeTables(NextTables(t, es[0]), NextBlocks(blocks, es[0]), es[1..], es[0].now);
    }
  }

  lemma {:induction false} LastThrottleDecides(blocks: map<string, Block>, es: seq<Event>, ip: string)
    requires forall i :: 0 <= i < |es| ==> !Resets(es[i], ip)
    ensures BlockOf(RunBlocks(blocks, es), ip) ==
              match LastThrottle(es, ip)
              case None => BlockOf(blocks, ip)
              case Some(x) => Until(x + QUARTER_HOUR)
    decreases |es|
  {
    if es != [] {
      assert !Resets(es[0], ip);
      LastThrottleDecides(NextBlocks(blocks, es[0]), es[1..], ip);
    }
  }

  /** From any tables and over any events in time order that do not reset the address by hand: it is let in
      15 minutes after the throttle last acted on it, whatever block there was; and if the throttle did not
      act, exactly when it would have been let in anyway. */
  lemma AdmittedExactly(t: Tables, ip: string, es: seq<Event>, now: int, m: int)
    requires Ordered(now, es) && EndTime(now, es) <= m
    requires forall i :: 0 <= i < |es| ==> !Resets(es[i], ip)
    ensures Admits(RunTables(t, es), ip, m) <==>
              match LastThrottle(es, ip)
              case None => Admits(t, ip, m)
              case Some(x) => x + QUARTER_HOUR <= m
  {
    var blocks := BlocksOf(t);
    assert Agree(t, blocks, now);
    AgreeTables(t, blocks, es, now);
    LastThrottleDecides(blocks, es, ip);
    assert Admits(t, ip, m) == !BlockedAt(BlockOf(blocks, ip), m);
  }

  /** The address is kept out at every moment from `from` on, up to the end of the block if it has one. */
  ghost predicate KeptOut(t: Tables, ip: string, from: int, end: Option<int>) {
    forall m :: from <= m && (end.Some? ==> m < end.value) ==> !Admits(t, ip, m)
  }

  /** A manual block, with or without an end, keeps the address out until its end exactly if the throttle did
      not act on it since, or acted so late that its own 15 minutes reach that far: failing logins shorten any
      block that has longer to run. */
  lemma ManualBlockHolds(t: Tables, ip: string, end: Option<int>, now: int, es: seq<Event>)
    requires Ordered(now, es) && forall i :: 0 <= i < |es| ==> !Resets(es[i], ip)
    requires end.Some? ==> EndTime(now, es) < end.value
    ensures var t' := RunTables(NextTables(t, ManualBlock(ip, end, now)), es);
            KeptOut(t', ip, EndTime(now, es), end) <==>
              match LastThrottle(es, ip)
              case None => true
              case Some(x) => end.Some? && end.value <= x + QUARTER_HOUR
  {
    var t1 := NextTables(t, ManualBlock(ip, end, now));
    var t', from := RunTables(t1, es), EndTime(now, es);
    forall m | from <= m && (end.Some? ==> m < end.value)
      ensures Admits(t', ip, m) <==> LastThrottle(es, ip).Some? && LastThrottle(es, ip).value + QUARTER_HOUR <= m
    {
      AdmittedExactly(t1, ip, es, now, m);
    }
    if LastThrottle(es, ip).Some? && (end.Some? ==> LastThrottle(es, ip).value + QUARTER_HOUR < end.value) {
      var freed := LastThrottle(es, ip).value + QUARTER_HOUR;
      var m := if freed < from then from else freed;
      assert Admits(t', ip, m);
    }
  }
}
