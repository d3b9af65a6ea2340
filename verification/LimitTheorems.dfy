/** The pruned file counts like an unpruned tally over the history of calls. */
module LimitTheorems {
  import opened Options
  import opened LimitStores

  // ----- Counter keys -----

  lemma {:induction false} DigitsPlain(n: nat)
    ensures |Digits(n)| > 0
    ensures forall i :: 0 <= i < |Digits(n)| ==> '0' <= Digits(n)[i] <= '9'
  {
    if n >= 10 {
      DigitsPlain(n / 10);
    }
  }

  lemma {:induction false} DigitsInjective(a: nat, b: nat)
    requires Digits(a) == Digits(b)
    ensures a == b
  {
    DigitsPlain(a / 10);
    DigitsPlain(b / 10);
    if a >= 10 && b >= 10 {
      var da, db := Digits(a), Digits(b);
      assert Digits(a / 10) == da[..|da| - 1] && Digits(b / 10) == db[..|db| - 1];
      DigitsInjective(a / 10, b / 10);
      assert da[|da| - 1] == db[|db| - 1];
    } else {
      assert |Digits(a)| == |Digits(b)|;
      assert Digits(a)[0] == Digits(b)[0];
    }
  }

  /** The key and the window can be read back from a counter's storage key. */
  lemma CounterKeyInjective(k1: string, w1: nat, k2: string, w2: nat)
    requires CounterKey(k1, w1) == CounterKey(k2, w2)
    ensures k1 == k2 && w1 == w2
  {
    var s, d1, d2 := CounterKey(k1, w1), Digits(w1), Digits(w2);
    DigitsPlain(w1);
    DigitsPlain(w2);
    assert s[|k1|] == ':' && s[|k2|] == ':';
    assert forall i :: |k1| < i < |s| ==> s[i] == d1[i - |k1| - 1];
    assert forall i :: |k2| < i < |s| ==> s[i] == d2[i - |k2| - 1];
    assert k1 == s[..|k1|] && k2 == s[..|k2|];
    assert d1 == s[|k1| + 1..] && d2 == s[|k2| + 1..];
    DigitsInjective(w1, w2);
  }

  lemma WindowBounds(now: nat, window: int)
    requires window > 0
    ensures WindowOf(now, window) * (window * SECOND) <= now < WindowEnd(WindowOf(now, window), window)
  {
    var size := window * SECOND;
    assert now == size * (now / size) + now % size;
    assert (now / size + 1) * size == size * (now / size) + size;
  }

  // ----- Histories -----

  datatype Record = Record(event: Event, reply: Reply)

  datatype World = World(entries: Entries, clock: nat, log: seq<Record>)

  const NEW_WORLD := World(map[], 0, [])

  predicate Possible(w: World, e: Event) { w.clock <= e.readAt <= e.saveAt }

  function Next(w: World, e: Event): World {
    var (es, r) := Step(w.entries, e);
    World(es, e.saveAt, w.log + [Record(e, r)])
  }

  ghost predicate Legal(w: World, evs: seq<Event>)
    decreases |evs|
  {
    evs != [] ==> Possible(w, evs[0]) && Legal(Next(w, evs[0]), evs[1..])
  }

  ghost function Run(w: World, evs: seq<Event>): World
    requires Legal(w, evs)
    decreases |evs|
  {
    if evs == [] then w else Run(Next(w, evs[0]), evs[1..])
  }

  /** Calls counted for `key` in window `w`: increments that reached the file, since it was last torn. */
  function Tally(log: seq<Record>, key: string, w: nat): nat {
    if log == [] then 0 else
      var last, before := log[|log| - 1], Tally(log[..|log| - 1], key, w);
      if last.reply.wiped then 0
      else if last.reply.wrote && last.event.call.Incr? && last.event.call.key == key
              && last.event.call.window > 0 && WindowOf(last.event.readAt, last.event.call.window) == w
      then before + 1 else before
  }

  /** When the last cooldown set on `key` runs out, if one was set since the file was last torn. */
  function CoolUntil(log: seq<Record>, key: string): Option<int> {
    if log == [] then None else
      var last := log[|log| - 1];
      if last.reply.wiped then None
      else if last.reply.wrote && last.event.call.SetCooldown? && last.event.call.ckey == key
      then Some(last.event.readAt + last.event.call.seconds * SECOND)
      else CoolUntil(log[..|log| - 1], key)
  }

  /** One window length per counter key, and no cooldown key looks like a counter's storage key. */
  datatype Keys = Keys(windows: map<string, int>, cooldowns: set<string>)

  ghost predicate Disjoint(ks: Keys) {
    && (forall k :: k in ks.windows ==> ks.windows[k] > 0)
    && forall k, w: nat :: k in ks.windows ==> CounterKey(k, w) !in ks.cooldowns
  }

  predicate UsesKeys(ks: Keys, e: Event) {
    match e.call
    case Incr(key, window, _) => key in ks.windows && window == ks.windows[key]
    case SetCooldown(key, _) => key in ks.cooldowns
    case InCooldown(key) => key in ks.cooldowns
  }

  ghost predicate AllUseKeys(ks: Keys, evs: seq<Event>) {
    forall i :: 0 <= i < |evs| ==> UsesKeys(ks, evs[i])
  }

  ghost predicate CountersAgree(ks: Keys, w: World) {
    forall key, n: nat :: key in ks.windows && w.clock < WindowEnd(n, ks.windows[key]) + SLACK ==>
      var k := CounterKey(key, n);
      if Tally(w.log, key, n) == 0 then k !in w.entries
      else k in w.entries && w.entries[k] == Row(Tally(w.log, key, n), WindowEnd(n, ks.windows[key]) + SLACK)
  }

  ghost predicate CooldownsAgree(ks: Keys, w: World) {
    forall key :: key in ks.cooldowns ==>
      var until := CoolUntil(w.log, key);
      && (key in w.entries ==> until == Some(w.entries[key].expiresAt))
      && (until.Some? && w.clock < until.value ==> key in w.entries)
  }

  ghost predicate Inv(ks: Keys, w: World) { CountersAgree(ks, w) && CooldownsAgree(ks, w) }

  lemma LogGrows(w: World, e: Event)
    ensures Next(w, e).log[..|w.log|] == w.log && |Next(w, e).log| == |w.log| + 1
  {
  }

  lemma IncrStep(ks: Keys, w: World, e: Event)
    requires Disjoint(ks) && Inv(ks, w) && Possible(w, e) && UsesKeys(ks, e) && e.call.Incr?
    ensures Inv(ks, Next(w, e))
  {
    LogGrows(w, e);
    WindowBounds(e.readAt, e.call.window);
    var w', m := Next(w, e), WindowOf(e.readAt, e.call.window);
    forall key, n: nat | key in ks.windows && w'.clock < WindowEnd(n, ks.windows[key]) + SLACK
      ensures var k := CounterKey(key, n);
              if Tally(w'.log, key, n) == 0 then k !in w'.entries
              else k in w'.entries && w'.entries[k] == Row(Tally(w'.log, key, n), WindowEnd(n, ks.windows[key]) + SLACK)
    {
      if CounterKey(key, n) == CounterKey(e.call.key, m) {
        CounterKeyInjective(key, n, e.call.key, m);
      }
    }
    forall key | key in ks.cooldowns
      ensures CounterKey(e.call.key, m) != key
    {
    }
  }

  lemma CooldownStep(ks: Keys, w: World, e: Event)
    requires Disjoint(ks) && Inv(ks, w) && Possible(w, e) && UsesKeys(ks, e) && !e.call.Incr?
    ensures Inv(ks, Next(w, e))
  {
    LogGrows(w, e);
    var w' := Next(w, e);
    forall key, n: nat | key in ks.windows && w'.clock < WindowEnd(n, ks.windows[key]) + SLACK
      ensures var k := CounterKey(key, n);
              if Tally(w'.log, key, n) == 0 then k !in w'.entries
              else k in w'.entries && w'.entries[k] == Row(Tally(w'.log, key, n), WindowEnd(n, ks.windows[key]) + SLACK)
    {
      assert CounterKey(key, n) !in ks.cooldowns;
    }
  }

  lemma {:induction false} InvRun(ks: Keys, w: World, evs: seq<Event>)
    requires Disjoint(ks) && Inv(ks, w) && Legal(w, evs) && AllUseKeys(ks, evs)
    ensures Inv(ks, Run(w, evs))
    decreases |evs|
  {
    if evs != [] {
      assert UsesKeys(ks, evs[0]);
      if evs[0].call.Incr? {
        IncrStep(ks, w, evs[0]);
      } else {
        CooldownStep(ks, w, evs[0]);
      }
      InvRun(ks, Next(w, evs[0]), evs[1..]);
    }
  }

  // ----- Main results -----

  /** `incr` answers with the exact number of calls counted for its key in its window, itself included,
      and allows the first `limit` of them: pruning never loses a count that still matters. */
  lemma IncrIsExact(ks: Keys, evs: seq<Event>, e: Event)
    requires Disjoint(ks) && Legal(NEW_WORLD, evs) && AllUseKeys(ks, evs)
    requires Possible(Run(NEW_WORLD, evs), e) && UsesKeys(ks, e) && e.call.Incr? && e.call.limit > 0
    ensures var w := Run(NEW_WORLD, evs);
            var r := Step(w.entries, e).1;
            var n := Tally(w.log, e.call.key, WindowOf(e.readAt, e.call.window));
            r.count == n + 1 && (r.ok <==> e.write.Saved? && n < e.call.limit)
  {
    InvRun(ks, NEW_WORLD, evs);
    WindowBounds(e.readAt, e.call.window);
    var w := Run(NEW_WORLD, evs);
    var n := WindowOf(e.readAt, e.call.window);
    assert w.clock < WindowEnd(n, e.call.window) + SLACK;
  }

  /** `in_cooldown` is true exactly until the last cooldown that was set runs out. */
  lemma InCooldownIsExact(ks: Keys, evs: seq<Event>, key: string, now: nat)
    requires Disjoint(ks) && Legal(NEW_WORLD, evs) && AllUseKeys(ks, evs)
    requires key in ks.cooldowns && Run(NEW_WORLD, evs).clock <= now
    ensures var w := Run(NEW_WORLD, evs);
            Cooling(w.entries, key, now) <==>
              CoolUntil(w.log, key).Some? && now < CoolUntil(w.log, key).value
  {
    InvRun(ks, NEW_WORLD, evs);
  }

  /** A cooldown can be set exactly if the last one that was set has run out, and the write is saved. */
  lemma SetCooldownIsExact(ks: Keys, evs: seq<Event>, e: Event)
    requires Disjoint(ks) && Legal(NEW_WORLD, evs) && AllUseKeys(ks, evs)
    requires Possible(Run(NEW_WORLD, evs), e) && UsesKeys(ks, e) && e.call.SetCooldown? && e.call.seconds > 0
    ensures var w := Run(NEW_WORLD, evs);
            var until := CoolUntil(w.log, e.call.ckey);
            && (Step(w.entries, e).1.ok <==> (until.None? || until.value <= e.readAt) && e.write.Saved?)
            && (Step(w.entries, e).1.wrote <==> Step(w.entries, e).1.ok)
  {
    InvRun(ks, NEW_WORLD, evs);
  }

  /** Limits, windows and cooldowns that are zero or less are none: such calls are let through, and the file stays
      as it is. */
  lemma NoLimitNoCount(es: Entries, e: Event)
    requires match e.call
             case Incr(_, window, limit) => window <= 0 || limit <= 0
             case SetCooldown(_, seconds) => seconds <= 0
             case InCooldown(_) => false
    ensures Step(es, e).0 == es && Step(es, e).1.ok && !Step(es, e).1.wrote && !Step(es, e).1.wiped
  {
  }

  // ----- Spacing of cooldowns -----

  /** A record of a cooldown that was set on `key`. */
  predicate Sets(r: Record, key: string) {
    r.event.call.SetCooldown? && r.event.call.ckey == key && r.reply.wrote
  }

  function Until(r: Record): int
    requires r.event.call.SetCooldown?
  {
    r.event.readAt + r.event.call.seconds * SECOND
  }

  /** The file was not torn after record i, up to and including record k. */
  ghost predicate Unbroken(log: seq<Record>, i: int, k: int) {
    forall x :: i < x <= k && x < |log| && 0 <= x ==> !log[x].reply.wiped
  }

  /** No cooldown remembered in one piece runs longer than the latest one. */
  ghost predicate LatestIsLast(log: seq<Record>) {
    forall i, key :: 0 <= i < |log| && Sets(log[i], key) && Unbroken(log, i, |log|) ==>
      CoolUntil(log, key).Some? && Until(log[i]) <= CoolUntil(log, key).value
  }

  ghost predicate Apart(log: seq<Record>) {
    forall i, k, key :: 0 <= i < k < |log| && Sets(log[i], key) && Sets(log[k], key) && Unbroken(log, i, k) ==>
      Until(log[i]) <= log[k].event.readAt
  }

  lemma ApartStep(ks: Keys, w: World, e: Event)
    requires Inv(ks, w) && Possible(w, e) && UsesKeys(ks, e) && LatestIsLast(w.log) && Apart(w.log)
    ensures LatestIsLast(Next(w, e).log) && Apart(Next(w, e).log)
  {
    LogGrows(w, e);
    var log, log' := w.log, Next(w, e).log;
    var last := log'[|log|];
    forall i, key | 0 <= i < |log'| && Sets(log'[i], key) && Unbroken(log', i, |log'|)
      ensures CoolUntil(log', key).Some? && Until(log'[i]) <= CoolUntil(log', key).value
    {
      if i < |log| {
        assert !log'[|log|].reply.wiped;
        assert Unbroken(log, i, |log|) by {
          forall x | i < x <= |log| && x < |log| && 0 <= x ensures !log[x].reply.wiped {
            assert log'[x] == log[x];
          }
        }
        assert Sets(log[i], key);
      }
    }
    forall i, k, key | 0 <= i < k < |log'| && Sets(log'[i], key) && Sets(log'[k], key) && Unbroken(log', i, k)
      ensures Until(log'[i]) <= log'[k].event.readAt
    {
      assert Sets(log[i], key);
      assert forall x :: i < x <= k && x < |log| && 0 <= x ==> log'[x] == log[x];
      if k < |log| {
        assert Sets(log[k], key) && Unbroken(log, i, k);
      } else {
        assert Unbroken(log, i, |log|);
      }
    }
  }

  lemma {:induction false} ApartRun(ks: Keys, w: World, evs: seq<Event>)
    requires Disjoint(ks) && Inv(ks, w) && Legal(w, evs) && AllUseKeys(ks, evs)
    requires LatestIsLast(w.log) && Apart(w.log)
    ensures Apart(Run(w, evs).log)
    decreases |evs|
  {
    if evs != [] {
      assert UsesKeys(ks, evs[0]);
      ApartStep(ks, w, evs[0]);
      if evs[0].call.Incr? {
        IncrStep(ks, w, evs[0]);
      } else {
        CooldownStep(ks, w, evs[0]);
      }
      ApartRun(ks, Next(w, evs[0]), evs[1..]);
    }
  }

  /** Two cooldowns set on one key are at least the first one's length apart, unless the file was torn
      in between. */
  lemma CooldownsAreApart(ks: Keys, evs: seq<Event>, i: nat, k: nat, key: string)
    requires Disjoint(ks) && Legal(NEW_WORLD, evs) && AllUseKeys(ks, evs)
    requires var log := Run(NEW_WORLD, evs).log;
             i < k < |log| && Sets(log[i], key) && Sets(log[k], key) && Unbroken(log, i, k)
    ensures var log := Run(NEW_WORLD, evs).log;
            log[i].event.readAt + log[i].event.call.seconds * SECOND <= log[k].event.readAt
  {
    ApartRun(ks, NEW_WORLD, evs);
  }

  /** The proviso is exact: when a cooldown has been set and some other call has run, a second one can be set
      before the first has run out exactly if that other call tore the file. */
  lemma TornWriteForgetsCooldown(w: World, first: Event, other: Event, again: Event, key: string)
    requires Possible(w, first) && first.call.SetCooldown? && first.call.ckey == key && first.call.seconds > 0
    requires Step(w.entries, first).1.ok
    requires Possible(Next(w, first), other)
    requires other.call.Incr? && other.call.window > 0 ==>
               CounterKey(other.call.key, WindowOf(other.readAt, other.call.window)) != key
    requires Possible(Next(Next(w, first), other), again) && again.write.Saved?
    requires again.call.SetCooldown? && again.call.ckey == key && again.call.seconds > 0
    requires again.readAt < first.readAt + first.call.seconds * SECOND
    ensures var s1 := Next(w, first);
            Step(Next(s1, other).entries, again).1.ok <==> Step(s1.entries, other).1.wiped
  {
  }
}
