/** What every run of challenge calls keeps, whatever command of whichever call loses Redis, and however
    reading and writing the file goes. */
module ChallengeTheorems {
  import opened Options
  import opened ChallengeProtocol

  // ----- The linked Redis structures -----

  /** A challenge key that has not expired agrees with its pointer, its index entry and its counter. */
  ghost predicate Linked(r: Redis, t: int, id: string) {
    id in r.challenges && Alive(r.challenges[id], t) ==>
      var e := r.challenges[id];
      var ch := e.value;
      && ch.id == id && !ch.consumed && ch.createdAt <= t
      && e.expireAt == Some(Expiry(ch))
      && (ch.user, ch.ip) in r.pointers && r.pointers[(ch.user, ch.ip)] == Entry(id, Some(Expiry(ch)))
      && r.index.expireAt.Some? && Expiry(ch) < r.index.expireAt.value
      && (Second(t) < Second(Expiry(ch)) ==> id in r.index.value)
      && (id in r.index.value ==> r.index.value[id] == Second(Expiry(ch)))
      && (id in r.attempts && r.attempts[id].expireAt.Some? ==> Expiry(ch) <= r.attempts[id].expireAt.value)
  }

  ghost predicate AllLinked(r: Redis, t: int) { forall id :: Linked(r, t, id) }

  lemma SecondsGrow(a: int, b: int)
    requires a <= b
    ensures Second(a) <= Second(b)
  {
  }

  lemma LinkedLater(r: Redis, t: int, t': int)
    requires AllLinked(r, t) && t <= t'
    ensures AllLinked(r, t')
  {
    forall id ensures Linked(r, t', id) {
      assert Linked(r, t, id);
      SecondsGrow(t, t');
    }
  }

  lemma DropPreviousLinked(r: Redis, user: string, ip: string, t: int, fault: Fault)
    requires AllLinked(r, t)
    ensures AllLinked(DropPrevious(r, user, ip, t, fault), t)
  {
    var r1 := DropPrevious(r, user, ip, t, fault);
    forall id ensures Linked(r1, t, id) {
      assert Linked(r, t, id);
    }
  }

  /** After the drop nobody live holds the pointer that is about to be overwritten. */
  lemma DropPreviousFrees(r: Redis, user: string, ip: string, t: int, fault: Fault)
    requires AllLinked(r, t) && Did(fault, 1)
    ensures var r1 := DropPrevious(r, user, ip, t, fault);
            forall id :: id in r1.challenges && Alive(r1.challenges[id], t) ==>
              (r1.challenges[id].value.user, r1.challenges[id].value.ip) != (user, ip)
  {
    var r1 := DropPrevious(r, user, ip, t, fault);
    forall id | id in r1.challenges && Alive(r1.challenges[id], t)
      ensures (r1.challenges[id].value.user, r1.challenges[id].value.ip) != (user, ip)
    {
      assert Linked(r, t, id);
    }
  }

  lemma PutLinked(r: Redis, ch: Challenge, t: int)
    requires AllLinked(r, t) && ch.createdAt == t && !ch.consumed && ch.id !in r.attempts
    requires forall id :: id in r.challenges && Alive(r.challenges[id], t) ==>
               (r.challenges[id].value.user, r.challenges[id].value.ip) != (ch.user, ch.ip)
    ensures AllLinked(PutChallenge(r, ch, t), t)
  {
    var r2 := PutChallenge(r, ch, t);
    forall id ensures Linked(r2, t, id) {
      assert Linked(r, t, id);
    }
  }

  lemma CountLinked(r: Redis, id: string, t: int, timed: bool)
    requires AllLinked(r, t)
    ensures AllLinked(CountAttempt(r, id, t, timed), t)
  {
    var r1 := CountAttempt(r, id, t, timed);
    forall x ensures Linked(r1, t, x) {
      assert Linked(r, t, x);
    }
  }

  lemma ForgetLinked(r: Redis, ch: Challenge, withPointer: bool, fault: Fault, first: nat, t: int)
    requires AllLinked(r, t) && ch.id in r.challenges && Alive(r.challenges[ch.id], t) &&
             r.challenges[ch.id].value == ch
    ensures AllLinked(Forget(r, ch, withPointer, fault, first), t)
  {
    var r1 := Forget(r, ch, withPointer, fault, first);
    assert Linked(r, t, ch.id);
    forall x ensures Linked(r1, t, x) {
      assert Linked(r, t, x);
    }
  }

  lemma ListLinked(r: Redis, t: int, fault: Fault)
    requires AllLinked(r, t)
    ensures AllLinked(RedisList(r, t, fault).0, t)
  {
    var r1 := RedisList(r, t, fault).0;
    forall x ensures Linked(r1, t, x) {
      assert Linked(r, t, x);
    }
  }

  ghost predicate RedisKnown(r: Redis, used: set<string>) {
    && r.challenges.Keys <= used && r.attempts.Keys <= used
    && forall id :: id in r.challenges ==> r.challenges[id].value.id == id
  }

  ghost predicate FileKnown(f: File, used: set<string>) {
    && f.Keys <= used
    && forall id :: id in f ==> f[id].id == id
  }

  /** Every id found in a store was drawn at some time. */
  ghost predicate Known(w: World) {
    && RedisKnown(w.stores.redis, w.used) && FileKnown(w.stores.file, w.used)
    && w.held <= w.used && w.compared.Keys <= w.used && w.inFile.Keys <= w.used && w.given.Keys <= w.used
  }

  /** In Redis no challenge has been compared with more codes than its counter says, and never with more
      than five. */
  ghost predicate Counted(w: World) {
    && (forall id :: At(w.compared, id) <= MAX_ATTEMPTS)
    && (forall id :: id in w.stores.redis.challenges && Alive(w.stores.redis.challenges[id], w.clock) ==>
          At(w.compared, id) <= if id in w.stores.redis.attempts then w.stores.redis.attempts[id].value else 0)
  }

  /** At most one open challenge per user and IP in the file. */
  ghost predicate FileSingle(f: File, t: int) {
    forall a, b ::
      a in f && b in f && IsOpen(f[a], t) && IsOpen(f[b], t) && f[a].user == f[b].user && f[a].ip == f[b].ip ==> a == b
  }

  ghost predicate Inv(w: World) {
    && AllLinked(w.stores.redis, w.clock)
    && Known(w)
    && Counted(w)
    && FileSingle(w.stores.file, w.clock)
  }

  lemma RedisHalfLinked(w: World, c: Call)
    requires Inv(w) && Possible(w, c)
    ensures AllLinked(RedisHalf(w.stores.redis, c).0, c.now)
  {
    var r := w.stores.redis;
    LinkedLater(r, w.clock, c.now);
    match c.op
    case Create(id, _, user, ip) =>
      DropPreviousLinked(r, user, ip, c.now, c.fault);
      if Did(c.fault, 3) {
        DropPreviousFrees(r, user, ip, c.now, c.fault);
        PutLinked(DropPrevious(r, user, ip, c.now, c.fault), NewChallenge(c.op, c.now), c.now);
      }
    case Consume(id, given) => ConsumeLinked(r, id, given, c.now, c.fault);
    case Approve(id) =>
      var live := LiveChallenge(r, id, c.now);
      if live.Some? {
        ForgetLinked(r, live.value, true, c.fault, 1, c.now);
      }
    case ListPending => ListLinked(r, c.now, c.fault);
  }

  lemma ConsumeLinked(r: Redis, id: string, given: string, t: int, fault: Fault)
    requires AllLinked(r, t)
    ensures AllLinked(RedisConsume(r, id, given, t, fault).0, t)
  {
    var live := LiveChallenge(r, id, t);
    if live.Some? {
      assert Linked(r, t, id);
      var r1 := CountAttempt(r, id, t, Did(fault, 2));
      CountLinked(r, id, t, Did(fault, 2));
      ForgetLinked(r1, live.value, false, fault, 3, t);
      ForgetLinked(r1, live.value, true, fault, 3, t);
    }
  }

  lemma FileHalfSingle(f: File, t: int, c: Call, prune: bool)
    requires FileSingle(f, t) && t <= c.now
    ensures FileSingle(f, c.now)
    ensures FileSingle(FileHalf(f, c, prune).0, c.now)
  {
  }

  function UsedAfter(used: set<string>, c: Call): set<string> {
    if c.op.Create? then used + {c.op.id} else used
  }

  lemma CreateKnown(r: Redis, used: set<string>, op: Op, now: int, fault: Fault)
    requires RedisKnown(r, used) && op.Create?
    ensures RedisKnown(RedisCreate(r, op, now, fault).0, used + {op.id})
  {
  }

  lemma ConsumeKnown(r: Redis, used: set<string>, id: string, given: string, now: int, fault: Fault)
    requires RedisKnown(r, used)
    ensures RedisKnown(RedisConsume(r, id, given, now, fault).0, used)
    ensures var half := RedisConsume(r, id, given, now, fault).1; half.Done? && half.answer.Given? ==>
            half.answer.ch.id in used
  {
  }

  lemma RedisHalfKnown(r: Redis, used: set<string>, c: Call)
    requires RedisKnown(r, used)
    ensures RedisKnown(RedisHalf(r, c).0, UsedAfter(used, c))
    ensures var half := RedisHalf(r, c).1; half.Done? && half.answer.Given? ==> half.answer.ch.id in used
  {
    match c.op
    case Create(_, _, _, _) => CreateKnown(r, used, c.op, c.now, c.fault);
    case Consume(id, given) => ConsumeKnown(r, used, id, given, c.now, c.fault);
    case _ =>
  }

  lemma FileHalfKnown(f: File, used: set<string>, c: Call, prune: bool)
    requires FileKnown(f, used)
    ensures FileKnown(FileHalf(f, c, prune).0, UsedAfter(used, c))
    ensures var a := FileHalf(f, c, prune).1; a.Given? ==> a.ch.id in used
  {
  }

  lemma KnownStep(w: World, c: Call)
    requires Known(w)
    ensures Known(Next(w, c))
  {
    RedisHalfKnown(w.stores.redis, w.used, c);
    FileHalfKnown(w.stores.file, w.used, c, true);
    var w' := Next(w, c);
    assert w'.used == UsedAfter(w.used, c);
    assert w'.stores.redis == RedisHalf(w.stores.redis, c).0;
    assert w'.stores.file == w.stores.file || w'.stores.file == FileHalf(w.stores.file, c, true).0;
    if c.op.Consume? && Compares(w.stores.redis, c.op.cid, c.now, c.fault) {
      assert c.op.cid in w.stores.redis.challenges;
    }
  }

  /** A consume adds no challenge, touches no other counter, and counts before it compares. */
  lemma ConsumeCounts(r: Redis, id: string, given: string, t: int, fault: Fault)
    requires AllLinked(r, t)
    ensures var r' := RedisConsume(r, id, given, t, fault).0;
            && (forall x :: x in r'.challenges ==> x in r.challenges && r'.challenges[x] == r.challenges[x])
            && (forall x :: x != id && x in r.attempts ==> x in r'.attempts && r'.attempts[x] == r.attempts[x])
            && (LiveChallenge(r, id, t).None? ==> r' == r)
            && (id in r'.challenges && Did(fault, 1) && LiveChallenge(r, id, t).Some? ==>
                  id in r'.attempts && r'.attempts[id].value == AttemptsNow(r, id, t) + 1)
            && (!Did(fault, 1) ==> r' == r)
  {
    assert Linked(r, t, id);
  }

  lemma CountedConsume(w: World, c: Call)
    requires Inv(w) && Possible(w, c) && c.op.Consume?
    ensures Counted(Next(w, c))
  {
    var r, id := w.stores.redis, c.op.cid;
    LinkedLater(r, w.clock, c.now);
    assert Linked(r, c.now, id);
    ConsumeCounts(r, id, c.op.given, c.now, c.fault);
    var w' := Next(w, c);
    forall x ensures At(w'.compared, x) <= MAX_ATTEMPTS {
      assert At(w.compared, x) <= MAX_ATTEMPTS;
    }
  }

  lemma CountedOther(w: World, c: Call)
    requires Inv(w) && Possible(w, c) && !c.op.Consume?
    ensures Counted(Next(w, c))
  {
    var w' := Next(w, c);
    assert w'.compared == w.compared;
    if c.op.Create? {
      assert At(w.compared, c.op.id) == 0;
    }
    OtherKeepsAttempts(w.stores.redis, c);
  }

  /** Calls that compare nothing touch no counter of a challenge that stays. */
  lemma OtherKeepsAttempts(r: Redis, c: Call)
    requires !c.op.Consume?
    ensures var r' := RedisHalf(r, c).0;
            forall id :: id in r'.challenges && !(c.op.Create? && id == c.op.id) ==>
              && id in r.challenges && r'.challenges[id] == r.challenges[id]
              && (id in r.attempts ==> id in r'.attempts && r'.attempts[id] == r.attempts[id])
  {
  }

  lemma InvStep(w: World, c: Call)
    requires Inv(w) && Possible(w, c)
    ensures Inv(Next(w, c))
  {
    RedisHalfLinked(w, c);
    FileHalfSingle(w.stores.file, w.clock, c, true);
    KnownStep(w, c);
    if c.op.Consume? {
      CountedConsume(w, c);
    } else {
      CountedOther(w, c);
    }
  }

  lemma {:induction false} InvRun(w: World, cs: seq<Call>)
    requires Inv(w) && Legal(w, cs)
    ensures Inv(Run(w, cs))
    decreases |cs|
  {
    if cs != [] {
      InvStep(w, cs[0]);
      InvRun(Next(w, cs[0]), cs[1..]);
    }
  }

  lemma InvNew()
    ensures Inv(NEW_WORLD)
  {
  }

  // ----- Main results: one live challenge per user and IP, and what is listed -----

  lemma OneLivePerUserAndIp(cs: seq<Call>, a: string, b: string, now: int)
    requires Legal(NEW_WORLD, cs) && Run(NEW_WORLD, cs).clock <= now
    ensures var r := Run(NEW_WORLD, cs).stores.redis;
            var x, y := LiveChallenge(r, a, now), LiveChallenge(r, b, now);
            && (x.Some? ==> Get(r.pointers, (x.value.user, x.value.ip), now) == Some(a))
            && (x.Some? && y.Some? && x.value.user == y.value.user && x.value.ip == y.value.ip ==> a == b)
    ensures var f := Run(NEW_WORLD, cs).stores.file;
            (a in f && b in f && IsOpen(f[a], now) && IsOpen(f[b], now)
              && f[a].user == f[b].user && f[a].ip == f[b].ip) ==> a == b
  {
    InvNew();
    InvRun(NEW_WORLD, cs);
    var w := Run(NEW_WORLD, cs);
    LinkedLater(w.stores.redis, w.clock, now);
    assert Linked(w.stores.redis, now, a);
    assert Linked(w.stores.redis, now, b);
  }

  /** `list_pending` shows exactly the live challenges whose expiry second lies after this second. */
  lemma ListIsExact(cs: seq<Call>, now: int)
    requires Legal(NEW_WORLD, cs) && Run(NEW_WORLD, cs).clock <= now
    ensures var w := Run(NEW_WORLD, cs);
            var r := w.stores.redis;
            var a := Perform(w.stores, Call(ListPending, now, Fine, GOOD_DISK), true).1;
            && a.Pending?
            && forall ch :: ch in a.all <==>
                 LiveChallenge(r, ch.id, now) == Some(ch) && Second(now) < Second(Expiry(ch))
  {
    InvNew();
    InvRun(NEW_WORLD, cs);
    var w := Run(NEW_WORLD, cs);
    var r := w.stores.redis;
    LinkedLater(r, w.clock, now);
    var a := Perform(w.stores, Call(ListPending, now, Fine, GOOD_DISK), true).1;
    forall ch ensures ch in a.all <==> LiveChallenge(r, ch.id, now) == Some(ch) && Second(now) < Second(Expiry(ch)) {
      if ch in a.all {
        var id :| id in PendingIds(r, now) && LiveChallenge(r, id, now).value == ch;
        assert Linked(r, now, id);
        assert ch.id == id;
      }
      if LiveChallenge(r, ch.id, now) == Some(ch) && Second(now) < Second(Expiry(ch)) {
        assert Linked(r, now, ch.id);
        assert ch.id in PendingIds(r, now) && LiveChallenge(r, ch.id, now).value == ch;
        assert ch in a.all;
      }
    }
  }

  // ----- Main results: single use -----

  /** A create of `id` that was carried out but whose reply got lost, so that it lands in both stores. */
  predicate Doubled(c: Call, id: string) {
    c.op.Create? && c.op.id == id && c.fault == Lost(3, true) && c.disk.write.Written?
  }

  ghost predicate NeverDoubled(cs: seq<Call>, id: string) { forall i :: 0 <= i < |cs| ==> !Doubled(cs[i], id) }

  /** The challenge is in one store only, and once handed out it is gone. */
  ghost predicate SingleUse(w: World, id: string) {
    && (id in w.stores.redis.challenges ==> id in w.held)
    && (id in w.held ==> id !in w.stores.file && At(w.inFile, id) == 0)
    && At(w.given, id) <= 1
    && (At(w.given, id) == 1 ==>
          id !in w.stores.redis.challenges && (id in w.stores.file ==> w.stores.file[id].consumed))
  }

  /** What one half of a call may do to the store it works on. */
  lemma RedisHalfTakes(r: Redis, used: set<string>, c: Call)
    requires RedisKnown(r, used)
    ensures var (r', half) := RedisHalf(r, c);
            && r'.challenges.Keys <= r.challenges.Keys + (if c.op.Create? then {c.op.id} else {})
            && (c.op.Create? && !Did(c.fault, 3) ==> r'.challenges.Keys <= r.challenges.Keys)
            && (half.Done? && half.answer.Given? ==>
                  half.answer.ch.id in r.challenges && half.answer.ch.id !in r'.challenges)
  {
  }

  lemma FileHalfTakes(f: File, used: set<string>, c: Call)
    requires FileKnown(f, used)
    ensures var (f', a) := FileHalf(f, c, true);
            && f'.Keys <= f.Keys + (if c.op.Create? && c.disk.write.Written? then {c.op.id} else {})
            && (forall id :: id in f' && id in f && f[id].consumed && !(c.op.Create? && c.op.id == id) ==>
               f'[id].consumed)
            && (a.Given? ==> a.ch.id in f && !f[a.ch.id].consumed && (a.ch.id in f' ==> f'[a.ch.id].consumed))
  {
  }

  /** A challenge goes to one store only, and what one store holds the other half cannot compare. */
  lemma ApartStep(w: World, c: Call, id: string)
    requires Inv(w) && SingleUse(w, id) && Possible(w, c) && !Doubled(c, id)
    ensures var w' := Next(w, c);
            && (id in w'.stores.redis.challenges ==> id in w'.held)
            && (id in w'.held ==> id !in w'.stores.file && At(w'.inFile, id) == 0)
  {
    RedisHalfTakes(w.stores.redis, w.used, c);
    FileHalfTakes(w.stores.file, w.used, c);
    var w' := Next(w, c);
    var (r, half) := RedisHalf(w.stores.redis, c);
    assert w'.stores.redis == r;
    assert half.Done? ==> w'.stores.file == w.stores.file;
    if c.op.Create? && c.op.id == id {
      assert c.op.id !in w.inFile;
      assert half.ToFile? && c.disk.write.Written? ==> !Did(c.fault, 3);
    }
  }

  lemma SingleUseStep(w: World, c: Call, id: string)
    requires Inv(w) && SingleUse(w, id) && Possible(w, c) && !Doubled(c, id)
    ensures SingleUse(Next(w, c), id)
  {
    ApartStep(w, c, id);
    RedisHalfTakes(w.stores.redis, w.used, c);
    FileHalfTakes(w.stores.file, w.used, c);
    var w' := Next(w, c);
    var (r, half) := RedisHalf(w.stores.redis, c);
    assert w'.stores.redis == r;
    assert half.Done? ==> w'.stores.file == w.stores.file;
    assert half.ToFile? ==> w'.stores.file == FileHalf(w.stores.file, c, true).0;
    if c.op.Create? && c.op.id == id {
      assert At(w.given, id) == 0;
    }
  }

  lemma {:induction false} SingleUseRun(w: World, cs: seq<Call>, id: string)
    requires Inv(w) && SingleUse(w, id) && Legal(w, cs) && NeverDoubled(cs, id)
    ensures SingleUse(Run(w, cs), id)
    decreases |cs|
  {
    if cs != [] {
      assert !Doubled(cs[0], id);
      SingleUseStep(w, cs[0], id);
      InvStep(w, cs[0]);
      SingleUseRun(Next(w, cs[0]), cs[1..], id);
    }
  }

  /** Unless its create lost the reply to writes that were carried out, consume and approve together hand a
      challenge out at most once, whatever command of whichever call loses Redis and however the file fares. */
  lemma GivenAtMostOnce(cs: seq<Call>, id: string)
    requires Legal(NEW_WORLD, cs) && NeverDoubled(cs, id)
    ensures At(Run(NEW_WORLD, cs).given, id) <= 1
  {
    InvNew();
    SingleUseRun(NEW_WORLD, cs, id);
  }

  /** And after any create of that kind, approving twice succeeds twice. */
  lemma DoubledIsGivenTwice(w: World, c: Call, id: string)
    requires Possible(w, c) && Doubled(c, id)
    ensures var ask := Call(Approve(id), c.now, Fine, GOOD_DISK);
            var w1 := Next(w, c);
            && Legal(w, [c, ask, ask])
            && Perform(w1.stores, ask, true).1.Given?
            && Perform(Next(w1, ask).stores, ask, true).1.Given?
  {
    var ask := Call(Approve(id), c.now, Fine, GOOD_DISK);
    var w1 := Next(w, c);
    var w2 := Next(w1, ask);
    var ch := NewChallenge(c.op, c.now);
    assert LiveChallenge(w1.stores.redis, id, c.now) == Some(ch);
    assert w1.stores.file[id] == ch;
    assert w2.stores.file == w1.stores.file && id !in w2.stores.redis.challenges;
    assert Legal(w2, [ask]);
    assert [ask, ask][1..] == [ask] && [c, ask, ask][1..] == [ask, ask];
    assert Legal(w1, [ask, ask]);
  }

  // ----- Main results: the five-code limit -----

  /** All comparisons of codes with a challenge, in either half. */
  function Compared(w: World, id: string): nat { At(w.compared, id) + At(w.inFile, id) }

  /** However calls are interleaved, Redis lost and the file broken: unless its own create was doubled, a
      challenge that Redis ever held is compared with at most five codes in its life. */
  lemma AtMostFiveCodes(cs: seq<Call>, id: string)
    requires Legal(NEW_WORLD, cs) && NeverDoubled(cs, id)
    ensures id in Run(NEW_WORLD, cs).held ==> Compared(Run(NEW_WORLD, cs), id) <= 5
  {
    InvNew();
    InvRun(NEW_WORLD, cs);
    SingleUseRun(NEW_WORLD, cs, id);
  }

  /** With or without doubled creates the Redis half compares at most five: its counter never expires
      before the challenge does. */
  lemma AtMostFiveOnRedis(cs: seq<Call>, id: string)
    requires Legal(NEW_WORLD, cs)
    ensures At(Run(NEW_WORLD, cs).compared, id) <= 5
  {
    InvNew();
    InvRun(NEW_WORLD, cs);
  }

  /** After five comparisons one more try is refused and the challenge is gone from both stores, right code
      or not. */
  lemma SixthTryDestroys(cs: seq<Call>, id: string, given: string, now: int, disk: Disk)
    requires Legal(NEW_WORLD, cs) && Run(NEW_WORLD, cs).clock <= now && NeverDoubled(cs, id)
    ensures var w := Run(NEW_WORLD, cs);
            var call := Call(Consume(id, given), now, Fine, disk);
            Compared(w, id) == 5 && LiveChallenge(w.stores.redis, id, now).Some? ==>
              && Perform(w.stores, call, true).1 == Refused
              && id !in Next(w, call).stores.redis.challenges && id !in Next(w, call).stores.file
  {
    InvNew();
    InvRun(NEW_WORLD, cs);
    SingleUseRun(NEW_WORLD, cs, id);
    var w := Run(NEW_WORLD, cs);
    LinkedLater(w.stores.redis, w.clock, now);
    assert Linked(w.stores.redis, now, id);
    if Compared(w, id) == 5 && LiveChallenge(w.stores.redis, id, now).Some? {
      assert id in w.held && At(w.inFile, id) == 0;
      assert AttemptsNow(w.stores.redis, id, now) >= 5;
    }
  }

  // ----- Where there is no limit -----

  /** n tries with one code, one after the other. */
  function Tries(id: string, code: string, now: int, n: nat): seq<Call> {
    if n == 0 then [] else [Call(Consume(id, code), now, Fine, GOOD_DISK)] + Tries(id, code, now, n - 1)
  }

  /** How many more tries with a wrong code Redis answers before it has locked the challenge out. */
  function TriesLeft(r: Redis, id: string, now: int): nat {
    if LiveChallenge(r, id, now).None? then 0
    else if AttemptsNow(r, id, now) < MAX_ATTEMPTS then MAX_ATTEMPTS + 1 - AttemptsNow(r, id, now) else 1
  }

  /** An open challenge in the file that the wrong code does not fit, neither there nor in Redis. */
  ghost predicate OpenInFile(w: World, id: string, wrong: string, now: int) {
    && w.clock <= now && id in w.stores.file && IsOpen(w.stores.file[id], now) && w.stores.file[id].code != wrong
    && (LiveChallenge(w.stores.redis, id, now).Some? ==>
          LiveChallenge(w.stores.redis, id, now).value.id == id &&
              LiveChallenge(w.stores.redis, id, now).value.code != wrong)
  }

  lemma OneWrongTry(w: World, id: string, wrong: string, now: int)
    requires OpenInFile(w, id, wrong, now)
    ensures var c := Call(Consume(id, wrong), now, Fine, GOOD_DISK);
            var w' := Next(w, c);
            && Possible(w, c) && w'.clock == now && OpenInFile(w', id, wrong, now) && w'.stores.file == w.stores.file
            && (TriesLeft(w.stores.redis, id, now) > 0 ==>
                  TriesLeft(w'.stores.redis, id, now) == TriesLeft(w.stores.redis, id, now) - 1 &&
                      At(w'.inFile, id) == At(w.inFile, id))
            && (TriesLeft(w.stores.redis, id, now) == 0 ==>
                  TriesLeft(w'.stores.redis, id, now) == 0 && At(w'.inFile, id) == At(w.inFile, id) + 1)
  {
    var r := w.stores.redis;
    var c := Call(Consume(id, wrong), now, Fine, GOOD_DISK);
    if LiveChallenge(r, id, now).Some? {
      var r1 := CountAttempt(r, id, now, true);
      assert RedisConsume(r, id, wrong, now, Fine).1 == Done(Refused);
      assert LiveChallenge(r1, id, now) == LiveChallenge(r, id, now);
    }
  }

  /** Wrong codes are compared with a challenge in the file for ever: once Redis has locked it out, or if Redis
      never held it, every try counts, nothing changes, and the right code is still taken. */
  lemma {:induction false} FileHasNoLimit(w: World, id: string, wrong: string, now: int, n: nat)
    requires OpenInFile(w, id, wrong, now) && n >= TriesLeft(w.stores.redis, id, now)
    ensures Legal(w, Tries(id, wrong, now, n))
    ensures var w' := Run(w, Tries(id, wrong, now, n));
            && w'.stores.file == w.stores.file
            && At(w'.inFile, id) == At(w.inFile, id) + n - TriesLeft(w.stores.redis, id, now)
            && Perform(w'.stores, Call(Consume(id, w.stores.file[id].code), now, Fine, GOOD_DISK), true).1.Given?
    decreases n
  {
    if n > 0 {
      var c := Call(Consume(id, wrong), now, Fine, GOOD_DISK);
      OneWrongTry(w, id, wrong, now);
      FileHasNoLimit(Next(w, c), id, wrong, now, n - 1);
      assert Tries(id, wrong, now, n)[1..] == Tries(id, wrong, now, n - 1);
    }
  }

  /** And after any doubled create there is no limit: six wrong tries only take the copy in Redis away, any number
      of further tries is compared, and then the right code is still taken. */
  lemma DoubledHasNoLimit(w: World, c: Call, id: string, wrong: string, n: nat)
    requires Inv(w) && Possible(w, c) && Doubled(c, id) && wrong != c.op.code
    ensures var cs := Tries(id, wrong, c.now, 6 + n);
            && Legal(w, [c]) && Legal(Next(w, c), cs)
            && id in Next(w, c).held
            && var w' := Run(Next(w, c), cs);
            && Compared(w', id) >= n
            && Perform(w'.stores, Call(Consume(id, c.op.code), c.now, Fine, GOOD_DISK), true).1.Given?
  {
    var w1 := Next(w, c);
    var ch := NewChallenge(c.op, c.now);
    assert id !in w.stores.redis.attempts;
    assert LiveChallenge(w1.stores.redis, id, c.now) == Some(ch);
    assert AttemptsNow(w1.stores.redis, id, c.now) == 0;
    assert id in w1.stores.file && w1.stores.file[id] == ch;
    FileHasNoLimit(w1, id, wrong, c.now, 6 + n);
  }

  // ----- Main results: pruning the file is invisible -----

  ghost predicate SameOpen(f: File, g: File, t: int) {
    forall id :: (id in f && IsOpen(f[id], t)) == (id in g && IsOpen(g[id], t)) &&
      (id in f && IsOpen(f[id], t) ==> f[id] == g[id])
  }

  lemma SavingKeepsOpen(f: File, g: File, t: int)
    requires SameOpen(f, g, t)
    ensures SameOpen(Saved(f, t, true), Saved(g, t, false), t)
  {
    var f', g' := Saved(f, t, true), Saved(g, t, false);
    assert forall id :: id in f && IsOpen(f[id], t) ==> id in f' && f'[id] == f[id];
  }

  lemma PruningCreate(f: File, g: File, c: Call)
    requires SameOpen(f, g, c.now) && c.op.Create?
    ensures SameOpen(FileHalf(f, c, true).0, FileHalf(g, c, false).0, c.now)
  {
    SameLoaded(f, g, c.disk, c.now);
    var f0, g0 := Loaded(f, c.disk), Loaded(g, c.disk);
    var f1 := CloseFor(f0, c.op.user, c.op.ip, c.now)[c.op.id := NewChallenge(c.op, c.now)];
    var g1 := CloseFor(g0, c.op.user, c.op.ip, c.now)[c.op.id := NewChallenge(c.op, c.now)];
    assert SameOpen(f1, g1, c.now);
    SavingKeepsOpen(f1, g1, c.now);
    SameRewritten(f, g, Saved(f1, c.now, true), Saved(g1, c.now, false), c.disk, c.now);
  }

  lemma SameLoaded(f: File, g: File, disk: Disk, t: int)
    requires SameOpen(f, g, t)
    ensures SameOpen(Loaded(f, disk), Loaded(g, disk), t)
  {
  }

  lemma SameRewritten(f: File, g: File, a: File, b: File, disk: Disk, t: int)
    requires SameOpen(f, g, t) && SameOpen(a, b, t)
    ensures SameOpen(Rewritten(f, a, disk), Rewritten(g, b, disk), t)
  {
  }

  lemma PruningTake(f: File, g: File, id: string, given: Option<string>, now: int, disk: Disk)
    requires SameOpen(f, g, now)
    ensures SameOpen(FileTake(f, id, given, now, true, disk).0, FileTake(g, id, given, now, false, disk).0, now)
    ensures FileTake(f, id, given, now, true, disk).1 == FileTake(g, id, given, now, false, disk).1
  {
    SameLoaded(f, g, disk, now);
    var f0, g0 := Loaded(f, disk), Loaded(g, disk);
    if id in f0 && IsOpen(f0[id], now) {
      var f1, g1 := f0[id := Take(f0[id])], g0[id := Take(g0[id])];
      assert SameOpen(f1, g1, now);
      SavingKeepsOpen(f1, g1, now);
      SameRewritten(f, g, Saved(f1, now, true), Saved(g1, now, false), disk, now);
    }
  }

  lemma PruningList(f: File, g: File, now: int)
    requires SameOpen(f, g, now)
    ensures FileList(f, now) == FileList(g, now)
  {
    assert forall ch :: ch in FileList(f, now).all ==> exists id :: id in f && IsOpen(f[id], now) && f[id] == ch;
    forall ch | ch in FileList(f, now).all ensures ch in FileList(g, now).all {
      var id :| id in f && IsOpen(f[id], now) && f[id] == ch;
      assert id in g && g[id] == ch;
    }
    forall ch | ch in FileList(g, now).all ensures ch in FileList(f, now).all {
      var id :| id in g && IsOpen(g[id], now) && g[id] == ch;
      assert id in f && f[id] == ch;
    }
    assert FileList(f, now).all == FileList(g, now).all;
  }

  lemma PruningHalf(f: File, g: File, t: int, c: Call)
    requires SameOpen(f, g, t) && t <= c.now
    ensures SameOpen(FileHalf(f, c, true).0, FileHalf(g, c, false).0, c.now)
    ensures FileHalf(f, c, true).1 == FileHalf(g, c, false).1
  {
    assert SameOpen(f, g, c.now) by {
      forall id ensures (id in f && IsOpen(f[id], c.now)) == (id in g && IsOpen(g[id], c.now)) &&
                        (id in f && IsOpen(f[id], c.now) ==> f[id] == g[id]) {
        assert (id in f && IsOpen(f[id], t)) == (id in g && IsOpen(g[id], t));
      }
    }
    match c.op
    case Create(_, _, _, _) => PruningCreate(f, g, c);
    case Consume(id, given) => PruningTake(f, g, id, Some(given), c.now, c.disk);
    case Approve(id) => PruningTake(f, g, id, None, c.now, c.disk);
    case ListPending =>
      SameLoaded(f, g, c.disk, c.now);
      PruningList(Loaded(f, c.disk), Loaded(g, c.disk), c.now);
  }

  ghost predicate Ordered(t: int, cs: seq<Call>)
    decreases |cs|
  {
    cs != [] ==> t <= cs[0].now && Ordered(cs[0].now, cs[1..])
  }

  function Answers(s: Stores, cs: seq<Call>, prune: bool): seq<Answer>
    decreases |cs|
  {
    if cs == [] then [] else
      var (s', a) := Perform(s, cs[0], prune);
      [a] + Answers(s', cs[1..], prune)
  }

  lemma {:induction false} PruningRun(s: Stores, u: Stores, t: int, cs: seq<Call>)
    requires s.redis == u.redis && SameOpen(s.file, u.file, t) && Ordered(t, cs)
    ensures Answers(s, cs, true) == Answers(u, cs, false)
    decreases |cs|
  {
    if cs != [] {
      PruningHalf(s.file, u.file, t, cs[0]);
      var s', u' := Perform(s, cs[0], true).0, Perform(u, cs[0], false).0;
      assert SameOpen(s'.file, u'.file, cs[0].now);
      PruningRun(s', u', cs[0].now, cs[1..]);
    }
  }

  /** Dropping settled challenges on save never changes an answer: over any calls in time order the
      pruned store answers as one that keeps everything. */
  lemma PruningIsInvisible(s: Stores, t: int, cs: seq<Call>)
    requires Ordered(t, cs)
    ensures Answers(s, cs, true) == Answers(s, cs, false)
  {
    PruningRun(s, s, t, cs);
  }
}
