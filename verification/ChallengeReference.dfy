/** While one store answers every call, the challenges behave like a table of open challenges with a number of
    tries each: what Redis does with four structures and what the file does with one. */
module ChallengeReference {
  import opened Options
  import opened ChallengeProtocol
  import opened ChallengeTheorems

  const QUARTER_HOUR: int := 900_000_000

  /** A challenge that was not taken, closed or locked out, and how many codes were tried with it. */
  datatype Card = Card(ch: Challenge, tries: nat)

  type Table = map<string, Card>

  predicate InTime(card: Card, now: int) { now < card.ch.createdAt + QUARTER_HOUR }

  /** With a limit, the sixth try closes a challenge; and a listing leaves out what expires within this second. */
  function Listed(t: Table, now: int, limited: bool): set<Challenge> {
    set id | id in t && InTime(t[id], now)
             && (limited ==> now / 1_000_000 < (t[id].ch.createdAt + QUARTER_HOUR) / 1_000_000) :: t[id].ch
  }

  function Without(t: Table, user: string, ip: string): Table {
    map id | id in t && !(t[id].ch.user == user && t[id].ch.ip == ip) :: t[id]
  }

  /** One call. At most one challenge of a user and address is open; a code is tried with one in time only; what
      is taken is gone. */
  function Simple(t: Table, op: Op, now: int, limited: bool): (Table, Answer) {
    match op
    case Create(id, code, user, ip) =>
      var ch := Challenge(id, code, user, ip, now, false);
      (Without(t, user, ip)[id := Card(ch, 0)], Created(ch))
    case Consume(id, given) =>
      if id !in t || !InTime(t[id], now) then (t, Refused)
      else if limited && t[id].tries >= 5 then (t - {id}, Refused)
      else if t[id].ch.code == given then (t - {id}, Given(t[id].ch.(consumed := true)))
      else (t[id := Card(t[id].ch, t[id].tries + 1)], Refused)
    case Approve(id) =>
      if id !in t || !InTime(t[id], now) then (t, Refused) else (t - {id}, Given(t[id].ch.(consumed := true)))
    case ListPending => (t, Pending(Listed(t, now, limited)))
  }

  function SimpleAnswers(t: Table, cs: seq<Call>, limited: bool): seq<Answer>
    decreases |cs|
  {
    if cs == [] then []
    else
      var (t', a) := Simple(t, cs[0].op, cs[0].now, limited);
      [a] + SimpleAnswers(t', cs[1..], limited)
  }

  // ----- Pointers name challenges of their own user and address -----

  ghost predicate Fits(r: Redis, used: set<string>, k: (string, string)) {
    k in r.pointers ==>
      var id := r.pointers[k].value;
      id in used && (id in r.challenges ==> (r.challenges[id].value.user, r.challenges[id].value.ip) == k)
  }

  ghost predicate PointersFit(w: World) { forall k :: Fits(w.stores.redis, w.used, k) }

  /** Calls but creates only take things away. */
  lemma OthersTakeAway(r: Redis, c: Call)
    requires !c.op.Create?
    ensures var r' := RedisHalf(r, c).0;
            && (forall k :: k in r'.pointers ==> k in r.pointers && r'.pointers[k] == r.pointers[k])
            && (forall id :: id in r'.challenges ==> id in r.challenges && r'.challenges[id] == r.challenges[id])
  {
  }

  lemma PointersStep(w: World, c: Call)
    requires Inv(w) && PointersFit(w) && Possible(w, c)
    ensures PointersFit(Next(w, c))
  {
    var r, r' := w.stores.redis, Next(w, c).stores.redis;
    assert r' == RedisHalf(r, c).0;
    if !c.op.Create? {
      OthersTakeAway(r, c);
    }
    forall k ensures Fits(r', UsedAfter(w.used, c), k) {
      assert Fits(r, w.used, k);
    }
    assert Next(w, c).used == UsedAfter(w.used, c);
  }

  lemma {:induction false} PointersRun(w: World, cs: seq<Call>)
    requires Inv(w) && PointersFit(w) && Legal(w, cs)
    ensures PointersFit(Run(w, cs))
    decreases |cs|
  {
    if cs != [] {
      PointersStep(w, cs[0]);
      InvStep(w, cs[0]);
      PointersRun(Next(w, cs[0]), cs[1..]);
    }
  }

  // ----- Redis does what the table does -----

  ghost predicate Agree(r: Redis, t: Table, now: int, id: string) {
    && LiveChallenge(r, id, now) == (if id in t && InTime(t[id], now) then Some(t[id].ch) else None)
    && (id in t && InTime(t[id], now) ==> AttemptsNow(r, id, now) == t[id].tries)
  }

  ghost predicate AllAgree(r: Redis, t: Table, now: int) { forall id :: Agree(r, t, now, id) }

  /** The table has just what is live on Redis, with its tries, and the file has nothing. */
  ghost predicate OnRedis(w: World, t: Table, now: int) {
    && w.stores.file == map[]
    && (forall id :: id in t ==> id in w.used && t[id].ch.id == id && !t[id].ch.consumed)
    && AllAgree(w.stores.redis, t, now)
  }

  lemma OnRedisLater(w: World, t: Table, now: int, later: int)
    requires AllLinked(w.stores.redis, now) && OnRedis(w, t, now) && now <= later
    ensures OnRedis(w, t, later)
  {
    forall id ensures Agree(w.stores.redis, t, later, id) {
      assert Linked(w.stores.redis, now, id);
      assert Agree(w.stores.redis, t, now, id);
    }
  }

  lemma DropAgrees(w: World, t: Table, user: string, ip: string, now: int)
    requires AllLinked(w.stores.redis, now) && PointersFit(w) && OnRedis(w, t, now)
    ensures AllAgree(DropPrevious(w.stores.redis, user, ip, now, Fine), Without(t, user, ip), now)
  {
    var r, r', t' := w.stores.redis, DropPrevious(w.stores.redis, user, ip, now, Fine), Without(t, user, ip);
    assert Fits(r, w.used, (user, ip));
    forall id ensures Agree(r', t', now, id) {
      assert Linked(r, now, id) && Agree(r, t, now, id);
    }
  }

  lemma PutAgrees(r: Redis, t: Table, ch: Challenge, now: int)
    requires ch.createdAt == now && !ch.consumed && ch.id !in r.attempts
    requires AllAgree(r, t, now)
    ensures AllAgree(PutChallenge(r, ch, now), t[ch.id := Card(ch, 0)], now)
  {
    var r', t' := PutChallenge(r, ch, now), t[ch.id := Card(ch, 0)];
    forall id ensures Agree(r', t', now, id) {
      assert Agree(r, t, now, id);
    }
  }

  lemma CreateOnRedis(w: World, t: Table, c: Call)
    requires Inv(w) && PointersFit(w) && Possible(w, c) && OnRedis(w, t, c.now)
    requires c.op.Create? && c.fault == Fine
    ensures var (t', a) := Simple(t, c.op, c.now, true);
            Perform(w.stores, c, true).1 == a && OnRedis(Next(w, c), t', c.now)
  {
    var r, ch := w.stores.redis, NewChallenge(c.op, c.now);
    LinkedLater(r, w.clock, c.now);
    DropAgrees(w, t, c.op.user, c.op.ip, c.now);
    PutAgrees(DropPrevious(r, c.op.user, c.op.ip, c.now, Fine), Without(t, c.op.user, c.op.ip), ch, c.now);
  }

  /** Two states of Redis that differ in one challenge only. */
  predicate SameBut(r: Redis, r': Redis, id: string) {
    && r.challenges - {id} == r'.challenges - {id}
    && r.attempts - {id} == r'.attempts - {id}
  }

  lemma OthersAgree(r: Redis, r': Redis, t: Table, t': Table, now: int, id: string)
    requires SameBut(r, r', id) && t - {id} == t' - {id} && AllAgree(r, t, now)
    ensures forall x :: x != id ==> Agree(r', t', now, x)
  {
    forall x | x != id ensures Agree(r', t', now, x) {
      assert Agree(r, t, now, x);
      assert x in r.challenges <==> x in r.challenges - {id};
      assert x in r'.challenges <==> x in r'.challenges - {id};
      assert x in r.attempts <==> x in r.attempts - {id};
      assert x in r'.attempts <==> x in r'.attempts - {id};
      assert x in t <==> x in t - {id};
      assert x in t' <==> x in t' - {id};
    }
  }

  lemma ConsumeTouchesOne(r: Redis, id: string, given: string, now: int)
    requires LiveChallenge(r, id, now).Some? ==> LiveChallenge(r, id, now).value.id == id
    ensures SameBut(r, RedisConsume(r, id, given, now, Fine).0, id)
    ensures SameBut(r, RedisApprove(r, id, now, Fine).0, id)
  {
  }

  lemma ConsumeOnRedis(w: World, t: Table, c: Call)
    requires Inv(w) && Possible(w, c) && OnRedis(w, t, c.now)
    requires c.op.Consume? && c.fault == Fine
    ensures var (t', a) := Simple(t, c.op, c.now, true);
            Perform(w.stores, c, true).1 == a && OnRedis(Next(w, c), t', c.now)
  {
    var r, id, w', t' := w.stores.redis, c.op.cid, Next(w, c), Simple(t, c.op, c.now, true).0;
    LinkedLater(r, w.clock, c.now);
    assert Linked(r, c.now, id) && Agree(r, t, c.now, id);
    ConsumeTouchesOne(r, id, c.op.given, c.now);
    OthersAgree(r, w'.stores.redis, t, t', c.now, id);
    assert Agree(w'.stores.redis, t', c.now, id);
  }

  lemma ApproveOnRedis(w: World, t: Table, c: Call)
    requires Inv(w) && Possible(w, c) && OnRedis(w, t, c.now)
    requires c.op.Approve? && c.fault == Fine
    ensures var (t', a) := Simple(t, c.op, c.now, true);
            Perform(w.stores, c, true).1 == a && OnRedis(Next(w, c), t', c.now)
  {
    var r, id, w', t' := w.stores.redis, c.op.aid, Next(w, c), Simple(t, c.op, c.now, true).0;
    assert Agree(r, t, c.now, id);
    ConsumeTouchesOne(r, id, "", c.now);
    OthersAgree(r, w'.stores.redis, t, t', c.now, id);
    assert Agree(w'.stores.redis, t', c.now, id);
  }

  lemma ListOnRedis(w: World, t: Table, c: Call)
    requires Inv(w) && Possible(w, c) && OnRedis(w, t, c.now)
    requires c.op.ListPending? && c.fault == Fine
    ensures var (t', a) := Simple(t, c.op, c.now, true);
            Perform(w.stores, c, true).1 == a && OnRedis(Next(w, c), t', c.now)
  {
    var r, w' := w.stores.redis, Next(w, c);
    LinkedLater(r, w.clock, c.now);
    var all := Perform(w.stores, c, true).1.all;
    forall x ensures Agree(w'.stores.redis, t, c.now, x) {
      assert Agree(r, t, c.now, x);
    }
    forall id
      ensures id in PendingIds(r, c.now) <==> id in t && InTime(t[id], c.now) && t[id].ch in Listed(t, c.now, true)
    {
      assert Linked(r, c.now, id);
      assert Agree(r, t, c.now, id);
    }
    forall ch ensures ch in all <==> ch in Listed(t, c.now, true) {
      if ch in all {
        var id :| id in PendingIds(r, c.now) && LiveChallenge(r, id, c.now).value == ch;
        assert Agree(r, t, c.now, id);
      }
      if ch in Listed(t, c.now, true) {
        assert Agree(r, t, c.now, ch.id);
        assert ch.id in PendingIds(r, c.now);
      }
    }
  }

  function AnswersOf(w: World, cs: seq<Call>): seq<Answer>
    decreases |cs|
  {
    if cs == [] then [] else [Perform(w.stores, cs[0], true).1] + AnswersOf(Next(w, cs[0]), cs[1..])
  }

  ghost predicate AllFine(cs: seq<Call>) { forall i :: 0 <= i < |cs| ==> cs[i].fault == Fine }

  lemma StepOnRedis(w: World, t: Table, c: Call)
    requires Inv(w) && PointersFit(w) && Possible(w, c) && OnRedis(w, t, w.clock) && c.fault == Fine
    ensures var (t', a) := Simple(t, c.op, c.now, true);
            Perform(w.stores, c, true).1 == a && OnRedis(Next(w, c), t', c.now)
  {
    OnRedisLater(w, t, w.clock, c.now);
    match c.op
    case Create(_, _, _, _) => CreateOnRedis(w, t, c);
    case Consume(_, _) => ConsumeOnRedis(w, t, c);
    case Approve(_) => ApproveOnRedis(w, t, c);
    case ListPending => ListOnRedis(w, t, c);
  }

  lemma {:induction false} RunOnRedis(w: World, t: Table, cs: seq<Call>)
    requires Inv(w) && PointersFit(w) && Legal(w, cs) && OnRedis(w, t, w.clock) && AllFine(cs)
    ensures AnswersOf(w, cs) == SimpleAnswers(t, cs, true)
    decreases |cs|
  {
    if cs != [] {
      StepOnRedis(w, t, cs[0]);
      PointersStep(w, cs[0]);
      InvStep(w, cs[0]);
      RunOnRedis(Next(w, cs[0]), Simple(t, cs[0].op, cs[0].now, true).0, cs[1..]);
    }
  }

  /** While Redis answers, every call of every run is answered as by the simple table with five tries. */
  lemma RedisIsSimple(cs: seq<Call>)
    requires Legal(NEW_WORLD, cs) && AllFine(cs)
    ensures AnswersOf(NEW_WORLD, cs) == SimpleAnswers(map[], cs, true)
  {
    InvNew();
    RunOnRedis(NEW_WORLD, map[], cs);
  }

  /** The index lives a minute longer than the challenge just put into it, and its score is the second in which that
      challenge ends. */
  lemma IndexOutlives(r: Redis, ch: Challenge, now: int)
    ensures var r' := PutChallenge(r, ch, now);
            && r'.index.expireAt == Some(now + 960_000_000)
            && ch.id in r'.index.value && r'.index.value[ch.id] == (now + 900_000_000) / 1_000_000
  {
  }

  // ----- And so does the file, without a limit -----

  /** Saving the file drops just what has been closed or out of time and was made more than a day ago. */
  lemma SavedExactly(f: File, now: int, id: string)
    ensures var kept := Saved(f, now, true);
            && (id in kept <==> id in f && ((!f[id].consumed && now < f[id].createdAt + QUARTER_HOUR)
                                            || now - 86_400_000_000 <= f[id].createdAt))
            && (id in kept ==> kept[id] == f[id])
  {
  }

  ghost predicate AgreeInFile(f: File, t: Table, now: int, id: string) {
    (if id in f && IsOpen(f[id], now) then Some(f[id]) else None)
      == (if id in t && InTime(t[id], now) then Some(t[id].ch) else None)
  }

  /** The table has just what is open in the file. */
  ghost predicate OnFile(f: File, t: Table, now: int) {
    && (forall id :: id in t ==> !t[id].ch.consumed)
    && forall id :: AgreeInFile(f, t, now, id)
  }

  lemma OnFileLater(f: File, t: Table, now: int, later: int)
    requires OnFile(f, t, now) && now <= later
    ensures OnFile(f, t, later)
  {
    forall id ensures AgreeInFile(f, t, later, id) {
      assert AgreeInFile(f, t, now, id);
    }
  }

  lemma StepOnFile(f: File, t: Table, c: Call)
    requires OnFile(f, t, c.now) && c.disk == GOOD_DISK
    ensures var (f', a) := FileHalf(f, c, true);
            var (t', b) := Simple(t, c.op, c.now, false);
            a == b && OnFile(f', t', c.now)
  {
    var f', t' := FileHalf(f, c, true).0, Simple(t, c.op, c.now, false).0;
    forall id ensures AgreeInFile(f', t', c.now, id) {
      assert AgreeInFile(f, t, c.now, id);
    }
    match c.op
    case Consume(id, _) => assert AgreeInFile(f, t, c.now, id);
    case Approve(id) => assert AgreeInFile(f, t, c.now, id);
    case ListPending => ListInFile(f, t, c.now);
    case _ =>
  }

  lemma ListInFile(f: File, t: Table, now: int)
    requires OnFile(f, t, now)
    ensures FileList(f, now).all == Listed(t, now, false)
  {
    forall ch ensures ch in FileList(f, now).all <==> ch in Listed(t, now, false) {
      if ch in FileList(f, now).all {
        var id :| id in f && IsOpen(f[id], now) && f[id] == ch;
        assert AgreeInFile(f, t, now, id);
      }
      if ch in Listed(t, now, false) {
        var id :| id in t && InTime(t[id], now) && t[id].ch == ch;
        assert AgreeInFile(f, t, now, id);
      }
    }
  }

  /** No client, and a file that can be read and written. */
  ghost predicate AllOnFile(cs: seq<Call>) {
    forall i :: 0 <= i < |cs| ==> cs[i].fault == NoClient && cs[i].disk == GOOD_DISK
  }

  lemma {:induction false} RunOnFile(w: World, t: Table, cs: seq<Call>)
    requires Legal(w, cs) && OnFile(w.stores.file, t, w.clock) && AllOnFile(cs)
    ensures AnswersOf(w, cs) == SimpleAnswers(t, cs, false)
    decreases |cs|
  {
    if cs != [] {
      OnFileLater(w.stores.file, t, w.clock, cs[0].now);
      StepOnFile(w.stores.file, t, cs[0]);
      RunOnFile(Next(w, cs[0]), Simple(t, cs[0].op, cs[0].now, false).0, cs[1..]);
    }
  }

  /** While Redis is away and the file works, every call is answered as by the table without a limit of tries. */
  lemma FileIsSimple(cs: seq<Call>)
    requires Legal(NEW_WORLD, cs) && AllOnFile(cs)
    ensures AnswersOf(NEW_WORLD, cs) == SimpleAnswers(map[], cs, false)
  {
    RunOnFile(NEW_WORLD, map[], cs);
  }

  // ----- Whatever fails in between: the right code is taken -----

  /** The answers to a live challenge after any run, with n tries counted so far: fewer than five and the right
      code take it, a wrong code leaves it live, the sixth try removes it, and an approval takes it. */
  lemma CodeDecides(cs: seq<Call>, id: string, given: string, now: int, disk: Disk)
    requires Legal(NEW_WORLD, cs) && Run(NEW_WORLD, cs).clock <= now
    requires LiveChallenge(Run(NEW_WORLD, cs).stores.redis, id, now).Some?
    ensures var w := Run(NEW_WORLD, cs);
            var ch, n := LiveChallenge(w.stores.redis, id, now).value, AttemptsNow(w.stores.redis, id, now);
            var try, yes := Call(Consume(id, given), now, Fine, disk), Call(Approve(id), now, Fine, disk);
            var (s1, a) := Perform(w.stores, try, true);
            && ch.id == id && now < ch.createdAt + QUARTER_HOUR
            && (n < 5 && given == ch.code ==> a == Given(ch.(consumed := true)) && id !in s1.redis.challenges)
            && (n < 5 && given != ch.code ==> a == Refused && LiveChallenge(s1.redis, id, now) == Some(ch))
            && (n >= 5 ==> a == Refused && id !in s1.redis.challenges)
            && Perform(w.stores, yes, true).1 == Given(ch.(consumed := true))
            && id !in Perform(w.stores, yes, true).0.redis.challenges
  {
    InvNew();
    InvRun(NEW_WORLD, cs);
    var w := Run(NEW_WORLD, cs);
    LinkedLater(w.stores.redis, w.clock, now);
    assert Linked(w.stores.redis, now, id);
  }

  /** The challenge is on Redis, and no more than n tries are counted. */
  predicate Waits(r: Redis, ch: Challenge, n: nat) {
    && ch.id in r.challenges && r.challenges[ch.id] == Entry(ch, Some(ch.createdAt + QUARTER_HOUR))
    && (ch.id in r.attempts ==> r.attempts[ch.id].value <= n)
  }

  /** A call that does not finish the challenge: no approval, no right code, and no new challenge for its user
      and address. */
  predicate Spares(c: Call, ch: Challenge) {
    match c.op
    case Create(_, _, user, ip) => !(user == ch.user && ip == ch.ip)
    case Consume(id, given) => id == ch.id ==> given != ch.code
    case Approve(id) => id != ch.id
    case ListPending => true
  }

  ghost predicate AllSpare(cs: seq<Call>, ch: Challenge) { forall i :: 0 <= i < |cs| ==> Spares(cs[i], ch) }

  function TriesOf(cs: seq<Call>, id: string): nat {
    if cs == [] then 0 else (if cs[0].op.Consume? && cs[0].op.cid == id then 1 else 0) + TriesOf(cs[1..], id)
  }

  lemma WaitsThroughConsume(r: Redis, ch: Challenge, n: nat, id: string, given: string, now: int, fault: Fault)
    requires Waits(r, ch, n) && (id == ch.id ==> n < 5 && given != ch.code)
    requires id in r.challenges ==> r.challenges[id].value.id == id
    ensures Waits(RedisConsume(r, id, given, now, fault).0, ch, if id == ch.id then n + 1 else n)
  {
  }

  lemma WaitsThroughCreate(r: Redis, used: set<string>, ch: Challenge, n: nat, op: Op, now: int, fault: Fault)
    requires Waits(r, ch, n) && op.Create? && op.id != ch.id && !(op.user == ch.user && op.ip == ch.ip)
    requires Fits(r, used, (op.user, op.ip))
    ensures Waits(RedisCreate(r, op, now, fault).0, ch, n)
  {
  }

  lemma WaitsThroughApprove(r: Redis, ch: Challenge, n: nat, id: string, now: int, fault: Fault)
    requires Waits(r, ch, n) && id != ch.id && (id in r.challenges ==> r.challenges[id].value.id == id)
    ensures Waits(RedisApprove(r, id, now, fault).0, ch, n)
  {
  }

  lemma WaitsStep(w: World, c: Call, ch: Challenge, n: nat)
    requires Known(w) && PointersFit(w) && Possible(w, c) && Waits(w.stores.redis, ch, n) && Spares(c, ch)
    requires c.op.Consume? && c.op.cid == ch.id ==> n < 5
    ensures Waits(RedisHalf(w.stores.redis, c).0, ch, if c.op.Consume? && c.op.cid == ch.id then n + 1 else n)
  {
    var r := w.stores.redis;
    match c.op
    case Create(_, _, user, ip) =>
      assert Fits(r, w.used, (user, ip));
      WaitsThroughCreate(r, w.used, ch, n, c.op, c.now, c.fault);
    case Consume(id, given) => WaitsThroughConsume(r, ch, n, id, given, c.now, c.fault);
    case Approve(id) => WaitsThroughApprove(r, ch, n, id, c.now, c.fault);
    case ListPending =>
  }

  lemma {:induction false} WaitsRun(w: World, cs: seq<Call>, ch: Challenge, n: nat)
    requires Inv(w) && PointersFit(w) && Legal(w, cs) && Waits(w.stores.redis, ch, n)
    requires AllSpare(cs, ch) && n + TriesOf(cs, ch.id) <= 5
    ensures Waits(Run(w, cs).stores.redis, ch, n + TriesOf(cs, ch.id))
    decreases |cs|
  {
    if cs != [] {
      assert Spares(cs[0], ch);
      WaitsStep(w, cs[0], ch, n);
      PointersStep(w, cs[0]);
      InvStep(w, cs[0]);
      WaitsRun(Next(w, cs[0]), cs[1..], ch, n + if cs[0].op.Consume? && cs[0].op.cid == ch.id then 1 else 0);
    }
  }

  lemma MadeWaits(w: World, make: Call)
    requires Known(w) && Possible(w, make) && make.op.Create? && make.fault == Fine
    ensures Waits(Next(w, make).stores.redis, NewChallenge(make.op, make.now), 0)
  {
  }

  lemma WaitingIsTaken(s: Stores, ch: Challenge, now: int, disk: Disk)
    requires Waits(s.redis, ch, 4) && !ch.consumed && now < ch.createdAt + QUARTER_HOUR
    ensures Perform(s, Call(Consume(ch.id, ch.code), now, Fine, disk), true).1 == Given(ch.(consumed := true))
    ensures Perform(s, Call(Approve(ch.id), now, Fine, disk), true).1 == Given(ch.(consumed := true))
  {
    assert LiveChallenge(s.redis, ch.id, now) == Some(ch);
  }

  /** A challenge that Redis took, whatever had happened before: after any other calls, with any faults and up to
      four wrong codes among them, its code is taken for a quarter of an hour. */
  lemma FreshCodeIsTaken(before: seq<Call>, make: Call, cs: seq<Call>, now: int, disk: Disk)
    requires Legal(NEW_WORLD, before) && Possible(Run(NEW_WORLD, before), make)
    requires make.op.Create? && make.fault == Fine
    requires var w1 := Next(Run(NEW_WORLD, before), make);
             var ch := Challenge(make.op.id, make.op.code, make.op.user, make.op.ip, make.now, false);
             Legal(w1, cs) && AllSpare(cs, ch) && TriesOf(cs, ch.id) <= 4
             && Run(w1, cs).clock <= now < make.now + QUARTER_HOUR
    ensures var w2 := Run(Next(Run(NEW_WORLD, before), make), cs);
            var taken := Challenge(make.op.id, make.op.code, make.op.user, make.op.ip, make.now, true);
            && Perform(w2.stores, Call(Consume(make.op.id, make.op.code), now, Fine, disk), true).1 == Given(taken)
            && Perform(w2.stores, Call(Approve(make.op.id), now, Fine, disk), true).1 == Given(taken)
  {
    InvNew();
    InvRun(NEW_WORLD, before);
    PointersRun(NEW_WORLD, before);
    var w := Run(NEW_WORLD, before);
    var ch := NewChallenge(make.op, make.now);
    InvStep(w, make);
    PointersStep(w, make);
    MadeWaits(w, make);
    WaitsRun(Next(w, make), cs, ch, 0);
    WaitingIsTaken(Run(Next(w, make), cs).stores, ch, now, disk);
  }

  // ----- Command by command -----

  /** How many of the commands of a call are carried out, of those that change something. */
  function Carried(fault: Fault): nat {
    match fault
    case Fine | LostReading(_) => 4
    case NoClient => 0
    case Lost(k, carried) => if carried || k == 0 then k else k - 1
  }

  /** And how many of them are answered. */
  function Heard(fault: Fault): nat {
    match fault
    case Fine | LostReading(_) => 4
    case NoClient => 0
    case Lost(k, _) => if k == 0 then 0 else k - 1
  }

  /** A consume counts the try, gives the counter its time if it is new, drops challenge, counter and pointer at
      once, and then the index entry: as many of these as are carried out, the last two only for the right code or
      from the sixth try on, and the pointer only for the right code. */
  lemma ConsumeCommands(r: Redis, id: string, given: string, now: int, fault: Fault)
    requires LiveChallenge(r, id, now).Some? && LiveChallenge(r, id, now).value.id == id
    ensures var ch, n, k := LiveChallenge(r, id, now).value, AttemptsNow(r, id, now) + 1, Carried(fault);
            var r' := RedisConsume(r, id, given, now, fault).0;
            var gone, locked := given == ch.code || n > 5, n > 5;
            && r'.challenges == (if gone && k >= 3 then r.challenges - {id} else r.challenges)
            && r'.pointers == (if gone && !locked && k >= 3 then r.pointers - {(ch.user, ch.ip)} else r.pointers)
            && r'.index == (if gone && k >= 4 then Entry(r.index.value - {id}, r.index.expireAt) else r.index)
  {
  }

  lemma ConsumeCounter(r: Redis, id: string, given: string, now: int, fault: Fault)
    requires LiveChallenge(r, id, now).Some? && LiveChallenge(r, id, now).value.id == id
    ensures var n, k := AttemptsNow(r, id, now) + 1, Carried(fault);
            var r' := RedisConsume(r, id, given, now, fault).0;
            var gone := given == LiveChallenge(r, id, now).value.code || n > 5;
            && (k == 0 ==> r'.attempts == r.attempts)
            && (gone && k >= 3 ==> r'.attempts == r.attempts - {id})
            && (k >= 1 && !(gone && k >= 3) ==> r'.attempts == CountAttempt(r, id, now, k >= 2).attempts)
  {
  }

  /** The counter goes up by one and keeps its time; a new one gets a quarter of an hour, if that command is
      carried out. */
  lemma CounterGoesUp(r: Redis, id: string, now: int, timed: bool)
    ensures var known := id in r.attempts && (r.attempts[id].expireAt.None? || now < r.attempts[id].expireAt.value);
            var n := if known then r.attempts[id].value + 1 else 1;
            CountAttempt(r, id, now, timed).attempts ==
              r.attempts[id := Entry(n, if n == 1 && timed then Some(now + QUARTER_HOUR)
                                        else if known then r.attempts[id].expireAt else None)]
  {
  }

  /** Redis gives the answer if it answers every command: the count, the time of a new counter, and the two that
      remove the challenge. */
  lemma ConsumeAnswers(r: Redis, id: string, given: string, now: int, fault: Fault)
    ensures var live, half := LiveChallenge(r, id, now), RedisConsume(r, id, given, now, fault).1;
            && (live.None? ==> half == ToFile)
            && (live.Some? ==>
                  var ch, n, heard := live.value, AttemptsNow(r, id, now) + 1, Heard(fault);
                  half == if heard < 1 || (n == 1 && heard < 2) then ToFile
                          else if n > 5 then if heard < 4 then ToFile else Done(Refused)
                          else if given != ch.code then Done(Refused)
                          else if heard < 4 then ToFile else Done(Given(ch.(consumed := true))))
  {
  }

  /** An approval drops challenge, counter and pointer at once, and then the index entry. */
  lemma ApproveCommands(r: Redis, id: string, now: int, fault: Fault)
    requires LiveChallenge(r, id, now).Some? && LiveChallenge(r, id, now).value.id == id
    ensures var ch, k := LiveChallenge(r, id, now).value, Carried(fault);
            RedisApprove(r, id, now, fault).0 ==
              Redis(if k >= 1 then r.challenges - {id} else r.challenges,
                    if k >= 1 then r.pointers - {(ch.user, ch.ip)} else r.pointers,
                    if k >= 2 then Entry(r.index.value - {id}, r.index.expireAt) else r.index,
                    if k >= 1 then r.attempts - {id} else r.attempts)
    ensures RedisApprove(r, id, now, fault).1 ==
              if Heard(fault) < 2 then ToFile else Done(Given(LiveChallenge(r, id, now).value.(consumed := true)))
  {
  }

  /** A create drops what the pointer of the user and address names, its challenge and counter at once and then its
      index entry, and sets the new challenge, pointer and index together. */
  lemma CreateCommands(r: Redis, op: Op, now: int, fault: Fault)
    requires op.Create?
    ensures var k, r' := Carried(fault), RedisCreate(r, op, now, fault).0;
            var before := Get(r.pointers, (op.user, op.ip), now);
            var drop := if before.Some? && k >= 1 then {before.value} else {};
            var indexed := if before.Some? && k >= 2 then r.index.value - {before.value} else r.index.value;
            var ch := Challenge(op.id, op.code, op.user, op.ip, now, false);
            && r'.attempts == r.attempts - drop
            && r'.challenges == (if k >= 3 then (r.challenges - drop)[op.id := Entry(ch, Some(now + QUARTER_HOUR))]
                                 else r.challenges - drop)
            && r'.pointers == (if k >= 3 then r.pointers[(op.user, op.ip) := Entry(op.id, Some(now + QUARTER_HOUR))]
                               else r.pointers)
            && (k < 3 ==> r'.index == Entry(indexed, r.index.expireAt))
            && RedisCreate(r, op, now, fault).1 == (if Heard(fault) < 3 then ToFile else Done(Created(ch)))
  {
  }

  /** A code is compared exactly if it makes a difference which one is given. */
  lemma ComparesMeans(r: Redis, f: File, id: string, wrong: string, now: int, fault: Fault, disk: Disk)
    requires LiveChallenge(r, id, now).Some? ==> wrong != LiveChallenge(r, id, now).value.code
    requires id in f ==> wrong != f[id].code
    ensures Compares(r, id, now, fault) <==>
              && LiveChallenge(r, id, now).Some?
              && RedisConsume(r, id, LiveChallenge(r, id, now).value.code, now, fault) !=
                 RedisConsume(r, id, wrong, now, fault)
    ensures FileCompares(f, id, now, disk) <==>
              && id in f
              && FileTake(f, id, Some(f[id].code), now, true, disk) != FileTake(f, id, Some(wrong), now, true, disk)
  {
  }
}
