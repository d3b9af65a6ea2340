/** One-time login challenges: four linked Redis structures with their own expiry times, and a file
    used whenever Redis cannot be reached or gives up in the middle of a call. Each call is one step;
    times are microseconds. */
module ChallengeProtocol {
  import opened Options

  const SECOND: int := 1_000_000
  const CHALLENGE_TTL: int := 15 * 60 * SECOND
  const INDEX_TTL: int := CHALLENGE_TTL + 60 * SECOND
  const RETENTION: int := 24 * 60 * 60 * SECOND
  const MAX_ATTEMPTS: nat := 5

  datatype Challenge = Challenge(id: string, code: string, user: string, ip: string, createdAt: int, consumed: bool)

  function Expiry(ch: Challenge): int { ch.createdAt + CHALLENGE_TTL }

  predicate IsOpen(ch: Challenge, now: int) { !ch.consumed && now < Expiry(ch) }

  /** A stored value and the moment its key expires, if it does. */
  datatype Entry<+V> = Entry(value: V, expireAt: Option<int>)

  predicate Alive<V>(e: Entry<V>, now: int) { e.expireAt.None? || now < e.expireAt.value }

  function Get<K, V>(m: map<K, Entry<V>>, k: K, now: int): Option<V> {
    if k in m && Alive(m[k], now) then Some(m[k].value) else None
  }

  datatype Redis = Redis(
    challenges: map<string, Entry<Challenge>>,
    pointers: map<(string, string), Entry<string>>,
    index: Entry<map<string, int>>,
    attempts: map<string, Entry<nat>>)

  function Second(t: int): int { t / SECOND }

  /** Whether a call loses Redis: not at all; before its first command; at the command with this number among
      those that change something, which was carried out or not; or while it reads what the index lists,
      having looked at the ids in `seen`. From there on nothing gets through. */
  datatype Fault = Fine | NoClient | Lost(command: nat, carried: bool) | LostReading(seen: set<string>)

  /** Command k is carried out. */
  predicate Did(fault: Fault, k: nat) {
    match fault
    case Fine => true
    case NoClient => false
    case Lost(command, carried) => k < command || (k == command && carried)
    case LostReading(_) => true
  }

  /** Command k is carried out and answered. */
  predicate Passed(fault: Fault, k: nat) {
    match fault
    case Fine => true
    case NoClient => false
    case Lost(command, _) => k < command
    case LostReading(_) => true
  }

  /** How rewriting the file goes. A refused write leaves it as it was, a torn one leaves something that no
      longer parses and reads as an empty store. Either raises. */
  datatype Write = Written | Denied | Torn

  /** The luck of a call with the file; one that cannot be read is taken for empty. */
  datatype Disk = Disk(readable: bool, write: Write)

  const GOOD_DISK := Disk(true, Written)

  datatype Op =
    | Create(id: string, code: string, user: string, ip: string)
    | Consume(cid: string, given: string)
    | Approve(aid: string)
    | ListPending

  datatype Call = Call(op: Op, now: int, fault: Fault, disk: Disk)

  datatype Answer = Created(ch: Challenge) | Refused | Given(ch: Challenge) | Pending(all: set<Challenge>) | Failed

  /** How the Redis half of a call ended: it answered, or the file half takes over. */
  datatype Half = Done(answer: Answer) | ToFile

  function NewChallenge(op: Op, now: int): Challenge
    requires op.Create?
  {
    Challenge(op.id, op.code, op.user, op.ip, now, false)
  }

  function IndexAt(r: Redis, now: int): map<string, int> {
    if Alive(r.index, now) then r.index.value else map[]
  }

  // ----- The Redis half -----

  /** DELETE of a challenge's key and counter. */
  function DropKeys(r: Redis, id: string): Redis {
    r.(challenges := r.challenges - {id}, attempts := r.attempts - {id})
  }

  /** ZREM of an id. */
  function Unindex(r: Redis, id: string): Redis {
    r.(index := Entry(r.index.value - {id}, r.index.expireAt))
  }

  /** Drops the challenge the user+IP pointer names, if it names one: commands 1 and 2 of a create. */
  function DropPrevious(r: Redis, user: string, ip: string, now: int, fault: Fault): Redis {
    match Get(r.pointers, (user, ip), now)
    case None => r
    case Some(prev) =>
      var r1 := if Did(fault, 1) then DropKeys(r, prev) else r;
      if Did(fault, 2) then Unindex(r1, prev) else r1
  }

  function PutChallenge(r: Redis, ch: Challenge, now: int): Redis {
    Redis(r.challenges[ch.id := Entry(ch, Some(now + CHALLENGE_TTL))],
          r.pointers[(ch.user, ch.ip) := Entry(ch.id, Some(now + CHALLENGE_TTL))],
          Entry(IndexAt(r, now)[ch.id := Second(now + CHALLENGE_TTL)], Some(now + INDEX_TTL)),
          r.attempts)
  }

  /** Command 3 of a create writes key, pointer and index in one transaction. */
  function RedisCreate(r: Redis, op: Op, now: int, fault: Fault): (Redis, Half)
    requires op.Create?
  {
    var ch := NewChallenge(op, now);
    var r1 := DropPrevious(r, op.user, op.ip, now, fault);
    if Did(fault, 3) then (PutChallenge(r1, ch, now), if Passed(fault, 3) then Done(Created(ch)) else ToFile)
    else (r1, ToFile)
  }

  function LiveChallenge(r: Redis, id: string, now: int): Option<Challenge> {
    match Get(r.challenges, id, now)
    case None => None
    case Some(ch) => if IsOpen(ch, now) then Some(ch) else None
  }

  function AttemptsNow(r: Redis, id: string, now: int): nat {
    match Get(r.attempts, id, now)
    case None => 0
    case Some(n) => n
  }

  /** INCR keeps the key's expiry; `timed` says whether the EXPIRE of a first attempt got through. */
  function CountAttempt(r: Redis, id: string, now: int, timed: bool): Redis {
    var n := AttemptsNow(r, id, now) + 1;
    var kept := if Get(r.attempts, id, now).Some? then r.attempts[id].expireAt else None;
    r.(attempts := r.attempts[id := Entry(n, if n == 1 && timed then Some(now + CHALLENGE_TTL) else kept)])
  }

  /** Forgets a challenge in two commands, `first` and the one after it. */
  function Forget(r: Redis, ch: Challenge, withPointer: bool, fault: Fault, first: nat): Redis {
    if !Did(fault, first) then r
    else
      var r1 := DropKeys(r, ch.id);
      var r2 := if withPointer then r1.(pointers := r1.pointers - {(ch.user, ch.ip)}) else r1;
      if Did(fault, first + 1) then Unindex(r2, ch.id) else r2
  }

  function Take(ch: Challenge): Challenge { ch.(consumed := true) }

  /** Commands 1 and 2 of a consume count the attempt and give the counter its time, 3 and 4 forget the
      challenge. */
  function RedisConsume(r: Redis, id: string, given: string, now: int, fault: Fault): (Redis, Half) {
    var live := LiveChallenge(r, id, now);
    if live.None? || !Did(fault, 1) then (r, ToFile)
    else
      var ch := live.value;
      var n := AttemptsNow(r, id, now) + 1;
      var r1 := CountAttempt(r, id, now, Did(fault, 2));
      if !Passed(fault, 1) || (n == 1 && !Passed(fault, 2)) then (r1, ToFile)
      else if n > MAX_ATTEMPTS then
        (Forget(r1, ch, false, fault, 3), if Passed(fault, 4) then Done(Refused) else ToFile)
      else if ch.code != given then (r1, Done(Refused))
      else (Forget(r1, ch, true, fault, 3), if Passed(fault, 4) then Done(Given(Take(ch))) else ToFile)
  }

  /** Whether the Redis half of a consume compares a code with the challenge. */
  predicate Compares(r: Redis, id: string, now: int, fault: Fault) {
    && LiveChallenge(r, id, now).Some?
    && Passed(fault, 1) && (AttemptsNow(r, id, now) == 0 ==> Passed(fault, 2))
    && AttemptsNow(r, id, now) < MAX_ATTEMPTS
  }

  function RedisApprove(r: Redis, id: string, now: int, fault: Fault): (Redis, Half) {
    var live := LiveChallenge(r, id, now);
    if live.None? then (r, ToFile)
    else (Forget(r, live.value, true, fault, 1), if Passed(fault, 2) then Done(Given(Take(live.value))) else ToFile)
  }

  /** `zremrangebyscore -inf now`. */
  function CutIndex(r: Redis, now: int): Redis {
    var ix := IndexAt(r, now);
    r.(index := Entry(map id | id in ix && ix[id] > Second(now) :: ix[id], r.index.expireAt))
  }

  function PendingIds(r: Redis, now: int): set<string> {
    set id | id in CutIndex(r, now).index.value && LiveChallenge(r, id, now).Some?
  }

  /** The ids of the index that the loop gets to look at. */
  function Seen(r: Redis, now: int, fault: Fault): set<string> {
    var ids := CutIndex(r, now).index.value.Keys;
    if fault.LostReading? then ids * fault.seen else ids
  }

  /** Command 1 of a listing trims the index; then the loop takes out of it what is dead. */
  function RedisList(r: Redis, now: int, fault: Fault): (Redis, Half) {
    if !Did(fault, 1) then (r, ToFile)
    else
      var r1 := CutIndex(r, now);
      if !Passed(fault, 1) then (r1, ToFile)
      else
        var ids := PendingIds(r, now);
        var seen := Seen(r, now, fault);
        var kept := map id | id in r1.index.value && (id in ids || id !in seen) :: r1.index.value[id];
        var r2 := r1.(index := Entry(kept, r1.index.expireAt));
        var all := set id | id in ids :: LiveChallenge(r, id, now).value;
        (r2, if fault.LostReading? then ToFile else Done(Pending(all)))
  }

  // ----- The file half -----

  type File = map<string, Challenge>

  /** What `_save_file` drops: settled challenges older than a day. */
  predicate Prunable(ch: Challenge, now: int) {
    (ch.consumed || Expiry(ch) <= now) && ch.createdAt < now - RETENTION
  }

  function Saved(f: File, now: int, prune: bool): File {
    if prune then map id | id in f && !Prunable(f[id], now) :: f[id] else f
  }

  function CloseFor(f: File, user: string, ip: string, now: int): File {
    map id | id in f :: if IsOpen(f[id], now) && f[id].user == user && f[id].ip == ip then Take(f[id]) else f[id]
  }

  function Loaded(f: File, disk: Disk): File { if disk.readable then f else map[] }

  function Rewritten(f: File, wanted: File, disk: Disk): File {
    match disk.write
    case Written => wanted
    case Denied => f
    case Torn => map[]
  }

  function OrFailed(a: Answer, disk: Disk): Answer { if disk.write.Written? then a else Failed }

  function FileCreate(f: File, op: Op, now: int, prune: bool, disk: Disk): (File, Answer)
    requires op.Create?
  {
    var ch := NewChallenge(op, now);
    var wanted := Saved(CloseFor(Loaded(f, disk), op.user, op.ip, now)[op.id := ch], now, prune);
    (Rewritten(f, wanted, disk), OrFailed(Created(ch), disk))
  }

  function FileTake(f: File, id: string, given: Option<string>, now: int, prune: bool, disk: Disk): (File, Answer) {
    var g := Loaded(f, disk);
    if id in g && IsOpen(g[id], now) && (given.None? || g[id].code == given.value) then
      (Rewritten(f, Saved(g[id := Take(g[id])], now, prune), disk), OrFailed(Given(Take(g[id])), disk))
    else (f, Refused)
  }

  /** Whether the file half of a consume compares a code with the challenge. */
  predicate FileCompares(f: File, id: string, now: int, disk: Disk) {
    id in Loaded(f, disk) && IsOpen(f[id], now)
  }

  function FileList(f: File, now: int): Answer {
    Pending(set id | id in f && IsOpen(f[id], now) :: f[id])
  }

  // ----- A whole call -----

  datatype Stores = Stores(redis: Redis, file: File)

  function RedisHalf(r: Redis, c: Call): (Redis, Half) {
    match c.op
    case Create(_, _, _, _) => RedisCreate(r, c.op, c.now, c.fault)
    case Consume(id, given) => RedisConsume(r, id, given, c.now, c.fault)
    case Approve(id) => RedisApprove(r, id, c.now, c.fault)
    case ListPending => RedisList(r, c.now, c.fault)
  }

  function FileHalf(f: File, c: Call, prune: bool): (File, Answer) {
    match c.op
    case Create(_, _, _, _) => FileCreate(f, c.op, c.now, prune, c.disk)
    case Consume(id, given) => FileTake(f, id, Some(given), c.now, prune, c.disk)
    case Approve(id) => FileTake(f, id, None, c.now, prune, c.disk)
    case ListPending => (f, FileList(Loaded(f, c.disk), c.now))
  }

  function Perform(s: Stores, c: Call, prune: bool): (Stores, Answer) {
    var (r, half) := RedisHalf(s.redis, c);
    match half
    case Done(a) => (Stores(r, s.file), a)
    case ToFile => var (f, a) := FileHalf(s.file, c, prune); (Stores(r, f), a)
  }

  // ----- Runs, with the history the properties speak of -----

  /** `used`: ids ever drawn; `held`: ids that Redis ever held; `compared` and `inFile`: codes compared with
      each challenge by the Redis half and by the file half; `given`: how often each id was handed out by
      consume or approve. */
  datatype World = World(stores: Stores, clock: int, used: set<string>, held: set<string>,
                         compared: map<string, nat>, inFile: map<string, nat>, given: map<string, nat>)

  const NO_STORES := Stores(Redis(map[], map[], Entry(map[], None), map[]), map[])

  const NEW_WORLD := World(NO_STORES, 0, {}, {}, map[], map[], map[])

  function At(m: map<string, nat>, id: string): nat { if id in m then m[id] else 0 }

  /** The clock does not run backwards, and a new challenge gets an id never drawn before. */
  predicate Possible(w: World, c: Call) {
    w.clock <= c.now && (c.op.Create? ==> c.op.id !in w.used)
  }

  function Plus(m: map<string, nat>, id: string, more: bool): map<string, nat> {
    if more then m[id := At(m, id) + 1] else m
  }

  /** The file half of the consume compares a code. */
  predicate ComparesInFile(s: Stores, c: Call) {
    c.op.Consume? && RedisHalf(s.redis, c).1.ToFile? && FileCompares(s.file, c.op.cid, c.now, c.disk)
  }

  function Next(w: World, c: Call): World {
    var (stores, a) := Perform(w.stores, c, true);
    World(stores, c.now,
          if c.op.Create? then w.used + {c.op.id} else w.used,
          if c.op.Create? && Did(c.fault, 3) then w.held + {c.op.id} else w.held,
          if c.op.Consume? then Plus(w.compared, c.op.cid, Compares(w.stores.redis, c.op.cid, c.now, c.fault))
          else w.compared,
          if c.op.Consume? then Plus(w.inFile, c.op.cid, ComparesInFile(w.stores, c)) else w.inFile,
          if a.Given? then Plus(w.given, a.ch.id, true) else w.given)
  }

  ghost predicate Legal(w: World, cs: seq<Call>)
    decreases |cs|
  {
    cs != [] ==> Possible(w, cs[0]) && Legal(Next(w, cs[0]), cs[1..])
  }

  ghost function Run(w: World, cs: seq<Call>): World
    requires Legal(w, cs)
    decreases |cs|
  {
    if cs == [] then w else Run(Next(w, cs[0]), cs[1..])
  }
}
