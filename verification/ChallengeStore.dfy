/** The challenge store as the service writes it: keys set, counted and deleted one after the other,
    the file dict updated in place. Every method is proved to be one step of `ChallengeProtocol`. */
module ChallengeStores {
  import opened Options
  import opened ChallengeProtocol

  function OpenAmong(f: File, ids: set<string>, now: int): set<Challenge> {
    set id | id in ids && id in f && IsOpen(f[id], now) :: f[id]
  }

  function LiveAmong(r: Redis, ids: set<string>, now: int): set<Challenge> {
    set id | id in ids && LiveChallenge(r, id, now).Some? :: LiveChallenge(r, id, now).value
  }

  lemma OneMoreOpen(f: File, todo: set<string>, id: string, now: int)
    requires id in todo && todo <= f.Keys
    ensures OpenAmong(f, f.Keys - (todo - {id}), now) ==
            OpenAmong(f, f.Keys - todo, now) + (if IsOpen(f[id], now) then {f[id]} else {})
  {
  }

  lemma OneMoreLive(r: Redis, ids: set<string>, todo: set<string>, id: string, now: int)
    requires id in todo && todo <= ids
    ensures LiveAmong(r, ids - (todo - {id}), now) ==
            LiveAmong(r, ids - todo, now) + LiveAmong(r, {id}, now)
  {
    assert ids - (todo - {id}) == (ids - todo) + {id};
  }

  /** The index while it is being read: ids not looked at yet, and live ones. */
  function Unread(r: Redis, scores: map<string, int>, todo: set<string>, now: int): map<string, int> {
    map id | id in scores && (id in todo || LiveChallenge(r, id, now).Some?) :: scores[id]
  }

  lemma ReadOne(r: Redis, scores: map<string, int>, todo: set<string>, id: string, now: int)
    requires id in todo
    ensures Unread(r, scores, todo - {id}, now) ==
            if LiveChallenge(r, id, now).None? then Unread(r, scores, todo, now) - {id}
            else Unread(r, scores, todo, now)
  {
  }

  lemma SameLive(r: Redis, now: int)
    ensures forall id :: LiveChallenge(CutIndex(r, now), id, now) == LiveChallenge(r, id, now)
  {
  }

  /** What the loop over the index leaves and finds is what a listing does. */
  lemma WhatIsRead(r: Redis, now: int, fault: Fault)
    requires Passed(fault, 1)
    ensures var cut := CutIndex(r, now);
            var ids := Seen(r, now, fault);
            && var left := Unread(cut, cut.index.value, cut.index.value.Keys - ids, now);
            && RedisList(r, now, fault).0 == cut.(index := Entry(left, cut.index.expireAt))
            && (!fault.LostReading? ==> RedisList(r, now, fault).1 == Done(Pending(LiveAmong(cut, ids, now))))
  {
    var cut := CutIndex(r, now);
    SameLive(r, now);
    assert RedisList(r, now, fault).0.index.value
           == Unread(cut, cut.index.value, cut.index.value.Keys - Seen(r, now, fault), now);
    if !fault.LostReading? {
      var found := set id | id in PendingIds(r, now) :: LiveChallenge(r, id, now).value;
      forall ch ensures ch in found <==> ch in LiveAmong(cut, cut.index.value.Keys, now) {
        if ch in found {
          var id :| id in PendingIds(r, now) && LiveChallenge(r, id, now).value == ch;
          assert id in cut.index.value.Keys && LiveChallenge(cut, id, now).Some?;
        }
        if ch in LiveAmong(cut, cut.index.value.Keys, now) {
          var id :| id in cut.index.value.Keys && LiveChallenge(cut, id, now).Some? &&
                    LiveChallenge(cut, id, now).value == ch;
          assert id in PendingIds(r, now);
        }
      }
      assert found == LiveAmong(cut, Seen(r, now, fault), now);
    }
  }

  predicate NewestFirst(list: seq<Challenge>) {
    forall i, k :: 0 <= i < k < |list| ==> list[i].createdAt >= list[k].createdAt
  }

  class ChallengeStore {
    var challenges: map<string, Entry<Challenge>>
    var pointers: map<(string, string), Entry<string>>
    var index: Entry<map<string, int>>
    var attempts: map<string, Entry<nat>>
    var file: File

    function View(): Stores
      reads this
    {
      Stores(Redis(challenges, pointers, index, attempts), file)
    }

    constructor ()
      ensures View() == NEW_WORLD.stores
    {
      challenges, pointers, index, attempts, file := map[], map[], Entry(map[], None), map[], map[];
    }

    /** `_load_file`. */
    method LoadFile(disk: Disk) returns (entries: File)
      ensures entries == Loaded(file, disk)
    {
      entries := if disk.readable then file else map[];
    }

    /** `_save_file`: writes back the entries worth keeping, or raises. */
    method SaveFile(entries: File, now: int, disk: Disk) returns (ok: bool)
      modifies this`file
      ensures file == Rewritten(old(file), Saved(entries, now, true), disk) && ok == disk.write.Written?
    {
      var kept: File := map[];
      var todo := entries.Keys;
      while todo != {}
        invariant todo <= entries.Keys
        invariant kept == map id | id in entries.Keys - todo && !Prunable(entries[id], now) :: entries[id]
        decreases |todo|
      {
        var id :| id in todo;
        todo := todo - {id};
        if !(entries[id].consumed && entries[id].createdAt < now - RETENTION)
           && !(Expiry(entries[id]) <= now && entries[id].createdAt < now - RETENTION) {
          kept := kept[id := entries[id]];
        }
      }
      ok := disk.write.Written?;
      if disk.write.Torn? {
        file := map[];
      } else if ok {
        file := kept;
      }
    }

    method ZRem(id: string)
      modifies this`index
      ensures index == Entry(old(index).value - {id}, old(index).expireAt)
    {
      index := Entry(index.value - {id}, index.expireAt);
    }

    method CreateChallenge(id: string, code: string, user: string, ip: string, now: int, fault: Fault, disk: Disk)
      returns (a: Answer)
      modifies this
      ensures (View(), a) == Perform(old(View()), Call(Create(id, code, user, ip), now, fault, disk), true)
    {
      var ch := Challenge(id, code, user, ip, now, false);
      var previous := Get(pointers, (user, ip), now);
      if previous.Some? && Did(fault, 1) {
        challenges := challenges - {previous.value};
        attempts := attempts - {previous.value};
        if Did(fault, 2) {
          ZRem(previous.value);
        }
      }
      if Did(fault, 3) {
        challenges := challenges[id := Entry(ch, Some(now + CHALLENGE_TTL))];
        pointers := pointers[(user, ip) := Entry(id, Some(now + CHALLENGE_TTL))];
        var scores := if Alive(index, now) then index.value else map[];
        index := Entry(scores[id := Second(now + CHALLENGE_TTL)], Some(now + INDEX_TTL));
        if Passed(fault, 3) {
          return Created(ch);
        }
      }
      var loaded := LoadFile(disk);
      var closed := CloseAll(loaded, user, ip, now);
      var ok := SaveFile(closed[id := ch], now, disk);
      a := if ok then Created(ch) else Failed;
    }

    /** The loop that marks the caller's open challenges in the loaded dict as consumed. */
    method CloseAll(loaded: File, user: string, ip: string, now: int) returns (entries: File)
      ensures entries == CloseFor(loaded, user, ip, now)
    {
      entries := loaded;
      var todo := entries.Keys;
      while todo != {}
        invariant todo <= entries.Keys == loaded.Keys
        invariant forall id :: id in loaded ==>
          entries[id] == if id in todo then loaded[id] else CloseFor(loaded, user, ip, now)[id]
        decreases |todo|
      {
        var id :| id in todo;
        todo := todo - {id};
        if !entries[id].consumed && now < Expiry(entries[id]) && entries[id].ip == ip && entries[id].user == user {
          entries := entries[id := entries[id].(consumed := true)];
        }
      }
    }

    /** INCR, and EXPIRE when this was the first attempt. */
    method IncrAttempts(id: string, now: int, timed: bool) returns (n: nat)
      modifies this`attempts
      ensures n == AttemptsNow(old(View()).redis, id, now) + 1
      ensures View().redis == CountAttempt(old(View()).redis, id, now, timed)
    {
      var counter := Get(attempts, id, now);
      if counter.None? {
        n := 1;
        attempts := attempts[id := Entry(1, None)];
      } else {
        n := counter.value + 1;
        attempts := attempts[id := Entry(n, attempts[id].expireAt)];
      }
      if n == 1 && timed {
        attempts := attempts[id := Entry(1, Some(now + CHALLENGE_TTL))];
      }
    }

    method ConsumeChallenge(id: string, given: string, now: int, fault: Fault, disk: Disk) returns (a: Answer)
      modifies this
      ensures (View(), a) == Perform(old(View()), Call(Consume(id, given), now, fault, disk), true)
    {
      var live := LiveChallenge(View().redis, id, now);
      if live.Some? && Did(fault, 1) {
        var ch := live.value;
        var n := IncrAttempts(id, now, Did(fault, 2));
        if Passed(fault, 1) && (n == 1 ==> Passed(fault, 2)) {
          if n <= MAX_ATTEMPTS && ch.code != given {
            return Refused;
          }
          var ok := ForgetChallenge(ch, n <= MAX_ATTEMPTS, fault, 3);
          if ok {
            return if n <= MAX_ATTEMPTS then Given(ch.(consumed := true)) else Refused;
          }
        }
      }
      a := TakeFromFile(id, Some(given), now, disk);
    }

    /** The DELETE and the ZREM with which a challenge leaves Redis. */
    method ForgetChallenge(ch: Challenge, withPointer: bool, fault: Fault, first: nat) returns (ok: bool)
      modifies this`challenges, this`attempts, this`pointers, this`index
      ensures View().redis == Forget(old(View()).redis, ch, withPointer, fault, first) && ok == Passed(fault, first + 1)
    {
      if Did(fault, first) {
        challenges, attempts := challenges - {ch.id}, attempts - {ch.id};
        if withPointer {
          pointers := pointers - {(ch.user, ch.ip)};
        }
        if Did(fault, first + 1) {
          ZRem(ch.id);
        }
      }
      ok := Passed(fault, first + 1);
    }

    method ApproveChallenge(id: string, now: int, fault: Fault, disk: Disk) returns (a: Answer)
      modifies this
      ensures (View(), a) == Perform(old(View()), Call(Approve(id), now, fault, disk), true)
    {
      var live := LiveChallenge(View().redis, id, now);
      if live.Some? {
        var ok := ForgetChallenge(live.value, true, fault, 1);
        if ok {
          return Given(live.value.(consumed := true));
        }
      }
      a := TakeFromFile(id, None, now, disk);
    }

    /** The file half of a consume, or of an approval, which gives no code. */
    method TakeFromFile(id: string, given: Option<string>, now: int, disk: Disk) returns (a: Answer)
      modifies this`file
      ensures (file, a) == FileTake(old(file), id, given, now, true, disk)
    {
      var loaded := LoadFile(disk);
      if id !in loaded || loaded[id].consumed || Expiry(loaded[id]) <= now {
        return Refused;
      }
      if given.Some? && loaded[id].code != given.value {
        return Refused;
      }
      var ch := loaded[id].(consumed := true);
      var ok := SaveFile(loaded[id := ch], now, disk);
      a := if ok then Given(ch) else Failed;
    }

    /** `list_pending`, newest first. */
    method ListPendingChallenges(now: int, fault: Fault, disk: Disk) returns (pending: seq<Challenge>)
      modifies this
      ensures (View(), Pending(set ch | ch in pending))
              == Perform(old(View()), Call(ListPending, now, fault, disk), true)
      ensures NewestFirst(pending)
    {
      ghost var r := View().redis;
      if Did(fault, 1) {
        var scores := if Alive(index, now) then index.value else map[];
        index := Entry(map id | id in scores && scores[id] > Second(now) :: scores[id], index.expireAt);
        assert View().redis == CutIndex(r, now);
        if Passed(fault, 1) {
          ghost var cut := index.value;
          var ids := if fault.LostReading? then index.value.Keys * fault.seen else index.value.Keys;
          pending := ReadIndexed(ids, now);
          SameLive(r, now);
          WhatIsRead(r, now, fault);
          if !fault.LostReading? {
            return;
          }
        }
      }
      var loaded := LoadFile(disk);
      pending := ListFile(loaded, now);
    }

    method ListFile(loaded: File, now: int) returns (pending: seq<Challenge>)
      ensures Pending(set ch | ch in pending) == FileList(loaded, now)
      ensures NewestFirst(pending)
    {
      pending := [];
      var todo := loaded.Keys;
      while todo != {}
        invariant todo <= loaded.Keys
        invariant (set ch | ch in pending) == OpenAmong(loaded, loaded.Keys - todo, now)
        invariant NewestFirst(pending)
        decreases |todo|
      {
        var id :| id in todo;
        OneMoreOpen(loaded, todo, id, now);
        todo := todo - {id};
        ghost var before := pending;
        if IsOpen(loaded[id], now) {
          pending := InsertNewest(pending, loaded[id]);
          assert (set ch | ch in pending) == (set ch | ch in before) + {loaded[id]};
        }
      }
      assert loaded.Keys - todo == loaded.Keys;
    }

    /** The loop over the index, as far as it gets: dead ids leave it, the others are collected. */
    method ReadIndexed(ids: set<string>, now: int) returns (pending: seq<Challenge>)
      requires ids <= index.value.Keys
      modifies this`index
      ensures (set ch | ch in pending) == LiveAmong(old(View()).redis, ids, now)
      ensures index == Entry(Unread(old(View()).redis, old(index).value, old(index).value.Keys - ids, now),
              old(index).expireAt)
      ensures NewestFirst(pending)
    {
      ghost var r := View().redis;
      ghost var scores := index.value;
      ghost var unread := scores.Keys;
      pending := [];
      var todo := ids;
      assert Unread(r, scores, unread, now) == scores;
      while todo != {}
        invariant todo <= ids && todo <= unread && unread - todo == scores.Keys - ids
        invariant index == Entry(Unread(r, scores, unread, now), r.index.expireAt)
        invariant (set ch | ch in pending) == LiveAmong(r, ids - todo, now)
        invariant NewestFirst(pending)
        decreases |todo|
      {
        var id :| id in todo;
        OneMoreLive(r, ids, todo, id, now);
        ReadOne(r, scores, unread, id, now);
        todo, unread := todo - {id}, unread - {id};
        pending := ReadOneIndexed(id, now, pending);
      }
      assert ids - todo == ids && unread == scores.Keys - ids;
    }

    method ReadOneIndexed(id: string, now: int, pending: seq<Challenge>) returns (out: seq<Challenge>)
      requires NewestFirst(pending)
      modifies this`index
      ensures var live := LiveChallenge(old(View()).redis, id, now);
              && index == (if live.Some? then old(index) else Entry(old(index).value - {id}, old(index).expireAt))
              && (set ch | ch in out) == (set ch | ch in pending) + LiveAmong(old(View()).redis, {id}, now)
      ensures NewestFirst(out)
    {
      var live := LiveChallenge(View().redis, id, now);
      if live.None? {
        ZRem(id);
        out := pending;
      } else {
        out := InsertNewest(pending, live.value);
      }
    }

    /** One step of the sort by creation time, newest first. */
    method InsertNewest(sorted: seq<Challenge>, ch: Challenge) returns (out: seq<Challenge>)
      requires NewestFirst(sorted)
      ensures NewestFirst(out)
      ensures multiset(out) == multiset(sorted) + multiset{ch}
      ensures forall x :: x in out <==> x == ch || x in sorted
    {
      var k := 0;
      while k < |sorted| && sorted[k].createdAt >= ch.createdAt
        invariant 0 <= k <= |sorted|
        invariant forall i :: 0 <= i < k ==> sorted[i].createdAt >= ch.createdAt
      {
        k := k + 1;
      }
      out := sorted[..k] + [ch] + sorted[k..];
      assert sorted == sorted[..k] + sorted[k..];
    }
  }
}
