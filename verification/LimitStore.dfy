/** The file-backed fixed-window counters and cooldowns. The file is read and rewritten by every call
    that changes it, and rewriting drops every row that has run out. Times are microseconds. */
module LimitStores {

  const SECOND: int := 1_000_000
  const SLACK: int := 5 * SECOND

  datatype Row = Row(count: int, expiresAt: int)

  type Entries = map<string, Row>

  /** How rewriting the file goes. A refused write leaves it as it was; a torn one leaves something
      that no longer parses, which the next read takes for an empty store. */
  datatype Write = Saved | Denied | Torn

  datatype Call =
    | Incr(key: string, window: int, limit: int)
    | SetCooldown(ckey: string, seconds: int)
    | InCooldown(qkey: string)

  /** A call, the clock it read first, the later clock its save read, and how its write went. */
  datatype Event = Event(call: Call, readAt: nat, saveAt: nat, write: Write)

  /** `ok` and `count` are what the caller sees; `wrote` and `wiped` say what became of the file. */
  datatype Reply = Reply(ok: bool, count: int, wrote: bool, wiped: bool)

  function Digits(n: nat): string {
    if n < 10 then [('0' as int + n) as char] else Digits(n / 10) + [('0' as int + n % 10) as char]
  }

  function CounterKey(key: string, w: nat): string { key + ":" + Digits(w) }

  function WindowOf(now: nat, window: int): nat
    requires window > 0
  {
    now / (window * SECOND)
  }

  function WindowEnd(w: nat, window: int): int { (w + 1) * (window * SECOND) }

  function Pruned(es: Entries, now: int): Entries {
    map k | k in es && now < es[k].expiresAt :: es[k]
  }

  function Written(was: Entries, wanted: Entries, e: Event): Entries {
    match e.write
    case Saved => Pruned(wanted, e.saveAt)
    case Denied => was
    case Torn => map[]
  }

  function CountIn(es: Entries, k: string): int { if k in es then es[k].count else 0 }

  predicate Cooling(es: Entries, k: string, now: int) { k in es && now < es[k].expiresAt }

  function Step(es: Entries, e: Event): (Entries, Reply) {
    match e.call
    case Incr(key, window, limit) =>
      if window <= 0 || limit <= 0 then (es, Reply(true, 0, false, false))
      else
        var w := WindowOf(e.readAt, window);
        var k := CounterKey(key, w);
        var count := CountIn(es, k) + 1;
        (Written(es, es[k := Row(count, WindowEnd(w, window) + SLACK)], e),
         Reply(e.write.Saved? && count <= limit, count, e.write.Saved?, e.write.Torn?))
    case SetCooldown(key, seconds) =>
      if seconds <= 0 then (es, Reply(true, 0, false, false))
      else if Cooling(es, key, e.readAt) then (es, Reply(false, 0, false, false))
      else (Written(es, es[key := Row(1, e.readAt + seconds * SECOND)], e),
            Reply(e.write.Saved?, 0, e.write.Saved?, e.write.Torn?))
    case InCooldown(key) => (es, Reply(Cooling(es, key, e.readAt), 0, false, false))
  }

  class LimitStore {
    var entries: Entries  // what the file holds

    constructor ()
      ensures entries == map[]
    {
      entries := map[];
    }

    /** `_save`: rewrites the file without the rows that have run out. */
    method Save(data: Entries, e: Event) returns (ok: bool)
      modifies this
      ensures entries == Written(old(entries), data, e) && ok == e.write.Saved?
    {
      var kept: Entries := map[];
      var todo := data.Keys;
      while todo != {}
        invariant todo <= data.Keys
        invariant kept == map k | k in data.Keys - todo && (e.saveAt as int) < data[k].expiresAt :: data[k]
        decreases |todo|
      {
        var k :| k in todo;
        todo := todo - {k};
        if data[k].expiresAt > e.saveAt {
          kept := kept[k := data[k]];
        }
      }
      ok := e.write.Saved?;
      match e.write
      case Saved => entries := kept;
      case Denied =>
      case Torn => entries := map[];
    }

    method Incr(key: string, window: int, limit: int, e: Event) returns (allowed: bool, count: int)
      requires e.call == Call.Incr(key, window, limit)
      modifies this
      ensures entries == Step(old(entries), e).0 && allowed == Step(old(entries), e).1.ok &&
              count == Step(old(entries), e).1.count
    {
      if window <= 0 || limit <= 0 {
        return true, 0;
      }
      var windowId := e.readAt / (window * SECOND);
      var storeKey := CounterKey(key, windowId);
      var row := if storeKey in entries then entries[storeKey] else Row(0, (windowId + 1) * (window * SECOND));
      count := row.count + 1;
      row := Row(count, (windowId + 1) * (window * SECOND) + SLACK);
      var ok := Save(entries[storeKey := row], e);
      allowed := ok && count <= limit;
    }

    method SetCooldown(key: string, seconds: int, e: Event) returns (set_: bool)
      requires e.call == Call.SetCooldown(key, seconds)
      modifies this
      ensures entries == Step(old(entries), e).0 && set_ == Step(old(entries), e).1.ok
    {
      if seconds <= 0 {
        return true;
      }
      if key in entries && entries[key].expiresAt > e.readAt {
        return false;
      }
      set_ := Save(entries[key := Row(1, e.readAt + seconds * SECOND)], e);
    }

    method InCooldown(key: string, now: nat) returns (cooling: bool)
      ensures cooling == Cooling(entries, key, now)
    {
      cooling := key in entries && entries[key].expiresAt > now;
    }
  }
}
