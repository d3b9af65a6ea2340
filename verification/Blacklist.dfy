/** Login attempts, the consecutive-failure throttle and the blacklist whose blocks expire lazily.
    Times are milliseconds. */
module Blacklists {
  import opened Options

  const MINUTE: int := 60_000
  const AUTO_UNLOCK: int := 15 * MINUTE
  const CONSECUTIVE_FAIL_LIMIT: nat := 10
  const WINDOW: nat := 20

  /** A row of the blacklist; `until` is None for a block without an end. */
  datatype Entry = Entry(active: bool, until: Option<int>, failedCount: nat)

  /** A row of the attempts table; `failure` is `event_type == "login_failure"`. */
  datatype Attempt = Attempt(id: nat, ip: string, at: int, failure: bool)

  // ----- The attempts of one address, newest first -----

  predicate NewestFirst(l: seq<Attempt>) {
    forall i, k :: 0 <= i < k < |l| ==> l[k].at <= l[i].at
  }

  predicate Distinct(l: seq<Attempt>) {
    forall i, k :: 0 <= i < k < |l| ==> l[i] != l[k]
  }

  function Rows(attempts: set<Attempt>, ip: string): set<Attempt> {
    set a | a in attempts && a.ip == ip
  }

  /** `l` lists all of `rows` newest first; rows of the same moment come in any order. */
  ghost predicate IsListing(l: seq<Attempt>, rows: set<Attempt>) {
    (set a | a in l) == rows && Distinct(l) && NewestFirst(l)
  }

  function FirstRows(l: seq<Attempt>, n: nat): seq<Attempt> {
    if |l| <= n then l else l[..n]
  }

  /** What `ORDER BY attempted_at DESC LIMIT 20` may return. */
  ghost predicate IsWindow(w: seq<Attempt>, rows: set<Attempt>) {
    exists l :: IsListing(l, rows) && w == FirstRows(l, WINDOW)
  }

  /** Leading failures. */
  function Streak(l: seq<Attempt>): nat {
    if l == [] || !l[0].failure then 0 else 1 + Streak(l[1..])
  }

  // ----- The tables -----

  datatype Tables = Tables(blacklist: map<string, Entry>, attempts: set<Attempt>)

  datatype Event =
    | Request(ip: string, now: int)
    | Fail(attempt: Attempt, window: seq<Attempt>, trusted: bool, now: int)
    | Note(other: Attempt, now: int)
    | ManualBlock(bip: string, until: Option<int>, now: int)
    | Unlock(uip: string, now: int)

  /** The throttle acts on this failure: untrusted, and ten or more failures lead the window. */
  predicate Throttles(e: Event) {
    e.Fail? && !e.trusted && Streak(e.window) >= CONSECUTIVE_FAIL_LIMIT
  }

  ghost predicate Possible(t: Tables, e: Event) {
    e.Fail? ==> IsWindow(e.window, Rows(t.attempts + {e.attempt}, e.attempt.ip))
  }

  predicate Expired(entry: Entry, now: int) { entry.until.Some? && entry.until.value <= now }

  function Unlocked(bl: map<string, Entry>, ip: string): map<string, Entry> {
    if ip in bl then bl[ip := bl[ip].(active := false)] else bl
  }

  function NextTables(t: Tables, e: Event): Tables {
    match e
    case Request(ip, now) =>
      if ip in t.blacklist && t.blacklist[ip].active && Expired(t.blacklist[ip], now)
      then t.(blacklist := Unlocked(t.blacklist, ip)) else t
    case Fail(a, w, _, now) =>
      var t1 := t.(attempts := t.attempts + {a});
      if Throttles(e) then t1.(blacklist := t.blacklist[a.ip := Entry(true, Some(now + AUTO_UNLOCK), Streak(w))])
      else t1
    case Note(a, _) => t.(attempts := t.attempts + {a})
    case ManualBlock(ip, until, _) => t.(blacklist := t.blacklist[ip := Entry(true, until, 0)])
    case Unlock(ip, _) => t.(blacklist := Unlocked(t.blacklist, ip))
  }

  /** Whether a request is let in. */
  predicate Admits(t: Tables, ip: string, now: int) {
    ip !in t.blacklist || !t.blacklist[ip].active || Expired(t.blacklist[ip], now)
  }

  /** The services around the two tables. */
  class AccessTables {
    var blacklist: map<string, Entry>
    var attempts: set<Attempt>

    function View(): Tables
      reads this
    {
      Tables(blacklist, attempts)
    }

    constructor ()
      ensures View() == Tables(map[], {})
    {
      blacklist, attempts := map[], {};
    }

    method UpsertBlock(ip: string, failedCount: nat, until: Option<int>)
      modifies this`blacklist
      ensures blacklist == old(blacklist)[ip := Entry(true, until, failedCount)]
    {
      if ip !in blacklist {
        blacklist := blacklist[ip := Entry(true, until, failedCount)];
      } else {
        blacklist := blacklist[ip := blacklist[ip].(failedCount := failedCount, until := until, active := true)];
      }
    }

    method UnlockEntry(ip: string)
      modifies this`blacklist
      ensures blacklist == Unlocked(old(blacklist), ip)
    {
      if ip in blacklist {
        blacklist := blacklist[ip := blacklist[ip].(active := false)];
      }
    }

    /** `assert_ip_allowed`: an active block that has run out is unlocked on the way. */
    method AssertIpAllowed(ip: string, now: int) returns (allowed: bool)
      modifies this
      ensures allowed == Admits(old(View()), ip, now)
      ensures View() == NextTables(old(View()), Request(ip, now))
    {
      if ip !in blacklist || !blacklist[ip].active {
        return true;
      }
      if blacklist[ip].until.Some? && blacklist[ip].until.value <= now {
        UnlockEntry(ip);
        return true;
      }
      return false;
    }

    /** `record_login_failure`: the row, then the throttle on what the query returns. */
    method RecordLoginFailure(a: Attempt, recent: seq<Attempt>, trusted: bool, now: int)
      modifies this
      ensures View() == NextTables(old(View()), Fail(a, recent, trusted, now))
    {
      attempts := attempts + {a};
      if trusted {
        return;
      }
      var streak := 0;
      while streak < |recent| && recent[streak].failure
        invariant 0 <= streak <= |recent|
        invariant Streak(recent) == streak + Streak(recent[streak..])
      {
        assert recent[streak..][1..] == recent[streak + 1..];
        streak := streak + 1;
      }
      if streak < CONSECUTIVE_FAIL_LIMIT {
        return;
      }
      UpsertBlock(a.ip, streak, Some(now + AUTO_UNLOCK));
    }
  }
}
