/** Login activity topped up from the SSH journal, and the watermark that keeps cleared entries out.
    Times are microseconds. */
module SshSync {
  import opened Options
  import opened Sets

  const SECOND: int := 1_000_000
  const RECENT: nat := 300
  const SSH_ATTEMPTS := "security.ssh_attempts"

  /** A parsed line of the journal. */
  datatype Line = Line(ip: string, user: string, event: string, at: int)

  /** A row of the attempts table; `ssh` is `source == "ssh"`. */
  datatype Row = Row(id: nat, line: Line, ssh: bool)

  /** What a journal line is recognised by: the second stands for the moment. */
  datatype Key = Key(ip: string, user: string, event: string, second: int)

  function KeyOf(l: Line): Key { Key(l.ip, l.user, l.event, l.at / SECOND) }

  /** The 300 newest rows: nothing left out is newer than a row taken, ties broken anyhow. */
  ghost predicate IsRecent(w: set<Row>, table: set<Row>) {
    && w <= table
    && (if |table| <= RECENT then w == table else |w| == RECENT)
    && forall x, y :: x in table - w && y in w ==> x.line.at <= y.line.at
  }

  function SshKeys(rows: set<Row>): set<Key> {
    set r | r in rows && r.ssh :: KeyOf(r.line)
  }

  /** The lines after the cutoff. */
  function After(journal: seq<Line>, cutoff: Option<int>): seq<Line> {
    if journal == [] then []
    else (if cutoff.None? || cutoff.value < journal[0].at then [journal[0]] else []) + After(journal[1..], cutoff)
  }

  /** The lines a sync stores, given the keys already seen. */
  function Unseen(lines: seq<Line>, seen: set<Key>): seq<Line> {
    if lines == [] then []
    else if KeyOf(lines[0]) in seen then Unseen(lines[1..], seen)
    else [lines[0]] + Unseen(lines[1..], seen + {KeyOf(lines[0])})
  }

  /** Rows for some lines, under new ids. */
  function Stored(lines: seq<Line>, nextId: nat): set<Row> {
    set i | 0 <= i < |lines| :: Row(nextId + i, lines[i], true)
  }

  /** `cutoff` is the stored watermark. */
  datatype State = State(table: set<Row>, nextId: nat, cutoff: Option<int>)

  const EMPTY := State({}, 0, None)

  datatype Event =
    | Sync(journal: seq<Line>, recent: set<Row>)
    | Clear(now: int, written: bool)
    | Record(web: Line)

  function Added(s: State, journal: seq<Line>, recent: set<Row>): seq<Line> {
    Unseen(After(journal, s.cutoff), SshKeys(recent))
  }

  function Next(s: State, e: Event): State {
    match e
    case Sync(journal, recent) =>
      var lines := Added(s, journal, recent);
      s.(table := s.table + Stored(lines, s.nextId), nextId := s.nextId + |lines|)
    case Clear(now, written) =>
      State({}, s.nextId, if written then Some(now) else s.cutoff)
    case Record(line) => s.(table := s.table + {Row(s.nextId, line, false)}, nextId := s.nextId + 1)
  }

  /** The file of cutoffs, one per stream. */
  class LogClearWatermarks {
    var data: map<string, int>

    constructor ()
      ensures data == map[]
    {
      data := map[];
    }

    method Get(key: string) returns (moment: Option<int>)
      ensures moment == if key in data then Some(data[key]) else None
    {
      moment := if key in data then Some(data[key]) else None;
    }

    /** A failed write is swallowed; the caller is told the moment all the same. */
    method Set(key: string, moment: int, written: bool) returns (told: int)
      modifies this
      ensures data == (if written then old(data)[key := moment] else old(data)) && told == moment
    {
      if written {
        data := data[key := moment];
      }
      told := moment;
    }
  }

  class AttemptLog {
    var table: set<Row>
    var nextId: nat
    const watermarks: LogClearWatermarks

    ghost function View(): State
      reads this, watermarks
    {
      State(table, nextId, if SSH_ATTEMPTS in watermarks.data then Some(watermarks.data[SSH_ATTEMPTS]) else None)
    }

    constructor (watermarks: LogClearWatermarks)
      requires watermarks.data == map[]
      ensures View() == EMPTY && this.watermarks == watermarks
    {
      this.watermarks := watermarks;
      table, nextId := {}, 0;
    }

    /** `_sync_ssh_attempts`, given what the journal and the query for recent rows return. */
    method SyncSshAttempts(journal: seq<Line>, recent: set<Row>)
      modifies this
      ensures View() == Next(old(View()), Sync(journal, recent))
    {
      var cutoff := watermarks.Get(SSH_ATTEMPTS);
      var lines := After(journal, cutoff);
      var seen := SshKeys(recent);
      ghost var all := Unseen(lines, seen);
      ghost var before, first := table, nextId;
      ghost var done: seq<Line> := [];
      var i := 0;
      while i < |lines|
        invariant 0 <= i <= |lines|
        invariant done + Unseen(lines[i..], seen) == all
        invariant table == before + Stored(done, first) && nextId == first + |done|
      {
        var line := lines[i];
        UnseenAt(done, lines, i, seen);
        if KeyOf(line) !in seen {
          StoredOneMore(before, done, line, first);
          table := table + {Row(nextId, line, true)};
          nextId := nextId + 1;
          seen := seen + {KeyOf(line)};
          done := done + [line];
        }
        i := i + 1;
      }
      assert done == all;
    }

    method ClearAttempts(now: int, written: bool)
      modifies this, watermarks
      ensures View() == Next(old(View()), Clear(now, written))
    {
      table := {};
      var _ := watermarks.Set(SSH_ATTEMPTS, now, written);
    }

    method RecordAttempt(line: Line)
      modifies this
      ensures View() == Next(old(View()), Record(line))
    {
      table := table + {Row(nextId, line, false)};
      nextId := nextId + 1;
    }
  }

  lemma UnseenAt(done: seq<Line>, lines: seq<Line>, i: nat, seen: set<Key>)
    requires i < |lines|
    ensures var key, all := KeyOf(lines[i]), done + Unseen(lines[i..], seen);
            && (key !in seen ==> all == (done + [lines[i]]) + Unseen(lines[i + 1..], seen + {key}))
            && (key in seen ==> all == done + Unseen(lines[i + 1..], seen))
  {
    assert lines[i..][1..] == lines[i + 1..];
  }

  lemma StoredOneMore(before: set<Row>, lines: seq<Line>, line: Line, nextId: nat)
    ensures before + Stored(lines + [line], nextId)
              == before + Stored(lines, nextId) + {Row(nextId + |lines|, line, true)}
  {
    var more := lines + [line];
    assert forall i :: 0 <= i < |lines| ==> lines[i] == more[i];
    assert more[|lines|] == line;
  }

  ghost function Run(s: State, es: seq<Event>): State
    decreases |es|
  {
    if es == [] then s else Run(Next(s, es[0]), es[1..])
  }

  // ----- Nothing cleared comes back -----

  ghost predicate SshAfter(table: set<Row>, moment: int) { forall r :: r in table && r.ssh ==> moment < r.line.at }

  lemma {:induction false} AfterIsAfter(journal: seq<Line>, cutoff: Option<int>)
    ensures forall l :: l in After(journal, cutoff) <==> l in journal && (cutoff.None? || cutoff.value < l.at)
  {
    if journal != [] {
      AfterIsAfter(journal[1..], cutoff);
    }
  }

  function LineKeys(lines: seq<Line>): set<Key> {
    set l | l in lines :: KeyOf(l)
  }

  lemma {:induction false} UnseenSound(lines: seq<Line>, seen: set<Key>)
    ensures forall l :: l in Unseen(lines, seen) ==> l in lines && KeyOf(l) !in seen
  {
    if lines != [] {
      if KeyOf(lines[0]) in seen {
        UnseenSound(lines[1..], seen);
      } else {
        UnseenSound(lines[1..], seen + {KeyOf(lines[0])});
      }
    }
  }

  lemma {:induction false} UnseenKeys(lines: seq<Line>, seen: set<Key>)
    ensures LineKeys(Unseen(lines, seen)) == LineKeys(lines) - seen
  {
    if lines == [] {
      assert LineKeys([]) == {};
    } else {
      var k := KeyOf(lines[0]);
      LineKeysCons(lines[0], lines[1..]);
      assert [lines[0]] + lines[1..] == lines;
      if k in seen {
        UnseenKeys(lines[1..], seen);
      } else {
        UnseenKeys(lines[1..], seen + {k});
        LineKeysCons(lines[0], Unseen(lines[1..], seen + {k}));
      }
    }
  }

  lemma LineKeysCons(l: Line, lines: seq<Line>)
    ensures LineKeys([l] + lines) == {KeyOf(l)} + LineKeys(lines)
  {
    assert forall x :: x in [l] + lines <==> x == l || x in lines;
  }

  ghost predicate DistinctKeys(lines: seq<Line>) {
    forall i, k :: 0 <= i < k < |lines| ==> KeyOf(lines[i]) != KeyOf(lines[k])
  }

  lemma {:induction false} UnseenDistinct(lines: seq<Line>, seen: set<Key>)
    ensures DistinctKeys(Unseen(lines, seen))
  {
    if lines != [] {
      if KeyOf(lines[0]) in seen {
        UnseenDistinct(lines[1..], seen);
      } else {
        var us := Unseen(lines[1..], seen + {KeyOf(lines[0])});
        UnseenDistinct(lines[1..], seen + {KeyOf(lines[0])});
        UnseenSound(lines[1..], seen + {KeyOf(lines[0])});
        forall k | 0 <= k < |us| ensures KeyOf(us[k]) != KeyOf(lines[0]) {
          assert us[k] in us;
        }
      }
    }
  }

  lemma StoredRows(lines: seq<Line>, nextId: nat)
    ensures forall r :: r in Stored(lines, nextId) ==> r.ssh && r.line in lines
    ensures forall l :: l in lines ==> exists r :: r in Stored(lines, nextId) && r.ssh && r.line == l
  {
    forall r | r in Stored(lines, nextId) ensures r.ssh && r.line in lines {
      var i :| 0 <= i < |lines| && r == Row(nextId + i, lines[i], true);
    }
    forall l | l in lines ensures exists r :: r in Stored(lines, nextId) && r.ssh && r.line == l {
      var i :| 0 <= i < |lines| && lines[i] == l;
      assert Row(nextId + i, lines[i], true) in Stored(lines, nextId);
    }
  }

  /** What a sync adds comes from the journal, after the cutoff. */
  lemma AddedLines(s: State, journal: seq<Line>, recent: set<Row>)
    ensures forall l :: l in Added(s, journal, recent) ==>
              l in journal && (s.cutoff.None? || s.cutoff.value < l.at) && KeyOf(l) !in SshKeys(recent)
  {
    AfterIsAfter(journal, s.cutoff);
    UnseenSound(After(journal, s.cutoff), SshKeys(recent));
  }

  lemma StepStaysAfter(s: State, e: Event, moment: int)
    requires SshAfter(s.table, moment) && s.cutoff.Some? && moment <= s.cutoff.value && !e.Clear?
    ensures SshAfter(Next(s, e).table, moment) && Next(s, e).cutoff == s.cutoff
  {
    if e.Sync? {
      AddedLines(s, e.journal, e.recent);
      StoredRows(Added(s, e.journal, e.recent), s.nextId);
    }
  }

  ghost predicate NoClear(es: seq<Event>) { forall i :: 0 <= i < |es| ==> !es[i].Clear? }

  lemma {:induction false} RunStaysAfter(s: State, es: seq<Event>, moment: int)
    requires SshAfter(s.table, moment) && s.cutoff.Some? && moment <= s.cutoff.value && NoClear(es)
    ensures SshAfter(Run(s, es).table, moment)
    decreases |es|
  {
    if es != [] {
      StepStaysAfter(s, es[0], moment);
      RunStaysAfter(Next(s, es[0]), es[1..], moment);
    }
  }

  /** After a clear whose cutoff was written, and until the next one, every SSH row in the table is later than
      it, whatever was there before: no journal line dated at or before the clear comes back. */
  lemma ClearedStaysCleared(s: State, now: int, es: seq<Event>)
    requires NoClear(es)
    ensures SshAfter(Run(Next(s, Clear(now, true)), es).table, now)
  {
    RunStaysAfter(Next(s, Clear(now, true)), es, now);
  }

  lemma {:induction false} IdsStay(s: State, es: seq<Event>, from: nat)
    requires NoClear(es) && from <= s.nextId && forall r :: r in s.table ==> from <= r.id
    ensures forall r :: r in Run(s, es).table ==> from <= r.id
    decreases |es|
  {
    if es != [] {
      IdsStay(Next(s, es[0]), es[1..], from);
    }
  }

  /** A clear takes every row away, of whatever source: what is in the table later was stored after it. */
  lemma NothingOldStays(s: State, now: int, written: bool, es: seq<Event>)
    requires NoClear(es)
    ensures forall r :: r in Run(Next(s, Clear(now, written)), es).table ==> s.nextId <= r.id
    ensures Next(s, Clear(now, written)).table == {}
  {
    IdsStay(Next(s, Clear(now, written)), es, s.nextId);
  }

  // ----- What a lost cutoff lets back in -----

  /** The journal has no line between the cutoff and a moment. */
  ghost predicate NothingBetween(journal: seq<Line>, cutoff: Option<int>, moment: int) {
    forall l :: l in journal && (cutoff.None? || cutoff.value < l.at) ==> moment < l.at
  }

  ghost predicate WholeSeconds(table: set<Row>) { forall r :: r in table && r.ssh ==> r.line.at % SECOND == 0 }

  /** No clear; queries show rows of the table; and the journal prints whole seconds. */
  ghost predicate Plain(s: State, es: seq<Event>)
    decreases |es|
  {
    es != [] ==>
      && !es[0].Clear?
      && (es[0].Sync? ==> es[0].recent <= s.table && forall l :: l in es[0].journal ==> l.at % SECOND == 0)
      && Plain(Next(s, es[0]), es[1..])
  }

  /** A line between cutoff and moment is stored, or its second is in the table already. */
  lemma SyncLetsIn(s: State, journal: seq<Line>, recent: set<Row>, moment: int)
    requires WholeSeconds(s.table) && recent <= s.table && forall l :: l in journal ==> l.at % SECOND == 0
    ensures var s' := Next(s, Sync(journal, recent));
            && WholeSeconds(s'.table)
            && (SshAfter(s'.table, moment) <==> SshAfter(s.table, moment) && NothingBetween(journal, s.cutoff, moment))
  {
    var lines, added := After(journal, s.cutoff), Added(s, journal, recent);
    var s' := Next(s, Sync(journal, recent));
    AddedLines(s, journal, recent);
    StoredRows(added, s.nextId);
    AfterIsAfter(journal, s.cutoff);
    UnseenKeys(lines, SshKeys(recent));
    if SshAfter(s'.table, moment) {
      forall l | l in journal && (s.cutoff.None? || s.cutoff.value < l.at) ensures moment < l.at {
        assert KeyOf(l) in LineKeys(lines);
        if KeyOf(l) in SshKeys(recent) {
          var r :| r in recent && r.ssh && KeyOf(r.line) == KeyOf(l);
          assert r in s'.table && r.line.at == l.at;
        } else {
          assert KeyOf(l) in LineKeys(added);
          var u :| u in added && KeyOf(u) == KeyOf(l);
          assert u.at == l.at;
        }
      }
    }
  }

  ghost predicate AllNothingBetween(es: seq<Event>, cutoff: Option<int>, moment: int) {
    forall i :: 0 <= i < |es| && es[i].Sync? ==> NothingBetween(es[i].journal, cutoff, moment)
  }

  lemma {:induction false} RunLetsIn(s: State, es: seq<Event>, moment: int)
    requires WholeSeconds(s.table) && Plain(s, es)
    ensures SshAfter(Run(s, es).table, moment) <==> SshAfter(s.table, moment) && AllNothingBetween(es, s.cutoff, moment)
    decreases |es|
  {
    if es != [] {
      if es[0].Sync? {
        SyncLetsIn(s, es[0].journal, es[0].recent, moment);
      }
      RunLetsIn(Next(s, es[0]), es[1..], moment);
      assert es == [es[0]] + es[1..];
    }
  }

  /** A clear stays clear, until the next one, exactly if no journal that is read has a line between the cutoff
      that stands and the clear; so always if the cutoff was written, and if it was lost exactly if no journal
      has a line between the old cutoff and the clear. */
  lemma LostWatermark(s: State, now: int, written: bool, es: seq<Event>)
    requires Plain(Next(s, Clear(now, written)), es)
    ensures SshAfter(Run(Next(s, Clear(now, written)), es).table, now) <==>
              written || AllNothingBetween(es, s.cutoff, now)
  {
    RunLetsIn(Next(s, Clear(now, written)), es, now);
  }

  // ----- Syncing again -----

  /** The query for recent rows shows every stored SSH row that the journal still mentions. */
  ghost predicate Covers(s: State, journal: seq<Line>, recent: set<Row>) {
    forall r :: r in s.table && r.ssh && KeyOf(r.line) in LineKeys(After(journal, s.cutoff)) ==> r in recent
  }

  /** A sync adds nothing exactly when the recent rows show every line after the cutoff. */
  lemma AddsNothing(s: State, journal: seq<Line>, recent: set<Row>)
    ensures Added(s, journal, recent) == [] <==> LineKeys(After(journal, s.cutoff)) <= SshKeys(recent)
  {
    var lines := After(journal, s.cutoff);
    UnseenKeys(lines, SshKeys(recent));
    var us := Unseen(lines, SshKeys(recent));
    if us == [] {
      forall k | k in LineKeys(lines) ensures k in SshKeys(recent) {
        assert k !in LineKeys(us);
      }
    } else {
      assert KeyOf(us[0]) in LineKeys(us);
    }
  }

  /** So the same journal read twice is stored once, if the second query covers it. */
  lemma SecondSyncAddsNothing(s: State, journal: seq<Line>, first: set<Row>, second: set<Row>)
    requires first <= s.table
    requires var s1 := Next(s, Sync(journal, first)); second <= s1.table && Covers(s1, journal, second)
    ensures var s1 := Next(s, Sync(journal, first)); Next(s1, Sync(journal, second)) == s1
  {
    var s1 := Next(s, Sync(journal, first));
    var lines := After(journal, s.cutoff);
    var added := Added(s, journal, first);
    UnseenKeys(lines, SshKeys(first));
    StoredRows(added, s.nextId);
    forall k | k in LineKeys(lines) ensures k in SshKeys(second) {
      if k in SshKeys(first) {
        var r :| r in first && r.ssh && KeyOf(r.line) == k;
        assert r in s1.table && r in second;
      } else {
        assert k in LineKeys(added);
        var l :| l in added && KeyOf(l) == k;
        var r :| r in Stored(added, s.nextId) && r.ssh && r.line == l;
        assert r in s1.table && r in second;
      }
    }
    AddsNothing(s1, journal, second);
    assert Stored([], s1.nextId) == {};
  }

  /** In particular whenever the table is no longer than the query's limit. */
  lemma ShortTableCovers(s: State, journal: seq<Line>, recent: set<Row>)
    requires IsRecent(recent, s.table) && |s.table| <= RECENT
    ensures Covers(s, journal, recent)
  {
  }

  // ----- One row per login -----

  /** At most one SSH row for one address, user, event and second. */
  ghost predicate OnePerKey(table: set<Row>, k: Key) {
    forall a, b :: a in table && b in table && a.ssh && b.ssh && KeyOf(a.line) == k == KeyOf(b.line) ==> a == b
  }

  ghost predicate IdsGrow(s: State) { forall r :: r in s.table ==> r.id < s.nextId }

  /** A sync stores a login that the table has: the journal still mentions it, and the query does not show it. */
  ghost predicate Repeats(s: State, e: Event, k: Key) {
    && e.Sync? && k in SshKeys(s.table)
    && k in LineKeys(After(e.journal, s.cutoff)) && k !in SshKeys(e.recent)
  }

  /** This happens in a run, and no clear comes after it. */
  ghost predicate Repeated(s: State, es: seq<Event>, k: Key)
    decreases |es|
  {
    es != [] && ((Repeats(s, es[0], k) && NoClear(es[1..])) || Repeated(Next(s, es[0]), es[1..], k))
  }

  lemma NewAgainstNew(s: State, journal: seq<Line>, recent: set<Row>, a: Row, b: Row)
    requires a in Stored(Added(s, journal, recent), s.nextId) && b in Stored(Added(s, journal, recent), s.nextId)
    requires KeyOf(a.line) == KeyOf(b.line)
    ensures a == b
  {
    var added := Added(s, journal, recent);
    UnseenDistinct(After(journal, s.cutoff), SshKeys(recent));
    var i :| 0 <= i < |added| && a == Row(s.nextId + i, added[i], true);
    var k :| 0 <= k < |added| && b == Row(s.nextId + k, added[k], true);
    assert DistinctKeys(added);
  }

  /** A sync stores a row for exactly the keys of the journal after the cutoff that the query does not show. */
  lemma StoredKeys(s: State, journal: seq<Line>, recent: set<Row>, k: Key)
    ensures k in SshKeys(Stored(Added(s, journal, recent), s.nextId)) <==>
              k in LineKeys(After(journal, s.cutoff)) && k !in SshKeys(recent)
  {
    var added := Added(s, journal, recent);
    var stored := Stored(added, s.nextId);
    UnseenKeys(After(journal, s.cutoff), SshKeys(recent));
    StoredRows(added, s.nextId);
    if k in LineKeys(added) {
      var l :| l in added && KeyOf(l) == k;
      var r :| r in stored && r.ssh && r.line == l;
    }
    if k in SshKeys(stored) {
      var r :| r in stored && r.ssh && KeyOf(r.line) == k;
      assert r.line in added;
    }
  }

  lemma NoRepeatNoDouble(s: State, journal: seq<Line>, recent: set<Row>, k: Key)
    requires OnePerKey(s.table, k) && !Repeats(s, Sync(journal, recent), k)
    ensures OnePerKey(Next(s, Sync(journal, recent)).table, k)
  {
    var stored := Stored(Added(s, journal, recent), s.nextId);
    var table := Next(s, Sync(journal, recent)).table;
    assert table == s.table + stored;
    StoredKeys(s, journal, recent, k);
    forall a, b | a in table && b in table && a.ssh && b.ssh && KeyOf(a.line) == k == KeyOf(b.line) ensures a == b {
      if a in stored && b in stored {
        NewAgainstNew(s, journal, recent, a, b);
      }
    }
  }

  lemma SyncDoublesExactly(s: State, journal: seq<Line>, recent: set<Row>, k: Key)
    requires IdsGrow(s)
    ensures IdsGrow(Next(s, Sync(journal, recent)))
    ensures OnePerKey(Next(s, Sync(journal, recent)).table, k) <==>
              OnePerKey(s.table, k) && !Repeats(s, Sync(journal, recent), k)
  {
    var stored := Stored(Added(s, journal, recent), s.nextId);
    var table := Next(s, Sync(journal, recent)).table;
    StoredKeys(s, journal, recent, k);
    if Repeats(s, Sync(journal, recent), k) {
      var a :| a in s.table && a.ssh && KeyOf(a.line) == k;
      var b :| b in stored && b.ssh && KeyOf(b.line) == k;
      assert a in table && b in table && a != b;
    } else if OnePerKey(s.table, k) {
      NoRepeatNoDouble(s, journal, recent, k);
    }
  }

  lemma {:induction false} OnePerKeyRun(s: State, es: seq<Event>, k: Key)
    requires IdsGrow(s)
    ensures OnePerKey(Run(s, es).table, k) <==> !Repeated(s, es, k) && (OnePerKey(s.table, k) || !NoClear(es))
    decreases |es|
  {
    if es != [] {
      if es[0].Sync? {
        SyncDoublesExactly(s, es[0].journal, es[0].recent, k);
      }
      OnePerKeyRun(Next(s, es[0]), es[1..], k);
      assert es == [es[0]] + es[1..];
    }
  }

  /** A login has at most one row exactly if, since the last clear, no sync met it in the journal while the
      query did not show its row. */
  lemma OneRowPerLogin(es: seq<Event>, k: Key)
    ensures OnePerKey(Run(EMPTY, es).table, k) <==> !Repeated(EMPTY, es, k)
  {
    OnePerKeyRun(EMPTY, es, k);
  }

  /** In particular no sync repeats anything that covers what the journal mentions. */
  lemma CoveredDoesNotRepeat(s: State, journal: seq<Line>, recent: set<Row>, k: Key)
    requires Covers(s, journal, recent)
    ensures !Repeats(s, Sync(journal, recent), k)
  {
  }

  // ----- What the query for recent rows shows -----

  function Newer(table: set<Row>, r: Row): set<Row> { set x | x in table && r.line.at < x.line.at }

  function NotOlder(table: set<Row>, r: Row): set<Row> { set x | x in table && x != r && r.line.at <= x.line.at }

  lemma Without<T>(a: set<T>, b: set<T>, x: T)
    requires a <= b - {x} && x in b
    ensures |a| < |b|
  {
    Larger(a, b - {x});
  }

  /** A row with fewer than 300 others as new is shown. */
  lemma ShownSurely(table: set<Row>, recent: set<Row>, r: Row)
    requires IsRecent(recent, table) && r in table && |NotOlder(table, r)| < RECENT
    ensures r in recent
  {
    if r !in recent {
      assert recent <= NotOlder(table, r);
      Larger(recent, NotOlder(table, r));
    }
  }

  /** A row with 300 newer ones is not. */
  lemma HiddenSurely(table: set<Row>, recent: set<Row>, r: Row)
    requires IsRecent(recent, table) && r in table && |Newer(table, r)| >= RECENT
    ensures r !in recent
  {
    if r in recent {
      assert Newer(table, r) <= table - {r};
      Without(Newer(table, r), table, r);
      assert Newer(table, r) <= recent - {r};
      Without(Newer(table, r), recent, r);
    }
  }

  lemma OldestRow(table: set<Row>) returns (oldest: Row)
    requires table != {}
    ensures oldest in table && forall x :: x in table ==> oldest.line.at <= x.line.at
    decreases |table|
  {
    var some :| some in table;
    if table == {some} {
      oldest := some;
    } else {
      var least := OldestRow(table - {some});
      oldest := if some.line.at <= least.line.at then some else least;
      forall x | x in table ensures oldest.line.at <= x.line.at {
        assert x == some || x in table - {some};
      }
    }
  }

  /** There always is an answer to the query. */
  lemma SomeRecent(table: set<Row>) returns (recent: set<Row>)
    ensures IsRecent(recent, table)
    decreases |table|
  {
    if |table| <= RECENT {
      recent := table;
    } else {
      var oldest := OldestRow(table);
      recent := SomeRecent(table - {oldest});
    }
  }

  lemma TakeSome<T>(s: set<T>, n: nat) returns (some: set<T>)
    requires n <= |s|
    ensures some <= s && |some| == n
    decreases |s|
  {
    if n == |s| {
      some := s;
    } else {
      var x :| x in s;
      some := TakeSome(s - {x}, n);
    }
  }

  /** A row with 300 others as new may be left out: the query breaks ties as it likes. */
  lemma MayBeHidden(table: set<Row>, r: Row) returns (recent: set<Row>)
    requires r in table && |NotOlder(table, r)| >= RECENT
    ensures IsRecent(recent, table) && r !in recent
  {
    var newer, ties := Newer(table, r), NotOlder(table, r) - Newer(table, r);
    if |newer| >= RECENT {
      recent := SomeRecent(table);
      HiddenSurely(table, recent, r);
    } else {
      assert newer <= NotOlder(table, r);
      assert NotOlder(table, r) == newer + ties;
      assert |NotOlder(table, r)| == |newer| + |ties|;
      var some := TakeSome(ties, RECENT - |newer|);
      recent := newer + some;
      assert newer !! some;
      assert |recent| == |newer| + |some|;
      assert NotOlder(table, r) <= table - {r};
      Without(NotOlder(table, r), table, r);
    }
  }

  /** Every possible answer of the query covers the journal exactly if each stored SSH row that the journal
      still mentions has fewer than 300 others as new. */
  lemma CoversExactly(s: State, journal: seq<Line>)
    ensures (forall recent :: IsRecent(recent, s.table) ==> Covers(s, journal, recent)) <==>
            (forall r :: r in s.table && r.ssh && KeyOf(r.line) in LineKeys(After(journal, s.cutoff)) ==>
               |NotOlder(s.table, r)| < RECENT)
  {
    if forall r :: r in s.table && r.ssh && KeyOf(r.line) in LineKeys(After(journal, s.cutoff)) ==>
        |NotOlder(s.table, r)| < RECENT {
      forall recent | IsRecent(recent, s.table) ensures Covers(s, journal, recent) {
        forall r | r in s.table && r.ssh && KeyOf(r.line) in LineKeys(After(journal, s.cutoff)) ensures r in recent {
          ShownSurely(s.table, recent, r);
        }
      }
    } else {
      var r :| r in s.table && r.ssh && KeyOf(r.line) in LineKeys(After(journal, s.cutoff)) &&
          |NotOlder(s.table, r)| >= RECENT;
      var recent := MayBeHidden(s.table, r);
      assert !Covers(s, journal, recent);
    }
  }

  /** A stored login that 300 newer rows hide from the query is stored a second time. */
  lemma HiddenRowIsDoubled(s: State, r: Row, journal: seq<Line>, recent: set<Row>)
    requires IdsGrow(s) && OnePerKey(s.table, KeyOf(r.line)) && r in s.table && r.ssh
    requires IsRecent(recent, s.table) && |Newer(s.table, r)| >= RECENT
    requires r.line in journal && (s.cutoff.None? || s.cutoff.value < r.line.at)
    ensures !OnePerKey(Next(s, Sync(journal, recent)).table, KeyOf(r.line))
  {
    HiddenSurely(s.table, recent, r);
    AfterIsAfter(journal, s.cutoff);
    assert KeyOf(r.line) in LineKeys(After(journal, s.cutoff));
    SyncDoublesExactly(s, journal, recent, KeyOf(r.line));
  }

  // ----- Reaching such a state -----

  /** A login that is synced, and then n web logins a second later. */
  function Crowd(login: Line, n: nat): seq<Event> {
    if n == 0 then [Sync([login], {})]
    else Crowd(login, n - 1) + [Record(Line("web", "", "login_success", login.at + SECOND))]
  }

  lemma {:induction false} RunOneMore(s: State, es: seq<Event>, e: Event)
    ensures Run(s, es + [e]) == Next(Run(s, es), e)
    decreases |es|
  {
    if es == [] {
      assert [] + [e] == [e] && [e][1..] == [];
    } else {
      RunOneMore(Next(s, es[0]), es[1..], e);
      assert (es + [e])[1..] == es[1..] + [e];
    }
  }

  /** The login is the only SSH row, and the n others are newer. */
  ghost predicate Crowded(s: State, login: Line, n: nat) {
    var r := Row(0, login, true);
    && s.cutoff.None? && s.nextId == n + 1 && r in s.table
    && (forall x :: x in s.table ==> x.id <= n && (x == r || (!x.ssh && login.at < x.line.at)))
    && |s.table| == n + 1
  }

  lemma FirstSync(login: Line)
    ensures Crowded(Next(EMPTY, Sync([login], {})), login, 0)
  {
    assert [login][1..] == [] && After([login], None) == [login];
    assert SshKeys({}) == {};
    assert Unseen([login], {}) == [login] + Unseen([], {} + {KeyOf(login)});
    assert Added(EMPTY, [login], {}) == [login];
    assert Stored([login], 0) == {Row(0, login, true)};
  }

  lemma OneMoreInCrowd(s: State, login: Line, n: nat, web: Line)
    requires Crowded(s, login, n) && login.at < web.at
    ensures Crowded(Next(s, Record(web)), login, n + 1)
  {
    assert Row(n + 1, web, false) !in s.table;
  }

  lemma CrowdStarts(login: Line)
    ensures Crowded(Run(EMPTY, Crowd(login, 0)), login, 0)
  {
    FirstSync(login);
    RunOneMore(EMPTY, [], Sync([login], {}));
    assert [] + [Sync([login], {})] == Crowd(login, 0);
  }

  lemma CrowdGrows(s: State, login: Line, n: nat, es: seq<Event>, web: Line)
    requires s == Run(EMPTY, es) && Crowded(s, login, n) && login.at < web.at
    ensures Crowded(Run(EMPTY, es + [Record(web)]), login, n + 1)
  {
    RunOneMore(EMPTY, es, Record(web));
    OneMoreInCrowd(s, login, n, web);
  }

  lemma {:induction false} CrowdGathers(login: Line, n: nat)
    ensures Crowded(Run(EMPTY, Crowd(login, n)), login, n)
  {
    if n == 0 {
      CrowdStarts(login);
    } else {
      CrowdGathers(login, n - 1);
      var es := Crowd(login, n - 1);
      CrowdGrows(Run(EMPTY, es), login, n - 1, es, Line("web", "", "login_success", login.at + SECOND));
    }
  }

  /** From an empty log: a login is synced, n web logins follow, and the journal is synced again, whatever the
      query returns among rows of the same moment. The login is then stored twice exactly if n is 300 or more. */
  lemma DoubledFromEmpty(login: Line, n: nat, recent: set<Row>)
    requires IsRecent(recent, Run(EMPTY, Crowd(login, n)).table)
    ensures OnePerKey(Run(EMPTY, Crowd(login, n) + [Sync([login], recent)]).table, KeyOf(login)) <==> n < RECENT
  {
    var s, r := Run(EMPTY, Crowd(login, n)), Row(0, login, true);
    CrowdGathers(login, n);
    RunOneMore(EMPTY, Crowd(login, n), Sync([login], recent));
    assert Newer(s.table, r) == s.table - {r} == NotOlder(s.table, r);
    if n < RECENT {
      ShownSurely(s.table, recent, r);
      CoveredDoesNotRepeat(s, [login], recent, KeyOf(login));
      SyncDoublesExactly(s, [login], recent, KeyOf(login));
    } else {
      HiddenRowIsDoubled(s, r, [login], recent);
    }
  }
}
