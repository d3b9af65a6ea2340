/** The migration that makes allocated ports unique: before the index is created, every port that several
    application instances hold is taken from all of them but the oldest. */
module PortDedup {
  import opened Options

  type Id = int
  type Port = int

  datatype Row = Row(createdAt: Option<int>, port: Option<Port>)

  type Table = map<Id, Row>

  /** `ORDER BY created_at ASC NULLS LAST, id ASC` */
  predicate Earlier(t: Table, a: Id, b: Id)
    requires a in t && b in t
  {
    var x, y := t[a].createdAt, t[b].createdAt;
    if x == y then a < b
    else if x.None? then false
    else if y.None? then true
    else x.value < y.value
  }

  function Holders(t: Table, p: Port): set<Id> { set id | id in t && t[id].port == Some(p) }

  predicate Holds(t: Table, id: Id, p: Port) { id in t && t[id].port == Some(p) }

  predicate Shared(t: Table, p: Port) { exists a, b :: a in t && b in t && a != b && Holds(t, a, p) && Holds(t, b, p) }

  ghost predicate InUse(t: Table, p: Port) { exists id :: Holds(t, id, p) }

  /** The oldest of the instances that hold the port. */
  ghost predicate IsOldest(t: Table, id: Id, p: Port) {
    Holds(t, id, p) && forall other :: Holds(t, other, p) && other != id ==> Earlier(t, id, other)
  }

  /** The table when some ports have been dealt with. */
  ghost function Cleared(t: Table, done: set<Port>): Table {
    map id | id in t ::
      if t[id].port.Some? && t[id].port.value in done && !IsOldest(t, id, t[id].port.value) then t[id].(port := None)
      else t[id]
  }

  function Ports(t: Table): set<Port> { set id | id in t && t[id].port.Some? :: t[id].port.value }

  /** The ports that more than one row has: `GROUP BY allocated_port HAVING COUNT(*) > 1`. */
  function SharedPorts(t: Table): set<Port> { set p | p in Ports(t) && Shared(t, p) }

  /** The table that the migration leaves. */
  ghost function Deduped(t: Table): Table { Cleared(t, SharedPorts(t)) }

  // ----- What the migration leaves -----

  lemma AnyOf<T>(s: set<T>) returns (x: T)
    requires s != {}
    ensures x in s
  {
    x :| x in s;
  }

  lemma {:induction false} OldestOf(t: Table, among: set<Id>) returns (oldest: Id)
    requires among != {} && among <= t.Keys
    ensures oldest in among && forall other :: other in among && other != oldest ==> Earlier(t, oldest, other)
    decreases |among|
  {
    var x := AnyOf(among);
    var rest := among - {x};
    if rest == {} {
      assert among == {x};
      oldest := x;
    } else {
      var y := OldestOf(t, rest);
      oldest := if Earlier(t, x, y) then x else y;
      forall other | other in among && other != oldest ensures Earlier(t, oldest, other) {
        assert other == x || other in rest;
      }
    }
  }

  lemma HasOldest(t: Table, p: Port) returns (oldest: Id)
    requires InUse(t, p)
    ensures IsOldest(t, oldest, p)
  {
    var some :| Holds(t, some, p);
    assert some in Holders(t, p);
    oldest := OldestOf(t, Holders(t, p));
    forall other | Holds(t, other, p) && other != oldest ensures Earlier(t, oldest, other) {
      assert other in Holders(t, p);
    }
  }

  lemma OneOldest(t: Table, a: Id, b: Id, p: Port)
    requires IsOldest(t, a, p) && IsOldest(t, b, p)
    ensures a == b
  {
  }

  lemma SharedIsListed(t: Table, p: Port)
    ensures p in SharedPorts(t) <==> Shared(t, p)
  {
    if Shared(t, p) {
      var a, b :| a != b && Holds(t, a, p) && Holds(t, b, p);
      assert p in Ports(t);
    }
  }

  /** Afterwards a row holds a port exactly if it was the oldest to hold it: also when the port was not
      shared. */
  lemma HoldsExactly(t: Table, id: Id, p: Port)
    ensures Holds(Deduped(t), id, p) <==> IsOldest(t, id, p)
  {
    SharedIsListed(t, p);
    if Holds(t, id, p) && !Shared(t, p) {
      assert forall other :: Holds(t, other, p) ==> other == id;
    }
  }

  /** Of the rows that had the port it was created first, those without a time counting as last and the lower id
      deciding between equals. */
  lemma KeeperIsFirst(t: Table, id: Id, other: Id, p: Port)
    requires Holds(Deduped(t), id, p) && Holds(t, other, p) && other != id
    ensures match (t[id].createdAt, t[other].createdAt)
            case (Some(mine), Some(its)) => mine < its || (mine == its && id < other)
            case (Some(_), None) => true
            case (None, Some(_)) => false
            case (None, None) => id < other
  {
    HoldsExactly(t, id, p);
  }

  /** No two rows share a port, so the unique index can be created. */
  lemma NothingShared(t: Table, p: Port)
    ensures !Shared(Deduped(t), p)
  {
    forall a, b | Holds(Deduped(t), a, p) && Holds(Deduped(t), b, p) ensures a == b {
      HoldsExactly(t, a, p);
      HoldsExactly(t, b, p);
      OneOldest(t, a, b, p);
    }
  }

  /** The ports in use are the same. */
  lemma SamePortsInUse(t: Table, p: Port)
    ensures InUse(Deduped(t), p) <==> InUse(t, p)
  {
    if InUse(t, p) {
      var oldest := HasOldest(t, p);
      HoldsExactly(t, oldest, p);
    }
    if id :| Holds(Deduped(t), id, p) {
      HoldsExactly(t, id, p);
    }
  }

  /** A row changes exactly if an older one held its port, and then only its port goes. */
  lemma ChangedExactly(t: Table, id: Id)
    requires id in t
    ensures id in Deduped(t)
    ensures Deduped(t)[id] != t[id] <==>
              t[id].port.Some? && exists other :: Holds(t, other, t[id].port.value) && Earlier(t, other, id)
    ensures Deduped(t)[id] == t[id] || Deduped(t)[id] == t[id].(port := None)
  {
    if t[id].port.Some? {
      var p := t[id].port.value;
      HoldsExactly(t, id, p);
      if other :| Holds(t, other, p) && Earlier(t, other, id) {
        assert !Earlier(t, id, other);
      }
    }
  }

  /** Running the clearing again changes nothing. */
  lemma DedupedTwice(t: Table)
    ensures Deduped(Deduped(t)) == Deduped(t)
  {
    var u := Deduped(t);
    forall p ensures p !in SharedPorts(u) {
      NothingShared(t, p);
    }
    assert SharedPorts(u) == {};
  }

  // ----- The loops -----

  predicate Ordered(t: Table, ids: seq<Id>) {
    && (forall i :: 0 <= i < |ids| ==> ids[i] in t)
    && forall i, j :: 0 <= i < j < |ids| ==> Earlier(t, ids[i], ids[j])
  }

  /** The next of the rows or ports that are left. */
  method Pick<T(==)>(s: set<T>) returns (x: T)
    requires s != {}
    ensures x in s
  {
    x :| x in s;
  }

  /** Where an id belongs in an ordered list that does not have it. */
  method PlaceOf(t: Table, ids: seq<Id>, id: Id) returns (k: nat)
    requires Ordered(t, ids) && id in t && id !in ids
    ensures k <= |ids| && Ordered(t, ids[..k] + [id] + ids[k..])
  {
    k := 0;
    while k < |ids| && Earlier(t, ids[k], id)
      invariant k <= |ids|
      invariant forall i :: 0 <= i < k ==> Earlier(t, ids[i], id)
    {
      k := k + 1;
    }
  }

  /** The query for the rows of a port, in order. */
  method SelectHolders(t: Table, p: Port) returns (ids: seq<Id>)
    ensures Ordered(t, ids) && forall id :: id in ids <==> Holds(t, id, p)
  {
    ids := [];
    var rest := Holders(t, p);
    while rest != {}
      invariant rest <= Holders(t, p) && Ordered(t, ids)
      invariant forall id :: id in ids <==> Holds(t, id, p) && id !in rest
      decreases |rest|
    {
      var id := Pick(rest);
      var k := PlaceOf(t, ids, id);
      assert ids == ids[..k] + ids[k..];
      rest := rest - {id};
      ids := ids[..k] + [id] + ids[k..];
    }
  }

  lemma FirstIsOldest(t: Table, ids: seq<Id>, p: Port, i: nat)
    requires Ordered(t, ids) && (forall id :: id in ids <==> Holds(t, id, p)) && i < |ids|
    ensures IsOldest(t, ids[i], p) <==> i == 0
  {
    assert ids[i] in ids && ids[0] in ids;
    if i == 0 {
      forall other | Holds(t, other, p) && other != ids[0] ensures Earlier(t, ids[0], other) {
        var j :| 0 <= j < |ids| && ids[j] == other;
      }
    } else {
      assert Earlier(t, ids[0], ids[i]) && !Earlier(t, ids[i], ids[0]);
    }
  }

  /** `Cleared(t, done)` with the ports of some more rows taken away. */
  ghost predicate PartOf(now: Table, t: Table, done: set<Port>, more: seq<Id>) {
    && now.Keys == t.Keys
    && forall id :: id in t ==> now[id] == if id in more then t[id].(port := None) else Cleared(t, done)[id]
  }

  lemma PortDone(now: Table, t: Table, done: set<Port>, p: Port, ids: seq<Id>)
    requires Ordered(t, ids) && ids != [] && forall id :: id in ids <==> Holds(t, id, p)
    requires p !in done && PartOf(now, t, done, ids[1..])
    ensures now == Cleared(t, done + {p})
  {
    var after := Cleared(t, done + {p});
    forall id | id in t ensures now[id] == after[id] {
      if Holds(t, id, p) {
        var i :| 0 <= i < |ids| && ids[i] == id;
        FirstIsOldest(t, ids, p, i);
        assert i > 0 ==> ids[1..][i - 1] == id;
        if id in ids[1..] {
          var j :| 0 <= j < |ids[1..]| && ids[1..][j] == id;
          FirstIsOldest(t, ids, p, j + 1);
        }
      } else {
        assert id !in ids;
        assert id !in ids[1..];
      }
    }
  }

  class ApplicationInstances {
    var rows: Table

    constructor (rows: Table)
      ensures this.rows == rows
    {
      this.rows := rows;
    }

    /** The rows of one port, all but the first in order. */
    method ClearPort(p: Port, ghost t: Table, ghost done: set<Port>)
      requires rows == Cleared(t, done) && Shared(t, p) && p !in done
      modifies this
      ensures rows == Cleared(t, done + {p})
    {
      var ids := SelectHolders(rows, p);
      BeginPort(rows, t, done, p, ids);
      var i := 1;
      while i < |ids|
        invariant 1 <= i <= |ids|
        invariant PartOf(rows, t, done, ids[1..i])
      {
        NextHolder(rows, t, done, ids, i);
        rows := rows[ids[i] := rows[ids[i]].(port := None)];
        i := i + 1;
      }
      assert ids[1..i] == ids[1..];
      PortDone(rows, t, done, p, ids);
    }

    /** The clearing loop of `upgrade`, over the shared ports in whatever order the query lists them. */
    method ClearDuplicates()
      modifies this
      ensures rows == Deduped(old(rows))
    {
      ghost var t := rows;
      var dupes := SharedPorts(rows);
      ghost var done: set<Port> := {};
      while dupes != {}
        invariant done !! dupes && done + dupes == SharedPorts(t)
        invariant rows == Cleared(t, done)
        decreases |dupes|
      {
        var p := Pick(dupes);
        ClearPort(p, t, done);
        dupes := dupes - {p};
        done := done + {p};
      }
      assert done == SharedPorts(t);
    }
  }

  lemma SomeHolder(t: Table, p: Port, ids: seq<Id>)
    requires Shared(t, p) && forall id :: id in ids <==> Holds(t, id, p)
    ensures ids != []
  {
    var a, b :| a in t && b in t && a != b && Holds(t, a, p) && Holds(t, b, p);
    assert a in ids;
  }

  lemma BeginPort(now: Table, t: Table, done: set<Port>, p: Port, ids: seq<Id>)
    requires now == Cleared(t, done) && Shared(t, p) && p !in done
    requires Ordered(now, ids) && forall id :: id in ids <==> Holds(now, id, p)
    ensures Ordered(t, ids) && ids != [] && forall id :: id in ids <==> Holds(t, id, p)
    ensures PartOf(now, t, done, [])
  {
    SameHolders(t, done, p);
    SomeHolder(t, p, ids);
    OrderedAlike(t, done, ids);
  }

  lemma NextHolder(now: Table, t: Table, done: set<Port>, ids: seq<Id>, i: nat)
    requires 1 <= i < |ids| && PartOf(now, t, done, ids[1..i]) && forall id :: id in ids ==> id in t
    ensures ids[i] in now && PartOf(now[ids[i] := now[ids[i]].(port := None)], t, done, ids[1..i + 1])
  {
    assert ids[i] in ids;
    OneMoreCleared(now, t, done, ids[1..i], ids[i]);
    assert ids[1..i + 1] == ids[1..i] + [ids[i]];
  }

  lemma OneMoreCleared(now: Table, t: Table, done: set<Port>, more: seq<Id>, id: Id)
    requires PartOf(now, t, done, more) && id in t
    ensures PartOf(now[id := now[id].(port := None)], t, done, more + [id])
  {
    var next := now[id := now[id].(port := None)];
    forall k | k in t ensures next[k] == if k in more + [id] then t[k].(port := None) else Cleared(t, done)[k] {
    }
  }

  lemma SameHolders(t: Table, done: set<Port>, p: Port)
    requires p !in done
    ensures forall id :: Holds(Cleared(t, done), id, p) <==> Holds(t, id, p)
  {
  }

  lemma OrderedAlike(t: Table, done: set<Port>, ids: seq<Id>)
    requires Ordered(Cleared(t, done), ids)
    ensures Ordered(t, ids)
  {
    var u := Cleared(t, done);
    forall i, j | 0 <= i < j < |ids| ensures Earlier(t, ids[i], ids[j]) {
      assert Earlier(u, ids[i], ids[j]);
    }
  }
}
