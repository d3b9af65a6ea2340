/** One-time password reset tokens. A row is never removed, so the position of a row is the order in which
    the tokens were issued. */
module PasswordReset {
  import opened Options
  import opened Texts

  /** Microseconds since the epoch. */
  type Time = int
  datatype Hash = Hash(hexdigest: string)

  const TTL: int := 60 * 60 * 1_000_000

  datatype User = User(email: string, active: bool, deleted: bool, password: string)

  datatype Row = Row(user: nat, hash: Hash, expiresAt: Time, usedAt: Option<Time>)

  datatype State = State(users: seq<User>, rows: seq<Row>)

  datatype Refusal = InvalidToken | WeakPassword

  datatype Outcome = Updated | Refused(why: Refusal)

  predicate Open(r: Row) { r.usedAt.None? }

  /** `UPDATE … SET used_at = at WHERE user_id = user AND used_at IS NULL` */
  function CloseOf(rows: seq<Row>, user: nat, at: Time): (closed: seq<Row>)
    ensures |closed| == |rows|
    ensures forall i :: 0 <= i < |rows| ==>
              closed[i] == if rows[i].user == user && Open(rows[i]) then rows[i].(usedAt := Some(at)) else rows[i]
  {
    if rows == [] then []
    else
      var r := rows[0];
      [if r.user == user && Open(r) then r.(usedAt := Some(at)) else r] + CloseOf(rows[1..], user, at)
  }

  /** The account of an address, among those not deleted. */
  function FindUser(users: seq<User>, email: string, from: nat): (found: Option<nat>)
    requires from <= |users|
    ensures found.Some? ==>
              from <= found.value < |users| && users[found.value].email == email && !users[found.value].deleted
    ensures found.None? ==> forall u :: from <= u < |users| && users[u].email == email ==> users[u].deleted
    decreases |users| - from
  {
    if from == |users| then None
    else if users[from].email == email && !users[from].deleted then Some(from)
    else FindUser(users, email, from + 1)
  }

  function FindRow(rows: seq<Row>, hash: Hash, from: nat): (found: Option<nat>)
    requires from <= |rows|
    ensures found.Some? ==> from <= found.value < |rows| && rows[found.value].hash == hash
    ensures found.None? ==> forall i :: from <= i < |rows| ==> rows[i].hash != hash
    decreases |rows| - from
  {
    if from == |rows| then None else if rows[from].hash == hash then Some(from) else FindRow(rows, hash, from + 1)
  }

  // ----- Requests and confirmations -----

  function Request(s: State, email: string, hash: Hash, now: Time, issued: Time): State {
    var found := FindUser(s.users, email, 0);
    if found.None? || !s.users[found.value].active then s
    else s.(rows := CloseOf(s.rows, found.value, now) + [Row(found.value, hash, issued + TTL, None)])
  }

  /** The row a confirmation would use, if it would be accepted at that time. */
  function Accepted(s: State, hash: Hash, now: Time): Option<nat> {
    var found := FindRow(s.rows, hash, 0);
    if found.None? then None
    else
      var r := s.rows[found.value];
      if Open(r) && now <= r.expiresAt && r.user < |s.users| && s.users[r.user].active then found else None
  }

  function Use(s: State, i: nat, password: string, now: Time): State
    requires i < |s.rows| && s.rows[i].user < |s.users|
  {
    var u := s.rows[i].user;
    State(s.users[u := s.users[u].(password := password)],
          CloseOf(s.rows[i := s.rows[i].(usedAt := Some(now))], u, now))
  }

  function Answer(s: State, hash: string -> Hash, token: string, password: string, now: Time): Outcome {
    if |Strip(token)| < 20 then Refused(InvalidToken)
    else if |password| < 8 then Refused(WeakPassword)
    else if Accepted(s, hash(Strip(token)), now).None? then Refused(InvalidToken)
    else Updated
  }

  function Confirm(s: State, hash: string -> Hash, token: string, password: string, stored: string, now: Time): State {
    if Answer(s, hash, token, password, now).Refused? then s
    else Use(s, Accepted(s, hash(Strip(token)), now).value, stored, now)
  }

  /** What happens to the tables: the two calls, and changes of accounts made elsewhere. */
  datatype Event =
    | Asked(email: string, hash: Hash, now: Time, issued: Time)
    | Tried(token: string, password: string, stored: string, now: Time)
    | Changed(users: seq<User>)

  function Apply(s: State, hash: string -> Hash, e: Event): State {
    match e
    case Asked(email, h, now, issued) => Request(s, email, h, now, issued)
    case Tried(token, password, stored, now) => Confirm(s, hash, token, password, stored, now)
    case Changed(users) => s.(users := users)
  }

  /** The table's constraints: a new token has a new hash, and accounts are not removed. */
  predicate Possible(s: State, e: Event) {
    match e
    case Asked(_, h, now, issued) => now <= issued && forall i :: 0 <= i < |s.rows| ==> s.rows[i].hash != h
    case Tried(_, _, _, _) => true
    case Changed(users) => |s.users| <= |users|
  }

  function After(s: State, hash: string -> Hash, es: seq<Event>): State {
    if es == [] then s else Apply(After(s, hash, es[..|es| - 1]), hash, es[|es| - 1])
  }

  predicate PossibleRun(s: State, hash: string -> Hash, es: seq<Event>) {
    es == [] || (PossibleRun(s, hash, es[..|es| - 1]) && Possible(After(s, hash, es[..|es| - 1]), es[|es| - 1]))
  }

  // ----- The invariant -----

  /** Only the latest token of each account can be open, and no two rows have the same hash. */
  predicate Inv(s: State) {
    && (forall i :: 0 <= i < |s.rows| ==> s.rows[i].user < |s.users|)
    && (forall i, j :: 0 <= i < j < |s.rows| ==> s.rows[i].hash != s.rows[j].hash)
    && (forall i, j :: 0 <= i < j < |s.rows| && s.rows[i].user == s.rows[j].user ==> !Open(s.rows[i]))
  }

  lemma InvRequest(s: State, email: string, hash: Hash, now: Time, issued: Time)
    requires Inv(s) && Possible(s, Asked(email, hash, now, issued))
    ensures Inv(Request(s, email, hash, now, issued))
  {
    var found := FindUser(s.users, email, 0);
    if found.Some? && s.users[found.value].active {
      var u, n := found.value, |s.rows|;
      var closed := CloseOf(s.rows, u, now);
      var rows := closed + [Row(u, hash, issued + TTL, None)];
      forall i, j | 0 <= i < j < |rows| ensures rows[i].hash != rows[j].hash {
        assert rows[i].hash == s.rows[i].hash;
        if j < n {
          assert rows[j].hash == s.rows[j].hash;
        }
      }
      forall i, j | 0 <= i < j < |rows| && rows[i].user == rows[j].user ensures !Open(rows[i]) {
        assert rows[i] == closed[i] && rows[i].user == s.rows[i].user;
        if j < n {
          assert rows[j].user == s.rows[j].user;
        }
      }
    }
  }

  lemma InvConfirm(s: State, hash: string -> Hash, token: string, password: string, stored: string, now: Time)
    requires Inv(s)
    ensures Inv(Confirm(s, hash, token, password, stored, now))
  {
  }

  lemma {:induction false} InvRun(s: State, hash: string -> Hash, es: seq<Event>)
    requires Inv(s) && PossibleRun(s, hash, es)
    ensures Inv(After(s, hash, es))
  {
    if es != [] {
      var t := After(s, hash, es[..|es| - 1]);
      InvRun(s, hash, es[..|es| - 1]);
      match es[|es| - 1]
      case Asked(email, h, now, issued) => InvRequest(t, email, h, now, issued);
      case Tried(token, password, stored, now) => InvConfirm(t, hash, token, password, stored, now);
      case Changed(_) =>
    }
  }

  /** In every run each account has at most one token that was not used. */
  lemma {:induction false} OneOpenToken(s: State, hash: string -> Hash, es: seq<Event>, i: nat, j: nat)
    requires Inv(s) && PossibleRun(s, hash, es)
    ensures var rows := After(s, hash, es).rows;
            i < |rows| && j < |rows| && rows[i].user == rows[j].user && Open(rows[i]) && Open(rows[j]) ==> i == j
  {
    InvRun(s, hash, es);
  }

  // ----- Tokens as issued -----

  /** A token as the requests of a run handed it out. */
  datatype Issue = Issue(user: nat, hash: Hash, at: Time)

  function IssuedBy(s: State, e: Event): seq<Issue> {
    if e.Asked? then
      var found := FindUser(s.users, e.email, 0);
      if found.None? || !s.users[found.value].active then [] else [Issue(found.value, e.hash, e.issued)]
    else []
  }

  /** The tokens handed out in a run, in order. */
  function Issues(s: State, hash: string -> Hash, es: seq<Event>): seq<Issue> {
    if es == [] then []
    else Issues(s, hash, es[..|es| - 1]) + IssuedBy(After(s, hash, es[..|es| - 1]), es[|es| - 1])
  }

  /** The row uses that the confirmations of a run achieved, in order. */
  function UsedBy(s: State, hash: string -> Hash, e: Event): seq<nat> {
    if e.Tried? && Answer(s, hash, e.token, e.password, e.now).Updated?
    then [Accepted(s, hash(Strip(e.token)), e.now).value] else []
  }

  function Uses(s: State, hash: string -> Hash, es: seq<Event>): seq<nat> {
    if es == [] then []
    else Uses(s, hash, es[..|es| - 1]) + UsedBy(After(s, hash, es[..|es| - 1]), hash, es[|es| - 1])
  }

  /** The rows, apart from when they were used, are the tokens handed out. */
  predicate RowsAre(rows: seq<Row>, issues: seq<Issue>) {
    && |rows| == |issues|
    && forall i :: 0 <= i < |rows| ==>
         rows[i].user == issues[i].user && rows[i].hash == issues[i].hash && rows[i].expiresAt == issues[i].at + TTL
  }

  lemma RequestIssues(s: State, email: string, h: Hash, now: Time, at: Time, issues: seq<Issue>)
    requires RowsAre(s.rows, issues)
    ensures RowsAre(Request(s, email, h, now, at).rows, issues + IssuedBy(s, Asked(email, h, now, at)))
  {
  }

  lemma ConfirmIssues(s: State, hash: string -> Hash, token: string, password: string, stored: string, now: Time,
                      issues: seq<Issue>)
    requires RowsAre(s.rows, issues)
    ensures RowsAre(Confirm(s, hash, token, password, stored, now).rows, issues)
  {
  }

  lemma {:induction false} RowsAreIssues(s: State, hash: string -> Hash, es: seq<Event>)
    requires s.rows == []
    ensures RowsAre(After(s, hash, es).rows, Issues(s, hash, es))
  {
    if es != [] {
      var t, issues := After(s, hash, es[..|es| - 1]), Issues(s, hash, es[..|es| - 1]);
      RowsAreIssues(s, hash, es[..|es| - 1]);
      match es[|es| - 1]
      case Asked(email, h, now, at) => RequestIssues(t, email, h, now, at, issues);
      case Tried(token, password, stored, now) =>
        ConfirmIssues(t, hash, token, password, stored, now, issues);
        assert issues + [] == issues;
      case Changed(_) => assert issues + [] == issues;
    }
  }

  /** Later in the run a row is the same, and a row that was used stays used since the same moment. */
  predicate Grown(a: seq<Row>, b: seq<Row>) {
    && |a| <= |b|
    && forall i :: 0 <= i < |a| ==>
         (if Open(a[i]) then b[i].user == a[i].user && b[i].hash == a[i].hash && b[i].expiresAt == a[i].expiresAt
          else b[i] == a[i])
  }

  lemma StepGrows(s: State, hash: string -> Hash, e: Event)
    ensures Grown(s.rows, Apply(s, hash, e).rows)
  {
  }

  /** A used token never becomes unused. */
  lemma {:induction false} UsedStaysUsed(s: State, hash: string -> Hash, es: seq<Event>)
    ensures Grown(s.rows, After(s, hash, es).rows)
  {
    if es != [] {
      UsedStaysUsed(s, hash, es[..|es| - 1]);
      StepGrows(After(s, hash, es[..|es| - 1]), hash, es[|es| - 1]);
    }
  }

  predicate Distinct(xs: seq<nat>) { forall i, j :: 0 <= i < j < |xs| ==> xs[i] != xs[j] }

  predicate AllUsed(rows: seq<Row>, xs: seq<nat>) { forall k :: 0 <= k < |xs| ==> xs[k] < |rows| && !Open(rows[xs[k]]) }

  lemma StepUses(s: State, hash: string -> Hash, e: Event)
    ensures AllUsed(Apply(s, hash, e).rows, UsedBy(s, hash, e))
    ensures forall k :: k in UsedBy(s, hash, e) ==> k < |s.rows| && Open(s.rows[k])
  {
  }

  /** Each token is accepted at most once in a run. */
  lemma {:induction false} EachTokenOnce(s: State, hash: string -> Hash, es: seq<Event>)
    ensures Distinct(Uses(s, hash, es)) && AllUsed(After(s, hash, es).rows, Uses(s, hash, es))
  {
    if es != [] {
      var front, e := es[..|es| - 1], es[|es| - 1];
      var t := After(s, hash, front);
      EachTokenOnce(s, hash, front);
      StepGrows(t, hash, e);
      StepUses(t, hash, e);
      var xs, ys := Uses(s, hash, front), UsedBy(t, hash, e);
      forall i | 0 <= i < |xs| ensures forall y :: y in ys ==> xs[i] != y {
      }
      assert |ys| <= 1;
    }
  }

  /** The token was handed out as issue `k`, is not older than 60 minutes, and its account got none since. */
  predicate IsLatest(issues: seq<Issue>, k: nat, h: Hash, now: Time) {
    && k < |issues| && issues[k].hash == h && now <= issues[k].at + TTL
    && forall j :: k < j < |issues| ==> issues[j].user != issues[k].user
  }

  lemma OpenIsLatest(s: State, issues: seq<Issue>, k: nat, now: Time)
    requires Inv(s) && RowsAre(s.rows, issues) && k < |s.rows| && Open(s.rows[k]) && now <= s.rows[k].expiresAt
    ensures IsLatest(issues, k, s.rows[k].hash, now)
  {
    forall j | k < j < |issues| ensures issues[j].user != issues[k].user {
      assert s.rows[j].user == issues[j].user;
    }
  }

  /** A confirmation succeeds only with the token its account was given last, at most 60 minutes after it
      was handed out. */
  lemma OnlyTheLatest(s: State, hash: string -> Hash, es: seq<Event>, token: string, password: string, now: Time)
    requires s.rows == [] && PossibleRun(s, hash, es)
    ensures Answer(After(s, hash, es), hash, token, password, now).Updated? ==>
              exists k :: IsLatest(Issues(s, hash, es), k, hash(Strip(token)), now)
  {
    var t := After(s, hash, es);
    InvRun(s, hash, es);
    RowsAreIssues(s, hash, es);
    var k := Accepted(t, hash(Strip(token)), now);
    if k.Some? {
      OpenIsLatest(t, Issues(s, hash, es), k.value, now);
    }
  }

  /** The latest token of an active account is accepted until it expires, exactly if it is still unused. */
  lemma AcceptedExactly(s: State, hash: string -> Hash, token: string, password: string, now: Time, k: nat)
    requires Inv(s) && k < |s.rows| && s.rows[k].hash == hash(Strip(token))
    ensures Answer(s, hash, token, password, now).Updated? <==>
              |Strip(token)| >= 20 && |password| >= 8 && Open(s.rows[k]) && now <= s.rows[k].expiresAt
              && s.users[s.rows[k].user].active
  {
    var found := FindRow(s.rows, hash(Strip(token)), 0);
    assert found == Some(k);
  }

  /** The account may have been deleted in the meantime: asking for a token looks at this, using one does
      not. */
  lemma DeletedAccountCanConfirm(s: State, hash: string -> Hash, token: string, password: string, now: Time, k: nat)
    requires Inv(s) && k < |s.rows| && Answer(s, hash, token, password, now).Updated?
    requires s.rows[k].hash == hash(Strip(token))
    ensures var u := s.rows[k].user;
            var t := State(s.users[u := s.users[u].(deleted := true)], s.rows);
            && Answer(t, hash, token, password, now).Updated?
            && var email := s.users[u].email;
            (forall v :: 0 <= v < |s.users| && v != u ==> s.users[v].email != email) ==>
              forall h, at, issued :: Request(t, email, h, at, issued) == t
  {
    var u := s.rows[k].user;
    var t := State(s.users[u := s.users[u].(deleted := true)], s.rows);
    AcceptedExactly(s, hash, token, password, now, k);
    AcceptedExactly(t, hash, token, password, now, k);
  }

  // ----- A token works -----

  const HOUR: Time := 3_600_000_000

  /** The account with this address, if it is not deleted and active. */
  predicate IsAccount(users: seq<User>, u: nat, email: string) {
    && u < |users| && users[u].email == email && !users[u].deleted && users[u].active
    && forall v :: 0 <= v < |users| && v != u ==> users[v].email != email
  }

  /** A request for an account closes its open tokens, touches no other, and hands out one for an hour. */
  lemma RequestHandsOut(s: State, email: string, h: Hash, now: Time, issued: Time, u: nat)
    requires IsAccount(s.users, u, email)
    ensures var t := Request(s, email, h, now, issued);
            && t.users == s.users && |t.rows| == |s.rows| + 1
            && t.rows[|s.rows|] == Row(u, h, issued + HOUR, None)
            && forall i :: 0 <= i < |s.rows| ==>
                 t.rows[i] == if s.rows[i].user == u && s.rows[i].usedAt == None then s.rows[i].(usedAt := Some(now))
                              else s.rows[i]
  {
    assert FindUser(s.users, email, 0) == Some(u);
  }

  /** What leaves the token of account u alone: requests for other addresses, other tokens, and changes that
      leave the account active and its address its own. */
  predicate Spares(e: Event, u: nat, email: string, h: Hash, hash: string -> Hash) {
    match e
    case Asked(other, _, _, _) => other != email
    case Tried(token, _, _, _) => hash(Strip(token)) != h
    case Changed(users) => u < |users| && users[u].email == email && users[u].active
  }

  /** The token is row k, unused, of account u. */
  predicate Waits(s: State, k: nat, u: nat, email: string, h: Hash, expiry: Time) {
    && k < |s.rows| && s.rows[k] == Row(u, h, expiry, None)
    && u < |s.users| && s.users[u].email == email && s.users[u].active
  }

  lemma SparedStep(s: State, hash: string -> Hash, e: Event, k: nat, u: nat, email: string, h: Hash, expiry: Time)
    requires Inv(s) && Waits(s, k, u, email, h, expiry) && Spares(e, u, email, h, hash)
    ensures Waits(Apply(s, hash, e), k, u, email, h, expiry)
  {
    if e.Tried? && Answer(s, hash, e.token, e.password, e.now).Updated? {
      var i := Accepted(s, hash(Strip(e.token)), e.now).value;
      assert i != k && s.rows[i].user != u;
    }
  }

  lemma {:induction false} SparedRun(s: State, hash: string -> Hash, es: seq<Event>, k: nat, u: nat, email: string,
                                     h: Hash, expiry: Time)
    requires Inv(s) && PossibleRun(s, hash, es) && Waits(s, k, u, email, h, expiry)
    requires forall i :: 0 <= i < |es| ==> Spares(es[i], u, email, h, hash)
    ensures Waits(After(s, hash, es), k, u, email, h, expiry)
  {
    if es != [] {
      var front := es[..|es| - 1];
      SparedRun(s, hash, front, k, u, email, h, expiry);
      InvRun(s, hash, front);
      SparedStep(After(s, hash, front), hash, es[|es| - 1], k, u, email, h, expiry);
    }
  }

  /** The token that an account asked for works for an hour, whatever happens to other accounts and tokens: it sets
      the account's password, and no other, and uses the token up. */
  lemma LatestTokenWorks(s: State, hash: string -> Hash, email: string, h: Hash, at: Time, issued: Time, u: nat,
                         es: seq<Event>, token: string, password: string, stored: string, now: Time)
    requires Inv(s) && IsAccount(s.users, u, email) && Possible(s, Asked(email, h, at, issued))
    requires PossibleRun(Request(s, email, h, at, issued), hash, es)
    requires forall i :: 0 <= i < |es| ==> Spares(es[i], u, email, h, hash)
    requires hash(Strip(token)) == h && |Strip(token)| >= 20 && |password| >= 8 && now <= issued + HOUR
    ensures var t := After(Request(s, email, h, at, issued), hash, es);
            var last := Confirm(t, hash, token, password, stored, now);
            && Answer(t, hash, token, password, now) == Updated
            && u < |t.users| && last.users == t.users[u := t.users[u].(password := stored)]
            && |s.rows| < |last.rows| == |t.rows| && last.rows[|s.rows|].usedAt.Some?
  {
    var k, t0 := |s.rows|, Request(s, email, h, at, issued);
    RequestHandsOut(s, email, h, at, issued, u);
    InvRequest(s, email, h, at, issued);
    SparedRun(t0, hash, es, k, u, email, h, issued + HOUR);
    InvRun(t0, hash, es);
    var t := After(t0, hash, es);
    AcceptedExactly(t, hash, token, password, now, k);
    assert FindRow(t.rows, h, 0) == Some(k);
  }

  // ----- The service -----

  class PasswordResetService {
    var users: seq<User>
    var rows: seq<Row>

    function Tables(): State
      reads this
    {
      State(users, rows)
    }

    constructor (users: seq<User>)
      ensures this.users == users && rows == []
    {
      this.users, rows := users, [];
    }

    /** `request_reset`. The two clock readings are those for the closed rows and for the new row. */
    method RequestReset(email: string, hash: Hash, now: Time, issued: Time)
      requires Inv(Tables()) && Possible(Tables(), Asked(email, hash, now, issued))
      modifies this
      ensures Inv(Tables()) && Tables() == Request(old(Tables()), email, hash, now, issued)
      ensures users == old(users)
      ensures (forall u :: 0 <= u < |users| && users[u].email == email && !users[u].deleted ==> !users[u].active)
                ==> rows == old(rows)
    {
      InvRequest(Tables(), email, hash, now, issued);
      var found := FindUser(users, email, 0);
      if found.None? || !users[found.value].active {
        return;
      }
      rows := CloseOf(rows, found.value, now);
      rows := rows + [Row(found.value, hash, issued + TTL, None)];
    }

    /** `confirm_reset`: a refused call changes nothing; an accepted one sets the password and leaves the
        account without an open token. `stored` is the new password as it is stored. */
    method ConfirmReset(token: string, password: string, hash: string -> Hash, stored: string, now: Time)
      returns (outcome: Outcome)
      requires Inv(Tables())
      modifies this
      ensures Inv(Tables()) && outcome == Answer(old(Tables()), hash, token, password, now)
      ensures Tables() == Confirm(old(Tables()), hash, token, password, stored, now)
      ensures outcome.Refused? ==> rows == old(rows) && users == old(users)
      ensures outcome.Updated? ==>
                exists i :: 0 <= i < |rows| && old(rows)[i].hash == hash(Strip(token)) && Open(old(rows)[i])
                            && users == old(users)[rows[i].user := old(users)[rows[i].user].(password := stored)]
                            && forall j :: 0 <= j < |rows| && rows[j].user == rows[i].user ==> !Open(rows[j])
    {
      InvConfirm(Tables(), hash, token, password, stored, now);
      var raw := Strip(token);
      if |raw| < 20 {
        return Refused(InvalidToken);
      }
      if |password| < 8 {
        return Refused(WeakPassword);
      }
      var found := FindRow(rows, hash(raw), 0);
      if found.None? || !Open(rows[found.value]) {
        return Refused(InvalidToken);
      }
      var i := found.value;
      var row := rows[i];
      if row.expiresAt < now {
        return Refused(InvalidToken);
      }
      if |users| <= row.user || !users[row.user].active {
        return Refused(InvalidToken);
      }
      users := users[row.user := users[row.user].(password := stored)];
      rows := rows[i := row.(usedAt := Some(now))];
      rows := CloseOf(rows, row.user, now);
      assert old(rows)[i].hash == hash(Strip(token));
      return Updated;
    }
  }
}
