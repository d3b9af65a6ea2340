/** The comma-separated allowlist of admin addresses: how it is parsed, how a line of the environment
    file is rewritten when an address is added, and what the running process then trusts. */
module Allowlist {
  import opened Options
  import opened Texts

  const KEY := "ADMIN_ALLOWED_IPS="
  const LOCKDOWN := "ADMIN_LOCKDOWN_ENABLED=true"

  /** `s.split(",")` */
  function Split(s: string): (ps: seq<string>)
    ensures |ps| >= 1
  {
    if s == "" then [""]
    else
      var rest := Split(s[1..]);
      if s[0] == ',' then [""] + rest else [[s[0]] + rest[0]] + rest[1..]
  }

  /** `[p.strip() for p in ps if p.strip()]` */
  function Stripped(ps: seq<string>): seq<string> {
    if ps == [] then []
    else (if Strip(ps[0]) != "" then [Strip(ps[0])] else []) + Stripped(ps[1..])
  }

  function Parse(s: string): seq<string> { Stripped(Split(s)) }

  /** `",".join(items)` */
  function Join(items: seq<string>): string {
    if items == [] then "" else if |items| == 1 then items[0] else items[0] + "," + Join(items[1..])
  }

  /** An entry that survives printing and parsing: not empty, no comma, no space around it. */
  predicate Clean(x: string) {
    x != "" && ',' !in x && !IsSpace(x[0]) && !IsSpace(x[|x| - 1])
  }

  predicate AllClean(items: seq<string>) { forall i :: 0 <= i < |items| ==> Clean(items[i]) }

  // ----- Parsing undoes printing -----

  lemma {:induction false} SplitPlain(x: string)
    requires ',' !in x
    ensures Split(x) == [x]
  {
    if x != "" {
      SplitPlain(x[1..]);
      assert [x[0]] + x[1..] == x;
    }
  }

  lemma {:induction false} SplitAtComma(x: string, rest: string)
    requires ',' !in x
    ensures Split(x + "," + rest) == [x] + Split(rest)
  {
    if x == "" {
      assert ("" + "," + rest)[1..] == rest;
    } else {
      SplitAtComma(x[1..], rest);
      assert (x + "," + rest)[1..] == x[1..] + "," + rest;
      assert [x[0]] + x[1..] == x;
    }
  }

  lemma CleanStrips(x: string)
    requires Clean(x)
    ensures Strip(x) == x
  {
  }

  /** Parsing the comma-joined list gives the list back. */
  lemma {:induction false} ParseJoin(items: seq<string>)
    requires AllClean(items)
    ensures Parse(Join(items)) == items
  {
    if items == [] {
      assert Split("") == [""] && Stripped([""]) == [] + Stripped([""][1..]);
    } else {
      CleanStrips(items[0]);
      if |items| == 1 {
        SplitPlain(items[0]);
        assert [items[0]][1..] == [];
        assert Stripped([items[0]]) == [items[0]] + Stripped([]);
      } else {
        SplitAtComma(items[0], Join(items[1..]));
        ParseJoin(items[1..]);
        assert ([items[0]] + Split(Join(items[1..])))[1..] == Split(Join(items[1..]));
      }
    }
  }

  lemma {:induction false} SplitHasNoComma(s: string)
    ensures forall i :: 0 <= i < |Split(s)| ==> ',' !in Split(s)[i]
  {
    if s != "" {
      SplitHasNoComma(s[1..]);
    }
  }

  lemma {:induction false} StrippedClean(ps: seq<string>)
    requires forall i :: 0 <= i < |ps| ==> ',' !in ps[i]
    ensures AllClean(Stripped(ps))
  {
    if ps != [] {
      StrippedClean(ps[1..]);
      StripStartClean(ps[0]);
      StripEndClean(StripStart(ps[0]));
    }
  }

  /** Whatever is parsed consists of clean entries, so printing and parsing again changes nothing. */
  lemma ParseIsClean(s: string)
    ensures AllClean(Parse(s)) && Parse(Join(Parse(s))) == Parse(s)
  {
    SplitHasNoComma(s);
    StrippedClean(Split(s));
    ParseJoin(Parse(s));
  }

  // ----- Rewriting the lines -----

  predicate IsKeyLine(line: string) { KEY <= line }

  /** The entries a line of the file lists. */
  function EntriesOf(line: string): seq<string>
    requires IsKeyLine(line)
  {
    Parse(line[|KEY|..])
  }

  function With(items: seq<string>, ip: string): seq<string> {
    if ip in items then items else items + [ip]
  }

  function RewriteLine(line: string, ip: string): string {
    if IsKeyLine(line) then KEY + Join(With(EntriesOf(line), ip)) else line
  }

  function RewriteAll(lines: seq<string>, ip: string): (out: seq<string>)
    ensures |out| == |lines|
    ensures forall i :: 0 <= i < |lines| ==> out[i] == RewriteLine(lines[i], ip)
  {
    if lines == [] then [] else [RewriteLine(lines[0], ip)] + RewriteAll(lines[1..], ip)
  }

  predicate HasKeyLine(lines: seq<string>) { exists i :: 0 <= i < |lines| && IsKeyLine(lines[i]) }

  /** The line that counts when the file is read: the last one. */
  function LastEntries(lines: seq<string>): seq<string>
    requires HasKeyLine(lines)
  {
    var last := lines[|lines| - 1];
    if IsKeyLine(last) then EntriesOf(last) else LastEntries(lines[..|lines| - 1])
  }

  function Rewrite(lines: seq<string>, current: seq<string>, ip: string): seq<string> {
    if HasKeyLine(lines) then RewriteAll(lines, ip)
    else lines + [KEY + Join(current + [ip]), LOCKDOWN]
  }

  function Merged(lines: seq<string>, current: seq<string>, ip: string): seq<string> {
    if HasKeyLine(lines) then With(LastEntries(lines), ip) else current + [ip]
  }

  lemma WithClean(items: seq<string>, ip: string)
    requires AllClean(items) && Clean(ip)
    ensures AllClean(With(items, ip)) && ip in With(items, ip)
  {
  }

  lemma RewrittenEntries(line: string, ip: string)
    requires IsKeyLine(line) && Clean(ip)
    ensures IsKeyLine(RewriteLine(line, ip)) && EntriesOf(RewriteLine(line, ip)) == With(EntriesOf(line), ip)
    ensures AllClean(EntriesOf(line))
  {
    ParseIsClean(line[|KEY|..]);
    WithClean(EntriesOf(line), ip);
    ParseJoin(With(EntriesOf(line), ip));
    assert (KEY + Join(With(EntriesOf(line), ip)))[|KEY|..] == Join(With(EntriesOf(line), ip));
  }

  /** Rewriting keeps every other line in its place, keeps the entries of an allowlist line in order, and
      puts the address into each of them. */
  lemma RewriteKeeps(lines: seq<string>, current: seq<string>, ip: string)
    requires Clean(ip) && AllClean(current)
    ensures var out := Rewrite(lines, current, ip);
            && |lines| <= |out|
            && (forall i :: 0 <= i < |lines| && !IsKeyLine(lines[i]) ==> out[i] == lines[i])
            && (forall i :: 0 <= i < |lines| && IsKeyLine(lines[i]) ==>
                  IsKeyLine(out[i]) && EntriesOf(lines[i]) <= EntriesOf(out[i]) && ip in EntriesOf(out[i])
                  && |EntriesOf(out[i])| <= |EntriesOf(lines[i])| + 1)
            && (if HasKeyLine(lines) then |out| == |lines|
                else |out| == |lines| + 2 && out[..|lines|] == lines && out[|lines| + 1] == LOCKDOWN
                     && IsKeyLine(out[|lines|]) && EntriesOf(out[|lines|]) == current + [ip])
  {
    var out := Rewrite(lines, current, ip);
    forall i | 0 <= i < |lines| && IsKeyLine(lines[i])
      ensures IsKeyLine(out[i]) && EntriesOf(lines[i]) <= EntriesOf(out[i]) && ip in EntriesOf(out[i])
              && |EntriesOf(out[i])| <= |EntriesOf(lines[i])| + 1
    {
      RewrittenEntries(lines[i], ip);
    }
    if !HasKeyLine(lines) {
      ParseJoin(current + [ip]);
      assert (KEY + Join(current + [ip]))[|KEY|..] == Join(current + [ip]);
    }
  }

  lemma RewriteLineTwice(line: string, ip: string)
    requires Clean(ip)
    ensures RewriteLine(RewriteLine(line, ip), ip) == RewriteLine(line, ip)
  {
    if IsKeyLine(line) {
      RewrittenEntries(line, ip);
      WithClean(EntriesOf(line), ip);
    }
  }

  lemma NotLockdown()
    ensures !IsKeyLine(LOCKDOWN)
  {
    assert KEY[6] != LOCKDOWN[6];
  }

  lemma RewriteStays(lines: seq<string>, k: nat, ip: string)
    requires k < |lines| && IsKeyLine(lines[k]) && Clean(ip)
    ensures HasKeyLine(lines) && HasKeyLine(RewriteAll(lines, ip))
  {
    RewrittenEntries(lines[k], ip);
    assert IsKeyLine(RewriteAll(lines, ip)[k]);
  }

  lemma {:induction false} RewriteAllTwice(lines: seq<string>, ip: string)
    requires Clean(ip)
    ensures RewriteAll(RewriteAll(lines, ip), ip) == RewriteAll(lines, ip)
  {
    if lines != [] {
      RewriteLineTwice(lines[0], ip);
      RewriteAllTwice(lines[1..], ip);
      var out := RewriteAll(lines, ip);
      assert out[1..] == RewriteAll(lines[1..], ip);
    }
  }

  lemma RewriteAllAppend(a: seq<string>, b: seq<string>, ip: string)
    ensures RewriteAll(a + b, ip) == RewriteAll(a, ip) + RewriteAll(b, ip)
  {
    var x, y, z := RewriteAll(a + b, ip), RewriteAll(a, ip), RewriteAll(b, ip);
    forall i | 0 <= i < |x| ensures x[i] == (y + z)[i] {
      if i < |a| {
        assert (a + b)[i] == a[i];
      } else {
        assert (a + b)[i] == b[i - |a|];
      }
    }
    assert x == y + z;
  }

  lemma {:induction false} NothingToRewrite(lines: seq<string>, ip: string)
    requires !HasKeyLine(lines)
    ensures RewriteAll(lines, ip) == lines
  {
    assert forall i :: 0 <= i < |lines| ==> !IsKeyLine(lines[i]);
    var out := RewriteAll(lines, ip);
    assert forall i :: 0 <= i < |lines| ==> out[i] == lines[i];
  }

  /** The two lines added to a file without an allowlist line are left alone by a second rewrite. */
  lemma TailStays(current: seq<string>, ip: string)
    requires Clean(ip) && AllClean(current)
    ensures var tail := [KEY + Join(current + [ip]), LOCKDOWN];
            IsKeyLine(tail[0]) && EntriesOf(tail[0]) == current + [ip] && RewriteAll(tail, ip) == tail
  {
    var line := KEY + Join(current + [ip]);
    ParseJoin(current + [ip]);
    assert line[|KEY|..] == Join(current + [ip]);
    assert IsKeyLine(line) && EntriesOf(line) == current + [ip];
    NotLockdown();
    assert RewriteLine(line, ip) == line && RewriteLine(LOCKDOWN, ip) == LOCKDOWN;
    var tail := [line, LOCKDOWN];
    var out := RewriteAll(tail, ip);
    assert out[0] == line && out[1] == LOCKDOWN;
  }

  /** Adding the address a second time changes nothing, whatever the process believes by then. */
  lemma RewriteIsIdempotent(lines: seq<string>, current: seq<string>, later: seq<string>, ip: string)
    requires Clean(ip) && AllClean(current)
    ensures Rewrite(Rewrite(lines, current, ip), later, ip) == Rewrite(lines, current, ip)
  {
    if HasKeyLine(lines) {
      var k :| 0 <= k < |lines| && IsKeyLine(lines[k]);
      RewriteStays(lines, k, ip);
      RewriteAllTwice(lines, ip);
    } else {
      var tail := [KEY + Join(current + [ip]), LOCKDOWN];
      TailStays(current, ip);
      NothingToRewrite(lines, ip);
      RewriteAllAppend(lines, tail, ip);
      assert (lines + tail)[|lines|] == tail[0];
      RewriteStays(lines + tail, |lines|, ip);
    }
  }

  ghost predicate NoneListed(lines: seq<string>) {
    forall i :: 0 <= i < |lines| ==> !("ADMIN_ALLOWED_IPS=" <= lines[i])
  }

  lemma OneLine(items: seq<string>, ip: string)
    requires Clean(ip) && AllClean(items)
    ensures var line := "ADMIN_ALLOWED_IPS=" + Join(items);
            && IsKeyLine(line) && EntriesOf(line) == items
            && RewriteAll([line], ip) == ["ADMIN_ALLOWED_IPS=" + Join(if ip in items then items else items + [ip])]
  {
    var line := "ADMIN_ALLOWED_IPS=" + Join(items);
    assert line[|KEY|..] == Join(items);
    ParseJoin(items);
  }

  /** Written out: the one allowlist line of a file lists the address afterwards, behind what it listed before,
      and so does the process. */
  lemma RewriteDoes(before: seq<string>, items: seq<string>, after: seq<string>, current: seq<string>, ip: string)
    requires Clean(ip) && AllClean(items) && NoneListed(before) && NoneListed(after)
    ensures var lines := before + ["ADMIN_ALLOWED_IPS=" + Join(items)] + after;
            var listed := if ip in items then items else items + [ip];
            && Rewrite(lines, current, ip) == before + ["ADMIN_ALLOWED_IPS=" + Join(listed)] + after
            && Merged(lines, current, ip) == listed
  {
    var line := "ADMIN_ALLOWED_IPS=" + Join(items);
    OneLine(items, ip);
    NothingToRewrite(before, ip);
    NothingToRewrite(after, ip);
    RewriteAllAppend(before + [line], after, ip);
    RewriteAllAppend(before, [line], ip);
    KeyLinesGrow(before, line);
    LastOfGrown(before, line);
    LastBefore(before + [line], after);
  }

  /** And without one, two lines are added. */
  lemma RewriteAdds(lines: seq<string>, current: seq<string>, ip: string)
    requires NoneListed(lines)
    ensures Rewrite(lines, current, ip) ==
              lines + ["ADMIN_ALLOWED_IPS=" + Join(current + [ip]), "ADMIN_LOCKDOWN_ENABLED=true"]
    ensures Merged(lines, current, ip) == current + [ip]
  {
  }

  lemma {:induction false} LastBefore(lines: seq<string>, after: seq<string>)
    requires HasKeyLine(lines) && forall i :: 0 <= i < |after| ==> !IsKeyLine(after[i])
    ensures HasKeyLine(lines + after) && LastEntries(lines + after) == LastEntries(lines)
  {
    if after == [] {
      assert lines + after == lines;
    } else {
      var front := after[..|after| - 1];
      LastBefore(lines, front);
      assert lines + after == (lines + front) + [after[|after| - 1]];
      KeyLinesGrow(lines + front, after[|after| - 1]);
      LastOfGrown(lines + front, after[|after| - 1]);
    }
  }

  // ----- The line that counts -----

  lemma KeyLinesGrow(a: seq<string>, line: string)
    ensures HasKeyLine(a + [line]) <==> HasKeyLine(a) || IsKeyLine(line)
  {
    var b := a + [line];
    assert b[|a|] == line && forall k :: 0 <= k < |a| ==> b[k] == a[k];
  }

  lemma LastOfGrown(a: seq<string>, line: string)
    requires HasKeyLine(a + [line])
    ensures IsKeyLine(line) ==> LastEntries(a + [line]) == EntriesOf(line)
    ensures !IsKeyLine(line) ==> HasKeyLine(a) && LastEntries(a + [line]) == LastEntries(a)
  {
    KeyLinesGrow(a, line);
    assert (a + [line])[..|a|] == a;
  }

  lemma {:induction false} MergedIsLast(lines: seq<string>, ip: string)
    requires HasKeyLine(lines) && Clean(ip)
    ensures HasKeyLine(RewriteAll(lines, ip)) && LastEntries(RewriteAll(lines, ip)) == With(LastEntries(lines), ip)
    ensures AllClean(LastEntries(lines))
  {
    var a, line := lines[..|lines| - 1], lines[|lines| - 1];
    assert lines == a + [line];
    KeyLinesGrow(a, line);
    LastOfGrown(a, line);
    RewriteAllAppend(a, [line], ip);
    var b, last := RewriteAll(a, ip), RewriteLine(line, ip);
    assert RewriteAll([line], ip) == [last];
    KeyLinesGrow(b, last);
    if IsKeyLine(line) {
      RewrittenEntries(line, ip);
    } else {
      MergedIsLast(a, ip);
    }
    LastOfGrown(b, last);
  }

  lemma AfterRewrite(lines: seq<string>, current: seq<string>, ip: string)
    requires AllClean(current) && Clean(ip)
    ensures var out := Rewrite(lines, current, ip);
            && HasKeyLine(out) && LastEntries(out) == Merged(lines, current, ip)
            && Parse(Join(Merged(lines, current, ip))) == Merged(lines, current, ip)
            && ip in Merged(lines, current, ip)
  {
    if HasKeyLine(lines) {
      MergedIsLast(lines, ip);
      WithClean(LastEntries(lines), ip);
      ParseJoin(With(LastEntries(lines), ip));
    } else {
      var line := KEY + Join(current + [ip]);
      TailStays(current, ip);
      NotLockdown();
      ParseJoin(current + [ip]);
      KeyLinesGrow(lines, line);
      KeyLinesGrow(lines + [line], LOCKDOWN);
      LastOfGrown(lines, line);
      LastOfGrown(lines + [line], LOCKDOWN);
      assert lines + [line] + [LOCKDOWN] == lines + [line, LOCKDOWN];
    }
  }

  /** One turn of the loop over the lines. */
  lemma RewriteStep(a: seq<string>, line: string, current: seq<string>, ip: string)
    ensures RewriteAll(a + [line], ip) == RewriteAll(a, ip) + [RewriteLine(line, ip)]
    ensures HasKeyLine(a + [line]) <==> HasKeyLine(a) || IsKeyLine(line)
    ensures LoopMerged(a + [line], current, ip) ==
            if IsKeyLine(line) then With(EntriesOf(line), ip) else LoopMerged(a, current, ip)
  {
    RewriteAllAppend(a, [line], ip);
    assert RewriteAll([line], ip) == [RewriteLine(line, ip)];
    KeyLinesGrow(a, line);
    if HasKeyLine(a + [line]) {
      LastOfGrown(a, line);
    }
  }

  /** What the loop holds as the merged list after some lines. */
  function LoopMerged(a: seq<string>, current: seq<string>, ip: string): seq<string> {
    if HasKeyLine(a) then With(LastEntries(a), ip) else current
  }

  /** The state of the loop after some lines. */
  predicate Handled(done: seq<string>, current: seq<string>, ip: string, out: seq<string>, merged: seq<string>,
                    updated: bool)
  {
    out == RewriteAll(done, ip) && merged == LoopMerged(done, current, ip) && updated == HasKeyLine(done)
  }

  lemma HandledStep(done: seq<string>, line: string, current: seq<string>, ip: string, out: seq<string>,
                    merged: seq<string>, updated: bool)
    requires Handled(done, current, ip, out, merged, updated)
    ensures IsKeyLine(line) ==>
              var entries := With(EntriesOf(line), ip);
              Handled(done + [line], current, ip, out + [KEY + Join(entries)], entries, true)
    ensures !IsKeyLine(line) ==> Handled(done + [line], current, ip, out + [line], merged, updated)
  {
    RewriteStep(done, line, current, ip);
  }

  /** The entries of an allowlist line, with the address. */
  method Existing(line: string, ip: string) returns (existing: seq<string>)
    requires IsKeyLine(line)
    ensures existing == With(EntriesOf(line), ip)
  {
    existing := Parse(line[|KEY|..]);
    if ip !in existing {
      existing := existing + [ip];
    }
  }

  /** The loop over the lines: an allowlist line is replaced, any other is copied. */
  method RewriteLines(lines: seq<string>, current: seq<string>, ip: string)
    returns (out: seq<string>, merged: seq<string>, updated: bool)
    ensures out == RewriteAll(lines, ip) && updated == HasKeyLine(lines)
    ensures merged == LoopMerged(lines, current, ip)
  {
    updated, out, merged := false, [], current;
    ghost var done: seq<string> := [];
    var i := 0;
    while i < |lines|
      invariant 0 <= i <= |lines| && done == lines[..i]
      invariant Handled(done, current, ip, out, merged, updated)
    {
      var line := lines[i];
      HandledStep(done, line, current, ip, out, merged, updated);
      done := done + [line];
      if IsKeyLine(line) {
        merged := Existing(line, ip);
        out := out + [KEY + Join(merged)];
        updated := true;
      } else {
        out := out + [line];
      }
      i := i + 1;
    }
    assert done == lines;
  }

  // ----- The running process -----

  /** The environment file, if there is one, and what the process trusts. */
  datatype Env = Env(file: Option<seq<string>>, trusted: seq<string>)

  function Append(env: Env, ip: string): Env {
    if ip in env.trusted then env
    else
      match env.file
      case None => env.(trusted := env.trusted + [ip])
      case Some(lines) => Env(Some(Rewrite(lines, env.trusted, ip)), Merged(lines, env.trusted, ip))
  }

  function AppendAll(env: Env, ips: seq<string>): Env
    decreases |ips|
  {
    if ips == [] then env else AppendAll(Append(env, ips[0]), ips[1..])
  }

  /** The file has no list, or its last one is what the process trusts. */
  predicate Agrees(env: Env) {
    && AllClean(env.trusted)
    && (env.file.Some? && HasKeyLine(env.file.value) ==> LastEntries(env.file.value) == env.trusted)
  }

  lemma AppendAgrees(env: Env, ip: string)
    requires AllClean(env.trusted) && Clean(ip)
    ensures ip in Append(env, ip).trusted && AllClean(Append(env, ip).trusted)
    ensures Agrees(env) ==> Agrees(Append(env, ip)) && env.trusted <= Append(env, ip).trusted
    ensures ip !in env.trusted ==> Agrees(Append(env, ip))
  {
    if ip !in env.trusted && env.file.Some? {
      AfterRewrite(env.file.value, env.trusted, ip);
      if HasKeyLine(env.file.value) {
        MergedIsLast(env.file.value, ip);
        WithClean(LastEntries(env.file.value), ip);
      }
    }
  }

  /** A new address gets into the file, whose last list then is what the process trusts; without a file only the
      process is told. */
  lemma FileKeepsUp(env: Env, ip: string)
    requires AllClean(env.trusted) && Clean(ip) && ip !in env.trusted
    ensures var after := Append(env, ip);
            && ip in after.trusted
            && (env.file.None? ==> after == Env(None, env.trusted + [ip]))
            && (env.file.Some? ==>
                  && after.file.Some? && HasKeyLine(after.file.value)
                  && LastEntries(after.file.value) == after.trusted)
  {
    AppendAgrees(env, ip);
    if env.file.Some? {
      AfterRewrite(env.file.value, env.trusted, ip);
    }
  }

  /** Once file and process agree, whatever is appended later, nobody is ever forgotten and everybody appended
      is trusted. */
  lemma {:induction false} NobodyForgottenLater(env: Env, ips: seq<string>)
    requires Agrees(env) && AllClean(ips)
    ensures var last := AppendAll(env, ips);
            Agrees(last) && env.trusted <= last.trusted && forall i :: 0 <= i < |ips| ==> ips[i] in last.trusted
    decreases |ips|
  {
    if ips != [] {
      AppendAgrees(env, ips[0]);
      NobodyForgottenLater(Append(env, ips[0]), ips[1..]);
      var last := AppendAll(env, ips);
      forall i | 0 <= i < |ips| ensures ips[i] in last.trusted {
        if i > 0 {
          assert ips[i] == ips[1..][i - 1];
        }
      }
    }
  }

  /** While they agree, nobody is trusted who was not before and was not appended. */
  lemma {:induction false} OnlyThoseAppended(env: Env, ips: seq<string>)
    requires Agrees(env) && AllClean(ips)
    ensures forall x :: x in AppendAll(env, ips).trusted ==> x in env.trusted || x in ips
    decreases |ips|
  {
    if ips != [] {
      AppendAgrees(env, ips[0]);
      OnlyThoseAppended(Append(env, ips[0]), ips[1..]);
      assert forall x :: x in ips[1..] ==> x in ips;
    }
  }

  /** The file lacks somebody that the process trusts. */
  predicate Lacks(env: Env, x: string) {
    env.file.Some? && HasKeyLine(env.file.value) && x !in LastEntries(env.file.value)
  }

  lemma FirstAppend(env: Env, ip: string, x: string)
    requires ip !in env.trusted && x in env.trusted
    ensures x in Append(env, ip).trusted <==> !Lacks(env, x)
  {
  }

  /** And they agree after the first address that is new to the process: only that append can forget somebody,
      and over any appends it is exactly those whom the file's last list lacks and who are not appended again. */
  lemma OnlyTheFirstForgets(env: Env, ip: string, ips: seq<string>, x: string)
    requires AllClean(env.trusted) && Clean(ip) && ip !in env.trusted && AllClean(ips) && x in env.trusted
    ensures x in AppendAll(Append(env, ip), ips).trusted <==> !Lacks(env, x) || x in ips
  {
    var first := Append(env, ip);
    AppendAgrees(env, ip);
    FirstAppend(env, ip, x);
    NobodyForgottenLater(first, ips);
    OnlyThoseAppended(first, ips);
    var last := AppendAll(first, ips);
    if x in first.trusted {
      assert x in last.trusted;
    }
    if x in ips {
      var i :| 0 <= i < |ips| && ips[i] == x;
    }
  }

  /** The environment file, if there is one, and the process's own variable, which wins over it. */
  class AdminEnvironment {
    var file: Option<seq<string>>
    var variable: string

    /** What the settings list. */
    function Allowed(): seq<string>
      reads this
    {
      Parse(variable)
    }

    constructor (file: Option<seq<string>>, variable: string)
      ensures this.file == file && this.variable == variable
    {
      this.file, this.variable := file, variable;
    }

    /** `_append_admin_allowed_ip`: afterwards the process trusts the address and the file, if any, agrees
        with the process; and the file is untouched if the address was trusted before. */
    method AppendAdminAllowedIp(ip: string)
      requires Clean(ip)
      modifies this
      ensures Env(file, Allowed()) == Append(old(Env(file, Allowed())), ip)
      ensures ip in Allowed()
      ensures ip in old(Allowed()) ==> file == old(file) && Allowed() == old(Allowed())
      ensures ip !in old(Allowed()) && old(file).None? ==> file.None? && Allowed() == old(Allowed()) + [ip]
      ensures ip !in old(Allowed()) && old(file).Some? ==>
                && file == Some(Rewrite(old(file).value, old(Allowed()), ip))
                && Allowed() == Merged(old(file).value, old(Allowed()), ip)
                && HasKeyLine(file.value) && LastEntries(file.value) == Allowed()
    {
      var current := Parse(variable);
      ParseIsClean(variable);
      if ip in current {
        variable := Join(current);
        return;
      }
      if file.None? {
        ParseJoin(current + [ip]);
        variable := Join(current + [ip]);
        return;
      }
      var lines := file.value;
      var out, merged, updated := RewriteLines(lines, current, ip);
      if !updated {
        merged := current + [ip];
        out := out + [KEY + Join(merged)];
        out := out + [LOCKDOWN];
        NothingToRewrite(lines, ip);
        assert out == lines + [KEY + Join(merged), LOCKDOWN];
      }
      AfterRewrite(lines, current, ip);
      file := Some(out);
      variable := Join(merged);
    }
  }
}
