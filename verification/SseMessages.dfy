/** What the sender prints the reader reads back: messages on data lines, up to the end mark. */
module SseMessages {
  import opened Options
  import opened SseReaders

  // ----- What one block means -----

  predicate AllSpace(t: string) { forall i :: 0 <= i < |t| ==> IsSpace(t[i]) }

  predicate OneLine(t: string) { '\n' !in t }

  predicate AllOneLine(ls: seq<string>) { forall i :: 0 <= i < |ls| ==> OneLine(ls[i]) }

  /** No white space at either end. */
  predicate Tight(t: string) { t != "" ==> !IsSpace(t[0]) && !IsSpace(t[|t| - 1]) }

  /** No data line: whatever white space it begins with, "data:" does not follow. */
  ghost predicate NoData(l: string) {
    forall i :: 0 <= i <= |l| && AllSpace(l[..i]) ==> !("data:" <= l[i..])
  }

  function JoinLines(ls: seq<string>): string
    requires ls != []
  {
    if |ls| == 1 then ls[0] else ls[0] + "\n" + JoinLines(ls[1..])
  }

  lemma {:induction false} LinesOfLine(l: string, rest: string)
    requires OneLine(l)
    ensures Lines(l) == [l]
    ensures Lines(l + "\n" + rest) == [l] + Lines(rest)
  {
    if l == "" {
      assert ("" + "\n" + rest)[1..] == rest;
    } else {
      LinesOfLine(l[1..], rest);
      assert (l + "\n" + rest)[1..] == l[1..] + "\n" + rest;
      assert [l[0]] + l[1..] == l;
      assert ([l[1..]] + Lines(rest))[1..] == Lines(rest);
    }
  }

  lemma {:induction false} LinesOfJoin(ls: seq<string>)
    requires ls != [] && AllOneLine(ls)
    ensures Lines(JoinLines(ls)) == ls
  {
    if |ls| == 1 {
      LinesOfLine(ls[0], "");
    } else {
      LinesOfJoin(ls[1..]);
      LinesOfLine(ls[0], JoinLines(ls[1..]));
    }
  }

  lemma {:induction false} TrimStartDrops(pad: string, t: string)
    requires AllSpace(pad) && (t != "" ==> !IsSpace(t[0]))
    ensures TrimStart(pad + t) == t
  {
    if pad == "" {
      assert "" + t == t;
    } else {
      assert (pad + t)[1..] == pad[1..] + t;
      TrimStartDrops(pad[1..], t);
    }
  }

  lemma {:induction false} TrimEndDrops(t: string, pad: string)
    requires AllSpace(pad) && (t != "" ==> !IsSpace(t[|t| - 1]))
    ensures TrimEnd(t + pad) == t
  {
    if pad == "" {
      assert t + "" == t;
    } else {
      var n := |pad| - 1;
      assert (t + pad)[..|t + pad| - 1] == t + pad[..n] && (t + pad)[|t + pad| - 1] == pad[n];
      TrimEndDrops(t, pad[..n]);
    }
  }

  lemma TrimDrops(before: string, t: string, after: string)
    requires AllSpace(before) && AllSpace(after) && t != "" && Tight(t)
    ensures Trim(before + t + after) == t
  {
    assert before + t + after == before + (t + after);
    assert (t + after)[0] == t[0];
    TrimStartDrops(before, t + after);
    TrimEndDrops(t, after);
  }

  lemma {:induction false} TrimStartIs(t: string) returns (i: nat)
    ensures i <= |t| && AllSpace(t[..i]) && TrimStart(t) == t[i..]
  {
    if t != "" && IsSpace(t[0]) {
      var k := TrimStartIs(t[1..]);
      i := k + 1;
      assert t[..i] == [t[0]] + t[1..][..k] && t[i..] == t[1..][k..];
    } else {
      i := 0;
    }
  }

  lemma {:induction false} TrimEndIs(t: string)
    ensures TrimEnd(t) <= t
  {
    if t != "" && IsSpace(t[|t| - 1]) {
      TrimEndIs(t[..|t| - 1]);
    }
  }

  lemma NoDataIsSkipped(l: string)
    requires NoData(l)
    ensures !(DATA <= Trim(l))
  {
    var i := TrimStartIs(l);
    TrimEndIs(l[i..]);
    assert !("data:" <= l[i..]);
  }

  lemma {:induction false} FirstDataLineIs(before: seq<string>, line: string, after: seq<string>)
    requires forall i :: 0 <= i < |before| ==> NoData(before[i])
    requires DATA <= Trim(line)
    ensures FirstDataLine(before + [line] + after) == Some(Trim(line))
  {
    if before == [] {
      assert ([] + [line] + after)[0] == line;
    } else {
      NoDataIsSkipped(before[0]);
      FirstDataLineIs(before[1..], line, after);
      assert (before + [line] + after)[1..] == before[1..] + [line] + after;
    }
  }

  /** What a message amounts to. */
  function Meaning<E>(x: string, parse: string -> Option<E>): Item<E> {
    if x == "[DONE]" then Stop else match parse(x) case None => Nothing case Some(e) => Item.Event(e)
  }

  predicate Message(x: string) { OneLine(x) && Tight(x) }

  lemma PayloadIs(sep: string, x: string)
    requires Tight(x) && (sep == "" || (|sep| == 1 && IsSpace(sep[0]))) && (x == "" ==> sep == "")
    ensures DATA <= DATA + sep + x && Payload(DATA + sep + x) == x
  {
    var line := DATA + sep + x;
    assert line[|DATA|..] == sep + x;
    assert (sep + x)[|sep|..] == x;
  }

  lemma DataLineHolds(pad: string, sep: string, x: string, tail: string)
    requires AllSpace(pad) && AllSpace(tail) && Tight(x) && (sep == "" || (|sep| == 1 && IsSpace(sep[0])))
    ensures var line := Trim(pad + "data:" + sep + x + tail); DATA <= line && Payload(line) == x
  {
    var line := pad + "data:" + sep + x + tail;
    DataIsTight();
    if x == "" {
      assert line == pad + DATA + (sep + tail);
      TrimDrops(pad, DATA, sep + tail);
      PayloadIs("", "");
      assert DATA + "" + "" == DATA;
    } else {
      var core := DATA + sep + x;
      assert line == pad + core + tail;
      assert core[0] == DATA[0] && core[|core| - 1] == x[|x| - 1];
      TrimDrops(pad, core, tail);
      PayloadIs(sep, x);
    }
  }

  lemma DataOnOneLine(pad: string, sep: string, x: string, tail: string)
    requires OneLine(pad) && OneLine(sep) && OneLine(x) && OneLine(tail)
    ensures OneLine(pad + "data:" + sep + x + tail)
  {
  }

  /** A block means the message on its first data line: lines before it without data and lines after it do not
      count, nor does white space around the line, nor one white space behind the colon. */
  lemma BlockMeans<E>(before: seq<string>, pad: string, sep: string, x: string, tail: string, after: seq<string>,
                      parse: string -> Option<E>)
    requires AllOneLine(before) && AllOneLine(after) && forall i :: 0 <= i < |before| ==> NoData(before[i])
    requires AllSpace(pad) && OneLine(pad) && AllSpace(tail) && OneLine(tail) && Message(x)
    requires sep == "" || (|sep| == 1 && IsSpace(sep[0]) && OneLine(sep))
    ensures ItemOf(JoinLines(before + [pad + "data:" + sep + x + tail] + after), parse) == Meaning(x, parse)
  {
    var line := pad + "data:" + sep + x + tail;
    DataOnOneLine(pad, sep, x, tail);
    LinesOfJoin(before + [line] + after);
    DataLineHolds(pad, sep, x, tail);
    FirstDataLineIs(before, line, after);
  }

  lemma DataIsTight()
    ensures Tight(DATA)
  {
    assert !IsSpace('d') && !IsSpace(':');
  }

  // ----- Print and read -----

  /** `yield f"data: {x}\n\n"` */
  function Sent(x: string): string { "data: " + x + "\n\n" }

  function AllSent(xs: seq<string>): string {
    if xs == [] then "" else Sent(xs[0]) + AllSent(xs[1..])
  }

  /** The messages that parse, up to the first end mark. */
  function Received<E>(xs: seq<string>, parse: string -> Option<E>): seq<E> {
    if xs == [] || xs[0] == "[DONE]" then []
    else (match parse(xs[0]) case None => [] case Some(e) => [e]) + Received(xs[1..], parse)
  }

  lemma CutCons(b: string, bs: seq<string>, t: string)
    requires NoBlankLine(b + "\n") && IsCut(bs, t)
    ensures IsCut([b] + bs, b + "\n\n" + t)
  {
    Tail(b, bs);
    var cs := [b] + bs;
    forall i | 0 <= i < |cs| - 1 ensures NoBlankLine(cs[i] + "\n") {
      if i > 0 {
        assert cs[i] == bs[i - 1];
      }
    }
    assert cs[|cs| - 1] == bs[|bs| - 1];
  }

  lemma CutFirst(b: string, rest: string)
    requires NoBlankLine(b + "\n")
    ensures Blocks(b + "\n\n" + rest) == [b] + Blocks(rest)
  {
    BlocksCut(rest);
    CutCons(b, Blocks(rest), rest);
    CutUnique([b] + Blocks(rest), b + "\n\n" + rest);
  }

  lemma MessageBlock<E>(x: string, rest: string, parse: string -> Option<E>)
    requires Message(x)
    ensures Blocks(Sent(x) + rest) == ["data: " + x] + Blocks(rest)
    ensures ItemOf("data: " + x, parse) == Meaning(x, parse)
  {
    var b := "data: " + x;
    assert Sent(x) + rest == b + "\n\n" + rest;
    assert OneLine(b);
    forall i | 0 <= i < |b + "\n"| - 1 ensures !((b + "\n")[i] == '\n' && (b + "\n")[i + 1] == '\n') {
      assert (b + "\n")[i] == b[i];
    }
    CutFirst(b, rest);
    assert IsSpace(" "[0]);
    BlockMeans([], "", " ", x, "", [], parse);
    assert "" + "data:" + " " + x + "" == b && [] + [b] + [] == [b];
  }

  lemma OneBlockMore<E>(b: string, t: string, more: string, parse: string -> Option<E>)
    requires Blocks(t) == [b] + Blocks(more)
    ensures WholeText(t, parse) ==
              match ItemOf(b, parse)
              case Stop => []
              case Nothing => WholeText(more, parse)
              case Event(e) => [e] + WholeText(more, parse)
  {
    var bs := Blocks(more);
    assert Front([b] + bs) == [b] + Front(bs);
    assert ([b] + Front(bs))[1..] == Front(bs);
  }

  lemma ReceivedFirst<E>(xs: seq<string>, parse: string -> Option<E>)
    requires xs != []
    ensures Received([xs[0]], parse) ==
              match Meaning(xs[0], parse) case Event(e) => [e] case _ => []
    ensures xs[0] != "[DONE]" ==> Received(xs, parse) == Received([xs[0]], parse) + Received(xs[1..], parse)
  {
    assert [xs[0]][1..] == [];
  }

  /** Messages without line breaks and without white space at their ends are read back as they were sent: those
      that parse, in order, up to the first end mark; what follows is read on, and ignored after the mark. */
  lemma {:induction false} ReadBack<E>(xs: seq<string>, rest: string, parse: string -> Option<E>)
    requires forall i :: 0 <= i < |xs| ==> Message(xs[i])
    ensures WholeText(AllSent(xs) + rest, parse) ==
              Received(xs, parse) + if "[DONE]" in xs then [] else WholeText(rest, parse)
  {
    if xs == [] {
      assert "" + rest == rest;
    } else {
      var x, more := xs[0], AllSent(xs[1..]) + rest;
      assert AllSent(xs) + rest == Sent(x) + more;
      MessageBlock(x, more, parse);
      OneBlockMore("data: " + x, AllSent(xs) + rest, more, parse);
      ReadBack(xs[1..], rest, parse);
      ReceivedFirst(xs, parse);
      var behind := if "[DONE]" in xs[1..] then [] else WholeText(rest, parse);
      Associate(Received([x], parse), Received(xs[1..], parse), behind);
    }
  }

  lemma MarkIsMessage()
    ensures Message("[DONE]")
  {
    assert !IsSpace('[') && !IsSpace(']');
  }

  lemma MarkReadsAsNothing<E>(parse: string -> Option<E>)
    ensures WholeText(Sent("[DONE]"), parse) == []
  {
    MarkIsMessage();
    var xs := ["[DONE]"];
    ReadBack(xs, "", parse);
    assert xs[1..] == [] && AllSent(xs) == Sent("[DONE]") + "";
    assert AllSent(xs) + "" == Sent("[DONE]");
  }

  lemma {:induction false} ReceivedAll<E>(xs: seq<string>, parse: string -> Option<E>)
    requires forall i :: 0 <= i < |xs| ==> xs[i] != "[DONE]" && parse(xs[i]).Some?
    ensures Received(xs, parse) == seq(|xs|, i requires 0 <= i < |xs| => parse(xs[i]).value)
  {
    if xs != [] {
      ReceivedAll(xs[1..], parse);
    }
  }

  /** A whole answer of the server, cut into pieces anyhow: the events in order. */
  lemma AnswerIsReadBack<E>(xs: seq<string>, pieces: seq<string>, parse: string -> Option<E>)
    requires forall i :: 0 <= i < |xs| ==> Message(xs[i]) && xs[i] != "[DONE]" && parse(xs[i]).Some?
    requires Concat(pieces) == AllSent(xs) + Sent("[DONE]")
    ensures WholeText(Concat(pieces), parse) == seq(|xs|, i requires 0 <= i < |xs| => parse(xs[i]).value)
  {
    ReadBack(xs, Sent("[DONE]"), parse);
    MarkReadsAsNothing(parse);
    ReceivedAll(xs, parse);
  }
}
