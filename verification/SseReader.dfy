/** The incremental Server-Sent Event reader: it cuts a growing buffer on blank lines and yields as it
    goes. Its answer is that of cutting the whole text once. */
module SseReaders {
  import opened Options

  // ----- Cutting text -----

  /** A character put in front of the first piece. */
  function Glue(c: char, bs: seq<string>): seq<string>
    requires |bs| >= 1
  {
    [[c] + bs[0]] + bs[1..]
  }

  function Last<T>(bs: seq<T>): T
    requires |bs| >= 1
  {
    bs[|bs| - 1]
  }

  function Front<T>(bs: seq<T>): seq<T>
    requires |bs| >= 1
  {
    bs[..|bs| - 1]
  }

  lemma FrontAndLast<T>(bs: seq<T>)
    requires |bs| >= 1
    ensures bs == Front(bs) + [Last(bs)]
  {
  }

  lemma Snoc<T>(bs: seq<T>, b: T)
    ensures Front(bs + [b]) == bs && Last(bs + [b]) == b
  {
  }

  lemma Associate<T>(a: seq<T>, b: seq<T>, c: seq<T>)
    ensures (a + b) + c == a + (b + c)
  {
  }

  /** `text.split("\n\n")`: leftmost cuts, and the rest as the last piece. */
  function Blocks(t: string): (bs: seq<string>)
    ensures |bs| >= 1
  {
    if |t| < 2 then [t]
    else if t[0] == '\n' && t[1] == '\n' then [""] + Blocks(t[2..])
    else Glue(t[0], Blocks(t[1..]))
  }

  function Lines(t: string): (ls: seq<string>)
    ensures |ls| >= 1
  {
    if t == "" then [""]
    else
      if t[0] == '\n' then [""] + Lines(t[1..]) else Glue(t[0], Lines(t[1..]))
  }

  /** The characters `trim` and `\s` take for white space. */
  predicate IsSpace(c: char) {
    || '\t' <= c <= '\r' || c == ' ' || c == '\U{00A0}' || c == '\U{1680}' || '\U{2000}' <= c <= '\U{200A}'
    || c == '\U{2028}' || c == '\U{2029}' || c == '\U{202F}' || c == '\U{205F}' || c == '\U{3000}' || c == '\U{FEFF}'
  }

  /** These are the code points that ECMAScript calls white space and line terminators. */
  lemma SpacesAre(c: char)
    ensures IsSpace(c) <==>
              var n := c as int;
              n in {0x9, 0xA, 0xB, 0xC, 0xD, 0x20, 0xA0, 0x1680, 0x2028, 0x2029, 0x202F, 0x205F, 0x3000, 0xFEFF}
              || 0x2000 <= n < 0x200B
  {
  }

  function TrimStart(t: string): string {
    if t != "" && IsSpace(t[0]) then TrimStart(t[1..]) else t
  }

  function TrimEnd(t: string): string {
    if t != "" && IsSpace(t[|t| - 1]) then TrimEnd(t[..|t| - 1]) else t
  }

  function Trim(t: string): string { TrimEnd(TrimStart(t)) }

  const DATA := "data:"

  function FirstDataLine(ls: seq<string>): (line: Option<string>)
    ensures line.Some? ==> DATA <= line.value
  {
    if ls == [] then None
    else if DATA <= Trim(ls[0]) then Some(Trim(ls[0]))
    else FirstDataLine(ls[1..])
  }

  /** `line.replace(/^data:\s?/, "")` */
  function Payload(line: string): string
    requires DATA <= line
  {
    var rest := line[|DATA|..];
    if rest != "" && IsSpace(rest[0]) then rest[1..] else rest
  }

  /** What a block amounts to: nothing, the end mark, or an event. `parse` is JSON parsing, None when
      it throws. */
  datatype Item<E> = Nothing | Stop | Event(e: E)

  function ItemOf<E>(block: string, parse: string -> Option<E>): Item<E> {
    match FirstDataLine(Lines(block))
    case None => Nothing
    case Some(line) =>
      var data := Payload(line);
      if data == "[DONE]" then Stop
      else match parse(data)
        case None => Nothing
        case Some(e) => Event(e)
  }

  /** The events of some blocks up to the end mark, and whether the end mark was met. */
  function Events<E>(bs: seq<string>, parse: string -> Option<E>): (seq<E>, bool) {
    if bs == [] then ([], false) else
      match ItemOf(bs[0], parse)
      case Stop => ([], true)
      case Nothing => Events(bs[1..], parse)
      case Event(e) => var (es, stopped) := Events(bs[1..], parse); ([e] + es, stopped)
  }

  /** The reference reading of a whole text: cut it once, drop the unfinished last block, stop at the
      end mark. */
  function WholeText<E>(t: string, parse: string -> Option<E>): seq<E> {
    Events(Front(Blocks(t)), parse).0
  }

  function Concat(pieces: seq<string>): string {
    if pieces == [] then "" else pieces[0] + Concat(pieces[1..])
  }

  // ----- The cut, characterised -----

  predicate NoBlankLine(t: string) {
    forall i :: 0 <= i < |t| - 1 ==> !(t[i] == '\n' && t[i + 1] == '\n')
  }

  function Join(bs: seq<string>): string
    requires |bs| >= 1
  {
    if |bs| == 1 then bs[0] else bs[0] + "\n\n" + Join(bs[1..])
  }

  /** `bs` cuts `t` at blank lines, each cut as early as possible. */
  ghost predicate IsCut(bs: seq<string>, t: string) {
    && |bs| >= 1 && Join(bs) == t
    && (forall i :: 0 <= i < |bs| - 1 ==> NoBlankLine(bs[i] + "\n"))
    && NoBlankLine(bs[|bs| - 1])
  }

  lemma PrependClean(c: char, t: string)
    requires NoBlankLine(t) && !(c == '\n' && t != "" && t[0] == '\n')
    ensures NoBlankLine([c] + t)
  {
    forall i | 0 <= i < |[c] + t| - 1 ensures !(([c] + t)[i] == '\n' && ([c] + t)[i + 1] == '\n') {
      if i > 0 {
        assert !(t[i - 1] == '\n' && t[i] == '\n');
      }
    }
  }

  lemma CutAtSeparator(bs: seq<string>, t: string)
    requires IsCut(bs, t)
    ensures IsCut([""] + bs, "\n\n" + t)
  {
    assert ([""] + bs)[1..] == bs;
    assert "" + "\n\n" + t == "\n\n" + t;
  }

  lemma Tail<T>(b: T, bs: seq<T>)
    ensures ([b] + bs)[1..] == bs && ([b] + bs)[0] == b
  {
  }

  lemma JoinGlue(c: char, bs: seq<string>)
    requires |bs| >= 1
    ensures Join(Glue(c, bs)) == [c] + Join(bs)
  {
    Tail([c] + bs[0], bs[1..]);
    if |bs| > 1 {
      Associate([c], bs[0], "\n\n");
      Associate([c], bs[0] + "\n\n", Join(bs[1..]));
    }
  }

  lemma CutGlue(c: char, bs: seq<string>, t: string)
    requires IsCut(bs, t) && !(c == '\n' && t != "" && t[0] == '\n')
    ensures IsCut(Glue(c, bs), [c] + t)
  {
    JoinGlue(c, bs);
    var gs := Glue(c, bs);
    if |bs| == 1 {
      PrependClean(c, bs[0]);
    } else {
      assert t[0] == (bs[0] + "\n")[0];
      PrependClean(c, bs[0] + "\n");
      assert [c] + (bs[0] + "\n") == gs[0] + "\n";
      forall i | 0 <= i < |gs| - 1 ensures NoBlankLine(gs[i] + "\n") {
        if i > 0 {
          assert gs[i] == bs[i];
        }
      }
    }
  }

  lemma {:induction false} BlocksCut(t: string)
    ensures IsCut(Blocks(t), t)
    decreases |t|
  {
    if |t| >= 2 {
      if t[0] == '\n' && t[1] == '\n' {
        BlocksCut(t[2..]);
        CutAtSeparator(Blocks(t[2..]), t[2..]);
        assert t == "\n\n" + t[2..];
      } else {
        BlocksCut(t[1..]);
        CutGlue(t[0], Blocks(t[1..]), t[1..]);
        assert t == [t[0]] + t[1..];
      }
    }
  }

  lemma DropFirst(b: string)
    requires b != "" && NoBlankLine(b)
    ensures NoBlankLine(b[1..])
  {
    forall i | 0 <= i < |b[1..]| - 1 ensures !(b[1..][i] == '\n' && b[1..][i + 1] == '\n') {
      assert !(b[i + 1] == '\n' && b[i + 2] == '\n');
    }
  }

  /** There is only one such cut, so `Blocks` is determined by what it means. */
  lemma {:induction false} CutUnique(bs: seq<string>, t: string)
    requires IsCut(bs, t)
    ensures bs == Blocks(t)
    decreases |t|
  {
    if |bs| == 1 {
      if |t| >= 2 {
        assert !(t[0] == '\n' && t[1] == '\n');
        DropFirst(t);
        CutUnique([t[1..]], t[1..]);
        assert [t[0]] + t[1..] == t && [t[1..]][1..] == [];
        assert bs == [t];
      }
    } else {
      var rest := bs[1..];
      assert t == bs[0] + "\n\n" + Join(rest);
      if bs[0] == "" {
        assert t[2..] == Join(rest);
        CutUnique(rest, t[2..]);
        assert bs == [""] + rest;
      } else {
        var first := bs[0];
        assert (first + "\n")[0] == t[0] && (first + "\n")[1] == t[1];
        assert NoBlankLine(first + "\n");
        DropFirst(first + "\n");
        var shorter := [first[1..]] + rest;
        assert (first + "\n")[1..] == first[1..] + "\n";
        assert shorter[1..] == rest;
        assert t[1..] == first[1..] + "\n\n" + Join(rest);
        CutUnique(shorter, t[1..]);
        assert [t[0]] + first[1..] == first;
        assert bs == Glue(t[0], shorter);
      }
    }
  }

  /** Cutting what has been read and then the remainder with what follows is cutting it all: a
      separator that straddles two reads is found all the same. */
  lemma {:induction false} BlocksAppend(a: string, b: string)
    ensures Blocks(a + b) == Front(Blocks(a)) + Blocks(Last(Blocks(a)) + b)
    decreases |a|
  {
    if |a| >= 2 {
      if a[0] == '\n' && a[1] == '\n' {
        BlocksAppend(a[2..], b);
        CutAppend(a, b);
      } else {
        BlocksAppend(a[1..], b);
        assert (a + b)[1..] == a[1..] + b;
        GlueAppend(a, b);
      }
    } else {
      assert Front([a]) == [];
    }
  }

  lemma CutAppend(a: string, b: string)
    requires |a| >= 2 && a[0] == '\n' && a[1] == '\n'
    requires Blocks(a[2..] + b) == Front(Blocks(a[2..])) + Blocks(Last(Blocks(a[2..])) + b)
    ensures Blocks(a + b) == Front(Blocks(a)) + Blocks(Last(Blocks(a)) + b)
  {
    var rest := Blocks(a[2..]);
    assert (a + b)[2..] == a[2..] + b;
    assert Blocks(a) == [""] + rest && Blocks(a + b) == [""] + Blocks(a[2..] + b);
    ConsFront("", rest, Blocks(Last(rest) + b));
  }

  lemma ConsFront(x: string, bs: seq<string>, more: seq<string>)
    requires bs != []
    ensures Last([x] + bs) == Last(bs)
    ensures [x] + (Front(bs) + more) == Front([x] + bs) + more
  {
    assert Front([x] + bs) == [x] + Front(bs);
  }

  lemma GlueAppend(a: string, b: string)
    requires |a| >= 2 && !(a[0] == '\n' && a[1] == '\n')
    requires Blocks(a[1..] + b) == Front(Blocks(a[1..])) + Blocks(Last(Blocks(a[1..])) + b)
    ensures Glue(a[0], Blocks(a[1..] + b)) == Front(Blocks(a)) + Blocks(Last(Blocks(a)) + b)
  {
    var rest := Blocks(a[1..]);
    if |rest| == 1 {
      BlocksCut(a[1..]);
      assert [a[0]] + a[1..] == a && rest == [a[1..]] && rest[1..] == [];
      assert Blocks(a) == [a];
      assert (a + b)[1..] == a[1..] + b;
      assert Front([a]) == [];
    } else {
      GlueParts(a[0], rest, Blocks(Last(rest) + b));
    }
  }

  lemma GlueParts(c: char, bs: seq<string>, more: seq<string>)
    requires |bs| >= 2
    ensures Last(Glue(c, bs)) == Last(bs)
    ensures Front(Glue(c, bs)) == Glue(c, Front(bs))
    ensures Glue(c, Front(bs) + more) == Glue(c, Front(bs)) + more
  {
  }

  // ----- Events over blocks and pieces -----

  lemma {:induction false} EventsConcat<E>(a: seq<string>, b: seq<string>, parse: string -> Option<E>)
    ensures Events(a, parse).1 ==> Events(a + b, parse) == Events(a, parse)
    ensures !Events(a, parse).1 ==>
              Events(a + b, parse) == (Events(a, parse).0 + Events(b, parse).0, Events(b, parse).1)
  {
    if a == [] {
      assert a + b == b && [] + Events(b, parse).0 == Events(b, parse).0;
    } else {
      var rest := a[1..];
      EventsConcat(rest, b, parse);
      Tail(a[0], rest + b);
      assert a + b == [a[0]] + (rest + b);
      match ItemOf(a[0], parse)
      case Event(e) => Associate([e], Events(rest, parse).0, Events(b, parse).0);
      case _ =>
    }
  }

  lemma EventsOne<E>(block: string, parse: string -> Option<E>)
    ensures Events([block], parse) ==
            match ItemOf(block, parse)
            case Stop => ([], true)
            case Nothing => ([], false)
            case Event(e) => ([e], false)
  {
    assert [block][1..] == [];
    assert Events<E>([], parse) == ([], false);
    match ItemOf(block, parse)
    case Event(e) => assert [e] + [] == [e];
    case _ =>
  }

  lemma TakeOne<T>(bs: seq<T>, i: nat)
    requires i < |bs|
    ensures bs[..i] + [bs[i]] == bs[..i + 1] && bs[..i + 1] + bs[i + 1..] == bs
  {
  }

  /** The blocks read so far gave `found`; so much more do they give with one more block. */
  lemma EventsGrow<E>(bs: seq<string>, i: nat, parse: string -> Option<E>)
    requires i < |bs| && !Events(bs[..i], parse).1
    ensures var (found, more) := (Events(bs[..i], parse).0, Events([bs[i]], parse));
            && Events(bs[..i + 1], parse) == (found + more.0, more.1)
            && (more.1 ==> Events(bs, parse) == (found + more.0, true))
  {
    TakeOne(bs, i);
    EventsConcat(bs[..i], [bs[i]], parse);
    EventsConcat(bs[..i + 1], bs[i + 1..], parse);
  }

  lemma {:induction false} ConcatOne(pieces: seq<string>, k: nat)
    requires k < |pieces|
    ensures Concat(pieces[..k + 1]) == Concat(pieces[..k]) + pieces[k]
  {
    if k == 0 {
      assert pieces[..1] == [pieces[0]] && pieces[..1][1..] == [];
    } else {
      ConcatOne(pieces[1..], k - 1);
      assert pieces[..k + 1][1..] == pieces[1..][..k] && pieces[..k][1..] == pieces[1..][..k - 1];
    }
  }

  lemma {:induction false} ConcatSplit(a: seq<string>, b: seq<string>)
    ensures Concat(a + b) == Concat(a) + Concat(b)
  {
    if a == [] {
      assert a + b == b;
    } else {
      ConcatSplit(a[1..], b);
      assert (a + b)[1..] == a[1..] + b;
      Associate(a[0], Concat(a[1..]), Concat(b));
    }
  }

  /** Text after the end mark changes nothing. */
  lemma StoppedForGood<E>(a: string, b: string, parse: string -> Option<E>)
    requires Events(Front(Blocks(a)), parse).1
    ensures WholeText(a + b, parse) == WholeText(a, parse)
  {
    BlocksAppend(a, b);
    var more := Blocks(Last(Blocks(a)) + b);
    assert Front(Front(Blocks(a)) + more) == Front(Blocks(a)) + Front(more);
    EventsConcat(Front(Blocks(a)), Front(more), parse);
  }

  /** The response: an error status with its text, a missing body, or the decoded pieces in the order
      in which they are read. */
  datatype Response = Failed(text: string, status: string) | NoBody | Body(pieces: seq<string>)

  datatype Outcome<E> = Yielded(events: seq<E>) | Thrown(message: string)

  method ReadSseStream<E>(response: Response, parse: string -> Option<E>) returns (out: Outcome<E>)
    ensures match response
            case Failed(text, status) =>
              out == Thrown(if text != "" then text else "Request failed (" + status + ")")
            case NoBody => out == Thrown("No response stream")
            case Body(pieces) => out == Yielded(WholeText(Concat(pieces), parse))
  {
    match response
    case Failed(text, status) => out := Thrown(if text != "" then text else "Request failed (" + status + ")");
    case NoBody => out := Thrown("No response stream");
    case Body(pieces) =>
      var yielded := ReadPieces(pieces, parse);
      out := Yielded(yielded);
  }

  /** One more piece: the blocks it completes come after those already handled. */
  lemma PieceRead(text: string, piece: string, cut: seq<string>, buffer: string)
    requires Blocks(text) == cut + [buffer]
    ensures Blocks(text + piece) == cut + Front(Blocks(buffer + piece)) + [Last(Blocks(buffer + piece))]
  {
    BlocksAppend(text, piece);
    Snoc(cut, buffer);
    var bs := Blocks(buffer + piece);
    FrontAndLast(bs);
    Associate(cut, Front(bs), [Last(bs)]);
  }

  /** The read loop. */
  method ReadPieces<E>(pieces: seq<string>, parse: string -> Option<E>) returns (yielded: seq<E>)
    ensures yielded == WholeText(Concat(pieces), parse)
  {
    yielded := [];
    var buffer := "";
    var k := 0;
    ghost var cut: seq<string> := [];  // the blocks handled so far
    while k < |pieces|
      invariant 0 <= k <= |pieces|
      invariant Blocks(Concat(pieces[..k])) == cut + [buffer]
      invariant Events(cut, parse) == (yielded, false)
    {
      ConcatOne(pieces, k);
      PieceRead(Concat(pieces[..k]), pieces[k], cut, buffer);
      var chunks := Blocks(buffer + pieces[k]);
      buffer := Last(chunks);
      chunks := Front(chunks);
      k := k + 1;
      EventsConcat(cut, chunks, parse);
      var found, stopped := Handle(chunks, parse);
      yielded := yielded + found;
      cut := cut + chunks;
      if stopped {
        FinishedEarly(pieces, k, cut, buffer, parse);
        return;
      }
    }
    assert pieces[..k] == pieces;
    assert Front(cut + [buffer]) == cut;
  }

  lemma FinishedEarly<E>(pieces: seq<string>, k: nat, cut: seq<string>, buffer: string, parse: string -> Option<E>)
    requires k <= |pieces| && Blocks(Concat(pieces[..k])) == cut + [buffer] && Events(cut, parse).1
    ensures WholeText(Concat(pieces), parse) == Events(cut, parse).0
  {
    var read, unread := pieces[..k], pieces[k..];
    assert Front(cut + [buffer]) == cut;
    assert pieces == read + unread;
    ConcatSplit(read, unread);
    StoppedForGood(Concat(read), Concat(unread), parse);
    assert WholeText(Concat(read), parse) == Events(cut, parse).0;
  }

  /** The inner loop over complete blocks. */
  method Handle<E>(chunks: seq<string>, parse: string -> Option<E>) returns (found: seq<E>, stopped: bool)
    ensures (found, stopped) == Events(chunks, parse)
  {
    found, stopped := [], false;
    var i := 0;
    while i < |chunks|
      invariant 0 <= i <= |chunks|
      invariant Events(chunks[..i], parse) == (found, false)
    {
      EventsOne(chunks[i], parse);
      EventsGrow(chunks, i, parse);
      assert found + [] == found;
      var line := FirstDataLine(Lines(chunks[i]));
      if line.Some? {
        var data := Payload(line.value);
        if data == "[DONE]" {
          stopped := true;
          return;
        }
        var event := parse(data);
        if event.Some? {
          found := found + [event.value];
        }
      }
      i := i + 1;
    }
    assert chunks[..i] == chunks;
  }
}
