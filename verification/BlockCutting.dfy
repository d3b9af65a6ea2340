/** Lists of lines read as a preamble followed by blocks, each starting at a header line. What a header is,
    and which headers carry the wanted name, are parameters. */
module BlockCutting {

  /** A header and the lines up to the next header. */
  datatype Block<T> = Block(header: T, rest: seq<T>)

  datatype Script<T> = Script(preamble: seq<T>, functions: seq<Block<T>>)

  predicate Plain<T>(ls: seq<T>, isHeader: T -> bool) { forall i :: 0 <= i < |ls| ==> !isHeader(ls[i]) }

  predicate AreBlocks<T>(bs: seq<Block<T>>, isHeader: T -> bool) {
    forall i :: 0 <= i < |bs| ==> isHeader(bs[i].header) && Plain(bs[i].rest, isHeader)
  }

  predicate IsScript<T>(s: Script<T>, isHeader: T -> bool) {
    Plain(s.preamble, isHeader) && AreBlocks(s.functions, isHeader)
  }

  function LinesIn<T>(b: Block<T>): seq<T> { [b.header] + b.rest }

  function Concat<T>(bs: seq<Block<T>>): (ls: seq<T>)
    ensures bs == [] <==> ls == []
    ensures bs != [] ==> ls[0] == bs[0].header
  {
    if bs == [] then [] else LinesIn(bs[0]) + Concat(bs[1..])
  }

  function LinesOf<T>(s: Script<T>): seq<T> { s.preamble + Concat(s.functions) }

  /** How many lines come before the first header. */
  function Run<T>(ls: seq<T>, isHeader: T -> bool): (n: nat)
    ensures n <= |ls|
  {
    if ls == [] || isHeader(ls[0]) then 0 else 1 + Run(ls[1..], isHeader)
  }

  function CutBlocks<T>(ls: seq<T>, isHeader: T -> bool): seq<Block<T>>
    decreases |ls|
  {
    if ls == [] then []
    else
      var n := Run(ls[1..], isHeader);
      [Block(ls[0], ls[1..][..n])] + CutBlocks(ls[1..][n..], isHeader)
  }

  function Cut<T>(ls: seq<T>, isHeader: T -> bool): Script<T> {
    Script(ls[..Run(ls, isHeader)], CutBlocks(ls[Run(ls, isHeader)..], isHeader))
  }

  lemma {:induction false} RunFits<T>(ls: seq<T>, isHeader: T -> bool)
    ensures var n := Run(ls, isHeader); Plain(ls[..n], isHeader) && (n < |ls| ==> isHeader(ls[n]))
  {
    if ls != [] && !isHeader(ls[0]) {
      RunFits(ls[1..], isHeader);
      var n := Run(ls[1..], isHeader);
      assert forall i :: 0 < i < 1 + n ==> ls[i] == ls[1..][..n][i - 1];
    }
  }

  lemma {:induction false} RunOver<T>(pre: seq<T>, ls: seq<T>, isHeader: T -> bool)
    requires Plain(pre, isHeader) && (ls != [] ==> isHeader(ls[0]))
    ensures Run(pre + ls, isHeader) == |pre| && (pre + ls)[..|pre|] == pre && (pre + ls)[|pre|..] == ls
  {
    if pre == [] {
      assert pre + ls == ls;
    } else {
      RunOver(pre[1..], ls, isHeader);
      assert (pre + ls)[1..] == pre[1..] + ls;
    }
  }

  lemma ConcatFirst<T>(b: Block<T>, bs: seq<Block<T>>)
    ensures Concat([b] + bs) == LinesIn(b) + Concat(bs)
  {
    assert ([b] + bs)[1..] == bs;
  }

  lemma ThreeParts<T>(ls: seq<T>, n: nat)
    requires n < |ls|
    ensures LinesIn(Block(ls[0], ls[1..][..n])) + ls[1..][n..] == ls
  {
    var tail := ls[1..];
    assert tail[..n] + tail[n..] == tail;
  }

  lemma {:induction false} ConcatCut<T>(ls: seq<T>, isHeader: T -> bool)
    ensures Concat(CutBlocks(ls, isHeader)) == ls
    decreases |ls|
  {
    if ls != [] {
      var head, tail := ls[0], ls[1..];
      var n := Run(tail, isHeader);
      var rest := tail[n..];
      ConcatCut(rest, isHeader);
      ConcatFirst(Block(head, tail[..n]), CutBlocks(rest, isHeader));
      ThreeParts(ls, n);
    }
  }

  lemma {:induction false} CutAreBlocks<T>(ls: seq<T>, isHeader: T -> bool)
    requires ls != [] ==> isHeader(ls[0])
    ensures AreBlocks(CutBlocks(ls, isHeader), isHeader)
    decreases |ls|
  {
    if ls != [] {
      var tail := ls[1..];
      var n := Run(tail, isHeader);
      RunFits(tail, isHeader);
      CutAreBlocks(tail[n..], isHeader);
    }
  }

  lemma FirstBlock<T>(b: Block<T>, ls: seq<T>, isHeader: T -> bool)
    requires Plain(b.rest, isHeader) && (ls != [] ==> isHeader(ls[0]))
    ensures CutBlocks(LinesIn(b) + ls, isHeader) == [b] + CutBlocks(ls, isHeader)
  {
    RunOver(b.rest, ls, isHeader);
    assert (LinesIn(b) + ls)[1..] == b.rest + ls;
  }

  lemma {:induction false} CutBlocksUnique<T>(bs: seq<Block<T>>, isHeader: T -> bool)
    requires AreBlocks(bs, isHeader)
    ensures CutBlocks(Concat(bs), isHeader) == bs
  {
    if bs != [] {
      CutBlocksUnique(bs[1..], isHeader);
      FirstBlock(bs[0], Concat(bs[1..]), isHeader);
    }
  }

  /** Every list of lines has exactly one reading as a script. */
  lemma CutIsUnique<T>(ls: seq<T>, s: Script<T>, isHeader: T -> bool)
    ensures IsScript(Cut(ls, isHeader), isHeader) && LinesOf(Cut(ls, isHeader)) == ls
    ensures IsScript(s, isHeader) && LinesOf(s) == ls ==> Cut(ls, isHeader) == s
  {
    var n := Run(ls, isHeader);
    RunFits(ls, isHeader);
    ConcatCut(ls[n..], isHeader);
    CutAreBlocks(ls[n..], isHeader);
    assert ls == ls[..n] + ls[n..];
    if IsScript(s, isHeader) && LinesOf(s) == ls {
      CutBlocksUnique(s.functions, isHeader);
      RunOver(s.preamble, Concat(s.functions), isHeader);
    }
  }

  /** What the loop over the lines leaves: the piece for a wanted header and the lines up to the next
      header, and every other line as it is. */
  function ReplaceLines<T>(ls: seq<T>, isHeader: T -> bool, wanted: T -> bool, piece: T): seq<T>
    decreases |ls|
  {
    if ls == [] then []
    else if wanted(ls[0]) then [piece] + ReplaceLines(ls[1..][Run(ls[1..], isHeader)..], isHeader, wanted, piece)
    else [ls[0]] + ReplaceLines(ls[1..], isHeader, wanted, piece)
  }

  /** The wanted blocks, replaced. */
  function MapBlocks<T>(bs: seq<Block<T>>, wanted: T -> bool, stub: Block<T>): (ms: seq<Block<T>>)
    ensures |ms| == |bs|
    ensures forall i :: 0 <= i < |bs| ==> ms[i] == if wanted(bs[i].header) then stub else bs[i]
  {
    if bs == [] then [] else [if wanted(bs[0].header) then stub else bs[0]] + MapBlocks(bs[1..], wanted, stub)
  }

  /** Only headers are wanted. */
  ghost predicate OnlyHeaders<T(!new)>(wanted: T -> bool, isHeader: T -> bool) {
    forall t :: wanted(t) ==> isHeader(t)
  }

  lemma {:induction false} PlainCopied<T(!new)>(pre: seq<T>, ls: seq<T>, isHeader: T -> bool, wanted: T -> bool,
                                                    piece: T)
    requires OnlyHeaders(wanted, isHeader) && Plain(pre, isHeader)
    ensures ReplaceLines(pre + ls, isHeader, wanted, piece) == pre + ReplaceLines(ls, isHeader, wanted, piece)
  {
    if pre == [] {
      assert pre + ls == ls;
    } else {
      PlainCopied(pre[1..], ls, isHeader, wanted, piece);
      assert (pre + ls)[1..] == pre[1..] + ls;
    }
  }

  lemma OneBlock<T(!new)>(b: Block<T>, ls: seq<T>, isHeader: T -> bool, wanted: T -> bool, piece: T)
    requires OnlyHeaders(wanted, isHeader)
    requires Plain(b.rest, isHeader) && (ls != [] ==> isHeader(ls[0]))
    ensures ReplaceLines(LinesIn(b) + ls, isHeader, wanted, piece)
              == (if wanted(b.header) then [piece] else LinesIn(b)) + ReplaceLines(ls, isHeader, wanted, piece)
  {
    assert (LinesIn(b) + ls)[1..] == b.rest + ls;
    if wanted(b.header) {
      RunOver(b.rest, ls, isHeader);
    } else {
      PlainCopied(b.rest, ls, isHeader, wanted, piece);
    }
  }

  lemma {:induction false} BlocksReplaced<T(!new)>(bs: seq<Block<T>>, isHeader: T -> bool, wanted: T -> bool, piece: T)
    requires OnlyHeaders(wanted, isHeader) && AreBlocks(bs, isHeader)
    ensures ReplaceLines(Concat(bs), isHeader, wanted, piece) == Concat(MapBlocks(bs, wanted, Block(piece, [])))
  {
    if bs != [] {
      BlocksReplaced(bs[1..], isHeader, wanted, piece);
      OneBlock(bs[0], Concat(bs[1..]), isHeader, wanted, piece);
      assert LinesIn(Block(piece, [])) == [piece];
    }
  }

  /** The loop equals: cut into a preamble and blocks, and replace each wanted block by the piece. */
  lemma LoopIsMap<T(!new)>(ls: seq<T>, isHeader: T -> bool, wanted: T -> bool, piece: T)
    requires OnlyHeaders(wanted, isHeader)
    ensures var s := Cut(ls, isHeader);
            ReplaceLines(ls, isHeader, wanted, piece)
              == s.preamble + Concat(MapBlocks(s.functions, wanted, Block(piece, [])))
  {
    var s := Cut(ls, isHeader);
    CutIsUnique(ls, s, isHeader);
    PlainCopied(s.preamble, Concat(s.functions), isHeader, wanted, piece);
    BlocksReplaced(s.functions, isHeader, wanted, piece);
  }

  lemma RunAt<T>(ls: seq<T>, i: nat, isHeader: T -> bool)
    requires i < |ls|
    ensures Run(ls[i..], isHeader) == if isHeader(ls[i]) then 0 else 1 + Run(ls[i + 1..], isHeader)
  {
    assert ls[i..][1..] == ls[i + 1..];
  }

  /** One turn of the outer loop. */
  lemma StepAt<T>(out: seq<T>, ls: seq<T>, i: nat, isHeader: T -> bool, wanted: T -> bool, piece: T)
    requires i < |ls|
    ensures out + ReplaceLines(ls[i..], isHeader, wanted, piece)
              == if wanted(ls[i])
                 then (out + [piece]) + ReplaceLines(ls[i + 1 + Run(ls[i + 1..], isHeader)..], isHeader, wanted, piece)
                 else (out + [ls[i]]) + ReplaceLines(ls[i + 1..], isHeader, wanted, piece)
  {
    var rest := ls[i..];
    assert rest[1..] == ls[i + 1..];
    assert ls[i + 1..][Run(ls[i + 1..], isHeader)..] == ls[i + 1 + Run(ls[i + 1..], isHeader)..];
  }

  /** The loop itself: an index walks over the lines and, in an inner loop, past the lines of a function. */
  method ReplaceInLines<T>(lines: seq<T>, isHeader: T -> bool, wanted: T -> bool, piece: T) returns (out: seq<T>)
    ensures out == ReplaceLines(lines, isHeader, wanted, piece)
  {
    out := [];
    var i := 0;
    while i < |lines|
      invariant 0 <= i <= |lines|
      invariant out + ReplaceLines(lines[i..], isHeader, wanted, piece) == ReplaceLines(lines, isHeader, wanted, piece)
    {
      StepAt(out, lines, i, isHeader, wanted, piece);
      if wanted(lines[i]) {
        out := out + [piece];
        i := i + 1;
        ghost var next := i + Run(lines[i..], isHeader);
        while i < |lines| && !isHeader(lines[i])
          invariant i <= |lines| && i + Run(lines[i..], isHeader) == next
        {
          RunAt(lines, i, isHeader);
          i := i + 1;
        }
        assert i == next;
        continue;
      }
      out := out + [lines[i]];
      i := i + 1;
    }
    assert lines[i..] == [] && out + [] == out;
  }

  lemma MapTwice<T>(bs: seq<Block<T>>, wanted: T -> bool, stub: Block<T>)
    ensures MapBlocks(MapBlocks(bs, wanted, stub), wanted, stub) == MapBlocks(bs, wanted, stub)
  {
    var once := MapBlocks(bs, wanted, stub);
    var twice := MapBlocks(once, wanted, stub);
    assert forall i :: 0 <= i < |bs| ==> twice[i] == once[i];
  }

  lemma MapsCommute<T(!new)>(bs: seq<Block<T>>, w: T -> bool, a: Block<T>, v: T -> bool, b: Block<T>)
    requires forall t :: !(w(t) && v(t))
    requires w(a.header) && v(b.header)
    ensures MapBlocks(MapBlocks(bs, w, a), v, b) == MapBlocks(MapBlocks(bs, v, b), w, a)
  {
    var x, y := MapBlocks(MapBlocks(bs, w, a), v, b), MapBlocks(MapBlocks(bs, v, b), w, a);
    assert forall i :: 0 <= i < |bs| ==> x[i] == y[i];
  }

  lemma ReplaceAlone<T>(line: T, isHeader: T -> bool, wanted: T -> bool, piece: T)
    requires wanted(line)
    ensures ReplaceLines([line], isHeader, wanted, piece) == [piece]
  {
    assert [line][1..] == [];
  }

  /** Lines that begin with a wanted header and hold another header: the piece comes first, and there is more. */
  lemma ReplaceFirst<T(!new)>(ls: seq<T>, isHeader: T -> bool, wanted: T -> bool, piece: T)
    returns (rest: seq<Block<T>>)
    requires OnlyHeaders(wanted, isHeader) && ls != [] && wanted(ls[0]) && !Plain(ls[1..], isHeader)
    ensures rest != [] && AreBlocks(rest, isHeader)
    ensures ReplaceLines(ls, isHeader, wanted, piece) == [piece] + Concat(MapBlocks(rest, wanted, Block(piece, [])))
  {
    var tail := ls[1..];
    var n := Run(tail, isHeader);
    RunFits(tail, isHeader);
    assert tail[..|tail|] == tail;
    var after := tail[n..];
    rest := CutBlocks(after, isHeader);
    CutAreBlocks(after, isHeader);
    ConcatCut(after, isHeader);
    BlocksReplaced(rest, isHeader, wanted, piece);
  }

  // ----- Lists whose neighbours fit -----

  predicate Chain<T>(ls: seq<T>, ok: T -> bool, fits: (T, T) -> bool) {
    && (forall i :: 0 <= i < |ls| ==> ok(ls[i]))
    && (forall i :: 0 <= i < |ls| - 1 ==> fits(ls[i], ls[i + 1]))
  }

  /** A header fits after a line exactly when the line is ended. */
  ghost predicate HeadersFit<T(!new)>(isHeader: T -> bool, fits: (T, T) -> bool, ended: T -> bool) {
    forall a, h :: isHeader(h) ==> (fits(a, h) <==> ended(a))
  }

  lemma ChainSplit<T>(a: seq<T>, b: seq<T>, ok: T -> bool, fits: (T, T) -> bool)
    requires Chain(a + b, ok, fits)
    ensures Chain(a, ok, fits) && Chain(b, ok, fits)
    ensures a != [] && b != [] ==> fits(a[|a| - 1], b[0])
  {
    var c := a + b;
    assert forall i {:trigger a[i]} :: 0 <= i < |a| ==> c[i] == a[i];
    assert forall i {:trigger b[i]} :: 0 <= i < |b| ==> c[|a| + i] == b[i];
    forall i | 0 <= i < |a| - 1 ensures fits(a[i], a[i + 1]) {
      assert fits(c[i], c[i + 1]);
    }
    forall i | 0 <= i < |b| - 1 ensures fits(b[i], b[i + 1]) {
      assert fits(c[|a| + i], c[|a| + i + 1]);
      assert c[|a| + i + 1] == b[i + 1];
    }
    if a != [] && b != [] {
      assert fits(c[|a| - 1], c[|a| - 1 + 1]);
    }
  }

  lemma ChainGlue<T>(a: seq<T>, b: seq<T>, ok: T -> bool, fits: (T, T) -> bool)
    requires Chain(a, ok, fits) && Chain(b, ok, fits)
    requires a != [] && b != [] ==> fits(a[|a| - 1], b[0])
    ensures Chain(a + b, ok, fits)
  {
    var c := a + b;
    forall i | 0 <= i < |c| - 1 ensures fits(c[i], c[i + 1]) {
      if i < |a| - 1 {
        assert fits(a[i], a[i + 1]);
      } else if i >= |a| {
        assert fits(b[i - |a|], b[i - |a| + 1]);
      }
    }
  }

  lemma {:induction false} MappedChain<T(!new)>(bs: seq<Block<T>>, isHeader: T -> bool, wanted: T -> bool,
                                               stub: Block<T>,
                                               ok: T -> bool, fits: (T, T) -> bool, ended: T -> bool)
    requires AreBlocks(bs, isHeader) && isHeader(stub.header) && HeadersFit(isHeader, fits, ended)
    requires Chain(Concat(bs), ok, fits) && Chain(LinesIn(stub), ok, fits) && ended(LinesIn(stub)[|stub.rest|])
    ensures Chain(Concat(MapBlocks(bs, wanted, stub)), ok, fits)
  {
    if bs != [] {
      var b, rest, ms := bs[0], bs[1..], MapBlocks(bs[1..], wanted, stub);
      ChainSplit(LinesIn(b), Concat(rest), ok, fits);
      MappedChain(rest, isHeader, wanted, stub, ok, fits, ended);
      var first := if wanted(b.header) then stub else b;
      if rest != [] {
        assert isHeader(rest[0].header) && isHeader(ms[0].header);
        assert Concat(rest)[0] == rest[0].header && Concat(ms)[0] == ms[0].header;
      }
      ChainGlue(LinesIn(first), Concat(ms), ok, fits);
      ConcatFirst(first, ms);
    }
  }

  lemma MappedBlocks<T>(bs: seq<Block<T>>, isHeader: T -> bool, wanted: T -> bool, stub: Block<T>)
    requires AreBlocks(bs, isHeader) && isHeader(stub.header) && Plain(stub.rest, isHeader)
    ensures AreBlocks(MapBlocks(bs, wanted, stub), isHeader)
  {
  }
}
