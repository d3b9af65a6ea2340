/** Which stubs of scripts/ols-patch-panel-safe.py can be put in twice without harm: those with one header. */
module ReplaceStable {
  import opened BlockCutting
  import opened ReplaceFunctions

  lemma {:induction false} NoBreakNoSplit(s: string)
    requires s != "" && forall i :: 0 <= i < |s| ==> !IsBreak(s[i])
    ensures LineLength(s) == |s|
  {
    if |s| > 1 {
      NoBreakNoSplit(s[1..]);
    }
  }

  lemma OneLineText(text: string)
    requires text != "" && forall i :: 0 <= i < |text| ==> !IsBreak(text[i])
    ensures SplitLines(text) == [Line(text)]
  {
    NoBreakNoSplit(text);
    assert text[..|text|] == text && text[|text|..] == "";
    assert SplitLines(text) == [Line(text)] + SplitLines("");
  }

  /** A script that is nothing but the wanted header becomes the stub. */
  lemma HeaderBecomesStub(name: string, body: string)
    requires Identifier(name)
    ensures Replace(name + "()", name, body) == Closed(body)
  {
    OneLineText(name + "()");
    ReplaceAlone(Line(name + "()"), Header(), Of(name), Piece(body));
    PieceIsStub(body);
  }

  lemma SomeText(bs: seq<Block<Line>>, wanted: Line -> bool, piece: Line)
    requires bs != [] && AreBlocks(bs, Header()) && piece.text != ""
    ensures Flatten(Concat(MapBlocks(bs, wanted, Block(piece, [])))) != ""
  {
    assert Header()(bs[0].header);
  }

  /** Replacing twice is replacing once on this text. */
  predicate StableOn(text: string, name: string, body: string) {
    Replace(Replace(text, name, body), name, body) == Replace(text, name, body)
  }

  /** A stub that begins with the wanted function and holds another grows when it is replaced by itself. */
  lemma SecondHeaderGrows(body: string, name: string)
    requires Identifier(name) && Begins(body, name) && !IsStub(body, name)
    ensures |Replace(Closed(body), name, body)| > |Closed(body)|
  {
    OfIsHeader(name);
    var rest := ReplaceFirst(SplitLines(Closed(body)), Header(), Of(name), Piece(body));
    var more := Concat(MapBlocks(rest, Of(name), Block(Piece(body), [])));
    FlattenAppend([Piece(body)], more);
    PieceIsStub(body);
    SomeText(rest, Of(name), Piece(body));
  }

  /** So for a stub that begins with the wanted function: replacing twice is replacing once, on every text,
      exactly if that is the only function in it. */
  lemma StableExactly(name: string, body: string)
    requires Identifier(name) && Begins(body, name)
    ensures (forall text :: StableOn(text, name, body)) <==> Plain(SplitLines(Closed(body))[1..], Header())
  {
    if IsStub(body, name) {
      forall text ensures StableOn(text, name, body) {
        ReplaceIsIdempotent(text, name, body);
      }
    } else {
      HeaderBecomesStub(name, body);
      SecondHeaderGrows(body, name);
      assert !StableOn(name + "()", name, body);
    }
  }
}
