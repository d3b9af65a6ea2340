/** Replacing the shell functions of one name in a script by a stub. The program walks over the lines with
    an index; the theorems say what it does to the script read as a preamble followed by functions. */
module ReplaceFunctions {
  import opened BlockCutting

  // ----- Lines -----

  /** The characters at which `str.splitlines` ends a line. */
  predicate IsBreak(c: char) {
    || '\n' <= c <= '\r' || '\U{1C}' <= c <= '\U{1E}' || c == '\U{85}' || c == '\U{2028}' || c == '\U{2029}'
  }

  /** These are the code points at which `str.splitlines` breaks. */
  lemma BreaksAre(c: char)
    ensures IsBreak(c) <==> c as int in {0xA, 0xB, 0xC, 0xD, 0x1C, 0x1D, 0x1E, 0x85, 0x2028, 0x2029}
  {
  }

  /** The length of the first line of `s`, its line break included; "\r\n" is one break. */
  function LineLength(s: string): (n: nat)
    requires s != ""
    ensures 1 <= n <= |s|
  {
    if s[0] == '\r' && |s| > 1 && s[1] == '\n' then 2
    else if IsBreak(s[0]) || |s| == 1 then 1
    else 1 + LineLength(s[1..])
  }

  /** A line with its break, or a text put in the place of lines. */
  datatype Line = Line(text: string)

  /** `text.splitlines(True)` */
  function SplitLines(s: string): seq<Line> {
    if s == "" then [] else [Line(s[..LineLength(s)])] + SplitLines(s[LineLength(s)..])
  }

  /** `"".join(ls)` */
  function Flatten(ls: seq<Line>): string {
    if ls == [] then "" else ls[0].text + Flatten(ls[1..])
  }

  predicate Broken(s: string) { s != "" && IsBreak(s[|s| - 1]) }

  predicate OneLine(s: string) { s != "" && LineLength(s) == |s| }

  /** Text `b` after text `a` starts a new line. */
  predicate Seam(a: string, b: string) {
    Broken(a) && !(a[|a| - 1] == '\r' && b != "" && b[0] == '\n')
  }

  function IsLine(): Line -> bool { (line: Line) => OneLine(line.text) }

  function Follows(): (Line, Line) -> bool { (a: Line, b: Line) => Seam(a.text, b.text) }

  function Ended(): Line -> bool { (line: Line) => Broken(line.text) }

  /** The lists of lines that splitting can yield. */
  predicate LineList(ls: seq<Line>) { Chain(ls, IsLine(), Follows()) }

  lemma {:induction false} FirstLine(s: string)
    requires s != ""
    ensures OneLine(s[..LineLength(s)])
    ensures LineLength(s) < |s| ==> Seam(s[..LineLength(s)], s[LineLength(s)..])
  {
    var n := LineLength(s);
    if s[0] == '\r' && |s| > 1 && s[1] == '\n' {
    } else if IsBreak(s[0]) || |s| == 1 {
    } else {
      FirstLine(s[1..]);
      var t := s[1..];
      assert s[..n][1..] == t[..n - 1] && s[n..] == t[n - 1..];
    }
  }

  lemma {:induction false} LineThenRest(line: string, rest: string)
    requires OneLine(line) && (rest == "" || Seam(line, rest))
    ensures LineLength(line + rest) == |line|
  {
    var s := line + rest;
    if line[0] == '\r' && |line| > 1 && line[1] == '\n' {
    } else if IsBreak(line[0]) || |line| == 1 {
      assert |line| == 1;
      assert rest == "" || s[1] == rest[0];
    } else {
      assert s[1..] == line[1..] + rest;
      LineThenRest(line[1..], rest);
    }
  }

  /** Nothing is lost: joining the lines gives the text back, and only what `LineList` says can arise. */
  lemma {:induction false} JoinSplit(s: string)
    ensures Flatten(SplitLines(s)) == s && LineList(SplitLines(s))
  {
    if s != "" {
      var n := LineLength(s);
      var rest := SplitLines(s[n..]);
      FirstLine(s);
      JoinSplit(s[n..]);
      assert s == s[..n] + s[n..];
      assert SplitLines(s)[1..] == rest;
      if rest != [] {
        FirstLine(s[n..]);
        assert rest[0].text[0] == s[n..][0];
      }
    }
  }

  lemma LineListTail(ls: seq<Line>)
    requires LineList(ls) && ls != []
    ensures LineList(ls[1..])
  {
  }

  /** Splitting the joined lines gives the lines back. */
  lemma {:induction false} SplitJoin(ls: seq<Line>)
    requires LineList(ls)
    ensures SplitLines(Flatten(ls)) == ls
  {
    if ls != [] {
      LineListTail(ls);
      SplitJoin(ls[1..]);
      var line, rest := ls[0].text, Flatten(ls[1..]);
      if ls[1..] != [] {
        assert Seam(line, ls[1].text) && rest[0] == ls[1].text[0];
      }
      LineThenRest(line, rest);
      assert (line + rest)[..|line|] == line && (line + rest)[|line|..] == rest;
    }
  }

  lemma {:induction false} FlattenAppend(a: seq<Line>, b: seq<Line>)
    ensures Flatten(a + b) == Flatten(a) + Flatten(b)
  {
    if a == [] {
      assert a + b == b;
    } else {
      FlattenAppend(a[1..], b);
      assert (a + b)[1..] == a[1..] + b;
      assert a[0].text + (Flatten(a[1..]) + Flatten(b)) == Flatten(a) + Flatten(b);
    }
  }

  // ----- Function headers -----

  predicate IsLetter(c: char) { 'a' <= c <= 'z' || 'A' <= c <= 'Z' || c == '_' }

  predicate IsWord(c: char) { IsLetter(c) || '0' <= c <= '9' }

  /** `[a-zA-Z_]` and `[a-zA-Z0-9_]` by code points. */
  lemma LettersAre(c: char)
    ensures IsLetter(c) <==> var n := c as int; 65 <= n < 91 || 97 <= n < 123 || n == 95
    ensures IsWord(c) <==> IsLetter(c) || 48 <= c as int < 58
  {
  }

  function WordLength(s: string): (n: nat)
    ensures n <= |s|
    ensures forall i :: 0 <= i < n ==> IsWord(s[i])
    ensures n < |s| ==> !IsWord(s[n])
  {
    if s == "" || !IsWord(s[0]) then 0 else 1 + WordLength(s[1..])
  }

  /** `^[a-zA-Z_][a-zA-Z0-9_]*\(\)` matches at the start of the line. */
  predicate IsHeader(line: Line) {
    line.text != "" && IsLetter(line.text[0]) && "()" <= line.text[WordLength(line.text)..]
  }

  predicate Identifier(name: string) {
    name != "" && IsLetter(name[0]) && forall i :: 0 <= i < |name| ==> IsWord(name[i])
  }

  /** `line.startswith(f"{name}()")` */
  predicate Starts(line: Line, name: string) { name + "()" <= line.text }

  /** A line starts a function of that name exactly when it is a header and this is the name in it; so
      it starts functions of one name only. */
  lemma StartsMeansNamed(line: Line, name: string)
    requires Identifier(name)
    ensures Starts(line, name) <==> IsHeader(line) && line.text[..WordLength(line.text)] == name
  {
    var t := line.text;
    var n, k := WordLength(t), |name|;
    if Starts(line, name) {
      assert t[..k] == name && t[k] == '(' && t[k + 1] == ')';
      assert forall i :: 0 <= i < k ==> t[i] == name[i];
      assert n == k;
    }
    if IsHeader(line) && t[..n] == name {
      assert t[n..][..2] == "()";
      assert t[..n + 2] == name + "()";
    }
  }

  // ----- The replacement -----

  /** `re.match(header, line)` */
  function Header(): Line -> bool { line => IsHeader(line) }

  /** `line.startswith(f"{name}()")` */
  function Of(name: string): Line -> bool { line => Starts(line, name) }

  lemma OfIsHeader(name: string)
    requires Identifier(name)
    ensures OnlyHeaders(Of(name), Header())
  {
    forall line | Of(name)(line) ensures Header()(line) {
      StartsMeansNamed(line, name);
    }
  }

  function Closed(body: string): string {
    if body != "" && body[|body| - 1] == '\n' then body else body + "\n"
  }

  function Piece(body: string): Line { Line(Closed(body)) }

  function Replace(text: string, name: string, body: string): string {
    Flatten(ReplaceLines(SplitLines(text), Header(), Of(name), Piece(body)))
  }

  /** The replacement, with the index loops of the script. */
  method ReplaceFunction(text: string, name: string, body: string) returns (result: string)
    ensures result == Replace(text, name, body)
  {
    var out := ReplaceInLines(SplitLines(text), Header(), Of(name), Piece(body));
    result := Flatten(out);
  }

  /** The script a text holds. */
  function Read(text: string): Script<Line> { Cut(SplitLines(text), Header()) }

  predicate Begins(body: string, name: string) {
    var ls := SplitLines(Closed(body));
    ls != [] && Starts(ls[0], name)
  }

  /** The lines of a stub for the function `name`: the header of that function and no other header. */
  predicate IsStub(body: string, name: string) {
    Begins(body, name) && Plain(SplitLines(Closed(body))[1..], Header())
  }

  function StubOf(body: string): Block<Line> {
    var ls := SplitLines(Closed(body));
    Block(ls[0], ls[1..])
  }

  /** What is put in: the stub, with a line break behind it if it has none. */
  lemma ClosedIs(body: string)
    ensures Closed(body + "\n") == body + "\n"
    ensures body == "" || body[|body| - 1] != '\n' ==> Closed(body) == body + "\n"
  {
  }

  // ----- The new text, read as a script again -----

  lemma {:induction false} FlattenMapped(bs: seq<Block<Line>>, wanted: Line -> bool, a: Block<Line>, b: Block<Line>)
    requires Flatten(LinesIn(a)) == Flatten(LinesIn(b))
    ensures Flatten(Concat(MapBlocks(bs, wanted, a))) == Flatten(Concat(MapBlocks(bs, wanted, b)))
  {
    if bs != [] {
      FlattenMapped(bs[1..], wanted, a, b);
      var x, y := if wanted(bs[0].header) then a else bs[0], if wanted(bs[0].header) then b else bs[0];
      FlattenAppend(LinesIn(x), Concat(MapBlocks(bs[1..], wanted, a)));
      FlattenAppend(LinesIn(y), Concat(MapBlocks(bs[1..], wanted, b)));
    }
  }

  lemma PieceIsStub(body: string)
    ensures LinesIn(StubOf(body)) == SplitLines(Closed(body))
    ensures Flatten([Piece(body)]) == Closed(body) == Flatten(LinesIn(StubOf(body)))
  {
    JoinSplit(Closed(body));
    assert [Piece(body)][1..] == [];
    assert Flatten([Piece(body)]) == Closed(body) + "";
  }

  lemma {:induction false} LastChar(ls: seq<Line>)
    requires ls != [] && ls[|ls| - 1].text != ""
    ensures var s, z := Flatten(ls), ls[|ls| - 1].text; s != "" && s[|s| - 1] == z[|z| - 1]
  {
    if |ls| > 1 {
      LastChar(ls[1..]);
    } else {
      assert ls[1..] == [];
    }
  }

  lemma StubEnds(body: string)
    ensures var ls := SplitLines(Closed(body)); LineList(ls) && Broken(ls[|ls| - 1].text)
  {
    var ls := SplitLines(Closed(body));
    JoinSplit(Closed(body));
    assert IsLine()(ls[|ls| - 1]);
    LastChar(ls);
  }

  lemma HeadersEnd()
    ensures HeadersFit(Header(), Follows(), Ended())
  {
    forall a, h | Header()(h) ensures Follows()(a, h) <==> Ended()(a) {
      assert IsLetter(h.text[0]);
    }
  }

  /** The lines that result are again lines: putting them together and splitting gives them back. */
  lemma NewLines(s: Script<Line>, name: string, body: string)
    requires IsScript(s, Header()) && LineList(LinesOf(s)) && Identifier(name) && IsStub(body, name)
    ensures var t := Script(s.preamble, MapBlocks(s.functions, Of(name), StubOf(body)));
            IsScript(t, Header()) && LineList(LinesOf(t))
  {
    var stub := StubOf(body);
    var ns := MapBlocks(s.functions, Of(name), stub);
    StubIsBlock(body, name);
    PieceIsStub(body);
    StubEnds(body);
    HeadersEnd();
    ChainSplit(s.preamble, Concat(s.functions), IsLine(), Follows());
    MappedChain(s.functions, Header(), Of(name), stub, IsLine(), Follows(), Ended());
    MappedBlocks(s.functions, Header(), Of(name), stub);
    ChainGlue(s.preamble, Concat(ns), IsLine(), Follows());
  }

  lemma StubIsBlock(body: string, name: string)
    requires Identifier(name) && IsStub(body, name)
    ensures Header()(StubOf(body).header) && Plain(StubOf(body).rest, Header()) && Of(name)(StubOf(body).header)
  {
    StartsMeansNamed(SplitLines(Closed(body))[0], name);
  }

  lemma NewText(text: string, name: string, body: string)
    requires Identifier(name)
    ensures var s := Read(text);
            Replace(text, name, body) == Flatten(s.preamble + Concat(MapBlocks(s.functions, Of(name), StubOf(body))))
  {
    var s := Read(text);
    var a, b := Block(Piece(body), []), StubOf(body);
    OfIsHeader(name);
    LoopIsMap(SplitLines(text), Header(), Of(name), Piece(body));
    PieceIsStub(body);
    assert LinesIn(a) == [Piece(body)];
    FlattenMapped(s.functions, Of(name), a, b);
    FlattenAppend(s.preamble, Concat(MapBlocks(s.functions, Of(name), a)));
    FlattenAppend(s.preamble, Concat(MapBlocks(s.functions, Of(name), b)));
  }

  /** The main theorem: reading the new text again gives the old preamble and the old functions in order,
      with every function of that name replaced by the stub and every other one as it was. */
  lemma NewScript(text: string, name: string, body: string)
    requires Identifier(name) && IsStub(body, name)
    ensures var s := Read(text);
            Read(Replace(text, name, body)) == Script(s.preamble, MapBlocks(s.functions, Of(name), StubOf(body)))
  {
    var ls := SplitLines(text);
    var s := Read(text);
    NewText(text, name, body);
    JoinSplit(text);
    CutIsUnique(ls, s, Header());
    var t := Script(s.preamble, MapBlocks(s.functions, Of(name), StubOf(body)));
    NewLines(s, name, body);
    SplitJoin(LinesOf(t));
    CutIsUnique(LinesOf(t), t, Header());
  }

  /** A text is determined by the script it holds. */
  lemma SameScript(a: string, b: string)
    requires Read(a) == Read(b)
    ensures a == b
  {
    CutIsUnique(SplitLines(a), Read(a), Header());
    CutIsUnique(SplitLines(b), Read(b), Header());
    JoinSplit(a);
    JoinSplit(b);
  }

  /** Replacing twice is replacing once. */
  lemma ReplaceIsIdempotent(text: string, name: string, body: string)
    requires Identifier(name) && IsStub(body, name)
    ensures Replace(Replace(text, name, body), name, body) == Replace(text, name, body)
  {
    var once := Replace(text, name, body);
    NewScript(text, name, body);
    NewScript(once, name, body);
    MapTwice(Read(text).functions, Of(name), StubOf(body));
    SameScript(Replace(once, name, body), once);
  }

  lemma OnlyOneName(line: Line, name: string, other: string)
    requires Identifier(name) && Identifier(other) && name != other
    ensures !(Of(name)(line) && Of(other)(line))
  {
    StartsMeansNamed(line, name);
    StartsMeansNamed(line, other);
  }

  /** The order in which functions of different names are replaced does not matter. */
  lemma ReplacementsCommute(text: string, name: string, body: string, other: string, body': string)
    requires Identifier(name) && IsStub(body, name) && Identifier(other) && IsStub(body', other) && name != other
    ensures Replace(Replace(text, name, body), other, body') == Replace(Replace(text, other, body'), name, body)
  {
    var a, b := Replace(text, name, body), Replace(text, other, body');
    NewScript(text, name, body);
    NewScript(text, other, body');
    NewScript(a, other, body');
    NewScript(b, name, body);
    StubIsBlock(body, name);
    StubIsBlock(body', other);
    forall line ensures !(Of(name)(line) && Of(other)(line)) {
      OnlyOneName(line, name, other);
    }
    MapsCommute(Read(text).functions, Of(name), StubOf(body), Of(other), StubOf(body'));
    SameScript(Replace(a, other, body'), Replace(b, name, body));
  }
}
