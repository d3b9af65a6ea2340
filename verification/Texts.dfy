/** `str.strip` as the services use it. */
module Texts {
  /** The characters `str.strip` removes. */
  predicate IsSpace(c: char) {
    || '\t' <= c <= '\r' || '\U{1C}' <= c <= ' ' || c == '\U{85}' || c == '\U{A0}' || c == '\U{1680}'
    || '\U{2000}' <= c <= '\U{200A}' || c == '\U{2028}' || c == '\U{2029}' || c == '\U{202F}' || c == '\U{205F}'
    || c == '\U{3000}'
  }

  /** These are the code points for which `str.isspace` holds. */
  lemma SpacesAre(c: char)
    ensures IsSpace(c) <==>
              var n := c as int;
              n in {0x9, 0xA, 0xB, 0xC, 0xD, 0x1C, 0x1D, 0x1E, 0x1F, 0x20, 0x85, 0xA0, 0x1680, 0x2028, 0x2029, 0x202F,
                    0x205F, 0x3000}
              || 0x2000 <= n < 0x200B
  {
  }

  function StripStart(s: string): string {
    if s != "" && IsSpace(s[0]) then StripStart(s[1..]) else s
  }

  function StripEnd(s: string): string {
    if s != "" && IsSpace(s[|s| - 1]) then StripEnd(s[..|s| - 1]) else s
  }

  function Strip(s: string): string { StripEnd(StripStart(s)) }

  lemma {:induction false} StripEndClean(s: string)
    ensures StripEnd(s) <= s
    ensures StripEnd(s) != "" ==> !IsSpace(StripEnd(s)[|StripEnd(s)| - 1])
  {
    if s != "" && IsSpace(s[|s| - 1]) {
      StripEndClean(s[..|s| - 1]);
    }
  }

  lemma {:induction false} StripStartClean(s: string)
    ensures |StripStart(s)| <= |s| && StripStart(s) == s[|s| - |StripStart(s)|..]
    ensures StripStart(s) != "" ==> !IsSpace(StripStart(s)[0])
  {
    if s != "" && IsSpace(s[0]) {
      StripStartClean(s[1..]);
    }
  }

  predicate AllSpace(t: string) { forall i :: 0 <= i < |t| ==> IsSpace(t[i]) }

  lemma {:induction false} StripStartDrops(before: string, t: string)
    requires AllSpace(before) && (t != "" ==> !IsSpace(t[0]))
    ensures StripStart(before + t) == t
  {
    if before == "" {
      assert "" + t == t;
    } else {
      assert (before + t)[1..] == before[1..] + t;
      StripStartDrops(before[1..], t);
    }
  }

  lemma {:induction false} StripEndDrops(t: string, after: string)
    requires AllSpace(after) && (t != "" ==> !IsSpace(t[|t| - 1]))
    ensures StripEnd(t + after) == t
  {
    if after == "" {
      assert t + "" == t;
    } else {
      var n := |after| - 1;
      assert (t + after)[..|t + after| - 1] == t + after[..n] && (t + after)[|t + after| - 1] == after[n];
      StripEndDrops(t, after[..n]);
    }
  }

  /** White space around a text is dropped, and nothing else. */
  lemma StripDrops(before: string, t: string, after: string)
    requires AllSpace(before) && AllSpace(after) && t != "" && !IsSpace(t[0]) && !IsSpace(t[|t| - 1])
    ensures Strip(before + t + after) == t
  {
    assert before + t + after == before + (t + after);
    assert (t + after)[0] == t[0];
    StripStartDrops(before, t + after);
    StripEndDrops(t, after);
  }
}
