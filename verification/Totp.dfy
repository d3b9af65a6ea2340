/** One-time passwords: section 5.3 of RFC 4226 and sections 4.2 and 5.2 of RFC 6238. HMAC-SHA-1, base 32
    decoding and `str.isdigit` are parameters. */
module Totp {
  import opened Options

  newtype Byte = x: int | 0 <= x < 256

  /** The library functions: `hmac` gives 20 bytes, and an ASCII character is a digit if it is 0 to 9. */
  datatype Library = Library(
    hmac: (seq<Byte>, seq<Byte>) -> seq<Byte>,
    decode: string -> Option<seq<Byte>>,
    isDigit: char -> bool)
  {
    ghost predicate Valid() {
      && (forall key, message :: |hmac(key, message)| == 20)
      && (forall c: char :: c < '\U{80}' ==> (isDigit(c) <==> '0' <= c <= '9'))
    }
  }

  const MILLION := 1_000_000
  const TWO_TO_THE_64: int := 0x1_0000_0000_0000_0000

  // ----- Padding -----

  /** `s.rstrip("=")` */
  function RStrip(s: string): string {
    if s != "" && s[|s| - 1] == '=' then RStrip(s[..|s| - 1]) else s
  }

  function Pads(n: nat): string {
    if n == 0 then "" else Pads(n - 1) + "="
  }

  /** `secret + "=" * ((8 - len(secret) % 8) % 8)` */
  function Padded(secret: string): string { secret + Pads((8 - |secret| % 8) % 8) }

  lemma {:induction false} StripSplits(s: string)
    ensures |RStrip(s)| <= |s| && s == RStrip(s) + Pads(|s| - |RStrip(s)|)
  {
    if s != "" && s[|s| - 1] == '=' {
      StripSplits(s[..|s| - 1]);
      assert s == s[..|s| - 1] + "=";
    }
  }

  lemma {:induction false} PadsLength(n: nat)
    ensures |Pads(n)| == n
  {
    if n > 0 {
      PadsLength(n - 1);
    }
  }

  /** Stripping the padding and putting it back restores a text exactly if its length is a multiple of 8 and
      it has less than 8 padding characters; section 6 of RFC 4648 never pads with more than 6. */
  lemma PaddingComesBack(s: string)
    ensures Padded(RStrip(s)) == s <==> |s| % 8 == 0 && |s| - |RStrip(s)| < 8
  {
    StripSplits(s);
    var t := RStrip(s);
    var k, m := (8 - |t| % 8) % 8, |s| - |t|;
    PadsLength(k);
    PadsLength(m);
    PadCount(|t|, m);
    assert |t + Pads(k)| == |t| + k && |s| == |t| + m;
  }

  lemma PadCount(n: nat, m: nat)
    ensures (8 - n % 8) % 8 == m <==> (n + m) % 8 == 0 && m < 8
  {
  }

  // ----- The code of a counter -----

  /** The last `k` digits of `n` to base 256, most significant first; `struct.pack(">Q", n)` for k = 8. */
  function BigEndian(n: nat, k: nat): (bs: seq<Byte>)
    ensures |bs| == k
  {
    if k == 0 then [] else BigEndian(n / 256, k - 1) + [(n % 256) as Byte]
  }

  function Value(bs: seq<Byte>): nat {
    if bs == [] then 0 else Value(bs[..|bs| - 1]) * 256 + bs[|bs| - 1] as int
  }

  function Power(base: nat, k: nat): nat { if k == 0 then 1 else base * Power(base, k - 1) }

  lemma {:induction false} ValueOfBigEndian(n: nat, k: nat)
    requires n < Power(256, k)
    ensures Value(BigEndian(n, k)) == n
  {
    if k > 0 {
      ValueOfBigEndian(n / 256, k - 1);
      assert BigEndian(n, k)[..k - 1] == BigEndian(n / 256, k - 1);
    }
  }

  lemma EightBytes()
    ensures Power(256, 8) == TWO_TO_THE_64
  {
    assert Power(256, 4) == 0x1_0000_0000;
    assert Power(256, 8) == 256 * (256 * (256 * (256 * Power(256, 4))));
  }

  /** Different counters make different messages. */
  lemma MessagesDiffer(a: nat, b: nat)
    requires a < TWO_TO_THE_64 && b < TWO_TO_THE_64 && BigEndian(a, 8) == BigEndian(b, 8)
    ensures a == b
  {
    EightBytes();
    ValueOfBigEndian(a, 8);
    ValueOfBigEndian(b, 8);
  }

  /** The masks of the program are remainders. */
  lemma MaskLow(x: bv8)
    ensures x & 0x0F == x % 16
    ensures (x & 0x0F) as int == (x as int) % 16
  {
  }

  lemma MaskSign(x: bv32)
    ensures x & 0x7FFF_FFFF == x % 0x8000_0000
  {
  }

  /** `digest[-1] & 0x0F` */
  function Offset(digest: seq<Byte>): (o: nat)
    requires |digest| == 20
    ensures o + 4 <= |digest|
  {
    (digest[|digest| - 1] % 16) as int
  }

  function Truncated(digest: seq<Byte>): (n: nat)
    requires |digest| == 20
    ensures n < 0x8000_0000
  {
    Value(digest[Offset(digest)..Offset(digest) + 4]) % 0x8000_0000
  }

  /** Truncation as section 5.3 of RFC 4226 has it: the low four bits of the last byte say where, and of the four
      bytes there the top bit is dropped. */
  lemma TruncationIs(digest: seq<Byte>, o: nat)
    requires |digest| == 20 && o == digest[19] as int % 16
    ensures o + 3 < 20
    ensures Truncated(digest) ==
              (digest[o] as int % 128) * 0x100_0000 + digest[o + 1] as int * 0x1_0000
              + digest[o + 2] as int * 0x100 + digest[o + 3] as int
  {
    assert Offset(digest) == o;
    var bs := digest[o..o + 4];
    FourBytes(bs);
    var first, rest := bs[0] as int, bs[1] as int * 0x1_0000 + bs[2] as int * 0x100 + bs[3] as int;
    DropTopBit(first, rest);
    assert Value(bs) == first * 0x100_0000 + rest;
  }

  lemma DropTopBit(first: nat, rest: nat)
    requires rest < 0x100_0000
    ensures (first * 0x100_0000 + rest) % 0x8000_0000 == first % 128 * 0x100_0000 + rest
  {
    assert first == 128 * (first / 128) + first % 128;
    assert first * 0x100_0000 + rest == 0x8000_0000 * (first / 128) + (first % 128 * 0x100_0000 + rest);
  }

  lemma FourBytes(bs: seq<Byte>)
    requires |bs| == 4
    ensures Value(bs) == bs[0] as int * 0x100_0000 + bs[1] as int * 0x1_0000 + bs[2] as int * 0x100 + bs[3] as int
  {
    assert bs[..3][..2] == bs[..2] && bs[..2][..1] == bs[..1] && bs[..1][..0] == [];
    assert Value(bs[..1]) == bs[0] as int;
    assert Value(bs[..2]) == Value(bs[..1]) * 256 + bs[1] as int;
    assert Value(bs[..3]) == Value(bs[..2]) * 256 + bs[2] as int;
  }

  /** The example of section 5.4 of RFC 4226. */
  lemma WorkedExample()
    ensures var digest: seq<Byte> := [0x1f, 0x86, 0x98, 0x69, 0x0e, 0x02, 0xca, 0x16, 0x61, 0x85,
                                      0x50, 0xef, 0x7f, 0x19, 0xda, 0x8e, 0x94, 0x5b, 0x55, 0x5a];
            Truncated(digest) == 0x50ef7f19 && Code(digest) == "872921"
  {
    var digest: seq<Byte> := [0x1f, 0x86, 0x98, 0x69, 0x0e, 0x02, 0xca, 0x16, 0x61, 0x85,
                              0x50, 0xef, 0x7f, 0x19, 0xda, 0x8e, 0x94, 0x5b, 0x55, 0x5a];
    assert Offset(digest) == 10;
    FourBytes(digest[10..14]);
    assert Truncated(digest) == 0x50ef7f19 && 0x50ef7f19 % MILLION == 872921;
    assert Decimal(872, 3) == "872";
    assert Decimal(872921, 6) == Decimal(872, 3) + "9" + "2" + "1";
  }

  /** The last `k` decimal digits, most significant first; `f"{n:06d}"` for n below a million and k = 6. */
  function Decimal(n: nat, k: nat): (s: string)
    ensures |s| == k && forall i :: 0 <= i < k ==> '0' <= s[i] <= '9'
  {
    if k == 0 then "" else Decimal(n / 10, k - 1) + ['0' + (n % 10) as char]
  }

  function Number(s: string): int {
    if s == "" then 0 else Number(s[..|s| - 1]) * 10 + (s[|s| - 1] as int - '0' as int)
  }

  lemma {:induction false} NumberOfDecimal(n: nat, k: nat)
    requires n < Power(10, k)
    ensures Number(Decimal(n, k)) == n
  {
    if k > 0 {
      NumberOfDecimal(n / 10, k - 1);
      assert Decimal(n, k)[..k - 1] == Decimal(n / 10, k - 1);
    }
  }

  lemma SixDigits(a: nat, b: nat)
    requires a < MILLION && b < MILLION
    ensures Decimal(a, 6) == Decimal(b, 6) <==> a == b
  {
    assert Power(10, 3) == 1000;
    assert Power(10, 6) == 10 * (10 * (10 * Power(10, 3)));
    NumberOfDecimal(a, 6);
    NumberOfDecimal(b, 6);
  }

  predicate Packs(counter: int) { 0 <= counter < TWO_TO_THE_64 }

  /** The digest for a counter, once the secret is decoded. */
  function Digest(lib: Library, key: seq<Byte>, counter: nat): seq<Byte> { lib.hmac(key, BigEndian(counter, 8)) }

  function Code(digest: seq<Byte>): (s: string)
    requires |digest| == 20
    ensures |s| == 6 && forall i :: 0 <= i < 6 ==> '0' <= s[i] <= '9'
  {
    Decimal(Truncated(digest) % MILLION, 6)
  }

  /** Two codes are equal exactly if the truncated values agree modulo a million. */
  lemma CodesAgree(a: seq<Byte>, b: seq<Byte>)
    requires |a| == 20 && |b| == 20
    ensures Code(a) == Code(b) <==> Truncated(a) % MILLION == Truncated(b) % MILLION
    ensures Number(Code(a)) == Truncated(a) % MILLION
  {
    SixDigits(Truncated(a) % MILLION, Truncated(b) % MILLION);
    assert Power(10, 3) == 1000;
    assert Power(10, 6) == 10 * (10 * (10 * Power(10, 3)));
    NumberOfDecimal(Truncated(a) % MILLION, 6);
  }

  /** `_hotp`; `None` stands for an exception: a secret that is not base 32, or a counter that does not fit
      into eight bytes. */
  function Hotp(lib: Library, secret: string, counter: int): (code: Option<string>)
    requires lib.Valid()
    ensures code.Some? <==> lib.decode(Padded(secret)).Some? && Packs(counter)
    ensures code.Some? ==> |code.value| == 6 && forall i :: 0 <= i < 6 ==> '0' <= code.value[i] <= '9'
  {
    var key := lib.decode(Padded(secret));
    if key.None? || !Packs(counter) then None else Some(Code(Digest(lib, key.value, counter)))
  }

  // ----- Codes of a time -----

  /** `int(x)` */
  function Truncate(x: real): int { if x < 0.0 then -((-x).Floor) else x.Floor }

  function Counter(time: real): int { Truncate(time) / 30 }

  function GenerateCode(lib: Library, secret: string, time: real): Option<string>
    requires lib.Valid()
  {
    Hotp(lib, secret, Counter(time))
  }

  /** The characters of the input that are digits. */
  function Digits(lib: Library, code: string): string {
    if code == "" then "" else (if lib.isDigit(code[0]) then [code[0]] else "") + Digits(lib, code[1..])
  }

  /** Anything but digits may stand in a code. */
  lemma {:induction false} OthersAreSkipped(lib: Library, a: string, c: char, b: string)
    requires lib.Valid() && c < '\U{80}' && !('0' <= c <= '9')
    ensures Digits(lib, a + [c] + b) == Digits(lib, a + b)
  {
    if a == "" {
      assert "" + b == b && ([c] + b)[1..] == b;
      assert "" + [c] + b == [c] + b;
    } else {
      OthersAreSkipped(lib, a[1..], c, b);
      assert (a + [c] + b)[1..] == a[1..] + [c] + b && (a + b)[1..] == a[1..] + b;
    }
  }

  /** The counter counts half minutes since the epoch. */
  lemma CounterIs(time: real, c: nat)
    ensures c as real * 30.0 <= time < c as real * 30.0 + 30.0 ==> Counter(time) == c
  {
  }

  datatype Verdict = Accepted | Rejected | Raised

  predicate Ascii(s: string) { forall i :: 0 <= i < |s| ==> s[i] < '\U{80}' }

  lemma AsciiIs(s: string)
    ensures Ascii(s) <==> forall c :: c in s ==> c as int < 128
  {
    if Ascii(s) {
      forall c | c in s ensures c as int < 128 {
        var i :| 0 <= i < |s| && s[i] == c;
      }
    } else {
      var i :| 0 <= i < |s| && s[i] >= '\U{80}';
      assert s[i] in s;
    }
  }

  /** Does one of the counters from `low` up to `high` exclusive have this code? */
  ghost predicate Matches(lib: Library, secret: string, low: int, high: int, raw: string)
    requires lib.Valid()
  {
    exists c :: low <= c < high && Hotp(lib, secret, c) == Some(raw)
  }

  /** `verify_code`: the first counter that matches decides. A counter that cannot be packed, a secret that
      cannot be decoded and a digit outside ASCII raise when they are met. */
  method VerifyCode(lib: Library, secret: string, code: string, window: nat, time: real) returns (verdict: Verdict)
    requires lib.Valid()
    ensures var raw, c := Digits(lib, code), Counter(time);
            var usable := lib.decode(Padded(secret)).Some? && Ascii(raw) && window <= c;
            if |raw| != 6 || secret == "" then verdict == Rejected
            else if !usable || c - window >= TWO_TO_THE_64 then verdict == Raised
            else if Matches(lib, secret, c - window, c + window + 1, raw) then verdict == Accepted
            else verdict == if c + window < TWO_TO_THE_64 then Rejected else Raised
  {
    var raw := Digits(lib, code);
    if |raw| != 6 || secret == "" {
      return Rejected;
    }
    var counter := Counter(time);
    var delta: int := 0 - window;
    while delta < window + 1
      invariant 0 - window <= delta <= window + 1
      invariant !Matches(lib, secret, counter - window, counter + delta, raw)
      invariant delta > 0 - window ==> lib.decode(Padded(secret)).Some? && Ascii(raw) && window <= counter
      invariant delta > 0 - window ==> counter + delta - 1 < TWO_TO_THE_64
    {
      var expected := Hotp(lib, secret, counter + delta);
      if expected.None? || !Ascii(raw) {
        return Raised;
      }
      if expected.value == raw {
        return Accepted;
      }
      delta := delta + 1;
    }
    return Rejected;
  }

  // ----- What verification means -----

  lemma {:induction false} DigitsOfDigits(lib: Library, s: string)
    requires lib.Valid() && forall i :: 0 <= i < |s| ==> '0' <= s[i] <= '9'
    ensures Digits(lib, s) == s && Ascii(s)
  {
    if s != "" {
      DigitsOfDigits(lib, s[1..]);
      assert s == [s[0]] + s[1..];
    }
  }

  /** A code made at one time is accepted at another, earlier or later, whose counter differs by at most
      one: unless the verifying counter is 0, when looking one step back raises. */
  lemma MadeCodeMatches(lib: Library, secret: string, made: real, checked: real)
    requires lib.Valid() && GenerateCode(lib, secret, made).Some?
    requires -1 <= Counter(made) - Counter(checked) <= 1
    ensures var raw := GenerateCode(lib, secret, made).value;
            && Digits(lib, raw) == raw && Ascii(raw) && |raw| == 6
            && Matches(lib, secret, Counter(checked) - 1, Counter(checked) + 2, raw)
  {
    DigitsOfDigits(lib, GenerateCode(lib, secret, made).value);
  }

  /** The same, of the method: with the default window. */
  method VerifyMadeCode(lib: Library, secret: string, raw: string, made: real, checked: real) returns (verdict: Verdict)
    requires lib.Valid() && secret != "" && GenerateCode(lib, secret, made) == Some(raw)
    requires -1 <= Counter(made) - Counter(checked) <= 1
    ensures verdict == if 1 <= Counter(checked) then Accepted else Raised
  {
    MadeCodeMatches(lib, secret, made, checked);
    verdict := VerifyCode(lib, secret, raw, 1, checked);
  }

  /** Codes stay good for half a minute, and none is good for longer than a minute. */
  lemma HowLongACodeLasts(made: real, checked: real)
    requires 0.0 <= made <= checked
    ensures checked - made <= 30.0 ==> Counter(checked) - Counter(made) <= 1
    ensures Counter(checked) - Counter(made) <= 1 ==> checked - made < 60.0
  {
  }

  /** What is accepted is, apart from characters that are not digits, the code of one of the three
      counters. */
  lemma AcceptedIsOneOfThree(lib: Library, secret: string, c: int, raw: string)
    requires lib.Valid()
    ensures Matches(lib, secret, c - 1, c + 2, raw) <==>
              Hotp(lib, secret, c - 1) == Some(raw) || Hotp(lib, secret, c) == Some(raw) ||
                  Hotp(lib, secret, c + 1) == Some(raw)
  {
  }

  /** In the first half minute of the epoch every well-formed code raises. */
  lemma StartOfTheEpoch(time: real)
    ensures Counter(time) < 1 <==> time < 30.0
  {
  }

  /** A secret that was encoded, stripped of its padding and stored gives the codes of its key: six digits of the
      truncated digest of the counter's eight bytes. */
  lemma StoredSecretDecodes(lib: Library, encoded: string, key: seq<Byte>, counter: int)
    requires lib.Valid() && lib.decode(encoded) == Some(key) && 0 <= counter < 0x1_0000_0000_0000_0000
    requires |encoded| % 8 == 0 && |encoded| - |RStrip(encoded)| < 8
    ensures var digest := lib.hmac(key, BigEndian(counter, 8));
            var code := Hotp(lib, RStrip(encoded), counter);
            code.Some? && |code.value| == 6 && Number(code.value) == Truncated(digest) % 1_000_000
  {
    PaddingComesBack(encoded);
    CodesAgree(lib.hmac(key, BigEndian(counter, 8)), lib.hmac(key, BigEndian(counter, 8)));
  }
}
