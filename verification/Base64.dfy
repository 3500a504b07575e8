/** URL-safe base64 with padding (section 5 of RFC 4648), as Go's
    `base64.URLEncoding` encodes and, ignoring line breaks and not insisting on zero
    trailing bits, decodes it (storage/types.go).
 */
module Base64 {
  import opened Options

  type byte = x: int | 0 <= x < 256

  const PAD: char := '='

  /** The character of a six-bit value. */
  function Symbol(v: int): char
    requires 0 <= v < 64
  {
    if v < 26 then 'A' + v as char
    else if v < 52 then 'a' + (v - 26) as char
    else if v < 62 then '0' + (v - 52) as char
    else if v == 62 then '-' else '_'
  }

  /** The six-bit value of a character, or -1. */
  function Value(c: char): (v: int)
    ensures -1 <= v < 64
  {
    if 'A' <= c <= 'Z' then c as int - 'A' as int
    else if 'a' <= c <= 'z' then c as int - 'a' as int + 26
    else if '0' <= c <= '9' then c as int - '0' as int + 52
    else if c == '-' then 62
    else if c == '_' then 63
    else -1
  }

  function EncodeGroup(a: byte, b: byte, c: byte): string {
    [Symbol(a / 4), Symbol(a % 4 * 16 + b / 16), Symbol(b % 16 * 4 + c / 64), Symbol(c % 64)]
  }

  function Encode(bytes: seq<byte>): string {
    if |bytes| == 0 then ""
    else if |bytes| == 1 then
      [Symbol(bytes[0] / 4), Symbol(bytes[0] % 4 * 16), PAD, PAD]
    else if |bytes| == 2 then
      [Symbol(bytes[0] / 4), Symbol(bytes[0] % 4 * 16 + bytes[1] / 16), Symbol(bytes[1] % 16 * 4), PAD]
    else
      EncodeGroup(bytes[0], bytes[1], bytes[2]) + Encode(bytes[3..])
  }

  function WithoutBreaks(s: string): string {
    if s == "" then ""
    else if s[0] == '\r' || s[0] == '\n' then WithoutBreaks(s[1..])
    else [s[0]] + WithoutBreaks(s[1..])
  }

  type sextet = v: int | 0 <= v < 64

  function FirstOctet(v0: sextet, v1: sextet): byte {
    v0 * 4 + v1 / 16
  }

  function SecondOctet(v1: sextet, v2: sextet): byte {
    v1 % 16 * 16 + v2 / 4
  }

  function ThirdOctet(v2: sextet, v3: sextet): byte {
    v2 % 4 * 64 + v3
  }

  function DecodeQuads(s: string): Result<seq<byte>> {
    if s == "" then Ok([])
    else if |s| < 4 || Value(s[0]) < 0 || Value(s[1]) < 0 then Err
    else
      var first := FirstOctet(Value(s[0]), Value(s[1]));
      if s[2] == PAD then (if s[3] == PAD && |s| == 4 then Ok([first]) else Err)
      else if Value(s[2]) < 0 then Err
      else
        var second := SecondOctet(Value(s[1]), Value(s[2]));
        if s[3] == PAD then (if |s| == 4 then Ok([first, second]) else Err)
        else if Value(s[3]) < 0 then Err
        else
          match DecodeQuads(s[4..])
          case Err => Err
          case Ok(rest) => Ok([first, second, ThirdOctet(Value(s[2]), Value(s[3]))] + rest)
  }

  function Decode(s: string): Result<seq<byte>> {
    DecodeQuads(WithoutBreaks(s))
  }

  predicate InAlphabet(c: char) {
    Value(c) >= 0 || c == PAD
  }

  lemma SymbolHasItsValue(v: int)
    requires 0 <= v < 64
    ensures Value(Symbol(v)) == v && Symbol(v) != PAD
  {
  }

  lemma SymbolInAlphabet(v: int)
    requires 0 <= v < 64
    ensures InAlphabet(Symbol(v))
  {
    SymbolHasItsValue(v);
  }

  predicate AllInAlphabet(s: string) {
    forall i | 0 <= i < |s| :: InAlphabet(s[i])
  }

  lemma GroupForm(a: byte, b: byte, c: byte)
    ensures |EncodeGroup(a, b, c)| == 4 && AllInAlphabet(EncodeGroup(a, b, c))
  {
    SymbolInAlphabet(a / 4);
    SymbolInAlphabet(a % 4 * 16 + b / 16);
    SymbolInAlphabet(b % 16 * 4 + c / 64);
    SymbolInAlphabet(c % 64);
  }

  lemma LastGroupForm(bytes: seq<byte>)
    requires 1 <= |bytes| <= 2
    ensures |Encode(bytes)| == 4 && AllInAlphabet(Encode(bytes))
  {
    var b := if |bytes| == 2 then bytes[1] else 0;
    SymbolInAlphabet(bytes[0] / 4);
    SymbolInAlphabet(bytes[0] % 4 * 16 + b / 16);
    SymbolInAlphabet(b % 16 * 4);
  }

  lemma BothInAlphabet(s: string, t: string)
    requires AllInAlphabet(s) && AllInAlphabet(t)
    ensures AllInAlphabet(s + t)
  {
  }

  /** The symbols are those of the URL-safe alphabet, in its order: the upper-case letters,
      the lower-case letters, the digits, '-' and '_'. */
  lemma SymbolsAreTheAlphabet(v: int)
    requires 0 <= v < 63
    ensures Symbol(0) == 'A' && Symbol(25) == 'Z' && Symbol(26) == 'a' && Symbol(51) == 'z'
    ensures Symbol(52) == '0' && Symbol(61) == '9' && Symbol(62) == '-' && Symbol(63) == '_'
    ensures v != 25 && v != 51 && v < 61 ==> Symbol(v + 1) as int == Symbol(v) as int + 1
  {
  }

  /** Four symbols write the same number in base 64 as three bytes do in base 256. */
  lemma GroupIsItsNumber(a: byte, b: byte, c: byte)
    ensures var g := EncodeGroup(a, b, c);
            && |g| == 4
            && Value(g[0]) * 262144 + Value(g[1]) * 4096 + Value(g[2]) * 64 + Value(g[3]) ==
               a as int * 65536 + b as int * 256 + c
  {
    SymbolHasItsValue(a / 4);
    SymbolHasItsValue(a % 4 * 16 + b / 16);
    SymbolHasItsValue(b % 16 * 4 + c / 64);
    SymbolHasItsValue(c % 64);
  }

  /** One or two bytes left over are followed by zero bits and padded with '='. */
  lemma LastGroupIsItsNumber(bytes: seq<byte>)
    requires 1 <= |bytes| <= 2
    ensures var s := Encode(bytes);
            && |s| == 4 && s[3] == '='
            && (|bytes| == 1 ==> s[2] == '=' && Value(s[0]) * 64 + Value(s[1]) == bytes[0] as int * 16)
            && (|bytes| == 2 ==>
                  Value(s[0]) * 4096 + Value(s[1]) * 64 + Value(s[2]) == (bytes[0] as int * 256 + bytes[1]) * 4)
  {
    var b := if |bytes| == 2 then bytes[1] else 0;
    SymbolHasItsValue(bytes[0] / 4);
    SymbolHasItsValue(bytes[0] % 4 * 16 + b / 16);
    SymbolHasItsValue(b % 16 * 4);
  }

  // --------------------------------------------------------- what decoding accepts

  lemma {:induction false} BreaksDropApart(a: string, b: string)
    ensures WithoutBreaks(a + b) == WithoutBreaks(a) + WithoutBreaks(b)
    decreases |a|
  {
    if a == "" {
      assert a + b == b;
    } else {
      assert (a + b)[1..] == a[1..] + b;
      BreaksDropApart(a[1..], b);
    }
  }

  /** Line breaks do not matter, wherever they are. */
  lemma BreaksAreIgnored(a: string, c: char, b: string)
    requires c == '\r' || c == '\n'
    ensures Decode(a + [c] + b) == Decode(a + b)
  {
    BreaksDropApart(a + [c], b);
    BreaksDropApart(a, [c]);
    BreaksDropApart(a, b);
    assert WithoutBreaks([c]) == "" by {
      assert [c][1..] == "";
    }
    assert WithoutBreaks(a) + "" == WithoutBreaks(a);
  }

  /** Quads of symbols, with at most two padding characters at the very end. */
  predicate WellPadded(s: string, pads: nat) {
    && |s| % 4 == 0 && pads <= 2 && (pads > 0 ==> |s| > 0)
    && (forall i | 0 <= i < |s| - pads :: Value(s[i]) >= 0)
    && (forall i | 0 <= i < |s| && |s| - pads <= i :: s[i] == PAD)
  }

  /** Exactly the well padded texts decode. */
  lemma {:induction false} DecodesExactly(s: string)
    ensures DecodeQuads(s).Ok? <==> exists pads: nat :: WellPadded(s, pads)
    decreases |s|
  {
    assert Value(PAD) == -1;
    if |s| == 0 {
      assert WellPadded(s, 0);
    } else if |s| <= 4 {
      if DecodeQuads(s).Ok? {
        LastQuadIsWellPadded(s);
      }
    } else {
      DecodesExactly(s[4..]);
      if DecodeQuads(s).Ok? {
        var pads: nat :| WellPadded(s[4..], pads);
        assert forall i | 4 <= i < |s| :: s[i] == s[4..][i - 4];
        assert WellPadded(s, pads);
      }
      if pads: nat :| WellPadded(s, pads) {
        assert forall i | 0 <= i < |s| - 4 :: s[4..][i] == s[i + 4];
        assert WellPadded(s[4..], pads);
      }
    }
  }

  lemma LastQuadIsWellPadded(s: string)
    requires 0 < |s| <= 4 && DecodeQuads(s).Ok?
    ensures exists pads: nat :: WellPadded(s, pads)
  {
    assert WellPadded(s, if s[2] == PAD then 2 else if s[3] == PAD then 1 else 0);
  }

  /** What encoding produces: four characters for every three bytes begun, all from
      the alphabet, so never a colon, a slash or a line break. */
  lemma {:induction false} EncodedForm(bytes: seq<byte>)
    ensures |Encode(bytes)| == (|bytes| + 2) / 3 * 4
    ensures AllInAlphabet(Encode(bytes))
  {
    if |bytes| == 0 {
    } else if |bytes| <= 2 {
      LastGroupForm(bytes);
    } else {
      EncodedForm(bytes[3..]);
      GroupEncodes(bytes);
      GroupAndRestForm(bytes[0], bytes[1], bytes[2], Encode(bytes[3..]));
    }
  }

  lemma GroupAndRestForm(a: byte, b: byte, c: byte, rest: string)
    requires AllInAlphabet(rest)
    ensures |EncodeGroup(a, b, c) + rest| == 4 + |rest| && AllInAlphabet(EncodeGroup(a, b, c) + rest)
  {
    GroupForm(a, b, c);
    BothInAlphabet(EncodeGroup(a, b, c), rest);
  }

  lemma {:induction false} NoBreaksToDrop(s: string)
    requires forall i | 0 <= i < |s| :: s[i] != '\r' && s[i] != '\n'
    ensures WithoutBreaks(s) == s
  {
    if s == "" {
    } else {
      NoBreaksToDrop(s[1..]);
    }
  }

  /** The last quad of an encoding, with one or two padding characters. */
  lemma PaddedQuadDecodes(v0: sextet, v1: sextet, v2: sextet)
    ensures DecodeQuads([Symbol(v0), Symbol(v1), PAD, PAD]) == Ok([FirstOctet(v0, v1)])
    ensures DecodeQuads([Symbol(v0), Symbol(v1), Symbol(v2), PAD]) == Ok([FirstOctet(v0, v1), SecondOctet(v1, v2)])
  {
    SymbolHasItsValue(v0);
    SymbolHasItsValue(v1);
    SymbolHasItsValue(v2);
  }

  lemma OneByteDecodes(a: byte)
    ensures DecodeQuads(Encode([a])) == Ok([a])
  {
    PaddedQuadDecodes(a / 4, a % 4 * 16, 0);
    Regroup(a, 0, 0);
  }

  lemma TwoBytesDecode(a: byte, b: byte)
    ensures DecodeQuads(Encode([a, b])) == Ok([a, b])
  {
    PaddedQuadDecodes(a / 4, a % 4 * 16 + b / 16, b % 16 * 4);
    Regroup(a, b, 0);
  }

  /** Four sextets give back the three octets they were cut from. */
  lemma Regroup(a: byte, b: byte, c: byte)
    ensures FirstOctet(a / 4, a % 4 * 16 + b / 16) == a
    ensures SecondOctet(a % 4 * 16 + b / 16, b % 16 * 4 + c / 64) == b
    ensures ThirdOctet(b % 16 * 4 + c / 64, c % 64) == c
  {
  }

  lemma FullQuadDecodes(rest: string, v0: sextet, v1: sextet, v2: sextet, v3: sextet)
    requires DecodeQuads(rest).Ok?
    ensures DecodeQuads([Symbol(v0), Symbol(v1), Symbol(v2), Symbol(v3)] + rest) ==
            Ok([FirstOctet(v0, v1), SecondOctet(v1, v2), ThirdOctet(v2, v3)] + DecodeQuads(rest).value)
  {
    SymbolHasItsValue(v0);
    SymbolHasItsValue(v1);
    SymbolHasItsValue(v2);
    SymbolHasItsValue(v3);
    assert ([Symbol(v0), Symbol(v1), Symbol(v2), Symbol(v3)] + rest)[4..] == rest;
  }

  lemma ThreeThenRest<T>(s: seq<T>)
    requires |s| >= 3
    ensures s == [s[0], s[1], s[2]] + s[3..]
  {
  }

  lemma GroupEncodes(bytes: seq<byte>)
    requires |bytes| >= 3
    ensures Encode(bytes) == EncodeGroup(bytes[0], bytes[1], bytes[2]) + Encode(bytes[3..])
  {
  }

  lemma GroupDecodes(a: byte, b: byte, c: byte, rest: string)
    requires DecodeQuads(rest).Ok?
    ensures DecodeQuads(EncodeGroup(a, b, c) + rest) == Ok([a, b, c] + DecodeQuads(rest).value)
  {
    Regroup(a, b, c);
    FullQuadDecodes(rest, a / 4, a % 4 * 16 + b / 16, b % 16 * 4 + c / 64, c % 64);
  }

  lemma {:induction false} QuadsDecode(bytes: seq<byte>)
    ensures DecodeQuads(Encode(bytes)) == Ok(bytes)
  {
    if |bytes| == 0 {
    } else if |bytes| == 1 {
      OneByteDecodes(bytes[0]);
      assert bytes == [bytes[0]];
    } else if |bytes| == 2 {
      TwoBytesDecode(bytes[0], bytes[1]);
      assert bytes == [bytes[0], bytes[1]];
    } else {
      QuadsDecode(bytes[3..]);
      GroupEncodes(bytes);
      GroupDecodes(bytes[0], bytes[1], bytes[2], Encode(bytes[3..]));
      ThreeThenRest(bytes);
    }
  }

  /** Decoding undoes encoding, for every byte string. */
  lemma DecodeUndoesEncode(bytes: seq<byte>)
    ensures Decode(Encode(bytes)) == Ok(bytes)
  {
    EncodedForm(bytes);
    assert !InAlphabet('\r') && !InAlphabet('\n');
    NoBreaksToDrop(Encode(bytes));
    QuadsDecode(bytes);
  }
}
