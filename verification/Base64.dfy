/** The Base64 encoder of src/recorder/media_query.cpp, whose 32-bit accumulator wraps, against
    section 4 of RFC 4648. */
module Base64 {
  import opened Common

  const UPPER := "ABCDEFGHIJKLMNOPQRSTUVWXYZ"
  const LOWER := "abcdefghijklmnopqrstuvwxyz"
  const DIGITS := "0123456789"
  const BASE64_CHARS := UPPER + LOWER + DIGITS + "+/"

  type Sextet = x: nat | x < 64

  // ----- RFC 4648 -----

  /** Table 1: The Base 64 Alphabet. */
  function Letter(x: Sextet): char {
    if x < 26 then 'A' + x as char
    else if x < 52 then 'a' + (x - 26) as char
    else if x < 62 then '0' + (x - 52) as char
    else if x == 62 then '+' else '/'
  }

  function Value(c: char): Sextet {
    if 'A' <= c <= 'Z' then (c - 'A') as int
    else if 'a' <= c <= 'z' then (c - 'a') as int + 26
    else if '0' <= c <= '9' then (c - '0') as int + 52
    else if c == '+' then 62 else 63
  }

  // The sextets of a group: its bytes' bits, six at a time.
  function First(b0: Byte): Sextet { b0 / 4 }
  function Second(b0: Byte, b1: Byte): Sextet { b0 % 4 * 16 + b1 / 16 }
  function Third(b1: Byte, b2: Byte): Sextet { b1 % 16 * 4 + b2 / 64 }
  function Fourth(b2: Byte): Sextet { b2 % 64 }

  // The bytes that four sextets make up.
  function Byte0(s0: Sextet, s1: Sextet): Byte { s0 * 4 + s1 / 16 }
  function Byte1(s1: Sextet, s2: Sextet): Byte { s1 % 16 * 16 + s2 / 4 }
  function Byte2(s2: Sextet, s3: Sextet): Byte { s2 % 4 * 64 + s3 }

  /** Whole groups of three bytes, and then a rest whose missing bits are zero, padded. */
  function Encode(b: seq<Byte>): string {
    match |b|
    case 0 => ""
    case 1 => [Letter(First(b[0])), Letter(Second(b[0], 0)), '=', '=']
    case 2 => [Letter(First(b[0])), Letter(Second(b[0], b[1])), Letter(Third(b[1], 0)), '=']
    case _ => Group(b[0], b[1], b[2]) + Encode(b[3..])
  }

  function Group(b0: Byte, b1: Byte, b2: Byte): (r: string)
    ensures |r| == 4
  {
    [Letter(First(b0)), Letter(Second(b0, b1)), Letter(Third(b1, b2)), Letter(Fourth(b2))]
  }

  function DecodeGroup(c0: char, c1: char, c2: char, c3: char): seq<Byte> {
    [Byte0(Value(c0), Value(c1))]
    + (if c2 == '=' then [] else [Byte1(Value(c1), Value(c2))])
    + (if c3 == '=' then [] else [Byte2(Value(c2), Value(c3))])
  }

  function Decode(s: string): seq<Byte> {
    if |s| < 4 then [] else DecodeGroup(s[0], s[1], s[2], s[3]) + Decode(s[4..])
  }

  lemma LetterValue(x: Sextet)
    ensures Value(Letter(x)) == x && Letter(x) != '='
  {}

  /** The sextets of a group make up its bytes again. */
  lemma Recombine(b0: Byte, b1: Byte, b2: Byte)
    ensures Byte0(First(b0), Second(b0, b1)) == b0
    ensures Byte1(Second(b0, b1), Third(b1, b2)) == b1
    ensures Byte2(Third(b1, b2), Fourth(b2)) == b2
  {
    assert Second(b0, b1) / 16 == b0 % 4 && Second(b0, b1) % 16 == b1 / 16;
    assert Third(b1, b2) / 4 == b1 % 16 && Third(b1, b2) % 4 == b2 / 64;
  }

  lemma GroupRoundTrip(b0: Byte, b1: Byte, b2: Byte)
    ensures var g := Group(b0, b1, b2); DecodeGroup(g[0], g[1], g[2], g[3]) == [b0, b1, b2]
    ensures DecodeGroup(Letter(First(b0)), Letter(Second(b0, b1)), Letter(Third(b1, b2)), '=') == [b0, b1]
    ensures DecodeGroup(Letter(First(b0)), Letter(Second(b0, b1)), '=', '=') == [b0]
  {
    Recombine(b0, b1, b2);
    LetterValue(First(b0));
    LetterValue(Second(b0, b1));
    LetterValue(Third(b1, b2));
    LetterValue(Fourth(b2));
  }

  /** The encoding of n bytes is 4 * ceil(n / 3) long. */
  lemma {:induction false} EncodedLength(b: seq<Byte>)
    ensures |Encode(b)| == 4 * ((|b| + 2) / 3)
  {
    if |b| >= 3 {
      EncodedLength(b[3..]);
      assert (|b| + 2) / 3 == (|b[3..]| + 2) / 3 + 1;
    }
  }

  /** Decoding gives the bytes back. */
  lemma {:induction false} RoundTrip(b: seq<Byte>)
    ensures Decode(Encode(b)) == b
  {
    if |b| < 3 {
      ShortRoundTrip(b);
    } else {
      RoundTrip(b[3..]);
      GroupThenRest(b[0], b[1], b[2], Encode(b[3..]));
      assert b == [b[0], b[1], b[2]] + b[3..];
    }
  }

  lemma GroupThenRest(b0: Byte, b1: Byte, b2: Byte, rest: string)
    ensures Decode(Group(b0, b1, b2) + rest) == [b0, b1, b2] + Decode(rest)
  {
    GroupRoundTrip(b0, b1, b2);
    DecodeAppend(Group(b0, b1, b2), rest);
  }

  lemma ShortRoundTrip(b: seq<Byte>)
    requires |b| < 3
    ensures |Encode(b)| == if b == [] then 0 else 4
    ensures Decode(Encode(b)) == b
  {
    if b != [] {
      GroupRoundTrip(b[0], if |b| == 2 then b[1] else 0, 0);
      DecodeAppend(Encode(b), "");
      assert Encode(b) + "" == Encode(b);
    }
  }

  lemma DecodeAppend(group: string, rest: string)
    requires |group| == 4
    ensures Decode(group + rest) == DecodeGroup(group[0], group[1], group[2], group[3]) + Decode(rest)
  {
    assert (group + rest)[4..] == rest;
  }

  // ----- The accumulator -----

  /** The value of an int after it has wrapped. */
  function Signed32(x: int): int { (x + 0x8000_0000) % 0x1_0000_0000 - 0x8000_0000 }

  /** `(val >> shift) & 0x3F`, on two's complement. */
  function Take(val: int, shift: int): Sextet
    requires shift in {0, 2, 4, 6}
  {
    match shift
    case 0 => val % 64
    case 2 => val / 4 % 64
    case 4 => val / 16 % 64
    case _ => val / 64 % 64
  }

  lemma Quotient(x: int, k: int, r: int)
    requires x == 0x1_0000 * k + r && 0 <= r < 0x1_0000
    ensures x % 0x1_0000 == r
  {}

  /** Wrapping does not touch the low 16 bits. */
  lemma LowBits(x: int)
    ensures Signed32(x) % 0x1_0000 == x % 0x1_0000
  {
    var k := (x + 0x8000_0000) / 0x1_0000_0000;
    assert Signed32(x) == x - 0x1_0000_0000 * k;
    Quotient(Signed32(x), x / 0x1_0000 - 0x1_0000 * k, x % 0x1_0000);
  }

  /** Shifting a byte in keeps the low 16 bits right, however often the int has wrapped. */
  lemma ShiftIn(val: int, c: Byte)
    ensures Signed32(val * 256) % 0x1_0000 == val % 256 * 256
    ensures Signed32(Signed32(val * 256) + c) % 0x1_0000 == val % 256 * 256 + c
  {
    var shifted := Signed32(val * 256);
    LowBits(val * 256);
    Quotient(val * 256, val / 256, val % 256 * 256);
    LowBits(shifted + c);
    Quotient(shifted + c, shifted / 0x1_0000, val % 256 * 256 + c);
  }

  lemma Drop64(x: int, k: int, r: int)
    requires x == 64 * k + r && 0 <= r < 64
    ensures x % 64 == r
  {}

  lemma Bits0(val: int, q: int, p: int, hi: int, lo: int)
    requires val == 0x1_0000 * q + 0x100 * p + 64 * hi + lo && 0 <= lo < 64 && 0 <= hi < 4
    ensures val % 64 == lo && val % 256 == 64 * hi + lo
  {
    Drop64(val, 0x400 * q + 4 * p + hi, lo);
    assert val == 0x100 * (0x100 * q + p) + (64 * hi + lo);
  }

  lemma Bits2(val: int, q: int, p: int, hi: int, lo: int)
    requires val == 0x1_0000 * q + 0x100 * p + 4 * hi + lo && 0 <= lo < 4 && 0 <= hi < 64
    ensures val / 4 % 64 == hi
  {
    assert val / 4 == 0x4000 * q + 0x40 * p + hi;
    Drop64(val / 4, 0x100 * q + p, hi);
  }

  lemma Bits4(val: int, q: int, ph: int, pl: int, hi: int, lo: int)
    requires val == 0x1_0000 * q + 0x400 * ph + 0x100 * pl + 16 * hi + lo
    requires 0 <= lo < 16 && 0 <= hi < 16 && 0 <= pl < 4
    ensures val / 16 % 64 == pl * 16 + hi
  {
    assert val / 16 == 0x1000 * q + 0x40 * ph + 0x10 * pl + hi;
    Drop64(val / 16, 0x40 * q + ph, pl * 16 + hi);
  }

  lemma Bits6(val: int, q: int, ph: int, pl: int, hi: int, lo: int)
    requires val == 0x1_0000 * q + 0x1000 * ph + 0x100 * pl + 64 * hi + lo
    requires 0 <= lo < 64 && 0 <= hi < 4 && 0 <= pl < 16
    ensures val / 64 % 64 == pl * 4 + hi
  {
    assert val / 64 == 0x400 * q + 0x40 * ph + 4 * pl + hi;
    Drop64(val / 64, 0x10 * q + ph, pl * 4 + hi);
  }

  /** The encoder's sextets are those of the last two bytes, whatever is left above them. */
  lemma SixBits(val: int, p: Byte, c: Byte)
    requires val % 0x1_0000 == p * 256 + c
    ensures Take(val, 0) == Fourth(c) && Take(val, 2) == First(c)
    ensures Take(val, 4) == Second(p, c) && Take(val, 6) == Third(p, c)
    ensures val % 256 == c
  {
    var q := val / 0x1_0000;
    assert val == 0x1_0000 * q + p * 256 + c;
    Bits0(val, q, p, c / 64, c % 64);
    Bits2(val, q, p, c / 4, c % 4);
    Bits4(val, q, p / 4, p % 4, c / 16, c % 16);
    Bits6(val, q, p / 16, p % 16, c / 64, c % 64);
  }

  /** The source's alphabet is the standard's. */
  lemma AlphabetIsStandard(x: Sextet)
    ensures |BASE64_CHARS| == 64 && BASE64_CHARS[x] == Letter(x)
  {
    assert |UPPER| == 26 && |LOWER| == 26 && |DIGITS| == 10;
    assert forall i :: 0 <= i < 26 ==> UPPER[i] == 'A' + i as char;
    assert forall i :: 0 <= i < 26 ==> LOWER[i] == 'a' + i as char;
    assert forall i :: 0 <= i < 10 ==> DIGITS[i] == '0' + i as char;
  }

  // ----- The loop -----

  /** Where byte `i` stands in its group of three. */
  function Phase(i: nat): (r: nat)
    ensures r < 3
  {
    if i < 3 then i else Phase(i - 3)
  }

  lemma {:induction false} NextPhase(i: nat)
    ensures Phase(i + 1) == if Phase(i) == 2 then 0 else Phase(i) + 1
  {
    if i >= 3 { NextPhase(i - 3); }
  }

  /** The letters that byte `c` completes when `p` was the one before. */
  function Emitted(phase: nat, p: Byte, c: Byte): (r: string)
    ensures |r| == if phase < 2 then 1 else 2
  {
    match phase
    case 0 => [Letter(First(c))]
    case 1 => [Letter(Second(p, c))]
    case _ => [Letter(Third(p, c)), Letter(Fourth(c))]
  }

  function Before(b: seq<Byte>, i: nat): Byte
    requires i <= |b|
  {
    if i == 0 then 0 else b[i - 1]
  }

  /** All letters complete after the first `i` bytes. */
  function Complete(b: seq<Byte>, i: nat): string
    requires i <= |b|
  {
    if i == 0 then "" else Complete(b, i - 1) + Emitted(Phase(i - 1), Before(b, i - 1), b[i - 1])
  }

  /** The bits still pending at the end, filled up with zeros, and the padding. */
  function Ending(phase: nat, p: Byte): (r: string)
    requires phase < 3
    ensures |r| == if phase == 0 then 0 else 4 - phase
  {
    match phase
    case 0 => ""
    case 1 => [Letter(Second(p, 0)), '=', '=']
    case _ => [Letter(Third(p, 0)), '=']
  }

  lemma FirstThree(b: seq<Byte>)
    requires 3 <= |b|
    ensures Complete(b, 3) == Group(b[0], b[1], b[2])
  {
    assert Complete(b, 1) == "" + Emitted(0, 0, b[0]);
    assert Complete(b, 2) == Complete(b, 1) + Emitted(1, b[0], b[1]);
    assert Complete(b, 3) == Complete(b, 2) + Emitted(2, b[1], b[2]);
  }

  lemma {:induction false} FirstGroup(b: seq<Byte>, i: nat)
    requires 3 <= i <= |b|
    ensures Complete(b, i) == Complete(b, 3) + Complete(b[3..], i - 3)
  {
    if i == 3 {
      assert Complete(b[3..], 0) == "";
    } else {
      FirstGroup(b, i - 1);
      assert b[3..][i - 4] == b[i - 1];
      if i == 4 {
        assert Emitted(0, Before(b, 3), b[3]) == Emitted(0, 0, b[3]);
      } else {
        assert Before(b, i - 1) == Before(b[3..], i - 4);
      }
    }
  }

  lemma CompleteOne(b: seq<Byte>)
    requires |b| == 1
    ensures Complete(b, 1) + Ending(1, b[0]) == Encode(b)
  {
    assert Complete(b, 1) == "" + Emitted(0, 0, b[0]);
  }

  lemma CompleteTwo(b: seq<Byte>)
    requires |b| == 2
    ensures Complete(b, 2) + Ending(2, b[1]) == Encode(b)
  {
    assert Complete(b, 1) == "" + Emitted(0, 0, b[0]);
    assert Complete(b, 2) == Complete(b, 1) + Emitted(1, b[0], b[1]);
  }

  /** Emitting letters byte by byte gives the encoding by groups. */
  lemma {:induction false} CompleteIsEncode(b: seq<Byte>)
    ensures Complete(b, |b|) + Ending(Phase(|b|), Before(b, |b|)) == Encode(b)
  {
    if |b| < 3 {
      if |b| == 1 { CompleteOne(b); } else if |b| == 2 { CompleteTwo(b); }
    } else {
      var rest, e := b[3..], Ending(Phase(|b|), Before(b, |b|));
      FirstGroup(b, |b|);
      FirstThree(b);
      CompleteIsEncode(rest);
      assert e == Ending(Phase(|rest|), Before(rest, |rest|));
      assert Complete(b, 3) + Complete(rest, |rest|) + e == Complete(b, 3) + (Complete(rest, |rest|) + e);
    }
  }

  lemma NextLength(n: nat, phase: nat)
    requires n % 4 == phase < 3
    ensures if phase == 2 then (n + 2) % 4 == 0 else (n + 1) % 4 == phase + 1
  {}

  lemma {:induction false} CompleteLength(b: seq<Byte>, i: nat)
    requires i <= |b|
    ensures |Complete(b, i)| % 4 == Phase(i)
  {
    if i > 0 {
      CompleteLength(b, i - 1);
      NextPhase(i - 1);
      NextLength(|Complete(b, i - 1)|, Phase(i - 1));
    }
  }

  /** One round of the loop: shifts `c` in and takes the sextets it completes. */
  method Consume(val0: int, valb0: int, out0: string, ghost phase: nat, ghost p: Byte, c: Byte)
      returns (val: int, valb: int, out: string)
    requires phase < 3 && valb0 == 2 * phase - 6
    requires val0 % 256 == p
    ensures val % 256 == c
    ensures valb == valb0 + (if phase < 2 then 2 else -4)
    ensures out == out0 + Emitted(phase, p, c)
  {
    ShiftIn(val0, c);
    val, valb, out := Signed32(Signed32(val0 * 256) + c), valb0 + 8, out0;
    SixBits(val, p, c);
    while valb >= 0
      invariant valb in {valb0 + 8, valb0 + 2, -6} && (valb == -6 ==> phase == 2)
      invariant valb == valb0 + 8 ==> out == out0
      invariant valb == valb0 + 2 && valb >= 0 ==> out == out0 + [Letter(Third(p, c))]
      invariant valb < 0 ==> out == out0 + Emitted(phase, p, c)
    {
      AlphabetIsStandard(Take(val, valb));
      out := out + [BASE64_CHARS[Take(val, valb)]];
      valb := valb - 6;
    }
  }

  /** The pending bits, filled up with zeros, and the padding. */
  method Finish(val: int, valb: int, complete: string, ghost phase: nat, ghost p: Byte) returns (out: string)
    requires phase < 3 && valb == 2 * phase - 6
    requires val % 256 == p && |complete| % 4 == phase
    ensures out == complete + Ending(phase, p)
  {
    out := complete;
    if valb > -6 {
      ShiftIn(val, 0);
      SixBits(Signed32(val * 256), p, 0);
      AlphabetIsStandard(Take(Signed32(val * 256), valb + 8));
      out := out + [BASE64_CHARS[Take(Signed32(val * 256), valb + 8)]];
    }
    while |out| % 4 != 0
      invariant |complete| <= |out| && out <= complete + Ending(phase, p) && (phase > 0 ==> |complete| < |out|)
      decreases |complete + Ending(phase, p)| - |out|
    {
      PaddingGoesOn(complete, out, phase, p);
      out := out + "=";
    }
    PaddingIsOver(complete, out, phase, p);
  }

  lemma PaddingGoesOn(complete: string, out: string, phase: nat, p: Byte)
    requires phase < 3 && |complete| % 4 == phase && |out| % 4 != 0
    requires out <= complete + Ending(phase, p) && (phase > 0 ==> |complete| < |out|)
    requires |complete| <= |out|
    ensures out + "=" <= complete + Ending(phase, p)
  {
    var all := complete + Ending(phase, p);
    assert |all| % 4 == 0;
    assert all[|out|] == Ending(phase, p)[|out| - |complete|];
  }

  lemma PaddingIsOver(complete: string, out: string, phase: nat, p: Byte)
    requires phase < 3 && |complete| % 4 == phase && |out| % 4 == 0
    requires out <= complete + Ending(phase, p) && |complete| <= |out|
    requires phase > 0 ==> |complete| < |out|
    ensures out == complete + Ending(phase, p)
  {
    assert |complete + Ending(phase, p)| - |out| < 3;
  }

  method ToBase64(binary: seq<Byte>) returns (out: string)
    ensures out == Encode(binary)
  {
    out := "";
    var val, valb := 0, -6;
    for i := 0 to |binary|
      invariant valb == Phase(i) * 2 - 6
      invariant val % 256 == Before(binary, i)
      invariant out == Complete(binary, i)
    {
      var c := binary[i];
      NextPhase(i);
      val, valb, out := Consume(val, valb, out, Phase(i), Before(binary, i), c);
    }
    CompleteLength(binary, |binary|);
    CompleteIsEncode(binary);
    out := Finish(val, valb, out, Phase(|binary|), Before(binary, |binary|));
  }
}
