/** The query strings of src/signaling/livekit_service.cpp, percent-encoded after sections 2.1 and
    2.3 of RFC 3986. */
module LiveKitQuery {
  import opened Common

  /** One entry of the parameter map: the key as it is, the value as bytes. */
  datatype Param = Param(key: string, value: seq<Byte>)

  // ----- Percent-encoding -----

  /** Section 2.3: letters, digits, and four marks. */
  predicate Unreserved(b: Byte) {
    || 'A' as int <= b <= 'Z' as int || 'a' as int <= b <= 'z' as int || '0' as int <= b <= '9' as int
    || b == '-' as int || b == '_' as int || b == '.' as int || b == '~' as int
  }

  predicate IsHexDigit(c: char) { '0' <= c <= '9' || 'A' <= c <= 'F' }

  function HexDigit(n: nat): (c: char)
    requires n < 16
    ensures IsHexDigit(c) && HexValue(c) == n
  {
    if n < 10 then '0' + n as char else 'A' + (n - 10) as char
  }

  function HexValue(c: char): (n: nat)
    ensures n < 16
  {
    if '0' <= c <= '9' then (c - '0') as int else if 'A' <= c <= 'F' then (c - 'A') as int + 10 else 0
  }

  function Escaped(b: Byte): (s: string)
    ensures |s| == if Unreserved(b) then 1 else 3
  {
    if Unreserved(b) then [b as char] else ['%', HexDigit(b / 16), HexDigit(b % 16)]
  }

  function Encoded(value: seq<Byte>): string {
    if value == [] then "" else Escaped(value[0]) + Encoded(value[1..])
  }

  function AsByte(c: char): Byte { if c as int < 256 then c as int else 0 }

  /** Section 2.1: a triplet stands for its byte, any other character for itself. */
  function Decoded(s: string): seq<Byte> {
    if s == "" then []
    else if s[0] == '%' && |s| >= 3 then [HexValue(s[1]) * 16 + HexValue(s[2])] + Decoded(s[3..])
    else [AsByte(s[0])] + Decoded(s[1..])
  }

  /** Nothing but unreserved characters, and upper-case triplets for the bytes that have no such
      character. */
  predicate Canonical(s: string) {
    s == ""
    || (s[0] as int < 256 && Unreserved(s[0] as int) && Canonical(s[1..]))
    || (|s| >= 3 && s[0] == '%' && IsHexDigit(s[1]) && IsHexDigit(s[2])
        && !Unreserved(HexValue(s[1]) * 16 + HexValue(s[2])) && Canonical(s[3..]))
  }

  lemma OneByte(b: Byte, rest: string)
    ensures Decoded(Escaped(b) + rest) == [b] + Decoded(rest)
    ensures Canonical(rest) ==> Canonical(Escaped(b) + rest)
  {
    var s := Escaped(b) + rest;
    if Unreserved(b) {
      assert s[0] == b as char && s[1..] == rest;
    } else {
      assert s[1] == HexDigit(b / 16) && s[2] == HexDigit(b % 16) && s[3..] == rest;
    }
  }

  /** Decoding gives every byte string back, and its encoding is canonical. */
  lemma {:induction false} EncodingRoundTrip(value: seq<Byte>)
    ensures Decoded(Encoded(value)) == value
    ensures Canonical(Encoded(value))
  {
    if value != [] {
      EncodingRoundTrip(value[1..]);
      OneByte(value[0], Encoded(value[1..]));
    }
  }

  /** A canonical text is the encoding of what it decodes to: there is only one. */
  lemma {:induction false} CanonicalIsEncoded(s: string)
    requires Canonical(s)
    ensures Encoded(Decoded(s)) == s
  {
    if s != "" {
      if s[0] == '%' {
        CanonicalIsEncoded(s[3..]);
        TripletIsEscaped(s[1], s[2]);
        assert Decoded(s)[1..] == Decoded(s[3..]);
        assert s == ['%', s[1], s[2]] + s[3..];
      } else {
        CanonicalIsEncoded(s[1..]);
        assert Decoded(s)[1..] == Decoded(s[1..]);
        assert s == [s[0]] + s[1..];
      }
    }
  }

  lemma TripletIsEscaped(high: char, low: char)
    requires IsHexDigit(high) && IsHexDigit(low) && !Unreserved(HexValue(high) * 16 + HexValue(low))
    ensures Escaped(HexValue(high) * 16 + HexValue(low)) == ['%', high, low]
  {
    var b := HexValue(high) * 16 + HexValue(low);
    assert b / 16 == HexValue(high) && b % 16 == HexValue(low);
  }

  lemma {:induction false} CanonicalAvoids(s: string, c: char)
    requires Canonical(s) && c in {'&', '=', '?'}
    ensures c !in s
  {
    if s != "" {
      if s[0] == '%' {
        CanonicalAvoids(s[3..], c);
        assert s == [s[0], s[1], s[2]] + s[3..];
      } else {
        CanonicalAvoids(s[1..], c);
        assert s == [s[0]] + s[1..];
      }
    }
  }

  lemma NextByte(before: string, value: seq<Byte>, i: nat)
    requires i < |value|
    ensures before + Encoded(value[i..]) == before + Escaped(value[i]) + Encoded(value[i + 1..])
  {
    assert value[i..][1..] == value[i + 1..];
  }

  method UrlEncode(value: seq<Byte>) returns (escaped: string)
    ensures escaped == Encoded(value)
  {
    escaped := "";
    for i := 0 to |value|
      invariant escaped + Encoded(value[i..]) == Encoded(value)
    {
      NextByte(escaped, value, i);
      escaped := Append(escaped, value[i]);
    }
  }

  /** One round of the loop. */
  method Append(escaped: string, b: Byte) returns (r: string)
    ensures r == escaped + Escaped(b)
  {
    if Unreserved(b) {
      return escaped + [b as char];
    }
    r := escaped + "%" + [HexDigit(b / 16), HexDigit(b % 16)];
  }

  // ----- The target -----

  function Pair(p: Param): string { p.key + "=" + Encoded(p.value) }

  function Query(params: seq<Param>): string
    requires params != []
  {
    if |params| == 1 then Pair(params[0]) else Pair(params[0]) + "&" + Query(params[1..])
  }

  function Target(basePath: string, params: seq<Param>): string {
    if params == [] then basePath else basePath + "?" + Query(params)
  }

  /** Where `c` first occurs in `s`. */
  function Find(s: string, c: char): (at: Option<nat>)
    ensures at.None? <==> c !in s
    ensures at.Some? ==> at.value < |s| && s[at.value] == c && c !in s[..at.value]
  {
    if s == "" then None
    else if s[0] == c then Some(0)
    else
      assert s == [s[0]] + s[1..];
      match Find(s[1..], c)
      case None => None
      case Some(i) =>
        assert s[..i + 1] == [s[0]] + s[1..][..i];
        Some(i + 1)
  }

  lemma {:induction false} FindFirst(a: string, c: char, b: string)
    requires c !in a
    ensures Find(a + [c] + b, c) == Some(|a|)
    ensures (a + [c] + b)[..|a|] == a && (a + [c] + b)[|a| + 1..] == b
  {
    if a != "" {
      FindFirst(a[1..], c, b);
      assert (a + [c] + b)[1..] == a[1..] + [c] + b;
    }
  }

  function ParsePair(s: string): Param {
    match Find(s, '=')
    case None => Param(s, [])
    case Some(i) => Param(s[..i], Decoded(s[i + 1..]))
  }

  function ParseQuery(s: string): seq<Param>
    decreases |s|
  {
    match Find(s, '&')
    case None => [ParsePair(s)]
    case Some(i) => [ParsePair(s[..i])] + ParseQuery(s[i + 1..])
  }

  /** The reader: splits at the first '?', then at every '&', then at the first '='. */
  function ParseTarget(target: string): seq<Param> {
    match Find(target, '?')
    case None => []
    case Some(i) => ParseQuery(target[i + 1..])
  }

  predicate PlainKey(key: string) { '&' !in key && '=' !in key }

  lemma PairRoundTrip(p: Param)
    requires PlainKey(p.key)
    ensures '&' !in Pair(p) && ParsePair(Pair(p)) == p
  {
    EncodingRoundTrip(p.value);
    CanonicalAvoids(Encoded(p.value), '&');
    FindFirst(p.key, '=', Encoded(p.value));
  }

  lemma {:induction false} QueryRoundTrip(params: seq<Param>)
    requires params != [] && forall p <- params :: PlainKey(p.key)
    ensures ParseQuery(Query(params)) == params
  {
    PairRoundTrip(params[0]);
    if |params| == 1 {
      assert Find(Query(params), '&').None?;
    } else {
      QueryRoundTrip(params[1..]);
      FindFirst(Pair(params[0]), '&', Query(params[1..]));
      assert Query(params) == Pair(params[0]) + ['&'] + Query(params[1..]);
    }
  }

  /** Splitting the target and decoding its values gives the parameters back, for all values. */
  lemma TargetRoundTrip(basePath: string, params: seq<Param>)
    requires '?' !in basePath && forall p <- params :: PlainKey(p.key)
    ensures ParseTarget(Target(basePath, params)) == params
    ensures var target := Target(basePath, params);
      if params == [] then target == basePath
      else Find(target, '?') == Some(|basePath|) && target[..|basePath|] == basePath
  {
    if params != [] {
      QueryRoundTrip(params);
      FindFirst(basePath, '?', Query(params));
    }
  }

  /** `params` are the entries of the map, in the order of their keys. */
  method BuildWebSocketTarget(basePath: string, params: seq<Param>) returns (target: string)
    ensures target == Target(basePath, params)
  {
    target := basePath;
    if params != [] {
      target := target + "?";
      var first := true;
      assert params[0..] == params;
      for i := 0 to |params|
        invariant first <==> i == 0
        invariant target + Rest(params, i) == basePath + "?" + Query(params)
      {
        RestStep(target, params, i);
        target := AppendPair(target, first, params[i]);
        first := false;
      }
    }
  }

  /** One round of the loop. */
  method AppendPair(target: string, first: bool, p: Param) returns (r: string)
    ensures r == target + (if first then "" else "&") + Pair(p)
  {
    r := target;
    if !first {
      r := r + "&";
    }
    var value := UrlEncode(p.value);
    r := r + p.key + "=" + value;
  }

  /** What is still to be written before entry `i`. */
  function Rest(params: seq<Param>, i: nat): string
    requires params != [] && i <= |params|
  {
    if i == |params| then "" else (if i == 0 then "" else "&") + Query(params[i..])
  }

  lemma QueryFrom(params: seq<Param>, i: nat)
    requires i < |params|
    ensures Query(params[i..]) == Pair(params[i]) + Rest(params, i + 1)
  {
    assert params[i..][1..] == params[i + 1..];
  }

  lemma RestStep(before: string, params: seq<Param>, i: nat)
    requires i < |params|
    ensures before + Rest(params, i)
         == before + (if i == 0 then "" else "&") + Pair(params[i]) + Rest(params, i + 1)
  {
    QueryFrom(params, i);
    assert params[0..] == params;
    Associate(before, if i == 0 then "" else "&", Pair(params[i]), Rest(params, i + 1));
  }

  lemma Associate(a: string, b: string, c: string, d: string)
    ensures a + (b + (c + d)) == a + b + c + d
  {}
}
