/**
 * `String.removingPercentEncoding`: every "%" followed by two hexadecimal digits
 * stands for one octet (section 2.1 of RFC 3986), every other character stands
 * for the octets of its UTF-8 encoding, and the octets must form well-formed
 * UTF-8 (section 3 of RFC 3629). A "%" without two hexadecimal digits after it,
 * or octets that are not well-formed UTF-8, give no result.
 */
module Percent {
  import opened Wrappers

  type Octet = x: int | 0 <= x < 256

  /** A Unicode scalar value: the code of every Dafny `char`. */
  predicate IsScalar(n: int) {
    0 <= n < 0xD800 || 0xE000 <= n < 0x11_0000
  }

  // ---------------------------------------------------------------------------
  // UTF-8
  // ---------------------------------------------------------------------------

  predicate IsContinuation(x: Octet) { 0x80 <= x < 0xC0 }

  /** The UTF-8 encoding of one character: one to four octets. */
  function Utf8Char(c: char): (r: seq<Octet>)
    ensures 1 <= |r| <= 4
  {
    var n := c as int;
    if n < 0x80 then [n]
    else if n < 0x800 then [0xC0 + n / 64, 0x80 + n % 64]
    else if n < 0x1_0000 then [0xE0 + n / 4096, 0x80 + n / 64 % 64, 0x80 + n % 64]
    else [0xF0 + n / 262144, 0x80 + n / 4096 % 64, 0x80 + n / 64 % 64, 0x80 + n % 64]
  }

  function Utf8(s: string): seq<Octet> {
    if s == [] then [] else Utf8Char(s[0]) + Utf8(s[1..])
  }

  /** Puts `c` in front of a decoded remainder. */
  function Prepend(c: char, rest: Option<string>): Option<string> {
    if rest.Some? then Some([c] + rest.value) else None
  }

  /**
   * Decodes well-formed UTF-8; overlong forms, surrogates and codes past U+10FFFF
   * are refused, so whatever is decoded encodes back to exactly the input.
   */
  function Utf8Decode(b: seq<Octet>): (r: Option<string>)
    ensures r.Some? ==> Utf8(r.value) == b
    decreases |b|
  {
    if b == [] then Some("")
    else
      var x: int := b[0];
      if x < 0x80 then
        var rest := Utf8Decode(b[1..]);
        PrependUtf8(x as char, rest, b, 1);
        Prepend(x as char, rest)
      else if 0xC2 <= x < 0xE0 && |b| >= 2 && IsContinuation(b[1]) then
        var n := (x - 0xC0) * 64 + (b[1] as int - 0x80);
        TwoOctets(b);
        var rest := Utf8Decode(b[2..]);
        PrependUtf8(n as char, rest, b, 2);
        Prepend(n as char, rest)
      else if 0xE0 <= x < 0xF0 && |b| >= 3 && IsContinuation(b[1]) && IsContinuation(b[2]) then
        var n := (x - 0xE0) * 4096 + (b[1] as int - 0x80) * 64 + (b[2] as int - 0x80);
        if 0x800 <= n && IsScalar(n) then
          ThreeOctets(b);
          var rest := Utf8Decode(b[3..]);
          PrependUtf8(n as char, rest, b, 3);
          Prepend(n as char, rest)
        else None
      else if 0xF0 <= x < 0xF5 && |b| >= 4 && IsContinuation(b[1]) && IsContinuation(b[2]) && IsContinuation(b[3]) then
        var n := (x - 0xF0) * 262144 + (b[1] as int - 0x80) * 4096 + (b[2] as int - 0x80) * 64 + (b[3] as int - 0x80);
        if 0x1_0000 <= n < 0x11_0000 then
          FourOctets(b);
          var rest := Utf8Decode(b[4..]);
          PrependUtf8(n as char, rest, b, 4);
          Prepend(n as char, rest)
        else None
      else None
  }

  /** A character encoded by the first `k` octets, in front of a decoded remainder, encodes back to all of `b`. */
  lemma PrependUtf8(c: char, rest: Option<string>, b: seq<Octet>, k: nat)
    requires k <= |b| && Utf8Char(c) == b[..k]
    requires rest.Some? ==> Utf8(rest.value) == b[k..]
    ensures Prepend(c, rest).Some? ==> Utf8(Prepend(c, rest).value) == b
  {
    if rest.Some? {
      var s := [c] + rest.value;
      assert s[0] == c && s[1..] == rest.value;
      assert b[..k] + b[k..] == b;
    }
  }

  lemma TwoOctets(b: seq<Octet>)
    requires |b| >= 2 && 0xC2 <= b[0] < 0xE0 && IsContinuation(b[1])
    ensures var n := (b[0] as int - 0xC0) * 64 + (b[1] as int - 0x80);
      0x80 <= n < 0x800 && Utf8Char(n as char) == b[..2]
  {
    var x, y := b[0] as int, b[1] as int;
    var n := (x - 0xC0) * 64 + (y - 0x80);
    assert n / 64 == x - 0xC0 && n % 64 == y - 0x80;
    assert b[..2] == [b[0], b[1]];
  }

  lemma ThreeOctets(b: seq<Octet>)
    requires |b| >= 3 && 0xE0 <= b[0] < 0xF0 && IsContinuation(b[1]) && IsContinuation(b[2])
    requires var n := (b[0] as int - 0xE0) * 4096 + (b[1] as int - 0x80) * 64 + (b[2] as int - 0x80); 0x800 <= n && IsScalar(n)
    ensures var n := (b[0] as int - 0xE0) * 4096 + (b[1] as int - 0x80) * 64 + (b[2] as int - 0x80); Utf8Char(n as char) == b[..3]
  {
    var a, c1, c2 := b[0] as int - 0xE0, b[1] as int - 0x80, b[2] as int - 0x80;
    var n := a * 4096 + c1 * 64 + c2;
    var m := a * 64 + c1;
    assert n == m * 64 + c2;
    assert n / 64 == m && n % 64 == c2;
    assert m / 64 == a && m % 64 == c1;
    assert n / 4096 == a by {
      assert n / 4096 == n / 64 / 64;
    }
    assert b[..3] == [b[0], b[1], b[2]];
  }

  lemma FourOctets(b: seq<Octet>)
    requires |b| >= 4 && 0xF0 <= b[0] < 0xF5 && IsContinuation(b[1]) && IsContinuation(b[2]) && IsContinuation(b[3])
    requires var n := (b[0] as int - 0xF0) * 262144 + (b[1] as int - 0x80) * 4096 + (b[2] as int - 0x80) * 64 + (b[3] as int - 0x80);
      0x1_0000 <= n < 0x11_0000
    ensures var n := (b[0] as int - 0xF0) * 262144 + (b[1] as int - 0x80) * 4096 + (b[2] as int - 0x80) * 64 + (b[3] as int - 0x80);
      Utf8Char(n as char) == b[..4]
  {
    var a, c1, c2, c3 := b[0] as int - 0xF0, b[1] as int - 0x80, b[2] as int - 0x80, b[3] as int - 0x80;
    var n := a * 262144 + c1 * 4096 + c2 * 64 + c3;
    var m := a * 64 + c1;
    var k := m * 64 + c2;
    assert n == k * 64 + c3;
    assert n / 64 == k && n % 64 == c3;
    assert k / 64 == m && k % 64 == c2;
    assert m / 64 == a && m % 64 == c1;
    assert n / 4096 == k / 64 by {
      assert n / 4096 == n / 64 / 64;
    }
    assert n / 262144 == m / 64 by {
      assert n / 262144 == n / 4096 / 64;
    }
    assert b[..4] == [b[0], b[1], b[2], b[3]];
  }

  /** Decoding one encoded character in front of more octets yields that character first. */
  lemma Utf8CharDecodes(c: char, rest: seq<Octet>)
    ensures Utf8Decode(Utf8Char(c) + rest) == Prepend(c, Utf8Decode(rest))
  {
    var n := c as int;
    if n < 0x80 {
      assert (Utf8Char(c) + rest)[1..] == rest;
    } else if n < 0x800 {
      TwoOctetsDecode(c, rest);
    } else if n < 0x1_0000 {
      ThreeOctetsDecode(c, rest);
    } else {
      FourOctetsDecode(c, rest);
    }
  }

  lemma TwoOctetsDecode(c: char, rest: seq<Octet>)
    requires 0x80 <= c as int < 0x800
    ensures Utf8Decode(Utf8Char(c) + rest) == Prepend(c, Utf8Decode(rest))
  {
    var n := c as int;
    assert (Utf8Char(c) + rest)[2..] == rest;
    assert (n / 64) * 64 + n % 64 == n;
  }

  lemma ThreeOctetsDecode(c: char, rest: seq<Octet>)
    requires 0x800 <= c as int < 0x1_0000
    ensures Utf8Decode(Utf8Char(c) + rest) == Prepend(c, Utf8Decode(rest))
  {
    assert (Utf8Char(c) + rest)[3..] == rest;
    Split3(c as int);
  }

  lemma FourOctetsDecode(c: char, rest: seq<Octet>)
    requires 0x1_0000 <= c as int
    ensures Utf8Decode(Utf8Char(c) + rest) == Prepend(c, Utf8Decode(rest))
  {
    assert (Utf8Char(c) + rest)[4..] == rest;
    Split4(c as int);
  }

  lemma Split3(n: nat)
    ensures (n / 4096) * 4096 + (n / 64 % 64) * 64 + n % 64 == n
  {
    assert n == (n / 64) * 64 + n % 64;
    assert n / 64 == (n / 64 / 64) * 64 + n / 64 % 64;
    assert n / 64 / 64 == n / 4096;
  }

  lemma Split4(n: nat)
    ensures (n / 262144) * 262144 + (n / 4096 % 64) * 4096 + (n / 64 % 64) * 64 + n % 64 == n
  {
    Split3(n);
    assert n / 4096 == (n / 4096 / 64) * 64 + n / 4096 % 64;
    assert n / 4096 / 64 == n / 262144;
  }

  /** UTF-8 round trip: decoding the encoding of a text gives the text back. */
  lemma {:induction false} Utf8RoundTrip(s: string)
    ensures Utf8Decode(Utf8(s)) == Some(s)
  {
    if s != [] {
      Utf8RoundTrip(s[1..]);
      Utf8CharDecodes(s[0], Utf8(s[1..]));
      assert [s[0]] + s[1..] == s;
    }
  }

  // ---------------------------------------------------------------------------
  // Percent-encoded octets
  // ---------------------------------------------------------------------------

  predicate IsHexDigit(c: char) {
    '0' <= c <= '9' || 'a' <= c <= 'f' || 'A' <= c <= 'F'
  }

  function HexValue(c: char): (v: nat)
    requires IsHexDigit(c)
    ensures v < 16
  {
    if '0' <= c <= '9' then c as int - '0' as int
    else if 'a' <= c <= 'f' then c as int - 'a' as int + 10
    else c as int - 'A' as int + 10
  }

  /** The octets `s` stands for; no result when a "%" lacks two hexadecimal digits after it. */
  function Octets(s: string): (r: Option<seq<Octet>>)
    decreases |s|
  {
    if s == [] then Some([])
    else if s[0] == '%' then
      if |s| >= 3 && IsHexDigit(s[1]) && IsHexDigit(s[2]) then
        var rest := Octets(s[3..]);
        if rest.Some? then Some([HexValue(s[1]) * 16 + HexValue(s[2])] + rest.value) else None
      else None
    else
      var rest := Octets(s[1..]);
      if rest.Some? then Some(Utf8Char(s[0]) + rest.value) else None
  }

  /** Without a "%", the octets are the UTF-8 encoding of the text. */
  lemma {:induction false} OctetsPlain(s: string)
    requires '%' !in s
    ensures Octets(s) == Some(Utf8(s))
  {
    if s != [] {
      assert s[0] in s;
      assert forall k :: 0 <= k < |s[1..]| ==> s[1..][k] == s[k + 1];
      OctetsPlain(s[1..]);
    }
  }

  /** `removingPercentEncoding`. */
  function RemovingPercentEncoding(s: string): (r: Option<string>)
    ensures '%' !in s ==> r == Some(s)
    ensures Octets(s).None? ==> r.None?
    ensures r.Some? ==> Octets(s).Some? && Utf8(r.value) == Octets(s).value
  {
    var octets := Octets(s);
    if '%' !in s then
      OctetsPlain(s);
      Utf8RoundTrip(s);
      Utf8Decode(octets.value)
    else if octets.Some? then Utf8Decode(octets.value) else None
  }

  /** A "%" that is not followed by two hexadecimal digits makes decoding fail. */
  lemma {:induction false} MalformedEscapeFails(s: string, i: nat)
    requires i < |s| && s[i] == '%' && !(i + 2 < |s| && IsHexDigit(s[i + 1]) && IsHexDigit(s[i + 2]))
    requires forall k :: 0 <= k < i ==> s[k] != '%'
    ensures Octets(s) == None
    ensures RemovingPercentEncoding(s) == None
    decreases i
  {
    if i > 0 {
      assert s[1..][i - 1] == s[i];
      MalformedEscapeFails(s[1..], i - 1);
    }
  }

  // ---------------------------------------------------------------------------
  // Encoding, the inverse
  // ---------------------------------------------------------------------------

  /** Section 2.3 of RFC 3986: characters that never need escaping. */
  predicate IsUnreserved(c: char) {
    'a' <= c <= 'z' || 'A' <= c <= 'Z' || '0' <= c <= '9' || c == '-' || c == '.' || c == '_' || c == '~'
  }

  function HexDigit(v: nat): (c: char)
    requires v < 16
    ensures IsHexDigit(c) && HexValue(c) == v
  {
    if v < 10 then ('0' as int + v) as char else ('A' as int + v - 10) as char
  }

  /** "%" and two upper-case hexadecimal digits for each octet. */
  function Escaped(b: seq<Octet>): (r: string)
    ensures |r| == 3 * |b|
  {
    if b == [] then "" else ['%', HexDigit(b[0] / 16), HexDigit(b[0] % 16)] + Escaped(b[1..])
  }

  /** Percent-encodes every character except the unreserved ones. */
  function PercentEncoded(s: string): string {
    if s == [] then ""
    else (if IsUnreserved(s[0]) then [s[0]] else Escaped(Utf8Char(s[0]))) + PercentEncoded(s[1..])
  }

  lemma {:induction false} EscapedOctets(b: seq<Octet>, rest: string)
    requires Octets(rest).Some?
    ensures Octets(Escaped(b) + rest) == Some(b + Octets(rest).value)
  {
    if b != [] {
      var tail := Escaped(b[1..]) + rest;
      EscapedOctets(b[1..], rest);
      OneEscape(b[0], tail);
      assert Escaped(b) + rest == ['%', HexDigit(b[0] / 16), HexDigit(b[0] % 16)] + tail;
      ConsAppend(b, Octets(rest).value);
    } else {
      assert Escaped(b) + rest == rest;
      assert b + Octets(rest).value == Octets(rest).value;
    }
  }

  lemma ConsAppend<T>(b: seq<T>, o: seq<T>)
    requires b != []
    ensures [b[0]] + (b[1..] + o) == b + o
  {
    assert b == [b[0]] + b[1..];
  }

  lemma OneEscape(x: Octet, tail: string)
    requires Octets(tail).Some?
    ensures Octets(['%', HexDigit(x / 16), HexDigit(x % 16)] + tail) == Some([x] + Octets(tail).value)
  {
    var t := ['%', HexDigit(x / 16), HexDigit(x % 16)] + tail;
    assert t[3..] == tail;
    assert HexValue(t[1]) * 16 + HexValue(t[2]) == x;
  }

  lemma {:induction false} EncodedOctets(s: string)
    ensures Octets(PercentEncoded(s)) == Some(Utf8(s))
  {
    if s != [] {
      EncodedOctets(s[1..]);
      var rest := PercentEncoded(s[1..]);
      if IsUnreserved(s[0]) {
        assert ([s[0]] + rest)[1..] == rest;
      } else {
        EscapedOctets(Utf8Char(s[0]), rest);
      }
    }
  }

  /** Decoding undoes encoding, for every text. */
  lemma PercentRoundTrip(s: string)
    ensures RemovingPercentEncoding(PercentEncoded(s)) == Some(s)
  {
    EncodedOctets(s);
    Utf8RoundTrip(s);
  }
}
