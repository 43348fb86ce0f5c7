/** The byte codecs the login tokens go through: Base64 with the standard
    alphabet and `=` padding (section 4 of RFC 4648), the Latin-1 byte view of
    a string that the browser's `btoa`/`atob` use, and UTF-8 (RFC 3629), which
    the server's `Buffer` uses. */
module Codec {
  import opened Wrappers

  type Byte = b: int | 0 <= b < 256

  // ---------------------------------------------------------------- Base64

  const PAD: char := '='

  /** The character of the Base64 alphabet (Table 1 of RFC 4648) for a 6-bit value. */
  function CharOf(v: int): (c: char)
    requires 0 <= v < 64
    ensures c != PAD
  {
    if v < 26 then ('A' as int + v) as char
    else if v < 52 then ('a' as int + (v - 26)) as char
    else if v < 62 then ('0' as int + (v - 52)) as char
    else if v == 62 then '+'
    else '/'
  }

  /** The 6-bit value of a character of the Base64 alphabet; `None` for any other character. */
  function ValueOf(c: char): (r: Option<int>)
    ensures r.Some? ==> 0 <= r.value < 64 && CharOf(r.value) == c
  {
    if 'A' <= c <= 'Z' then Some(c as int - 'A' as int)
    else if 'a' <= c <= 'z' then Some(c as int - 'a' as int + 26)
    else if '0' <= c <= '9' then Some(c as int - '0' as int + 52)
    else if c == '+' then Some(62)
    else if c == '/' then Some(63)
    else None
  }

  lemma ValueOfCharOf(v: int)
    requires 0 <= v < 64
    ensures ValueOf(CharOf(v)) == Some(v)
  {
  }

  /** Three bytes become four characters of six bits each. */
  function EncodeGroup(b0: Byte, b1: Byte, b2: Byte): string
  {
    [CharOf(b0 / 4), CharOf((b0 % 4) * 16 + b1 / 16), CharOf((b1 % 16) * 4 + b2 / 64), CharOf(b2 % 64)]
  }

  /** Base64 encoding: full groups of three bytes, then a final group of one or
      two bytes padded with `=` to four characters. */
  function Encode(b: seq<Byte>): string
  {
    if |b| == 0 then []
    else if |b| == 1 then [CharOf(b[0] / 4), CharOf((b[0] % 4) * 16), PAD, PAD]
    else if |b| == 2 then [CharOf(b[0] / 4), CharOf((b[0] % 4) * 16 + b[1] / 16), CharOf((b[1] % 16) * 4), PAD]
    else EncodeGroup(b[0], b[1], b[2]) + Encode(b[3..])
  }

  /** The encoding has four characters for every started group of three bytes. */
  lemma {:induction false} EncodeLength(b: seq<Byte>)
    ensures |Encode(b)| == 4 * ((|b| + 2) / 3)
    decreases |b|
  {
    if |b| >= 3 {
      EncodeLength(b[3..]);
      assert (|b| + 2) / 3 == (|b[3..]| + 2) / 3 + 1;
    }
  }

  /** The encoding uses only the alphabet and the pad character. */
  lemma {:induction false} EncodeAlphabet(b: seq<Byte>)
    ensures forall i :: 0 <= i < |Encode(b)| ==> Encode(b)[i] == PAD || ValueOf(Encode(b)[i]).Some?
    decreases |b|
  {
    if |b| >= 3 {
      EncodeAlphabet(b[3..]);
      var g := EncodeGroup(b[0], b[1], b[2]);
      assert forall i :: 0 <= i < 4 ==> ValueOf(g[i]).Some?;
    }
  }

  /** Four alphabet characters become three bytes. */
  function DecodeFull(q: string): Option<seq<Byte>>
    requires |q| == 4
  {
    match (ValueOf(q[0]), ValueOf(q[1]), ValueOf(q[2]), ValueOf(q[3]))
    case (Some(v0), Some(v1), Some(v2), Some(v3)) =>
      Some([v0 * 4 + v1 / 16, (v1 % 16) * 16 + v2 / 4, (v2 % 4) * 64 + v3])
    case _ => None
  }

  /** The last group of four characters, which may end in one or two `=`. */
  function DecodeLast(q: string): Option<seq<Byte>>
    requires |q| == 4
  {
    if q[2] == PAD && q[3] == PAD then
      match (ValueOf(q[0]), ValueOf(q[1]))
      case (Some(v0), Some(v1)) => Some([v0 * 4 + v1 / 16])
      case _ => None
    else if q[3] == PAD then
      match (ValueOf(q[0]), ValueOf(q[1]), ValueOf(q[2]))
      case (Some(v0), Some(v1), Some(v2)) => Some([v0 * 4 + v1 / 16, (v1 % 16) * 16 + v2 / 4])
      case _ => None
    else DecodeFull(q)
  }

  /** Base64 decoding; `None` when the length is not a multiple of four, a
      character is outside the alphabet, or `=` appears before the last group. */
  function Decode(s: string): Option<seq<Byte>>
    decreases |s|
  {
    if s == [] then Some([])
    else if |s| < 4 then None
    else if |s| == 4 then DecodeLast(s)
    else
      match DecodeFull(s[..4])
      case None => None
      case Some(group) =>
        match Decode(s[4..])
        case None => None
        case Some(rest) => Some(group + rest)
  }

  /** The six-bit values of a group of three bytes put back together give the bytes. */
  lemma GroupArithmetic(b0: Byte, b1: Byte, b2: Byte)
    ensures var v1 := (b0 % 4) * 16 + b1 / 16;
            var v2 := (b1 % 16) * 4 + b2 / 64;
            && (b0 / 4) * 4 + v1 / 16 == b0
            && (v1 % 16) * 16 + v2 / 4 == b1
            && (v2 % 4) * 64 + b2 % 64 == b2
  {
    var v1 := (b0 % 4) * 16 + b1 / 16;
    var v2 := (b1 % 16) * 4 + b2 / 64;
    assert 0 <= b1 / 16 < 16;
    assert v1 / 16 == b0 % 4 && v1 % 16 == b1 / 16;
    assert 0 <= b2 / 64 < 4;
    assert v2 / 4 == b1 % 16 && v2 % 4 == b2 / 64;
  }

  lemma GroupRoundTrip(b0: Byte, b1: Byte, b2: Byte)
    ensures DecodeFull(EncodeGroup(b0, b1, b2)) == Some([b0, b1, b2])
    ensures DecodeLast(EncodeGroup(b0, b1, b2)) == Some([b0, b1, b2])
  {
    var v1 := (b0 % 4) * 16 + b1 / 16;
    var v2 := (b1 % 16) * 4 + b2 / 64;
    ValueOfCharOf(b0 / 4);
    ValueOfCharOf(v1);
    ValueOfCharOf(v2);
    ValueOfCharOf(b2 % 64);
    GroupArithmetic(b0, b1, b2);
  }

  lemma DecodeEncodeOne(b: seq<Byte>)
    requires |b| == 1
    ensures Decode(Encode(b)) == Some(b)
  {
    ValueOfCharOf(b[0] / 4);
    ValueOfCharOf((b[0] % 4) * 16);
    GroupArithmetic(b[0], 0, 0);
    assert b == [b[0]];
  }

  /** A last group with one `=` decodes to two bytes from its three values. */
  lemma DecodeLastTwo(q: string, v0: int, v1: int, v2: int, b: seq<Byte>)
    requires |q| == 4 && q[2] != PAD && q[3] == PAD
    requires ValueOf(q[0]) == Some(v0) && ValueOf(q[1]) == Some(v1) && ValueOf(q[2]) == Some(v2)
    requires |b| == 2 && v0 * 4 + v1 / 16 == b[0] && (v1 % 16) * 16 + v2 / 4 == b[1]
    ensures Decode(q) == Some(b)
  {
    assert [v0 * 4 + v1 / 16, (v1 % 16) * 16 + v2 / 4] == b;
  }

  /** The six-bit values of two bytes put back together give the bytes. */
  lemma PairArithmetic(b0: Byte, b1: Byte)
    ensures var v1 := (b0 % 4) * 16 + b1 / 16;
            var v2 := (b1 % 16) * 4;
            (b0 / 4) * 4 + v1 / 16 == b0 && (v1 % 16) * 16 + v2 / 4 == b1
  {
    var v1 := (b0 % 4) * 16 + b1 / 16;
    assert 0 <= b1 / 16 < 16;
    assert v1 / 16 == b0 % 4 && v1 % 16 == b1 / 16;
  }

  /** Two bytes encode as three alphabet characters and one `=`, and the
      characters carry the six-bit values of the bytes. */
  lemma EncodeTwo(b: seq<Byte>) returns (v0: int, v1: int, v2: int)
    requires |b| == 2
    ensures |Encode(b)| == 4 && Encode(b)[2] != PAD && Encode(b)[3] == PAD
    ensures ValueOf(Encode(b)[0]) == Some(v0) && ValueOf(Encode(b)[1]) == Some(v1) && ValueOf(Encode(b)[2]) == Some(v2)
    ensures v0 * 4 + v1 / 16 == b[0] && (v1 % 16) * 16 + v2 / 4 == b[1]
  {
    v0 := b[0] / 4;
    v1 := (b[0] % 4) * 16 + b[1] / 16;
    v2 := (b[1] % 16) * 4;
    ValueOfCharOf(v0);
    ValueOfCharOf(v1);
    ValueOfCharOf(v2);
    PairArithmetic(b[0], b[1]);
  }

  lemma DecodeEncodeTwo(b: seq<Byte>)
    requires |b| == 2
    ensures Decode(Encode(b)) == Some(b)
  {
    var v0, v1, v2 := EncodeTwo(b);
    DecodeLastTwo(Encode(b), v0, v1, v2, b);
  }

  lemma DecodeCons(g: string, rest: string, x: seq<Byte>, y: seq<Byte>, b: seq<Byte>)
    requires |g| == 4 && DecodeFull(g) == Some(x) && DecodeLast(g) == Some(x) && Decode(rest) == Some(y)
    requires b == x + y
    ensures Decode(g + rest) == Some(b)
  {
    if rest == [] {
      assert g + rest == g;
      assert x + y == x;
    } else {
      assert (g + rest)[..4] == g;
      assert (g + rest)[4..] == rest;
    }
  }

  /** The encoding of three or more bytes `x + y`, with `x` the first three,
      starts with a group of four characters that decodes, as a full or as a
      last group, to `x`, followed by the encoding of `y`. */
  lemma EncodeFront(b: seq<Byte>) returns (g: string, x: seq<Byte>, y: seq<Byte>)
    requires |b| >= 3
    ensures |g| == 4 && Encode(b) == g + Encode(y) && b == x + y && |y| < |b|
    ensures DecodeFull(g) == Some(x) && DecodeLast(g) == Some(x)
  {
    g := EncodeGroup(b[0], b[1], b[2]);
    x := [b[0], b[1], b[2]];
    y := b[3..];
    GroupRoundTrip(b[0], b[1], b[2]);
    assert b == x + y;
  }

  /** Decoding an encoding gives back the bytes (RFC 4648, section 4). */
  lemma {:induction false} DecodeEncode(b: seq<Byte>)
    ensures Decode(Encode(b)) == Some(b)
    decreases |b|
  {
    if |b| == 1 {
      DecodeEncodeOne(b);
    } else if |b| == 2 {
      DecodeEncodeTwo(b);
    } else if |b| >= 3 {
      var g, x, y := EncodeFront(b);
      DecodeEncode(y);
      DecodeCons(g, Encode(y), x, y, b);
    }
  }

  // ---------------------------------------------------------------- Latin-1 (btoa / atob)

  /** The bytes `btoa` sees: one per character, or `None` (an
      `InvalidCharacterError`) when a character is above U+00FF. */
  function Latin1Bytes(s: string): (r: Option<seq<Byte>>)
    ensures r.Some? <==> forall i :: 0 <= i < |s| ==> s[i] as int < 256
    ensures r.Some? ==> |r.value| == |s| && forall i :: 0 <= i < |s| ==> r.value[i] == s[i] as int
  {
    if s == [] then Some([])
    else if s[0] as int >= 256 then None
    else
      match Latin1Bytes(s[1..])
      case None => None
      case Some(rest) => Some([s[0] as int] + rest)
  }

  /** The string `atob` returns: one character per byte. */
  function Latin1String(b: seq<Byte>): (s: string)
    ensures |s| == |b| && forall i :: 0 <= i < |b| ==> s[i] as int == b[i]
  {
    seq(|b|, i requires 0 <= i < |b| => b[i] as char)
  }

  /** `btoa(s)`: `None` where the browser throws. */
  function Btoa(s: string): Option<string>
  {
    match Latin1Bytes(s)
    case None => None
    case Some(b) => Some(Encode(b))
  }

  /** `atob(t)`: `None` where the browser throws. */
  function Atob(t: string): Option<string>
  {
    match Decode(t)
    case None => None
    case Some(b) => Some(Latin1String(b))
  }

  /** `atob(btoa(s)) === s` for every string `btoa` accepts. */
  lemma AtobBtoa(s: string)
    requires Btoa(s).Some?
    ensures Atob(Btoa(s).value) == Some(s)
  {
    var b := Latin1Bytes(s).value;
    DecodeEncode(b);
    assert Latin1String(b) == s;
  }

  // ---------------------------------------------------------------- UTF-8

  const REPLACEMENT: char := '\U{FFFD}'

  predicate IsContinuation(b: Byte)
  {
    0x80 <= b < 0xC0
  }

  /** The one to four bytes of a code point (section 3 of RFC 3629). */
  function EncodeChar(c: char): (r: seq<Byte>)
    ensures 1 <= |r| <= 4
  {
    var n := c as int;
    if n < 0x80 then [n]
    else if n < 0x800 then [0xC0 + n / 64, 0x80 + n % 64]
    else if n < 0x10000 then [0xE0 + n / 4096, 0x80 + (n / 64) % 64, 0x80 + n % 64]
    else [0xF0 + n / 262144, 0x80 + (n / 4096) % 64, 0x80 + (n / 64) % 64, 0x80 + n % 64]
  }

  /** `Buffer.from(s, 'utf8')`. */
  function EncodeUtf8(s: string): (r: seq<Byte>)
    ensures |r| >= |s|
  {
    if s == [] then [] else EncodeChar(s[0]) + EncodeUtf8(s[1..])
  }

  /** `buffer.toString('utf8')`: well-formed sequences become their code
      points; any other byte becomes U+FFFD. */
  function DecodeUtf8(b: seq<Byte>): string
    decreases |b|
  {
    if b == [] then []
    else
      var b0: int := b[0];
      if b0 < 0x80 then [b0 as char] + DecodeUtf8(b[1..])
      else if 0xC2 <= b0 <= 0xDF && |b| >= 2 && IsContinuation(b[1]) then
        [((b0 - 0xC0) * 64 + (b[1] as int - 0x80)) as char] + DecodeUtf8(b[2..])
      else if 0xE0 <= b0 <= 0xEF && |b| >= 3 && IsContinuation(b[1]) && IsContinuation(b[2])
        && var n := (b0 - 0xE0) * 4096 + (b[1] as int - 0x80) * 64 + (b[2] as int - 0x80);
           0x800 <= n && !(0xD800 <= n <= 0xDFFF) then
        [((b0 - 0xE0) * 4096 + (b[1] as int - 0x80) * 64 + (b[2] as int - 0x80)) as char] + DecodeUtf8(b[3..])
      else if 0xF0 <= b0 <= 0xF4 && |b| >= 4 && IsContinuation(b[1]) && IsContinuation(b[2]) && IsContinuation(b[3])
        && var n := (b0 - 0xF0) * 262144 + (b[1] as int - 0x80) * 4096 + (b[2] as int - 0x80) * 64 + (b[3] as int - 0x80);
           0x10000 <= n <= 0x10FFFF then
        [((b0 - 0xF0) * 262144 + (b[1] as int - 0x80) * 4096 + (b[2] as int - 0x80) * 64 + (b[3] as int - 0x80)) as char] + DecodeUtf8(b[4..])
      else [REPLACEMENT] + DecodeUtf8(b[1..])
  }

  /** A one-byte code point decodes back. */
  lemma DecodeOneByte(c: char, rest: seq<Byte>)
    requires c as int < 0x80
    ensures DecodeUtf8(EncodeChar(c) + rest) == [c] + DecodeUtf8(rest)
  {
    assert (EncodeChar(c) + rest)[1..] == rest;
  }

  /** A two-byte code point decodes back. */
  lemma DecodeTwoBytes(c: char, rest: seq<Byte>)
    requires 0x80 <= c as int < 0x800
    ensures DecodeUtf8(EncodeChar(c) + rest) == [c] + DecodeUtf8(rest)
  {
    var n := c as int;
    assert (EncodeChar(c) + rest)[2..] == rest;
    assert (n / 64) * 64 + n % 64 == n;
  }

  /** A three-byte code point decodes back. */
  lemma DecodeThreeBytes(c: char, rest: seq<Byte>)
    requires 0x800 <= c as int < 0x10000
    ensures DecodeUtf8(EncodeChar(c) + rest) == [c] + DecodeUtf8(rest)
  {
    var n := c as int;
    assert (EncodeChar(c) + rest)[3..] == rest;
    assert n / 4096 == (n / 64) / 64;
    assert (n / 4096) * 4096 + ((n / 64) % 64) * 64 + n % 64 == n;
  }

  /** A four-byte code point decodes back. */
  lemma DecodeFourBytes(c: char, rest: seq<Byte>)
    requires 0x10000 <= c as int
    ensures DecodeUtf8(EncodeChar(c) + rest) == [c] + DecodeUtf8(rest)
  {
    var n := c as int;
    assert (EncodeChar(c) + rest)[4..] == rest;
    assert n / 262144 == ((n / 64) / 64) / 64;
    assert (n / 4096) % 64 == ((n / 64) / 64) % 64;
    assert (n / 262144) * 262144 + ((n / 4096) % 64) * 4096 + ((n / 64) % 64) * 64 + n % 64 == n;
  }

  /** The encoding of one code point in front of other bytes decodes to that
      code point first. */
  lemma DecodeCharStep(c: char, rest: seq<Byte>)
    ensures DecodeUtf8(EncodeChar(c) + rest) == [c] + DecodeUtf8(rest)
  {
    var n := c as int;
    if n < 0x80 {
      DecodeOneByte(c, rest);
    } else if n < 0x800 {
      DecodeTwoBytes(c, rest);
    } else if n < 0x10000 {
      DecodeThreeBytes(c, rest);
    } else {
      DecodeFourBytes(c, rest);
    }
  }

  /** Decoding the UTF-8 encoding of a string gives back the string. */
  lemma {:induction false} DecodeEncodeUtf8(s: string)
    ensures DecodeUtf8(EncodeUtf8(s)) == s
    decreases |s|
  {
    if s != [] {
      DecodeCharStep(s[0], EncodeUtf8(s[1..]));
      DecodeEncodeUtf8(s[1..]);
    }
  }
}
