/** UTF-8 as the journal's writer encodes it and its reader strictly decodes it (RFC 3629, section 3). */
module Utf8 {
  import opened Common

  function EncodeChar(c: char): (r: seq<byte>)
    ensures 0 < |r|
  {
    var n := c as int;
    if n < 0x80 then [n]
    else if n < 0x800 then [0xC0 + n / 64, 0x80 + n % 64]
    else if n < 0x10000 then [0xE0 + n / 4096, 0x80 + n / 64 % 64, 0x80 + n % 64]
    else [0xF0 + n / 262144, 0x80 + n / 4096 % 64, 0x80 + n / 64 % 64, 0x80 + n % 64]
  }

  function Encode(s: string): seq<byte> {
    if s == [] then [] else EncodeChar(s[0]) + Encode(s[1..])
  }

  predicate Continues(b: byte) {
    0x80 <= b < 0xC0
  }

  /** A Unicode scalar value; surrogates are not. */
  predicate Scalar(n: int) {
    0 <= n < 0xD800 || 0xE000 <= n < 0x110000
  }

  function CharOf(n: int, least: int, rest: seq<byte>): Option<(char, seq<byte>)> {
    if least <= n && Scalar(n) then Some((n as char, rest)) else None
  }

  /** First character and the bytes after it; overlong forms, surrogates and values past U+10FFFF fail. */
  function DecodeChar(b: seq<byte>): (r: Option<(char, seq<byte>)>)
    requires b != []
    ensures r.Some? ==> |r.value.1| < |b|
  {
    if b[0] < 0x80 then Some((b[0] as char, b[1..]))
    else if 0xC0 <= b[0] < 0xE0 && 2 <= |b| && Continues(b[1]) then
      CharOf((b[0] as int - 0xC0) * 64 + (b[1] as int - 0x80), 0x80, b[2..])
    else if 0xE0 <= b[0] < 0xF0 && 3 <= |b| && Continues(b[1]) && Continues(b[2]) then
      CharOf((b[0] as int - 0xE0) * 4096 + (b[1] as int - 0x80) * 64 + (b[2] as int - 0x80), 0x800, b[3..])
    else if 0xF0 <= b[0] < 0xF8 && 4 <= |b| && Continues(b[1]) && Continues(b[2]) && Continues(b[3]) then
      CharOf((b[0] as int - 0xF0) * 262144 + (b[1] as int - 0x80) * 4096 + (b[2] as int - 0x80) * 64
             + (b[3] as int - 0x80), 0x10000, b[4..])
    else None
  }

  function Decode(b: seq<byte>): Option<string>
    decreases |b|
  {
    if b == [] then Some([])
    else
      match DecodeChar(b)
      case None => None
      case Some((c, rest)) =>
        match Decode(rest)
        case None => None
        case Some(s) => Some([c] + s)
  }

  lemma {:induction false} DecodedIsShorter(b: seq<byte>)
    ensures Decode(b).Some? ==> |Decode(b).value| <= |b|
    decreases |b|
  {
    if b != [] && DecodeChar(b).Some? {
      DecodedIsShorter(DecodeChar(b).value.1);
    }
  }

  lemma DecodeTwo(n: nat, rest: seq<byte>)
    requires 0x80 <= n < 0x800
    ensures DecodeChar([0xC0 + n / 64, 0x80 + n % 64] + rest) == Some((n as char, rest))
  {
    var b := [0xC0 + n / 64, 0x80 + n % 64] + rest;
    assert b[2..] == rest;
    assert (b[0] as int - 0xC0) * 64 + (b[1] as int - 0x80) == n;
  }

  lemma DecodeThree(n: nat, rest: seq<byte>)
    requires 0x800 <= n < 0x10000 && Scalar(n)
    ensures DecodeChar([0xE0 + n / 4096, 0x80 + n / 64 % 64, 0x80 + n % 64] + rest) == Some((n as char, rest))
  {
    var b := [0xE0 + n / 4096, 0x80 + n / 64 % 64, 0x80 + n % 64] + rest;
    assert b[3..] == rest;
    assert (b[0] as int - 0xE0) * 4096 + (b[1] as int - 0x80) * 64 + (b[2] as int - 0x80) == n;
  }

  lemma FourParts(n: nat)
    requires n < 0x110000
    ensures n / 262144 < 8 && n / 262144 * 262144 + n / 4096 % 64 * 4096 + n / 64 % 64 * 64 + n % 64 == n
  {
    assert n / 64 / 64 == n / 4096;
    assert n / 4096 / 64 == n / 262144;
  }

  lemma DecodeFour(n: nat, rest: seq<byte>)
    requires 0x10000 <= n < 0x110000
    ensures DecodeChar([0xF0 + n / 262144, 0x80 + n / 4096 % 64, 0x80 + n / 64 % 64, 0x80 + n % 64] + rest)
         == Some((n as char, rest))
  {
    var b := [0xF0 + n / 262144, 0x80 + n / 4096 % 64, 0x80 + n / 64 % 64, 0x80 + n % 64] + rest;
    assert b[4..] == rest;
    FourParts(n);
  }

  lemma DecodeEncodedChar(c: char, rest: seq<byte>)
    ensures DecodeChar(EncodeChar(c) + rest) == Some((c, rest))
  {
    var n := c as int;
    if n < 0x80 {
      assert ([n] + rest)[1..] == rest;
    } else if n < 0x800 {
      DecodeTwo(n, rest);
    } else if n < 0x10000 {
      DecodeThree(n, rest);
    } else {
      DecodeFour(n, rest);
    }
  }

  /** Strict decoding undoes encoding. */
  lemma {:induction false} DecodeUndoesEncode(s: string)
    ensures Decode(Encode(s)) == Some(s)
  {
    if s != [] {
      DecodeEncodedChar(s[0], Encode(s[1..]));
      DecodeUndoesEncode(s[1..]);
      assert s == [s[0]] + s[1..];
    }
  }

  lemma TwoParts(b: seq<byte>)
    requires 2 <= |b| && 0xC0 <= b[0] < 0xE0 && Continues(b[1])
    requires CharOf((b[0] as int - 0xC0) * 64 + (b[1] as int - 0x80), 0x80, b[2..]).Some?
    ensures var n := (b[0] as int - 0xC0) * 64 + (b[1] as int - 0x80);
            EncodeChar(n as char) + b[2..] == b
  {
    var n := (b[0] as int - 0xC0) * 64 + (b[1] as int - 0x80);
    assert n / 64 == b[0] as int - 0xC0 && n % 64 == b[1] as int - 0x80;
  }

  lemma ThreeParts(b: seq<byte>)
    requires 3 <= |b| && 0xE0 <= b[0] < 0xF0 && Continues(b[1]) && Continues(b[2])
    requires var n := (b[0] as int - 0xE0) * 4096 + (b[1] as int - 0x80) * 64 + (b[2] as int - 0x80);
             CharOf(n, 0x800, b[3..]).Some?
    ensures var n := (b[0] as int - 0xE0) * 4096 + (b[1] as int - 0x80) * 64 + (b[2] as int - 0x80);
            EncodeChar(n as char) + b[3..] == b
  {
    var x, y, z := b[0] as int - 0xE0, b[1] as int - 0x80, b[2] as int - 0x80;
    var n := x * 4096 + y * 64 + z;
    assert n / 64 == x * 64 + y && n % 64 == z;
    assert n / 4096 == x && n / 64 % 64 == y;
  }

  lemma Digits64(x: nat, y: nat, z: nat, u: nat)
    requires y < 64 && z < 64 && u < 64
    ensures var n := x * 262144 + y * 4096 + z * 64 + u;
            n / 262144 == x && n / 4096 % 64 == y && n / 64 % 64 == z && n % 64 == u
  {
    var n := x * 262144 + y * 4096 + z * 64 + u;
    assert n / 64 == x * 4096 + y * 64 + z && n % 64 == u;
    assert n / 4096 == x * 64 + y;
  }

  lemma FourBytes(b: seq<byte>)
    requires 4 <= |b| && 0xF0 <= b[0] < 0xF8 && Continues(b[1]) && Continues(b[2]) && Continues(b[3])
    requires var n := (b[0] as int - 0xF0) * 262144 + (b[1] as int - 0x80) * 4096 + (b[2] as int - 0x80) * 64
                      + (b[3] as int - 0x80);
             CharOf(n, 0x10000, b[4..]).Some?
    ensures var n := (b[0] as int - 0xF0) * 262144 + (b[1] as int - 0x80) * 4096 + (b[2] as int - 0x80) * 64
                     + (b[3] as int - 0x80);
            EncodeChar(n as char) + b[4..] == b
  {
    Digits64(b[0] as int - 0xF0, b[1] as int - 0x80, b[2] as int - 0x80, b[3] as int - 0x80);
  }

  lemma DecodedCharEncodes(b: seq<byte>)
    requires b != [] && DecodeChar(b).Some?
    ensures EncodeChar(DecodeChar(b).value.0) + DecodeChar(b).value.1 == b
  {
    if b[0] >= 0xF0 {
      FourBytes(b);
    } else if b[0] >= 0xE0 {
      ThreeParts(b);
    } else if b[0] >= 0xC0 {
      TwoParts(b);
    }
  }

  /** And encoding undoes decoding: the decoder accepts nothing but encodings. */
  lemma {:induction false} EncodeUndoesDecode(b: seq<byte>)
    ensures Decode(b).Some? ==> Encode(Decode(b).value) == b
    decreases |b|
  {
    if b != [] && Decode(b).Some? {
      var (c, rest) := DecodeChar(b).value;
      DecodedCharEncodes(b);
      EncodeUndoesDecode(rest);
      assert ([c] + Decode(rest).value)[1..] == Decode(rest).value;
    }
  }

  /** A newline byte appears in the encoding only where the text has a newline. */
  lemma {:induction false} NewlineOnlyFromNewline(s: string)
    ensures (10 as byte) in Encode(s) <==> '\n' in s
  {
    if s != [] {
      assert 10 in EncodeChar(s[0]) <==> s[0] == '\n' by {
        var n := s[0] as int;
        var e := EncodeChar(s[0]);
        assert e[0] == 10 <==> n == 10;
        assert forall i :: 1 <= i < |e| ==> e[i] >= 0x80;
      }
      NewlineOnlyFromNewline(s[1..]);
      assert s == [s[0]] + s[1..];
      assert '\n' in s <==> s[0] == '\n' || '\n' in s[1..];
    }
  }

  lemma {:induction false} EncodeConcat(s: string, t: string)
    ensures Encode(s + t) == Encode(s) + Encode(t)
  {
    if s == [] {
      assert s + t == t;
    } else {
      assert (s + t)[1..] == s[1..] + t;
      EncodeConcat(s[1..], t);
    }
  }
}
