/** UTF-8 for Go strings that hold valid text: a string here is its sequence of Unicode scalar
    values. */
module Utf8 {
  import opened Base64Url
  import opened Options

  function EncodeChar(c: char): (b: seq<Byte>)
    ensures 1 <= |b| <= 4
  {
    var u := c as int;
    if u < 0x80 then [u]
    else if u < 0x800 then [0xC0 + u / 64, 0x80 + u % 64]
    else if u < 0x10000 then [0xE0 + u / 4096, 0x80 + u / 64 % 64, 0x80 + u % 64]
    else [0xF0 + u / 262144, 0x80 + u / 4096 % 64, 0x80 + u / 64 % 64, 0x80 + u % 64]
  }

  function Encode(s: string): (b: seq<Byte>)
    ensures s != [] ==> b != []
  {
    if s == [] then [] else EncodeChar(s[0]) + Encode(s[1..])
  }

  predicate Continues(b: Byte) {
    0x80 <= b < 0xC0
  }

  predicate IsScalar(u: int) {
    0 <= u < 0xD800 || 0xE000 <= u < 0x11_0000
  }

  /** The scalar value at the front of b and its length: shortest form only, no surrogates. */
  function DecodeChar(b: seq<Byte>): (r: Option<(char, nat)>)
    ensures r.Some? ==> 1 <= r.value.1 <= |b|
  {
    if b == [] then None
    else if b[0] < 0x80 then Some((b[0] as char, 1))
    else if 0xC0 <= b[0] < 0xE0 && |b| >= 2 && Continues(b[1]) then
      var u := (b[0] as int - 0xC0) * 64 + (b[1] as int - 0x80);
      if u >= 0x80 then Some((u as char, 2)) else None
    else if 0xE0 <= b[0] < 0xF0 && |b| >= 3 && Continues(b[1]) && Continues(b[2]) then
      var u := (b[0] as int - 0xE0) * 4096 + (b[1] as int - 0x80) * 64 + (b[2] as int - 0x80);
      if u >= 0x800 && IsScalar(u) then Some((u as char, 3)) else None
    else if 0xF0 <= b[0] < 0xF8 && |b| >= 4 && Continues(b[1]) && Continues(b[2]) && Continues(b[3]) then
      var u := (b[0] as int - 0xF0) * 262144 + (b[1] as int - 0x80) * 4096 + (b[2] as int - 0x80) * 64
          + (b[3] as int - 0x80);
      if u >= 0x10000 && IsScalar(u) then Some((u as char, 4)) else None
    else None
  }

  function Decode(b: seq<Byte>): Option<string> {
    if b == [] then Some([])
    else
      var first := DecodeChar(b);
      if first.None? then None
      else
        match Decode(b[first.value.1..])
        case None => None
        case Some(rest) => Some([first.value.0] + rest)
  }

  lemma SixBits(u: int)
    requires 0 <= u
    ensures u == u / 64 * 64 + u % 64
    ensures u == u / 4096 * 4096 + u / 64 % 64 * 64 + u % 64
    ensures u == u / 262144 * 262144 + u / 4096 % 64 * 4096 + u / 64 % 64 * 64 + u % 64
  {
    assert u / 64 / 64 == u / 4096;
    assert u / 4096 / 64 == u / 262144;
  }

  lemma CharRoundTrip(c: char, rest: seq<Byte>)
    ensures DecodeChar(EncodeChar(c) + rest) == Some((c, |EncodeChar(c)|))
  {
    var u := c as int;
    var b := EncodeChar(c) + rest;
    SixBits(u);
    if u < 0x80 {
    } else if u < 0x800 {
      assert b[0] == 0xC0 + u / 64 && b[1] == 0x80 + u % 64;
    } else if u < 0x10000 {
      assert b[0] == 0xE0 + u / 4096 && b[1] == 0x80 + u / 64 % 64 && b[2] == 0x80 + u % 64;
    } else {
      assert b[0] == 0xF0 + u / 262144 && b[1] == 0x80 + u / 4096 % 64;
      assert b[2] == 0x80 + u / 64 % 64 && b[3] == 0x80 + u % 64;
    }
  }

  lemma DecodePrepended(first: seq<Byte>, c: char, rest: seq<Byte>)
    requires DecodeChar(first + rest) == Some((c, |first|))
    ensures Decode(rest).Some? ==> Decode(first + rest) == Some([c] + Decode(rest).value)
  {
  }

  /** Any text survives encoding and decoding. */
  lemma {:induction false} Utf8RoundTrip(s: string)
    ensures Decode(Encode(s)) == Some(s)
  {
    if s != [] {
      CharRoundTrip(s[0], Encode(s[1..]));
      Utf8RoundTrip(s[1..]);
      DecodePrepended(EncodeChar(s[0]), s[0], Encode(s[1..]));
      assert s == [s[0]] + s[1..];
    }
  }
}
