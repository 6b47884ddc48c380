/** Unpadded base64url, section 5 of RFC 4648, as base64.RawURLEncoding encodes and decodes. */
module Base64Url {
  import opened Options

  type Byte = b: int | 0 <= b < 256

  predicate InAlphabet(c: char) {
    'A' <= c <= 'Z' || 'a' <= c <= 'z' || '0' <= c <= '9' || c == '-' || c == '_'
  }

  function Symbol(v: int): (c: char)
    requires 0 <= v < 64
    ensures InAlphabet(c) && SymbolValue(c) == v
  {
    if v < 26 then ('A' as int + v) as char
    else if v < 52 then ('a' as int + (v - 26)) as char
    else if v < 62 then ('0' as int + (v - 52)) as char
    else if v == 62 then '-' else '_'
  }

  function SymbolValue(c: char): (v: int)
    requires InAlphabet(c)
    ensures 0 <= v < 64
  {
    if 'A' <= c <= 'Z' then c as int - 'A' as int
    else if 'a' <= c <= 'z' then c as int - 'a' as int + 26
    else if '0' <= c <= '9' then c as int - '0' as int + 52
    else if c == '-' then 62 else 63
  }

  function Encode(b: seq<Byte>): (s: string)
    ensures forall c :: c in s ==> InAlphabet(c)
    ensures b != [] ==> s != []
  {
    if b == [] then []
    else if |b| == 1 then
      [Symbol(b[0] / 4), Symbol(b[0] % 4 * 16)]
    else if |b| == 2 then
      [Symbol(b[0] / 4), Symbol(b[0] % 4 * 16 + b[1] / 16), Symbol(b[1] % 16 * 4)]
    else
      [Symbol(b[0] / 4), Symbol(b[0] % 4 * 16 + b[1] / 16), Symbol(b[1] % 16 * 4 + b[2] / 64), Symbol(b[2] % 64)]
      + Encode(b[3..])
  }

  /** The decoder skips line breaks wherever they stand. */
  function WithoutBreaks(s: string): string {
    if s == [] then []
    else if s[0] == '\r' || s[0] == '\n' then WithoutBreaks(s[1..])
    else [s[0]] + WithoutBreaks(s[1..])
  }

  /** Four symbols a time; two or three may be left over, and bits they do not use are
      ignored. */
  function DecodeSymbols(s: string): Option<seq<Byte>> {
    if s == [] then Some([])
    else if |s| == 1 || !InAlphabet(s[0]) || !InAlphabet(s[1]) then None
    else
      var v0, v1 := SymbolValue(s[0]), SymbolValue(s[1]);
      var first := v0 * 4 + v1 / 16;
      if |s| == 2 then Some([first])
      else if !InAlphabet(s[2]) then None
      else
        var v2 := SymbolValue(s[2]);
        var second := v1 % 16 * 16 + v2 / 4;
        if |s| == 3 then Some([first, second])
        else if !InAlphabet(s[3]) then None
        else
          var third := v2 % 4 * 64 + SymbolValue(s[3]);
          match DecodeSymbols(s[4..])
          case None => None
          case Some(rest) => Some([first, second, third] + rest)
  }

  function Decode(s: string): Option<seq<Byte>> {
    DecodeSymbols(WithoutBreaks(s))
  }

  lemma {:induction false} NothingToSkip(s: string)
    requires forall c :: c in s ==> InAlphabet(c)
    ensures WithoutBreaks(s) == s
  {
    if s != [] {
      assert InAlphabet(s[0]);
      NothingToSkip(s[1..]);
      assert s == [s[0]] + s[1..];
    }
  }

  lemma QuantumRoundTrip(x: Byte, y: Byte, z: Byte)
    ensures x / 4 * 4 + (x % 4 * 16 + y / 16) / 16 == x
    ensures (x % 4 * 16 + y / 16) % 16 * 16 + (y % 16 * 4 + z / 64) / 4 == y
    ensures (y % 16 * 4 + z / 64) % 4 * 64 + z % 64 == z
  {
  }

  lemma DecodePrepended(x: Byte, y: Byte, z: Byte, rest: string)
    requires DecodeSymbols(rest).Some?
    ensures DecodeSymbols([Symbol(x / 4), Symbol(x % 4 * 16 + y / 16), Symbol(y % 16 * 4 + z / 64), Symbol(z % 64)]
        + rest)
            == Some([x, y, z] + DecodeSymbols(rest).value)
  {
    var s := [Symbol(x / 4), Symbol(x % 4 * 16 + y / 16), Symbol(y % 16 * 4 + z / 64), Symbol(z % 64)] + rest;
    assert s[4..] == rest;
    QuantumRoundTrip(x, y, z);
  }

  lemma OneLeftOver(x: Byte)
    ensures DecodeSymbols(Encode([x])) == Some([x])
  {
  }

  lemma TwoLeftOver(x: Byte, y: Byte)
    ensures DecodeSymbols(Encode([x, y])) == Some([x, y])
  {
    assert Encode([x, y]) == [Symbol(x / 4), Symbol(x % 4 * 16 + y / 16), Symbol(y % 16 * 4)];
    QuantumRoundTrip(x, y, 0);
    assert y % 16 * 4 / 4 == y % 16;
  }

  lemma {:induction false} SymbolsRoundTrip(b: seq<Byte>)
    ensures DecodeSymbols(Encode(b)) == Some(b)
  {
    if b == [] {
    } else if |b| == 1 {
      assert b == [b[0]];
      OneLeftOver(b[0]);
    } else if |b| == 2 {
      assert b == [b[0], b[1]];
      TwoLeftOver(b[0], b[1]);
    } else {
      SymbolsRoundTrip(b[3..]);
      DecodePrepended(b[0], b[1], b[2], Encode(b[3..]));
      assert b == [b[0], b[1], b[2]] + b[3..];
    }
  }

  /** Any bytes survive encoding and decoding. */
  lemma Base64RoundTrip(b: seq<Byte>)
    ensures Decode(Encode(b)) == Some(b)
  {
    NothingToSkip(Encode(b));
    SymbolsRoundTrip(b);
  }
}
