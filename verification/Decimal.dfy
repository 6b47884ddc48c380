/** strconv.FormatInt(n, 10) and strconv.ParseInt(s, 10, 64). */
module Decimal {

  const MAX_UINT64 := 0xFFFF_FFFF_FFFF_FFFF
  const MIN_INT64 := -0x8000_0000_0000_0000
  const MAX_INT64 := 0x7FFF_FFFF_FFFF_FFFF

  predicate IsDigit(c: char) {
    '0' <= c <= '9'
  }

  function DigitValue(c: char): (v: nat)
    requires IsDigit(c)
    ensures v < 10
  {
    c as int - '0' as int
  }

  function Digit(v: nat): (c: char)
    requires v < 10
    ensures IsDigit(c) && DigitValue(c) == v
  {
    (v + '0' as int) as char
  }

  function FormatNat(n: nat): (s: string)
    ensures s != [] && forall c :: c in s ==> IsDigit(c)
  {
    if n < 10 then [Digit(n)] else FormatNat(n / 10) + [Digit(n % 10)]
  }

  function FormatInt(n: int): (s: string)
    ensures s != [] && forall c :: c in s ==> IsDigit(c) || c == '-'
  {
    if n < 0 then ['-'] + FormatNat(-n) else FormatNat(n)
  }

  datatype Unsigned = Value(n: nat) | Syntax | Range

  /** ParseUint reads left to right and stops at the first bad digit or overflow. */
  function ParseDigits(s: string, acc: nat): Unsigned
    requires acc <= MAX_UINT64
  {
    if s == [] then Value(acc)
    else if !IsDigit(s[0]) then Syntax
    else
      var next := acc * 10 + DigitValue(s[0]);
      if next > MAX_UINT64 then Range else ParseDigits(s[1..], next)
  }

  /** The value ParseInt returns, and whether it returns it without an error. On a range error
      the value is the nearest bound, on a syntax error zero. */
  function ParseInt(s: string): (int, bool) {
    if s == [] then (0, false)
    else
      var negative := s[0] == '-';
      var digits := if s[0] == '-' || s[0] == '+' then s[1..] else s;
      if digits == [] then (0, false)
      else
        match ParseDigits(digits, 0)
        case Syntax => (0, false)
        case Range => (if negative then MIN_INT64 else MAX_INT64, false)
        case Value(magnitude) =>
          var n: int := magnitude;
          if !negative && n > MAX_INT64 then (MAX_INT64, false)
          else if negative && n > -MIN_INT64 then (MIN_INT64, false)
          else (if negative then -n else n, true)
  }

  lemma {:induction false} ParseAppended(s: string, c: char, acc: nat)
    requires acc <= MAX_UINT64
    ensures ParseDigits(s + [c], acc) ==
            match ParseDigits(s, acc) {
              case Value(n) => if !IsDigit(c) then Syntax
                               else if n * 10 + DigitValue(c) > MAX_UINT64 then Range
                               else Value(n * 10 + DigitValue(c))
              case bad => bad
            }
  {
    if s == [] {
      assert s + [c] == [c];
    } else {
      assert (s + [c])[1..] == s[1..] + [c];
      if IsDigit(s[0]) && acc * 10 + DigitValue(s[0]) <= MAX_UINT64 {
        ParseAppended(s[1..], c, acc * 10 + DigitValue(s[0]));
      }
    }
  }

  lemma {:induction false} ParseFormatted(n: nat)
    requires n <= MAX_UINT64
    ensures ParseDigits(FormatNat(n), 0) == Value(n)
  {
    if n < 10 {
      assert FormatNat(n)[1..] == [];
    } else {
      ParseFormatted(n / 10);
      ParseAppended(FormatNat(n / 10), Digit(n % 10), 0);
    }
  }

  /** Every 64-bit integer survives printing and parsing. */
  lemma IntRoundTrip(n: int)
    requires MIN_INT64 <= n <= MAX_INT64
    ensures ParseInt(FormatInt(n)) == (n, true)
  {
    if n < 0 {
      ParseFormatted(-n);
      assert FormatInt(n)[1..] == FormatNat(-n);
    } else {
      ParseFormatted(n);
      assert IsDigit(FormatNat(n)[0]);
    }
  }

  // ---- What is parsed at all -----------------------------------------------------------

  predicate Digits(s: string) {
    forall i :: 0 <= i < |s| ==> '0' <= s[i] <= '9'
  }

  /** The number that a row of digits is the decimal notation of. */
  function Numeral(s: string): (n: int)
    requires Digits(s)
    ensures n >= 0
  {
    if s == [] then 0 else 10 * Numeral(s[..|s| - 1]) + (s[|s| - 1] as int - '0' as int)
  }

  function Signed(sign: string, digits: string): int
    requires Digits(digits)
  {
    if sign == "-" then -Numeral(digits) else Numeral(digits)
  }

  /** A sign or none, and digits. */
  ghost predicate Spells(s: string, n: int) {
    exists sign, digits :: SpelledBy(s, n, sign, digits)
  }

  predicate SpelledBy(s: string, n: int, sign: string, digits: string) {
    sign in {"", "+", "-"} && s == sign + digits && digits != [] && Digits(digits) && n == Signed(sign, digits)
  }

  lemma {:induction false} ParseDigitsIs(s: string)
    ensures ParseDigits(s, 0).Value? <==> Digits(s) && Numeral(s) <= MAX_UINT64
    ensures ParseDigits(s, 0).Value? ==> ParseDigits(s, 0).n == Numeral(s)
  {
    if s != [] {
      var front, last := s[..|s| - 1], s[|s| - 1];
      assert s == front + [last];
      ParseDigitsIs(front);
      ParseAppended(front, last, 0);
      assert Digits(s) <==> Digits(front) && '0' <= last <= '9';
    }
  }

  lemma ParsedSpells(s: string)
    requires ParseInt(s).1
    ensures Spells(s, ParseInt(s).0) && MIN_INT64 <= ParseInt(s).0 <= MAX_INT64
  {
    var n := ParseInt(s).0;
    if s[0] == '-' || s[0] == '+' {
      var sign := if s[0] == '-' then "-" else "+";
      ParseDigitsIs(s[1..]);
      assert s == sign + s[1..];
      assert SpelledBy(s, n, sign, s[1..]);
    } else {
      ParseDigitsIs(s);
      assert s == "" + s;
      assert SpelledBy(s, n, "", s);
    }
  }

  lemma SpelledParses(s: string, n: int, sign: string, digits: string)
    requires SpelledBy(s, n, sign, digits) && MIN_INT64 <= n <= MAX_INT64
    ensures ParseInt(s) == (n, true)
  {
    ParseDigitsIs(digits);
    assert sign != "" ==> s[0] == sign[0] && s[1..] == digits;
    assert sign == "" ==> s == digits;
  }

  /** Exactly the 64-bit integers in decimal notation, with a sign or without, are parsed, each as
      itself. */
  lemma ParseIntIs(s: string, n: int)
    ensures ParseInt(s) == (n, true) <==> Spells(s, n) && MIN_INT64 <= n <= MAX_INT64
  {
    if ParseInt(s).1 {
      ParsedSpells(s);
    }
    if Spells(s, n) && MIN_INT64 <= n <= MAX_INT64 {
      var sign, digits :| SpelledBy(s, n, sign, digits);
      SpelledParses(s, n, sign, digits);
    }
  }
}
