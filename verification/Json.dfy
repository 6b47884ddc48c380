/** The part of encoding/json that cursors use: strings as Go prints them (section 7 of
    RFC 8259, with the HTML-sensitive characters escaped), and flat objects of strings, booleans
    and nulls as Go reads them. */
module Json {
  import opened Options

  // ---- Printing ------------------------------------------------------------------------

  function HexDigit(v: nat): (c: char)
    requires v < 16
    ensures HexValue(c) == Some(v)
  {
    if v < 10 then ('0' as int + v) as char else ('a' as int + (v - 10)) as char
  }

  function HexValue(c: char): (r: Option<int>)
    ensures r.Some? ==> 0 <= r.value < 16
  {
    if '0' <= c <= '9' then Some(c as int - '0' as int)
    else if 'a' <= c <= 'f' then Some(c as int - 'a' as int + 10)
    else if 'A' <= c <= 'F' then Some(c as int - 'A' as int + 10)
    else None
  }

  function Escaped(u: nat): string
    requires u < 0x10000
  {
    ['\\', 'u', HexDigit(u / 4096), HexDigit(u / 256 % 16), HexDigit(u / 16 % 16), HexDigit(u % 16)]
  }

  /** One character inside a printed string. */
  function PrintChar(c: char): (s: string)
    ensures s != []
  {
    var u := c as int;
    if c == '\"' then ['\\', '\"']
    else if c == '\\' then ['\\', '\\']
    else if u == 8 then ['\\', 'b']
    else if u == 12 then ['\\', 'f']
    else if c == '\n' then ['\\', 'n']
    else if c == '\r' then ['\\', 'r']
    else if c == '\t' then ['\\', 't']
    else if u < 0x20 || c == '<' || c == '>' || c == '&' || u == 0x2028 || u == 0x2029 then Escaped(u)
    else [c]
  }

  function PrintChars(s: string): string {
    if s == [] then [] else PrintChar(s[0]) + PrintChars(s[1..])
  }

  function PrintString(s: string): string {
    ['\"'] + PrintChars(s) + ['\"']
  }

  function PrintBool(b: bool): string {
    if b then "true" else "false"
  }

  // ---- Reading -------------------------------------------------------------------------

  function Hex4(s: string): (r: Option<int>)
    requires |s| >= 4
    ensures r.Some? ==> 0 <= r.value < 0x10000
  {
    var a, b, c, d := HexValue(s[0]), HexValue(s[1]), HexValue(s[2]), HexValue(s[3]);
    if a.None? || b.None? || c.None? || d.None? then None
    else Some(a.value * 4096 + b.value * 256 + c.value * 16 + d.value)
  }

  predicate IsSurrogate(u: int) {
    0xD800 <= u < 0xE000
  }

  /** The character after a backslash and 'u', with how much was read. A surrogate pair is one
      character; a lone surrogate becomes the replacement character. */
  function ReadEscape(s: string): (r: Option<(char, nat)>)
    ensures r.Some? ==> 1 <= r.value.1 <= |s|
  {
    if |s| < 4 || Hex4(s).None? then None
    else
      var u := Hex4(s).value;
      if !IsSurrogate(u) then Some((u as char, 4))
      else if u < 0xDC00 && |s| >= 10 && s[4] == '\\' && s[5] == 'u' && Hex4(s[6..]).Some?
              && 0xDC00 <= Hex4(s[6..]).value < 0xE000 then
        Some(((0x10000 + (u - 0xD800) * 0x400 + (Hex4(s[6..]).value - 0xDC00)) as char, 10))
      else Some((0xFFFD as char, 4))
  }

  /** One character of a string, raw or escaped. */
  function ReadChar(s: string): (r: Option<(char, nat)>)
    ensures r.Some? ==> 1 <= r.value.1 <= |s|
  {
    if s == [] || s[0] == '\"' || s[0] as int < 0x20 then None
    else if s[0] != '\\' then Some((s[0], 1))
    else if |s| < 2 then None
    else if s[1] == '\"' || s[1] == '\\' || s[1] == '/' then Some((s[1], 2))
    else if s[1] == 'b' then Some((8 as char, 2))
    else if s[1] == 'f' then Some((12 as char, 2))
    else if s[1] == 'n' then Some(('\n', 2))
    else if s[1] == 'r' then Some(('\r', 2))
    else if s[1] == 't' then Some(('\t', 2))
    else if s[1] == 'u' then
      match ReadEscape(s[2..])
      case None => None
      case Some(p) => Some((p.0, p.1 + 2))
    else None
  }

  /** The rest of a string up to its closing quote, and what follows. */
  function ReadChars(s: string): (r: Option<(string, string)>)
    ensures r.Some? ==> |r.value.1| < |s|
  {
    if s == [] then None
    else if s[0] == '\"' then Some(("", s[1..]))
    else
      match ReadChar(s)
      case None => None
      case Some(p) =>
        match ReadChars(s[p.1..])
        case None => None
        case Some(q) => Some(([p.0] + q.0, q.1))
  }

  predicate IsSpace(c: char) {
    c == ' ' || c == '\t' || c == '\n' || c == '\r'
  }

  function SkipSpace(s: string): (r: string)
    ensures |r| <= |s|
  {
    if s != [] && IsSpace(s[0]) then SkipSpace(s[1..]) else s
  }

  function ReadString(s: string): (r: Option<(string, string)>)
    ensures r.Some? ==> |r.value.1| < |s|
  {
    if s == [] || s[0] != '\"' then None else ReadChars(s[1..])
  }

  datatype Value = Text(text: string) | Bool(flag: bool) | Null

  function ReadValue(s: string): (r: Option<(Value, string)>)
    ensures r.Some? ==> |r.value.1| < |s|
  {
    if "true" <= s then Some((Bool(true), s[4..]))
    else if "false" <= s then Some((Bool(false), s[5..]))
    else if "null" <= s then Some((Null, s[4..]))
    else
      match ReadString(s)
      case None => None
      case Some(p) => Some((Text(p.0), p.1))
  }

  type Members = seq<(string, Value)>

  /** A key, a colon and a value, and what follows up to the next mark. */
  function ReadMember(s: string): (r: Option<((string, Value), string)>)
    ensures r.Some? ==> |r.value.1| < |s|
  {
    match ReadString(SkipSpace(s))
    case None => None
    case Some(key) =>
      var colon := SkipSpace(key.1);
      if colon == [] || colon[0] != ':' then None
      else
        match ReadValue(SkipSpace(colon[1..]))
        case None => None
        case Some(value) => Some(((key.0, value.0), SkipSpace(value.1)))
  }

  /** Members after an opening brace or a comma, through the closing brace. */
  function ReadMembers(s: string): (r: Option<(Members, string)>)
    decreases |s|
  {
    match ReadMember(s)
    case None => None
    case Some(p) =>
      if p.1 == [] then None
      else if p.1[0] == '}' then Some(([p.0], p.1[1..]))
      else if p.1[0] != ',' then None
      else
        match ReadMembers(p.1[1..])
        case None => None
        case Some(rest) => Some(([p.0] + rest.0, rest.1))
  }

  /** A whole text that is one flat object. */
  function ReadObject(s: string): Option<Members> {
    var open := SkipSpace(s);
    if open == [] || open[0] != '{' then None
    else
      var inside := SkipSpace(open[1..]);
      if inside != [] && inside[0] == '}' then
        if SkipSpace(inside[1..]) == [] then Some([]) else None
      else
        match ReadMembers(open[1..])
        case None => None
        case Some(p) => if SkipSpace(p.1) == [] then Some(p.0) else None
  }

  // ---- Round trips ---------------------------------------------------------------------

  lemma FourDigits(u: nat)
    requires u < 0x10000
    ensures u / 4096 < 16
    ensures u / 4096 * 4096 + u / 256 % 16 * 256 + u / 16 % 16 * 16 + u % 16 == u
  {
    assert u / 16 / 16 == u / 256;
    assert u / 256 / 16 == u / 4096;
  }

  lemma HexRoundTrip(u: nat, rest: string)
    requires u < 0x10000 && !IsSurrogate(u)
    ensures ReadEscape(Escaped(u)[2..] + rest) == Some((u as char, 4))
  {
    var s := Escaped(u)[2..] + rest;
    assert s[0] == HexDigit(u / 4096) && s[1] == HexDigit(u / 256 % 16);
    assert s[2] == HexDigit(u / 16 % 16) && s[3] == HexDigit(u % 16);
    FourDigits(u);
  }

  lemma CharRoundTrip(c: char, rest: string)
    ensures ReadChar(PrintChar(c) + rest) == Some((c, |PrintChar(c)|))
    ensures (PrintChar(c) + rest)[0] != '\"'
  {
    var s := PrintChar(c) + rest;
    if |PrintChar(c)| == 6 {
      HexRoundTrip(c as int, rest);
      assert s[2..] == Escaped(c as int)[2..] + rest;
    }
  }

  lemma {:induction false} CharsRoundTrip(s: string, rest: string)
    ensures ReadChars(PrintChars(s) + ['\"'] + rest) == Some((s, rest))
  {
    if s == [] {
      assert (PrintChars(s) + ['\"'] + rest)[1..] == rest;
    } else {
      var first, tail := PrintChar(s[0]), PrintChars(s[1..]) + ['\"'] + rest;
      assert PrintChars(s) + ['\"'] + rest == first + tail;
      CharRoundTrip(s[0], tail);
      CharsRoundTrip(s[1..], rest);
      assert (first + tail)[|first|..] == tail;
      assert s == [s[0]] + s[1..];
    }
  }

  /** Any text survives being printed as a JSON string and read back. */
  lemma StringRoundTrip(s: string, rest: string)
    ensures ReadString(PrintString(s) + rest) == Some((s, rest))
  {
    assert (PrintString(s) + rest)[1..] == PrintChars(s) + ['\"'] + rest;
    CharsRoundTrip(s, rest);
  }

  function PrintValue(v: Value): string {
    match v
    case Text(t) => PrintString(t)
    case Bool(b) => PrintBool(b)
    case Null => "null"
  }

  lemma ValueRoundTrip(v: Value, rest: string)
    ensures ReadValue(PrintValue(v) + rest) == Some((v, rest))
    ensures !IsSpace((PrintValue(v) + rest)[0])
  {
    var s := PrintValue(v) + rest;
    match v
    case Text(t) =>
      StringRoundTrip(t, rest);
    case Bool(b) =>
      if b {
        assert s[4..] == rest;
      } else {
        assert s[0] == 'f' && s[5..] == rest;
      }
    case Null =>
      assert s[0] == 'n' && s[4..] == rest;
  }

  function PrintMember(m: (string, Value)): string {
    PrintString(m.0) + ":" + PrintValue(m.1)
  }

  function PrintMembers(ms: Members): string
    requires ms != []
  {
    if |ms| == 1 then PrintMember(ms[0]) + "}" else PrintMember(ms[0]) + ("," + PrintMembers(ms[1..]))
  }

  function PrintObject(ms: Members): string {
    if ms == [] then "{}" else "{" + PrintMembers(ms)
  }

  /** Reading one printed member leaves what follows it. */
  lemma MemberRoundTrip(m: (string, Value), rest: string)
    requires rest != [] && !IsSpace(rest[0])
    ensures ReadMember(PrintMember(m) + rest) == Some((m, rest))
  {
    var value := PrintValue(m.1) + rest;
    var colon := ":" + value;
    assert PrintMember(m) + rest == PrintString(m.0) + colon;
    assert SkipSpace(PrintString(m.0) + colon) == PrintString(m.0) + colon;
    StringRoundTrip(m.0, colon);
    assert SkipSpace(colon) == colon && colon[1..] == value;
    ValueRoundTrip(m.1, rest);
    assert SkipSpace(value) == value;
  }

  lemma LastMember(m: (string, Value))
    ensures ReadMembers(PrintMember(m) + "}") == Some(([m], ""))
  {
    MemberRoundTrip(m, "}");
    assert "}"[1..] == "";
  }

  lemma NextMember(m: (string, Value), tail: string, ms: Members)
    requires ReadMembers(tail) == Some((ms, ""))
    ensures ReadMembers(PrintMember(m) + ("," + tail)) == Some(([m] + ms, ""))
  {
    MemberRoundTrip(m, "," + tail);
    assert ("," + tail)[1..] == tail;
  }

  lemma {:induction false} MembersRoundTrip(ms: Members)
    requires ms != []
    ensures ReadMembers(PrintMembers(ms)) == Some((ms, ""))
  {
    if |ms| == 1 {
      LastMember(ms[0]);
      assert ms == [ms[0]];
    } else {
      MembersRoundTrip(ms[1..]);
      NextMember(ms[0], PrintMembers(ms[1..]), ms[1..]);
      assert ms == [ms[0]] + ms[1..];
    }
  }

  /** Any flat object of texts, booleans and nulls survives printing and reading. */
  lemma ObjectRoundTrip(ms: Members)
    ensures ReadObject(PrintObject(ms)) == Some(ms)
  {
    if ms != [] {
      var s := PrintObject(ms);
      assert s[1..] == PrintMembers(ms);
      assert PrintMembers(ms)[0] == '\"';
      MembersRoundTrip(ms);
    }
  }
}
