/** Go's strings.Trim, strings.Split and strings.IndexByte. */
module Texts {
  function TrimLeft(cut: char -> bool, s: string): string {
    if s != [] && cut(s[0]) then TrimLeft(cut, s[1..]) else s
  }

  function TrimRight(cut: char -> bool, s: string): string {
    if s != [] && cut(s[|s| - 1]) then TrimRight(cut, s[..|s| - 1]) else s
  }

  function Trim(cut: char -> bool, s: string): string {
    TrimRight(cut, TrimLeft(cut, s))
  }

  predicate AllCut(cut: char -> bool, s: string) {
    forall i :: 0 <= i < |s| ==> cut(s[i])
  }

  /** Nothing to cut at either end. */
  predicate Bare(cut: char -> bool, s: string) {
    s != [] ==> !cut(s[0]) && !cut(s[|s| - 1])
  }

  /** The text is the core with nothing but characters to cut around it. */
  predicate Wraps(cut: char -> bool, s: string, before: string, core: string, after: string) {
    s == before + core + after && AllCut(cut, before) && AllCut(cut, after)
  }

  lemma {:induction false} TrimLeftIs(cut: char -> bool, s: string) returns (before: string)
    ensures s == before + TrimLeft(cut, s) && AllCut(cut, before)
    ensures TrimLeft(cut, s) != [] ==> !cut(TrimLeft(cut, s)[0])
  {
    before := [];
    if s != [] && cut(s[0]) {
      before := TrimLeftIs(cut, s[1..]);
      assert s == [s[0]] + (before + TrimLeft(cut, s));
      before := [s[0]] + before;
    }
  }

  lemma {:induction false} TrimRightIs(cut: char -> bool, s: string) returns (after: string)
    ensures s == TrimRight(cut, s) + after && AllCut(cut, after)
    ensures TrimRight(cut, s) != [] ==> !cut(TrimRight(cut, s)[|TrimRight(cut, s)| - 1])
  {
    after := [];
    if s != [] && cut(s[|s| - 1]) {
      after := TrimRightIs(cut, s[..|s| - 1]);
      assert s == (TrimRight(cut, s) + after) + [s[|s| - 1]];
      after := after + [s[|s| - 1]];
    }
  }

  /** Trimming leaves a core with nothing to cut at its ends, and takes away nothing else. */
  lemma TrimIs(cut: char -> bool, s: string) returns (before: string, after: string)
    ensures Wraps(cut, s, before, Trim(cut, s), after) && Bare(cut, Trim(cut, s))
  {
    before := TrimLeftIs(cut, s);
    after := TrimRightIs(cut, TrimLeft(cut, s));
    assert s == before + (Trim(cut, s) + after);
    assert Trim(cut, s) != [] ==> Trim(cut, s)[0] == TrimLeft(cut, s)[0];
  }

  lemma {:induction false} TrimLeftFinds(cut: char -> bool, before: string, rest: string)
    requires AllCut(cut, before) && (rest != [] ==> !cut(rest[0]))
    ensures TrimLeft(cut, before + rest) == rest
  {
    if before == [] {
      assert before + rest == rest;
    } else {
      assert (before + rest)[1..] == before[1..] + rest;
      TrimLeftFinds(cut, before[1..], rest);
    }
  }

  lemma {:induction false} TrimRightFinds(cut: char -> bool, core: string, after: string)
    requires AllCut(cut, after) && (core != [] ==> !cut(core[|core| - 1]))
    ensures TrimRight(cut, core + after) == core
  {
    if after == [] {
      assert core + after == core;
    } else {
      assert (core + after)[..|core + after| - 1] == core + after[..|after| - 1];
      TrimRightFinds(cut, core, after[..|after| - 1]);
    }
  }

  /** The core of a text is what is left of it. */
  lemma TrimFinds(cut: char -> bool, s: string, before: string, core: string, after: string)
    requires Wraps(cut, s, before, core, after) && core != [] && Bare(cut, core)
    ensures Trim(cut, s) == core
  {
    assert s == before + (core + after);
    TrimLeftFinds(cut, before, core + after);
    TrimRightFinds(cut, core, after);
  }

  // ---- Splitting -----------------------------------------------------------------------

  /** strings.Split at one character: never empty. */
  function Split(s: string, sep: char): (parts: seq<string>)
    ensures parts != []
  {
    if s == [] then [[]]
    else
      var rest := Split(s[1..], sep);
      if s[0] == sep then [[]] + rest else [[s[0]] + rest[0]] + rest[1..]
  }

  function Separated(ws: seq<string>, sep: char): string {
    if ws == [] then [] else if |ws| == 1 then ws[0] else ws[0] + [sep] + Separated(ws[1..], sep)
  }

  /** The parts hold no separator, and with separators between them make the text. */
  lemma {:induction false} SplitIs(s: string, sep: char)
    ensures Separated(Split(s, sep), sep) == s
    ensures forall k :: 0 <= k < |Split(s, sep)| ==> sep !in Split(s, sep)[k]
  {
    if s != [] {
      var parts, rest := Split(s, sep), Split(s[1..], sep);
      SplitIs(s[1..], sep);
      assert parts[1..] == if s[0] == sep then rest else rest[1..];
      assert s == [s[0]] + s[1..];
      assert |rest| > 1 ==> Separated(rest, sep) == rest[0] + [sep] + Separated(rest[1..], sep);
    }
  }

  function IndexOf(s: string, c: char): (i: int)
    ensures -1 <= i < |s| && (i >= 0 ==> s[i] == c)
  {
    if s == [] then -1
    else if s[0] == c then 0
    else
      var i := IndexOf(s[1..], c);
      if i < 0 then -1 else i + 1
  }

  /** The first occurrence, if there is one. */
  lemma {:induction false} FirstIndex(s: string, c: char)
    ensures IndexOf(s, c) < 0 <==> c !in s
    ensures IndexOf(s, c) >= 0 ==> c !in s[..IndexOf(s, c)]
  {
    if s != [] && s[0] != c {
      FirstIndex(s[1..], c);
      assert s == [s[0]] + s[1..];
      var i := IndexOf(s[1..], c);
      if i >= 0 {
        assert s[..i + 1] == [s[0]] + s[1..][..i];
      }
    }
  }
}
