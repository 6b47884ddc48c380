/** SQL values, their order, three-valued truth and LIKE, as far as list queries use them. */
module SqlValues {
  import Decimal
  import opened Dialects

  datatype Value = Null | Int(n: int) | Text(s: string)

  datatype Truth = True | False | Unknown

  function And(a: Truth, b: Truth): Truth {
    if a == False || b == False then False
    else if a == Unknown || b == Unknown then Unknown
    else True
  }

  function Or(a: Truth, b: Truth): Truth {
    if a == True || b == True then True
    else if a == Unknown || b == Unknown then Unknown
    else False
  }

  function Known(b: bool): Truth {
    if b then True else False
  }

  // ---- Order ---------------------------------------------------------------------------

  /** Texts by their characters, as a binary collation orders them. */
  predicate TextLess(a: string, b: string) {
    if b == [] then false
    else if a == [] then true
    else a[0] < b[0] || (a[0] == b[0] && TextLess(a[1..], b[1..]))
  }

  /** Integers come before texts. */
  predicate Less(a: Value, b: Value) {
    match a
    case Null => false
    case Int(m) => if b.Int? then m < b.n else b.Text?
    case Text(s) => b.Text? && TextLess(s, b.s)
  }

  lemma {:induction false} TextOrder(a: string, b: string, c: string)
    ensures !(TextLess(a, b) && TextLess(b, a))
    ensures TextLess(a, b) || TextLess(b, a) || a == b
    ensures TextLess(a, b) && TextLess(b, c) ==> TextLess(a, c)
    ensures !TextLess(a, a)
  {
    if a != [] && b != [] && c != [] {
      TextOrder(a[1..], b[1..], c[1..]);
      assert a == [a[0]] + a[1..] && b == [b[0]] + b[1..];
    } else if a != [] && b != [] {
      TextOrder(a[1..], b[1..], []);
      assert a == [a[0]] + a[1..] && b == [b[0]] + b[1..];
    } else if a != [] {
      TextOrder(a[1..], [], []);
    }
  }

  /** Less is a strict total order on the values that are not NULL. */
  lemma ValueOrder(a: Value, b: Value, c: Value)
    ensures !(Less(a, b) && Less(b, a)) && !Less(a, a)
    ensures a != Null && b != Null ==> Less(a, b) || Less(b, a) || a == b
    ensures Less(a, b) && Less(b, c) ==> Less(a, c)
  {
    if a.Text? && b.Text? {
      TextOrder(a.s, b.s, if c.Text? then c.s else []);
    } else if a.Text? {
      TextOrder(a.s, [], []);
    }
  }

  // ---- Comparison and LIKE -------------------------------------------------------------

  function Fold(c: char): char {
    if 'A' <= c <= 'Z' then (c as int - 'A' as int + 'a' as int) as char else c
  }

  /** lower(): ASCII letters only. */
  function Lower(s: string): (r: string)
    ensures |r| == |s| && forall i :: 0 <= i < |s| ==> r[i] == Fold(s[i])
  {
    seq(|s|, i requires 0 <= i < |s| => Fold(s[i]))
  }

  const MANY := '%'
  const ONE := '_'

  predicate Like(text: string, pattern: string)
    decreases |text| + |pattern|
  {
    if pattern == [] then text == []
    else if pattern[0] == MANY then Like(text, pattern[1..]) || (text != [] && Like(text[1..], pattern))
    else text != [] && (pattern[0] == ONE || Fold(pattern[0]) == Fold(text[0])) && Like(text[1..], pattern[1..])
  }

  /** The pattern match that tells capitals from small letters. */
  predicate LikeExact(text: string, pattern: string)
    decreases |text| + |pattern|
  {
    if pattern == [] then text == []
    else if pattern[0] == MANY then LikeExact(text, pattern[1..]) || (text != [] && LikeExact(text[1..], pattern))
    else text != [] && (pattern[0] == ONE || pattern[0] == text[0]) && LikeExact(text[1..], pattern[1..])
  }

  /** What LIKE compares: a number as its decimal text. */
  function AsText(v: Value): string
    requires v != Null
  {
    if v.Text? then v.s else Decimal.FormatInt(v.n)
  }

  const LIKE := "LIKE"
  const ILIKE := "ILIKE"

  /** What a filter may ask for; LIKE asks for a match that ignores case. */
  predicate IsOperator(op: string) {
    op in {"=", "!=", ">", ">=", "<", "<=", LIKE}
  }

  /** A binary operator, as asked for, on two values that are not NULL. */
  predicate Related(op: string, a: Value, b: Value)
    requires IsOperator(op) && a != Null && b != Null
  {
    if op == "=" then a == b
    else if op == "!=" then a != b
    else if op == ">" then Less(b, a)
    else if op == ">=" then !Less(a, b)
    else if op == "<" then Less(a, b)
    else if op == "<=" then !Less(b, a)
    else Like(AsText(a), AsText(b))
  }

  /** The operators each server has: only PostgreSQL has ILIKE. */
  predicate Understands(d: Dialect, op: string) {
    IsOperator(op) || (d == Postgres && op == ILIKE)
  }

  /** What the server makes of an operator: LIKE ignores case on SQLite and does not on PostgreSQL,
      where ILIKE does. */
  predicate Computed(d: Dialect, op: string, a: Value, b: Value)
    requires Understands(d, op) && a != Null && b != Null
  {
    if op == ILIKE || (op == LIKE && d == Sqlite) then Like(AsText(a), AsText(b))
    else if op == LIKE then LikeExact(AsText(a), AsText(b))
    else Related(op, a, b)
  }

  function Compared(d: Dialect, op: string, a: Value, b: Value): Truth {
    if a == Null || b == Null || !Understands(d, op) then Unknown else Known(Computed(d, op, a, b))
  }

  function Equal(a: Value, b: Value): Truth {
    if a == Null || b == Null then Unknown else Known(a == b)
  }

  // ---- What a "contains" filter finds --------------------------------------------------

  predicate OccursAt(text: string, s: string, i: nat) {
    i + |s| <= |text| && Lower(text[i..i + |s|]) == Lower(s)
  }

  /** The text contains s, ignoring case. */
  predicate Contains(text: string, s: string) {
    exists i :: 0 <= i <= |text| && OccursAt(text, s, i)
  }

  predicate Plain(s: string) {
    MANY !in s && ONE !in s
  }

  lemma {:induction false} OnlyMany(text: string)
    ensures Like(text, [MANY])
  {
    if text != [] {
      OnlyMany(text[1..]);
    } else {
      assert [MANY][1..] == [];
    }
  }

  lemma OccursNext(text: string, s: string)
    requires s != []
    ensures OccursAt(text, s, 0) <==> text != [] && Fold(text[0]) == Fold(s[0]) && OccursAt(text[1..], s[1..], 0)
  {
  }

  lemma {:induction false} LikePrefix(text: string, s: string)
    ensures OccursAt(text, s, 0) ==> Like(text, s + [MANY])
    ensures Plain(s) && Like(text, s + [MANY]) ==> OccursAt(text, s, 0)
  {
    if s == [] {
      assert s + [MANY] == [MANY];
      OnlyMany(text);
      assert text[0..0] == [];
    } else {
      OccursNext(text, s);
      assert (s + [MANY])[1..] == s[1..] + [MANY];
      if text != [] {
        LikePrefix(text[1..], s[1..]);
      }
      if OccursAt(text, s, 0) && s[0] == MANY {
        FoldFixes(text[0], s[0]);
        ManySkips(text, s[1..] + [MANY]);
      }
    }
  }

  lemma FoldFixes(c: char, d: char)
    requires Fold(c) == Fold(d) && (d == MANY || d == ONE)
    ensures c == d
  {
  }

  lemma ManySkips(text: string, rest: string)
    requires text != [] && Like(text[1..], rest)
    ensures Like(text, [MANY] + rest)
  {
  }

  lemma {:induction false} LikeContains(text: string, s: string)
    ensures Contains(text, s) ==> Like(text, [MANY] + s + [MANY])
    ensures Plain(s) && Like(text, [MANY] + s + [MANY]) ==> Contains(text, s)
  {
    var p := [MANY] + s + [MANY];
    assert p[1..] == s + [MANY];
    LikePrefix(text, s);
    if text != [] {
      LikeContains(text[1..], s);
    }
    if Contains(text, s) {
      var i :| 0 <= i <= |text| && OccursAt(text, s, i);
      if i > 0 {
        assert text[1..][i - 1..i - 1 + |s|] == text[i..i + |s|];
        assert OccursAt(text[1..], s, i - 1);
      }
    }
    if Plain(s) && Like(text, p) {
      if Like(text, p[1..]) {
        assert OccursAt(text, s, 0);
      } else {
        var j :| 0 <= j <= |text[1..]| && OccursAt(text[1..], s, j);
        assert text[1..][j..j + |s|] == text[j + 1..j + 1 + |s|];
        assert OccursAt(text, s, j + 1);
      }
    }
  }

  /** A text that matches any pattern: nothing for %, a letter for _. */
  function Sample(s: string): (t: string)
    ensures Plain(t)
    ensures Plain(s) <==> t == s
    ensures |t| <= |s|
  {
    if s == [] then []
    else if s[0] == MANY then Sample(s[1..])
    else if s[0] == ONE then ['x'] + Sample(s[1..])
    else [s[0]] + Sample(s[1..])
  }

  lemma {:induction false} SampleMatches(s: string)
    ensures Like(Sample(s), s + [MANY])
  {
    if s == [] {
      OnlyMany([]);
      assert s + [MANY] == [MANY];
    } else {
      SampleMatches(s[1..]);
      assert (s + [MANY])[1..] == s[1..] + [MANY];
      if s[0] != MANY {
        assert Sample(s)[1..] == Sample(s[1..]);
      }
    }
  }

  lemma PlainHoldsNoWildcards(t: string, s: string)
    requires Plain(t) && Contains(t, s)
    ensures Plain(s)
  {
  }

  /** A search term surrounded by % always finds the texts that contain it, and finds nothing
      else exactly when it has no wildcard of its own. */
  lemma ContainsFilter(s: string)
    ensures forall t :: Contains(t, s) ==> Like(t, [MANY] + s + [MANY])
    ensures (forall t :: Like(t, [MANY] + s + [MANY]) ==> Contains(t, s)) <==> Plain(s)
  {
    forall t
      ensures Contains(t, s) ==> Like(t, [MANY] + s + [MANY])
      ensures Plain(s) && Like(t, [MANY] + s + [MANY]) ==> Contains(t, s)
    {
      LikeContains(t, s);
    }
    if !Plain(s) {
      var t := Sample(s);
      SampleMatches(s);
      assert ([MANY] + s + [MANY])[1..] == s + [MANY];
      assert Like(t, [MANY] + s + [MANY]);
      if Contains(t, s) {
        PlainHoldsNoWildcards(t, s);
      }
    }
  }
}
