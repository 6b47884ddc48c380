/** The correlated subqueries over the activity log that stand in for a column or a predicate in
    a list statement (internal/server/query.go): their syntax, how they are written, and how a
    server reads them back from their text. */
module Subqueries {
  import opened Options
  import opened QueryParams
  import opened Texts
  import opened Whitelists

  datatype Figure = CountAll | MaxOf(column: string) | One

  /** A condition on an activity `a`: a column equals one of the outer row, is one of some texts,
      or equals the argument ignoring case. */
  datatype Condition =
    | SameAs(inner: string, outer: string)
    | OneOf(inner: string, texts: seq<string>)
    | SameText(inner: string)

  /** SELECT figure FROM activities a WHERE conditions, joined by AND. */
  datatype Subquery = Subquery(figure: Figure, conditions: seq<Condition>)

  // ---- As it is written ----------------------------------------------------------------

  const INNER := "a."
  const LOWER_INNER := "lower(a."
  const LOWER_ARG := "lower(?)"
  const COUNT_ALL := "COUNT(*)"
  const MAX_INNER := "MAX(a."

  function FigureWord(f: Figure): string {
    match f
    case CountAll => COUNT_ALL
    case MaxOf(column) => MAX_INNER + column + ")"
    case One => "1"
  }

  function Quoted(text: string): string {
    "'" + text + "'"
  }

  function AllQuoted(texts: seq<string>): (r: seq<string>)
    ensures |r| == |texts| && forall i :: 0 <= i < |texts| ==> r[i] == Quoted(texts[i])
  {
    seq(|texts|, i requires 0 <= i < |texts| => Quoted(texts[i]))
  }

  /** The three words of a condition. */
  function ConditionWords(table: string, c: Condition): (ws: seq<string>)
    ensures |ws| == 3
  {
    match c
    case SameAs(inner, outer) => [INNER + inner, "=", table + "." + outer]
    case OneOf(inner, texts) => [INNER + inner, "IN", "(" + Separated(AllQuoted(texts), ',') + ")"]
    case SameText(inner) => [LOWER_INNER + inner + ")", "=", LOWER_ARG]
  }

  function ConditionsWords(table: string, cs: seq<Condition>): seq<string> {
    if cs == [] then []
    else if |cs| == 1 then ConditionWords(table, cs[0])
    else ConditionWords(table, cs[0]) + ["AND"] + ConditionsWords(table, cs[1..])
  }

  const FROM := ["FROM", "activities", "a", "WHERE"]

  function SubqueryWords(table: string, q: Subquery): seq<string> {
    ["SELECT", FigureWord(q.figure)] + FROM + ConditionsWords(table, q.conditions)
  }

  function Written(table: string, q: Subquery): string {
    "(" + Words(SubqueryWords(table, q)) + ")"
  }

  // ---- As it is read -------------------------------------------------------------------

  /** What stands between a start and an end. */
  function Between(s: string, start: string, end: string): Option<string> {
    if start <= s && |start| + |end| <= |s| && s[|s| - |end|..] == end then Some(s[|start|..|s| - |end|]) else None
  }

  function ReadFigure(word: string): Option<Figure> {
    if word == COUNT_ALL then Some(CountAll)
    else if word == "1" then Some(One)
    else
      match Between(word, MAX_INNER, ")")
      case None => None
      case Some(column) => Some(MaxOf(column))
  }

  function ReadTexts(parts: seq<string>): Option<seq<string>> {
    if parts == [] then Some([])
    else
      var first, rest := Between(parts[0], "'", "'"), ReadTexts(parts[1..]);
      if first.None? || rest.None? then None else Some([first.value] + rest.value)
  }

  function ReadOneOf(inner: string, list: Option<string>): Option<Condition> {
    if list.None? then None
    else
      match ReadTexts(Split(list.value, ','))
      case None => None
      case Some(texts) => Some(OneOf(inner, texts))
  }

  function ReadCondition(table: string, left: string, op: string, right: string): Option<Condition> {
    var inner, lowered, outer := Between(left, INNER, ""), Between(left, LOWER_INNER, ")"),
        Between(right, table + ".", "");
    if op == "IN" && inner.Some? then ReadOneOf(inner.value, Between(right, "(", ")"))
    else if op == "=" && right == LOWER_ARG && lowered.Some? then Some(SameText(lowered.value))
    else if op == "=" && inner.Some? && outer.Some? then Some(SameAs(inner.value, outer.value))
    else None
  }

  function ReadConditions(table: string, ws: seq<string>): Option<seq<Condition>> {
    if |ws| < 3 then None
    else
      var first := ReadCondition(table, ws[0], ws[1], ws[2]);
      if first.None? then None
      else if |ws| == 3 then Some([first.value])
      else if ws[3] != "AND" then None
      else
        match ReadConditions(table, ws[4..])
        case None => None
        case Some(rest) => Some([first.value] + rest)
  }

  function ReadWords(table: string, ws: seq<string>): Option<Subquery> {
    if |ws| < 6 || ws[0] != "SELECT" || ws[2..6] != FROM then None
    else
      var figure, conditions := ReadFigure(ws[1]), ReadConditions(table, ws[6..]);
      if figure.None? || conditions.None? then None else Some(Subquery(figure.value, conditions.value))
  }

  /** The subquery a text stands for, in a statement over `table`. */
  function ReadSubquery(table: string, text: string): Option<Subquery> {
    match Between(text, "(", ")")
    case None => None
    case Some(inside) => ReadWords(table, Split(inside, ' '))
  }

  // ---- Reading what was written ----------------------------------------------------------

  predicate Name(s: string) {
    ' ' !in s
  }

  predicate ConditionNamed(c: Condition) {
    match c
    case SameAs(inner, outer) => Name(inner) && Name(outer)
    case OneOf(inner, texts) => Name(inner) && texts != [] && forall t :: t in texts ==> Name(t) && ',' !in t
    case SameText(inner) => Name(inner)
  }

  predicate Named(q: Subquery) {
    && (q.figure.MaxOf? ==> Name(q.figure.column))
    && q.conditions != [] && forall c :: c in q.conditions ==> ConditionNamed(c)
  }

  lemma BetweenIs(start: string, s: string, end: string)
    ensures Between(start + s + end, start, end) == Some(s)
  {
    var all := start + s + end;
    assert all[|start|..|all| - |end|] == s;
  }

  lemma AfterIs(start: string, s: string)
    ensures Between(start + s, start, "") == Some(s)
  {
    assert (start + s)[|start|..|start + s|] == s;
    assert (start + s)[|start + s|..] == "";
  }

  lemma {:induction false} SplitFirst(w: string, rest: string, sep: char)
    requires sep !in w
    ensures Split(w + [sep] + rest, sep) == [w] + Split(rest, sep)
    ensures Split(w, sep) == [w]
  {
    if w == [] {
      assert ([] + [sep] + rest)[1..] == rest;
    } else {
      SplitFirst(w[1..], rest, sep);
      assert (w + [sep] + rest)[1..] == w[1..] + [sep] + rest;
      assert [w[0]] + w[1..] == w;
    }
  }

  lemma {:induction false} SplitSeparated(ws: seq<string>, sep: char)
    requires ws != [] && forall w :: w in ws ==> sep !in w
    ensures Split(Separated(ws, sep), sep) == ws
  {
    SplitFirst(ws[0], if |ws| == 1 then [] else Separated(ws[1..], sep), sep);
    if |ws| > 1 {
      SplitSeparated(ws[1..], sep);
    }
  }

  lemma {:induction false} TextsRead(texts: seq<string>)
    ensures ReadTexts(AllQuoted(texts)) == Some(texts)
  {
    if texts != [] {
      assert AllQuoted(texts)[1..] == AllQuoted(texts[1..]);
      TextsRead(texts[1..]);
      BetweenIs("'", texts[0], "'");
      assert AllQuoted(texts)[0] == "'" + texts[0] + "'";
      assert [texts[0]] + texts[1..] == texts;
    }
  }

  lemma FigureReads(f: Figure)
    ensures ReadFigure(FigureWord(f)) == Some(f)
  {
    if f.MaxOf? {
      BetweenIs(MAX_INNER, f.column, ")");
      assert FigureWord(f)[0] == 'M' && COUNT_ALL[0] == 'C';
    }
  }

  lemma OneOfReads(inner: string, texts: seq<string>)
    requires ConditionNamed(OneOf(inner, texts))
    ensures ReadOneOf(inner, Some(Separated(AllQuoted(texts), ','))) == Some(OneOf(inner, texts))
  {
    TextsRead(texts);
    forall w | w in AllQuoted(texts)
      ensures ',' !in w
    {
    }
    SplitSeparated(AllQuoted(texts), ',');
  }

  lemma ConditionReads(table: string, c: Condition)
    requires ConditionNamed(c)
    ensures var ws := ConditionWords(table, c); ReadCondition(table, ws[0], ws[1], ws[2]) == Some(c)
  {
    match c
    case SameAs(inner, outer) =>
      AfterIs(INNER, inner);
      AfterIs(table + ".", outer);
      assert "IN"[0] != "="[0];
      if Between(INNER + inner, LOWER_INNER, ")").Some? {
        assert INNER[0] != LOWER_INNER[0];
      }
    case OneOf(inner, texts) =>
      AfterIs(INNER, inner);
      BetweenIs("(", Separated(AllQuoted(texts), ','), ")");
      OneOfReads(inner, texts);
    case SameText(inner) => BetweenIs(LOWER_INNER, inner, ")");
  }

  lemma {:induction false} ConditionsRead(table: string, cs: seq<Condition>)
    requires cs != [] && forall c :: c in cs ==> ConditionNamed(c)
    ensures ReadConditions(table, ConditionsWords(table, cs)) == Some(cs)
  {
    var first := ConditionWords(table, cs[0]);
    ConditionReads(table, cs[0]);
    assert cs == [cs[0]] + cs[1..];
    if |cs| == 1 {
      assert cs == [cs[0]];
    } else {
      var rest := ConditionsWords(table, cs[1..]);
      var ws := first + ["AND"] + rest;
      ConditionsRead(table, cs[1..]);
      assert ws[4..] == rest && ws[3] == "AND" && ws[..3] == first;
      assert ws[0] == first[0] && ws[1] == first[1] && ws[2] == first[2];
    }
  }

  lemma SubqueryWordsRead(table: string, q: Subquery)
    requires Named(q)
    ensures ReadWords(table, SubqueryWords(table, q)) == Some(q)
  {
    var conditions := ConditionsWords(table, q.conditions);
    var ws := ["SELECT", FigureWord(q.figure)] + FROM + conditions;
    ConditionsRead(table, q.conditions);
    FigureReads(q.figure);
    assert ws[2..6] == FROM && ws[6..] == conditions;
  }

  lemma ConditionWordsAreNames(table: string, c: Condition)
    requires ConditionNamed(c) && Name(table)
    ensures forall w :: w in ConditionWords(table, c) ==> Name(w)
  {
    if c.OneOf? {
      forall w | w in AllQuoted(c.texts)
        ensures Name(w)
      {
        var i :| 0 <= i < |c.texts| && w == Quoted(c.texts[i]);
        assert c.texts[i] in c.texts;
      }
      SeparatedLacks(AllQuoted(c.texts), ',', ' ');
    }
  }

  lemma {:induction false} ConditionsWordsAreNames(table: string, cs: seq<Condition>)
    requires Name(table) && forall c :: c in cs ==> ConditionNamed(c)
    ensures forall w :: w in ConditionsWords(table, cs) ==> Name(w)
  {
    if cs != [] {
      ConditionWordsAreNames(table, cs[0]);
      if |cs| > 1 {
        ConditionsWordsAreNames(table, cs[1..]);
      }
    }
  }

  /** A server reads the subquery that was written. */
  lemma WrittenIsRead(table: string, q: Subquery)
    requires Named(q) && Name(table)
    ensures ReadSubquery(table, Written(table, q)) == Some(q)
  {
    var ws := SubqueryWords(table, q);
    BetweenIs("(", Words(ws), ")");
    ConditionsWordsAreNames(table, q.conditions);
    forall w | w in ws
      ensures Name(w)
    {
      if w in ConditionsWords(table, q.conditions) {
      } else {
        assert w in ["SELECT", FigureWord(q.figure)] + FROM;
      }
    }
    SplitSeparated(ws, ' ');
    SubqueryWordsRead(table, q);
  }
}
