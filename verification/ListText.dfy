/** The text of a list statement: rebinding it is numbering its tokens, and both backends read
    the same statement from it. */
module ListText {
  import Decimal
  import opened Dialects
  import opened ListMeaning
  import opened ListSql
  import opened Options
  import opened SqlSelect
  import opened SqlText
  import opened SqlValues

  /** Text that is no placeholder and holds none. */
  predicate PlainText(s: string) {
    MARK !in s && DOLLAR !in s
  }

  /** Text that may stand right after a placeholder. */
  predicate MayFollow(t: Token) {
    if t.Lit? then t.s != "" && !Decimal.IsDigit(t.s[0]) else !t.Numbered? && t != Mark
  }

  predicate ReadableAt(ts: seq<Token>, i: nat)
    requires i < |ts|
  {
    && ts[i] != Mark && (ts[i].Lit? ==> PlainText(ts[i].s))
    && (ts[i].Numbered? && i + 1 < |ts| ==> MayFollow(ts[i + 1]))
  }

  predicate Readable(ts: seq<Token>) {
    forall i | 0 <= i < |ts| :: ReadableAt(ts, i)
  }

  lemma ReadableAppend(a: seq<Token>, b: seq<Token>)
    requires Readable(a) && Readable(b)
    requires a != [] && b != [] && a[|a| - 1].Numbered? ==> MayFollow(b[0])
    ensures Readable(a + b)
  {
    var ts := a + b;
    forall i | 0 <= i < |ts|
      ensures ReadableAt(ts, i)
    {
      if i < |a| {
        assert ReadableAt(a, i);
      } else {
        assert ReadableAt(b, i - |a|);
      }
    }
  }

  // ---- The pieces ----------------------------------------------------------------------

  predicate FilterPlain(f: Filter) {
    if f.expr.Some? then PlainText(f.expr.value.head) && PlainText(f.expr.value.tail)
        && MayFollow(Lit(f.expr.value.tail))
    else PlainText(f.column)
  }

  predicate PartPlain(p: Part) {
    match p
    case FilterPart(f) => FilterOk(f) && FilterPlain(f)
    case SearchPart(_, columns) => forall i :: 0 <= i < |columns| ==> PlainText(columns[i])
    case AfterPart(column, _, _, _) => PlainText(column)
  }

  lemma OperatorsArePlain(op: string)
    requires IsWord(op) || op in {IS_NULL, IS_NOT_NULL}
    ensures PlainText(op)
  {
  }

  lemma TestReadable(op: string, m: nat)
    requires IsWord(op)
    ensures Readable(TestTokens(op, m))
  {
    OperatorsArePlain(op);
  }

  lemma ColumnReadable(column: string, op: string, m: nat)
    requires PlainText(column) && IsWord(op)
    ensures Readable([Lit(column)] + TestTokens(op, m))
  {
    TestReadable(op, m);
    ReadableAppend([Lit(column)], TestTokens(op, m));
  }

  lemma {:induction false} MoreSlotsReadable(n: nat, m: nat)
    ensures Readable(MoreSlots(n, m)) && (n > 0 ==> MoreSlots(n, m)[0] == CommaKey)
  {
    if n > 0 {
      MoreSlotsReadable(n - 1, m + 1);
      ReadableAppend([CommaKey, Numbered(m + 1)], MoreSlots(n - 1, m + 1));
    }
  }

  lemma InReadable(column: string, n: nat, m: nat)
    requires PlainText(column)
    ensures Readable([Lit(column), InKey] + SlotTokens(n, m) + [CloseKey])
  {
    if n > 0 {
      MoreSlotsReadable(n - 1, m + 1);
      ReadableAppend([Numbered(m + 1)], MoreSlots(n - 1, m + 1));
    }
    ReadableAppend([Lit(column), InKey], SlotTokens(n, m));
    ReadableAppend([Lit(column), InKey] + SlotTokens(n, m), [CloseKey]);
  }

  lemma FilterReadable(d: Dialect, f: Filter, m: nat)
    requires FilterOk(f) && FilterPlain(f)
    ensures Readable(FilterTokens(d, f, m))
  {
    if f.expr.Some? {
      ReadableAppend([Lit(f.expr.value.head), Numbered(m + 1)], [Lit(f.expr.value.tail)]);
    } else if f.jsonKey != "" {
      TestReadable(OpWord(d, f.op), m + 1);
      JsonReadable(d, f.column, m);
      ReadableAppend(JsonTextTokens(d, f.column, m), TestTokens(OpWord(d, f.op), m + 1));
    } else if f.op == IS_NULL || f.op == IS_NOT_NULL {
      OperatorsArePlain(f.op);
    } else if f.op == IN {
      InReadable(f.column, |f.values|, m);
    } else {
      ColumnReadable(f.column, OpWord(d, f.op), m);
    }
  }

  lemma JsonReadable(d: Dialect, column: string, m: nat)
    requires PlainText(column)
    ensures Readable(JsonTextTokens(d, column, m))
  {
  }

  lemma {:induction false} MoreColumnsReadable(d: Dialect, columns: seq<string>, m: nat)
    requires forall i :: 0 <= i < |columns| ==> PlainText(columns[i])
    ensures Readable(MoreColumns(d, columns, m)) && (columns != [] ==> MoreColumns(d, columns, m)[0] == OrKey)
    decreases columns
  {
    if columns != [] {
      ColumnReadable(columns[0], LikeWord(d), m);
      MoreColumnsReadable(d, columns[1..], m + 1);
      ReadableAppend([OrKey], ColumnTokens(d, columns[0], m));
      ReadableAppend([OrKey] + ColumnTokens(d, columns[0], m), MoreColumns(d, columns[1..], m + 1));
    }
  }

  lemma SearchReadable(d: Dialect, columns: seq<string>, m: nat)
    requires forall i :: 0 <= i < |columns| ==> PlainText(columns[i])
    ensures Readable(SearchTokens(d, columns, m))
  {
    if columns != [] {
      var first, rest := ColumnTokens(d, columns[0], m), MoreColumns(d, columns[1..], m + 1);
      ColumnReadable(columns[0], LikeWord(d), m);
      MoreColumnsReadable(d, columns[1..], m + 1);
      ReadableAppend([OpenKey], first);
      ReadableAppend([OpenKey] + first, rest);
      ReadableAppend([OpenKey] + first + rest, [CloseKey]);
    }
  }

  lemma PartReadable(d: Dialect, p: Part, m: nat)
    requires PartPlain(p)
    ensures Readable(PartTokens(d, p, m))
  {
    match p
    case FilterPart(f) => FilterReadable(d, f, m);
    case SearchPart(_, columns) => SearchReadable(d, columns, m);
    case AfterPart(column, desc, _, _) =>
      var a := [OpenKey, Lit(column), RowKey, Lit(Comparison(desc)), PairKey, Numbered(m + 1)];
      OperatorsArePlain(Comparison(desc));
      ReadableAppend(a, [GapKey, Numbered(m + 2)]);
      ReadableAppend(a + [GapKey, Numbered(m + 2)], [CloseKey]);
  }

  lemma {:induction false} ChainReadable<P(!new)>(tokens: (P, nat) -> seq<Token>, args: P -> seq<Value>, parts: seq<P>,
                                                  m: nat)
    requires forall k, n: nat {:trigger tokens(parts[k], n)} :: 0 <= k < |parts| ==> Readable(tokens(parts[k], n))
    ensures Readable(Chain(tokens, args, parts, m)) && (parts != [] ==> Chain(tokens, args, parts, m)[0] == AndKey)
    decreases |parts|
  {
    if parts != [] {
      var rest := parts[1..];
      forall k, n: nat | 0 <= k < |rest|
        ensures Readable(tokens(rest[k], n))
      {
        assert Readable(tokens(parts[k + 1], n));
      }
      ChainReadable(tokens, args, rest, m + |args(parts[0])|);
      ReadableAppend([AndKey], tokens(parts[0], m));
      ReadableAppend([AndKey] + tokens(parts[0], m), Chain(tokens, args, rest, m + |args(parts[0])|));
    }
  }

  lemma PartsReadable(d: Dialect, parts: seq<Part>, m: nat)
    requires forall k :: 0 <= k < |parts| ==> PartPlain(parts[k])
    ensures Readable(AndAll(d, parts, m)) && (parts != [] ==> AndAll(d, parts, m)[0] == AndKey)
  {
    forall k, n: nat | 0 <= k < |parts|
      ensures Readable(TokensOf(d)(parts[k], n))
    {
      PartReadable(d, parts[k], n);
    }
    ChainReadable(TokensOf(d), ArgsOf(d), parts, m);
  }

  // ---- The statement -------------------------------------------------------------------

  /** Every text a statement is built from is plain. */
  predicate QueryPlain(q: Query) {
    && QueryOk(q)
    && (forall f :: f in q.filters ==> FilterPlain(f))
    && (forall i :: 0 <= i < |q.searchColumns| ==> PlainText(q.searchColumns[i]))
    && PlainText(SortColumn(q))
  }

  lemma {:induction false} FilterPartsPlain(fs: seq<Filter>)
    requires forall f :: f in fs ==> FilterOk(f) && FilterPlain(f)
    ensures forall k :: 0 <= k < |FilterParts(fs)| ==> PartPlain(FilterParts(fs)[k])
  {
    if fs != [] {
      assert fs[0] in fs;
      FilterPartsPlain(fs[1..]);
    }
  }

  lemma ListPartsPlain(q: Query)
    requires QueryPlain(q)
    ensures forall k :: 0 <= k < |ListParts(q)| ==> PartPlain(ListParts(q)[k])
  {
    FilterPartsPlain(q.filters);
  }

  lemma ClauseReadable(d: Dialect, parts: seq<Part>)
    requires forall k :: 0 <= k < |parts| ==> PartPlain(parts[k])
    ensures Readable(SCOPE + AndAll(d, parts, 1))
  {
    PartsReadable(d, parts, 1);
    ScopeReadable();
    ReadableAppend(SCOPE, AndAll(d, parts, 1));
  }

  lemma HeadReadable(columns: string, table: string)
    requires PlainText(table) && PlainText(columns)
    ensures Readable(HeadTokens(columns, table))
  {
  }

  lemma ReadableFrame(head: seq<Token>, clause: seq<Token>, tail: seq<Token>)
    requires Readable(head) && Readable(clause) && Readable(tail)
    requires head != [] && !head[|head| - 1].Numbered? && clause != [] && tail != [] && MayFollow(tail[0])
    ensures Readable(head + clause + tail)
  {
    ReadableAppend(head, clause);
    ReadableAppend(head + clause, tail);
  }

  lemma ListReadable(d: Dialect, table: string, columns: string, q: Query)
    requires QueryPlain(q) && PlainText(table) && PlainText(columns)
    ensures Readable(ListTokens(d, table, columns, q))
  {
    var m := 1 + |AllArgs(d, ListParts(q))|;
    ListPartsPlain(q);
    ClauseReadable(d, ListParts(q));
    HeadReadable(columns, table);
    TailReadable(q, m);
    ReadableFrame(HeadTokens(columns, table), SCOPE + AndAll(d, ListParts(q), 1), TailTokens(q, m));
  }

  lemma ScopeReadable()
    ensures Readable(SCOPE)
  {
    assert PlainText(WORKSPACE);
    ColumnReadable(WORKSPACE, "=", 0);
    ReadableAppend([WhereKey], [Lit(WORKSPACE)] + TestTokens("=", 0));
  }

  lemma TailReadable(q: Query, m: nat)
    requires PlainText(SortColumn(q))
    ensures Readable(TailTokens(q, m)) && MayFollow(TailTokens(q, m)[0])
  {
  }

  // ---- From tokens to text -------------------------------------------------------------

  lemma FixedKeyword(t: Token)
    requires t.WhereKey? || t.AndKey? || t.OrKey? || t.InKey? || t.CountKey? || t.SelectKey? || t.FromKey?
    ensures Shown(t) != "" && !Decimal.IsDigit(Shown(t)[0]) && PlainText(Shown(t))
  {
  }

  lemma FixedClause(t: Token)
    requires t.OrderKey? || t.LimitKey? || t.ExtractKey? || t.ArrowKey? || t.RowKey? || t.IdKey?
    ensures Shown(t) != "" && !Decimal.IsDigit(Shown(t)[0]) && PlainText(Shown(t))
  {
  }

  lemma FixedText(t: Token)
    requires !t.Lit? && !t.Numbered? && t != Mark
    ensures Shown(t) != "" && !Decimal.IsDigit(Shown(t)[0]) && PlainText(Shown(t))
  {
    if t.WhereKey? || t.AndKey? || t.OrKey? || t.InKey? || t.CountKey? || t.SelectKey? || t.FromKey? {
      FixedKeyword(t);
    } else if t.OrderKey? || t.LimitKey? || t.ExtractKey? || t.ArrowKey? || t.RowKey? || t.IdKey? {
      FixedClause(t);
    }
  }

  lemma {:induction false} ApartAfterPlain(s: string, rest: string)
    requires MARK !in s && MarksStandApart(rest)
    ensures MarksStandApart(s + rest)
  {
    if s == [] {
      assert s + rest == rest;
    } else {
      assert (s + rest)[1..] == s[1..] + rest;
      ApartAfterPlain(s[1..], rest);
      ApartFromTheNext(s + rest);
    }
  }

  /** In the text of readable tokens the marks are the placeholders, and none runs into a digit. */
  lemma {:induction false} ReadableText(ts: seq<Token>)
    requires Readable(ts)
    ensures MarksStandApart(Render(Marked(ts))) && DOLLAR !in Render(Marked(ts))
    ensures ts != [] && MayFollow(ts[0]) ==> Render(Marked(ts)) != "" && !Decimal.IsDigit(Render(Marked(ts))[0])
  {
    if ts != [] {
      var t, rest := ts[0], ts[1..];
      assert ReadableAt(ts, 0);
      forall i | 0 <= i < |rest|
        ensures ReadableAt(rest, i)
      {
        assert ReadableAt(ts, i + 1);
      }
      ReadableText(rest);
      assert Marked(ts)[1..] == Marked(rest);
      var text := Render(Marked(rest));
      if t.Numbered? {
        assert Render(Marked(ts)) == [MARK] + text;
        assert ([MARK] + text)[1..] == text;
        ApartFromTheNext([MARK] + text);
      } else {
        if !t.Lit? {
          FixedText(t);
        }
        ApartAfterPlain(Shown(t), text);
      }
    }
  }

  /** Rebinding the text of readable tokens gives the text of the numbered tokens, and reading
      either text gives the same placeholders in the same places. */
  lemma TextKeepsMeaning(d: Dialect, ts: seq<Token>)
    requires Readable(ts)
    ensures var written := Marked(ts);
            && Render(Sent(d, written)) == Rebound(d, Render(written))
            && Read(Rebound(d, Render(written)), 0) == Read(Render(written), 0)
  {
    ReadableText(ts);
    forall t | t in Marked(ts)
      ensures !t.Numbered? && (t.Lit? ==> MARK !in t.s)
    {
      var i :| 0 <= i < |ts| && Marked(ts)[i] == t;
      assert ReadableAt(ts, i);
    }
    SentText(d, Marked(ts));
    NumberingKeepsMeaning(Render(Marked(ts)), 0, 0);
  }

  /** So it is with the text of a list statement... */
  lemma ListTextKeepsMeaning(d: Dialect, table: string, columns: string, q: Query)
    requires QueryPlain(q) && PlainText(table) && PlainText(columns)
    ensures var written := Marked(ListTokens(d, table, columns, q));
            && Render(Sent(d, written)) == Rebound(d, Render(written))
            && Read(Rebound(d, Render(written)), 0) == Read(Render(written), 0)
  {
    ListReadable(d, table, columns, q);
    TextKeepsMeaning(d, ListTokens(d, table, columns, q));
  }

  /** ...and of the count that goes with it. */
  lemma CountTextKeepsMeaning(d: Dialect, table: string, q: Query)
    requires QueryPlain(q) && PlainText(table)
    ensures var written := Marked(CountTokens(d, table, q));
            && Render(Sent(d, written)) == Rebound(d, Render(written))
            && Read(Rebound(d, Render(written)), 0) == Read(Render(written), 0)
  {
    FilterPartsPlain(q.filters);
    ClauseReadable(d, WhereParts(q));
    ReadableAppend([CountKey, Lit(table)], WhereTokens(d, q));
    TextKeepsMeaning(d, CountTokens(d, table, q));
  }
}
