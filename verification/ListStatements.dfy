/** The list engine's statements end to end: the tokens the builders write, rebound for the
    backend and read by it, select what the query asks for. */
module ListStatements {
  import opened Dialects
  import opened ListMeaning
  import opened ListSql
  import opened Options
  import opened SqlSelect
  import opened SqlText
  import opened SqlValues

  // ---- Every placeholder stands for its own argument ------------------------------------

  lemma InOrderEnd(ts: seq<Token>, key: Token, m: nat, n: nat)
    requires InOrder(ts, m, n) && !key.Numbered? && key != Mark
    ensures InOrder(ts + [key], m, n)
  {
    InOrderPiece([key], n, n);
    InOrderAppend(ts, [key], m, n, n);
  }

  lemma InOrderStart(keys: seq<Token>, ts: seq<Token>, m: nat, n: nat)
    requires InOrder(ts, m, n) && forall k :: 0 <= k < |keys| ==> !keys[k].Numbered? && keys[k] != Mark
    ensures InOrder(keys + ts, m, n)
  {
    InOrderPiece(keys, m, m);
    InOrderAppend(keys, ts, m, m, n);
  }

  lemma TestInOrder(op: string, m: nat)
    ensures InOrder(TestTokens(op, m), m, m + 1)
  {
    InOrderPiece(TestTokens(op, m), m, m + 1);
  }

  lemma JsonInOrder(d: Dialect, column: string, m: nat)
    ensures InOrder(JsonTextTokens(d, column, m), m, m + 1)
  {
    var key := if d == Postgres then OpenKey else ExtractKey;
    var gap := if d == Postgres then ArrowKey else GapKey;
    InOrderPiece([key, Lit(column), gap, Numbered(m + 1)], m, m + 1);
    InOrderEnd([key, Lit(column), gap, Numbered(m + 1)], CloseKey, m, m + 1);
  }

  lemma {:induction false} MoreSlotsInOrder(n: nat, m: nat)
    ensures InOrder(MoreSlots(n, m), m, m + n)
  {
    if n == 0 {
      InOrderPiece([], m, m);
    } else {
      MoreSlotsInOrder(n - 1, m + 1);
      InOrderPiece([CommaKey, Numbered(m + 1)], m, m + 1);
      InOrderAppend([CommaKey, Numbered(m + 1)], MoreSlots(n - 1, m + 1), m, m + 1, m + n);
    }
  }

  lemma SlotsInOrder(n: nat, m: nat)
    ensures InOrder(SlotTokens(n, m), m, m + n)
  {
    if n == 0 {
      InOrderPiece([], m, m);
    } else {
      MoreSlotsInOrder(n - 1, m + 1);
      InOrderPiece([Numbered(m + 1)], m, m + 1);
      InOrderAppend([Numbered(m + 1)], MoreSlots(n - 1, m + 1), m, m + 1, m + n);
    }
  }

  lemma ColumnInOrder(column: string, op: string, m: nat)
    ensures InOrder([Lit(column)] + TestTokens(op, m), m, m + 1)
  {
    TestInOrder(op, m);
    InOrderStart([Lit(column)], TestTokens(op, m), m, m + 1);
  }

  lemma FilterInOrder(d: Dialect, f: Filter, m: nat)
    ensures InOrder(FilterTokens(d, f, m), m, m + |FilterArgs(d, f)|)
  {
    if f.expr.Some? {
      InOrderPiece([Lit(f.expr.value.head), Numbered(m + 1)], m, m + 1);
      InOrderEnd([Lit(f.expr.value.head), Numbered(m + 1)], Lit(f.expr.value.tail), m, m + 1);
    } else if f.jsonKey != "" {
      JsonInOrder(d, f.column, m);
      TestInOrder(OpWord(d, f.op), m + 1);
      InOrderAppend(JsonTextTokens(d, f.column, m), TestTokens(OpWord(d, f.op), m + 1), m, m + 1, m + 2);
    } else if f.op == IS_NULL || f.op == IS_NOT_NULL {
      InOrderPiece([Lit(f.column), SpaceKey, Lit(f.op)], m, m);
    } else if f.op == IN {
      SlotsInOrder(|f.values|, m);
      InOrderStart([Lit(f.column), InKey], SlotTokens(|f.values|, m), m, m + |f.values|);
      InOrderEnd([Lit(f.column), InKey] + SlotTokens(|f.values|, m), CloseKey, m, m + |f.values|);
    } else {
      ColumnInOrder(f.column, OpWord(d, f.op), m);
    }
  }

  lemma {:induction false} MoreColumnsInOrder(d: Dialect, columns: seq<string>, m: nat)
    ensures InOrder(MoreColumns(d, columns, m), m, m + |columns|)
    decreases columns
  {
    if columns == [] {
      InOrderPiece([], m, m);
    } else {
      var first, rest := ColumnTokens(d, columns[0], m), MoreColumns(d, columns[1..], m + 1);
      ColumnInOrder(columns[0], LikeWord(d), m);
      InOrderStart([OrKey], first, m, m + 1);
      MoreColumnsInOrder(d, columns[1..], m + 1);
      InOrderAppend([OrKey] + first, rest, m, m + 1, m + |columns|);
    }
  }

  lemma BracketsInOrder(first: seq<Token>, rest: seq<Token>, m: nat, k: nat, n: nat)
    requires InOrder(first, m, k) && InOrder(rest, k, n)
    ensures InOrder([OpenKey] + first + rest + [CloseKey], m, n)
  {
    InOrderStart([OpenKey], first, m, k);
    InOrderAppend([OpenKey] + first, rest, m, k, n);
    InOrderEnd([OpenKey] + first + rest, CloseKey, m, n);
  }

  lemma SearchInOrder(d: Dialect, columns: seq<string>, m: nat)
    ensures InOrder(SearchTokens(d, columns, m), m, m + |columns|)
  {
    if columns == [] {
      InOrderPiece([OpenKey, CloseKey], m, m);
    } else {
      var first, rest := ColumnTokens(d, columns[0], m), MoreColumns(d, columns[1..], m + 1);
      ColumnInOrder(columns[0], LikeWord(d), m);
      MoreColumnsInOrder(d, columns[1..], m + 1);
      BracketsInOrder(first, rest, m, m + 1, m + |columns|);
    }
  }

  lemma AfterInOrder(column: string, op: string, m: nat)
    ensures InOrder(AfterTokens(column, op, m), m, m + 2)
  {
    var a, b := [OpenKey, Lit(column), RowKey, Lit(op), PairKey, Numbered(m + 1)], [GapKey, Numbered(m + 2)];
    InOrderPiece(a, m, m + 1);
    InOrderPiece(b, m + 1, m + 2);
    InOrderAppend(a, b, m, m + 1, m + 2);
    InOrderEnd(a + b, CloseKey, m, m + 2);
  }

  lemma PartInOrder(d: Dialect, p: Part, m: nat)
    ensures InOrder(PartTokens(d, p, m), m, m + |PartArgs(d, p)|)
  {
    match p
    case FilterPart(f) => FilterInOrder(d, f, m);
    case SearchPart(_, columns) => SearchInOrder(d, columns, m);
    case AfterPart(column, desc, _, _) => AfterInOrder(column, Comparison(desc), m);
  }

  lemma {:induction false} ChainInOrder<P(!new)>(tokens: (P, nat) -> seq<Token>, args: P -> seq<Value>, parts: seq<P>,
                                                 m: nat)
    requires forall p, k: nat {:trigger tokens(p, k)} :: InOrder(tokens(p, k), k, k + |args(p)|)
    ensures InOrder(Chain(tokens, args, parts, m), m, m + |Gather(args, parts)|)
    decreases |parts|
  {
    if parts == [] {
      InOrderPiece([], m, m);
    } else {
      var k := m + |args(parts[0])|;
      ChainInOrder(tokens, args, parts[1..], k);
      InOrderStart([AndKey], tokens(parts[0], m), m, k);
      InOrderAppend([AndKey] + tokens(parts[0], m), Chain(tokens, args, parts[1..], k), m, k,
        m + |Gather(args, parts)|);
    }
  }

  lemma PartsInOrder(d: Dialect, parts: seq<Part>, m: nat)
    ensures InOrder(AndAll(d, parts, m), m, m + |AllArgs(d, parts)|)
  {
    forall p, k: nat
      ensures InOrder(TokensOf(d)(p, k), k, k + |ArgsOf(d)(p)|)
    {
      PartInOrder(d, p, k);
    }
    ChainInOrder(TokensOf(d), ArgsOf(d), parts, m);
  }

  lemma ScopedInOrder(d: Dialect, parts: seq<Part>)
    ensures InOrder(SCOPE + AndAll(d, parts, 1), 0, 1 + |AllArgs(d, parts)|)
  {
    ColumnInOrder(WORKSPACE, "=", 0);
    InOrderStart([WhereKey], [Lit(WORKSPACE)] + TestTokens("=", 0), 0, 1);
    PartsInOrder(d, parts, 1);
    InOrderAppend(SCOPE, AndAll(d, parts, 1), 0, 1, 1 + |AllArgs(d, parts)|);
  }

  /** The list statement has as many placeholders as arguments, and numbering its marks in the
      order they are written gives each the argument it is meant for. */
  lemma HeadAndClauseInOrder(d: Dialect, table: string, columns: string, q: Query)
    ensures InOrder(HeadTokens(columns, table) + (SCOPE + AndAll(d, ListParts(q), 1)), 0,
                    1 + |AllArgs(d, ListParts(q))|)
  {
    ScopedInOrder(d, ListParts(q));
    InOrderStart(HeadTokens(columns, table), SCOPE + AndAll(d, ListParts(q), 1), 0, 1 + |AllArgs(d, ListParts(q))|);
  }

  lemma ListInOrder(d: Dialect, table: string, columns: string, ws: string, q: Query)
    ensures InOrder(ListTokens(d, table, columns, q), 0, |ListArgs(d, ws, q)|)
  {
    var n := 1 + |AllArgs(d, ListParts(q))|;
    var head, tail := HeadTokens(columns, table) + (SCOPE + AndAll(d, ListParts(q), 1)), TailTokens(q, n);
    HeadAndClauseInOrder(d, table, columns, q);
    InOrderPiece(tail, n, n + 1);
    InOrderAppend(head, tail, 0, n, n + 1);
  }

  lemma CountInOrder(d: Dialect, table: string, ws: string, q: Query)
    ensures InOrder(CountTokens(d, table, q), 0, |WhereArgs(d, ws, q)|)
  {
    ScopedInOrder(d, WhereParts(q));
    InOrderStart([CountKey, Lit(table)], WhereTokens(d, q), 0, |WhereArgs(d, ws, q)|);
  }

  // ---- What the backends run -----------------------------------------------------------

  /** The statement as the backend understands it: rebound by the program, its remaining marks
      numbered by the server. */
  function Understood(d: Dialect, written: seq<Token>): seq<Token> {
    Numbering(Sent(d, written), 0)
  }

  lemma UnderstoodAsMeant(d: Dialect, ts: seq<Token>, n: nat)
    requires InOrder(ts, 0, n)
    ensures Understood(d, Marked(ts)) == ts
  {
    NumberedOnce(Marked(ts), 0, 0);
  }

  function ListSelect(d: Dialect, table: string, columns: string, q: Query): Select {
    Select(columns, table, [SCOPE_COND] + Conds(d, ListParts(q), 1), SortColumn(q), Direction(q), Direction(q),
      1 + |AllArgs(d, ListParts(q))|)
  }

  lemma ListUnderstood(d: Dialect, table: string, columns: string, ws: string, q: Query)
    requires PartsOk(ListParts(q))
    ensures var ts := Understood(d, Marked(ListTokens(d, table, columns, q)));
            ParseSelect(ts) == Parsed(ListSelect(d, table, columns, q), |ts|)
  {
    ListInOrder(d, table, columns, ws, q);
    UnderstoodAsMeant(d, ListTokens(d, table, columns, q), |ListArgs(d, ws, q)|);
    ListReads(d, table, columns, q);
  }

  lemma ListEvaluates(d: Dialect, ws: string, q: Query, row: Row)
    requires QueryOk(q)
    ensures Arg(ListArgs(d, ws, q), 1 + |AllArgs(d, ListParts(q))|) == Int(q.limit + 1)
    ensures Kept(d, [SCOPE_COND] + Conds(d, ListParts(q), 1), ListArgs(d, ws, q), row)
        <==> Selected(d, ws, q, row) && Beyond(q, row)
  {
    var args, scoped := ListArgs(d, ws, q), [Text(ws)] + AllArgs(d, ListParts(q));
    assert args == scoped + [Int(q.limit + 1)];
    assert args[0..|scoped|] == scoped;
    ListPartsHold(d, q, row);
    ScopedEvaluates(d, ws, ListParts(q), args, row);
  }

  /** The list statement, as either backend understands it, selects exactly the rows of the
      workspace that satisfy every filter and the search and lie beyond the cursor, in the
      query's sort order, and one more of them than the query's limit. */
  lemma ListSelects(d: Dialect, table: string, columns: string, ws: string, q: Query, row: Row)
    requires QueryOk(q)
    ensures var ts := Understood(d, Marked(ListTokens(d, table, columns, q)));
            var args := ListArgs(d, ws, q);
            && ParseSelect(ts).Parsed? && ParseSelect(ts).next == |ts|
            && var s := ParseSelect(ts).value;
            && s.columns == columns && s.table == table
            && s.column == SortColumn(q) && s.direction == s.idDirection == Direction(q)
            && Arg(args, s.limit) == Int(q.limit + 1)
            && Runs(d, s.conds) && (Kept(d, s.conds, args, row) <==> Selected(d, ws, q, row) && Beyond(q, row))
  {
    ListPartsHold(d, q, row);
    ListUnderstood(d, table, columns, ws, q);
    ListEvaluates(d, ws, q, row);
    ScopedRuns(d, ListParts(q));
    var s := ListSelect(d, table, columns, q);
    assert s.conds == [SCOPE_COND] + Conds(d, ListParts(q), 1) && s.limit == 1 + |AllArgs(d, ListParts(q))|;
  }

  /** The count is taken over exactly the rows the query selects, wherever its cursor is. */
  lemma CountSelects(d: Dialect, table: string, ws: string, q: Query, row: Row)
    requires QueryOk(q)
    ensures var ts := Understood(d, Marked(CountTokens(d, table, q)));
            && ParseCount(ts).Parsed? && ts[1] == Lit(table)
            && Runs(d, ParseCount(ts).value)
            && (Kept(d, ParseCount(ts).value, WhereArgs(d, ws, q), row) <==> Selected(d, ws, q, row))
  {
    var args := WhereArgs(d, ws, q);
    CountInOrder(d, table, ws, q);
    UnderstoodAsMeant(d, CountTokens(d, table, q), |args|);
    WherePartsHold(d, q, row);
    CountReads(d, table, q);
    assert args[0..|args|] == args;
    ScopedRuns(d, WhereParts(q));
    ScopedEvaluates(d, ws, WhereParts(q), args, row);
  }
}
