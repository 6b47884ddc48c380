/** The SQL that a list query becomes: internal/store/query.go. The builders append to a string
    builder, kept here as the pieces written to it, and to an argument list; the statement's
    text is the rendering of the pieces. */
module ListSql {
  import opened Cursors
  import opened Dialects
  import opened Options
  import opened SqlSelect
  import opened SqlText
  import opened SqlValues

  /** QFilter; `expr` is empty unless the filter is a related-row predicate. */
  datatype Filter = Filter(column: string, op: string, value: Value, values: seq<Value>, jsonKey: string,
    expr: Option<Predicate>)

  datatype Query = Query(filters: seq<Filter>, search: string, searchColumns: seq<string>,
                         sortColumn: string, sortDesc: bool, sortNumeric: bool, limit: int, cursor: Option<Cursor>)

  const IN := "IN"
  const IS_NULL := "IS NULL"
  const IS_NOT_NULL := "IS NOT NULL"

  function LikeWord(d: Dialect): string {
    if d == Sqlite then LIKE else ILIKE
  }

  function OpWord(d: Dialect, op: string): string {
    if op == LIKE then LikeWord(d) else op
  }

  // ---- Tokens and arguments ------------------------------------------------------------

  // Each placeholder carries the position its argument is meant to have, counted from one;
  // what is written is Marked(...) of these tokens. `m` arguments precede a piece.

  function JsonTextTokens(d: Dialect, column: string, m: nat): seq<Token> {
    if d == Postgres then [OpenKey, Lit(column), ArrowKey, Numbered(m + 1)] + [CloseKey]
    else [ExtractKey, Lit(column), GapKey, Numbered(m + 1)] + [CloseKey]
  }

  function JsonTextArg(d: Dialect, key: string): string {
    if d == Postgres then key else PATH_ROOT + key
  }

  function TestTokens(op: string, m: nat): seq<Token> {
    [SpaceKey, Lit(op), SpaceKey, Numbered(m + 1)]
  }

  function MoreSlots(n: nat, m: nat): seq<Token> {
    if n == 0 then [] else [CommaKey, Numbered(m + 1)] + MoreSlots(n - 1, m + 1)
  }

  /** n placeholders separated by commas. */
  function SlotTokens(n: nat, m: nat): seq<Token> {
    if n == 0 then [] else [Numbered(m + 1)] + MoreSlots(n - 1, m + 1)
  }

  function ExprTokens(p: Predicate, m: nat): seq<Token> {
    [Lit(p.head), Numbered(m + 1)] + [Lit(p.tail)]
  }

  /** What a filter adds after " AND ". */
  function FilterTokens(d: Dialect, f: Filter, m: nat): seq<Token> {
    if f.expr.Some? then ExprTokens(f.expr.value, m)
    else if f.jsonKey != "" then JsonTextTokens(d, f.column, m) + TestTokens(OpWord(d, f.op), m + 1)
    else if f.op == IS_NULL || f.op == IS_NOT_NULL then [Lit(f.column), SpaceKey, Lit(f.op)]
    else if f.op == IN then [Lit(f.column), InKey] + SlotTokens(|f.values|, m) + [CloseKey]
    else [Lit(f.column)] + TestTokens(OpWord(d, f.op), m)
  }

  function FilterArgs(d: Dialect, f: Filter): seq<Value> {
    if f.expr.Some? then [f.value]
    else if f.jsonKey != "" then [Text(JsonTextArg(d, f.jsonKey)), f.value]
    else if f.op == IS_NULL || f.op == IS_NOT_NULL then []
    else if f.op == IN then f.values
    else [f.value]
  }

  /** An IN without values adds nothing at all. */
  predicate Dropped(f: Filter) {
    f.expr.None? && f.jsonKey == "" && f.op == IN && f.values == []
  }

  function ColumnTokens(d: Dialect, column: string, m: nat): seq<Token> {
    [Lit(column)] + TestTokens(LikeWord(d), m)
  }

  function MoreColumns(d: Dialect, columns: seq<string>, m: nat): seq<Token> {
    if columns == [] then [] else [OrKey] + ColumnTokens(d, columns[0], m) + MoreColumns(d, columns[1..], m + 1)
  }

  function SearchTokens(d: Dialect, columns: seq<string>, m: nat): seq<Token> {
    if columns == [] then [OpenKey, CloseKey]
    else [OpenKey] + ColumnTokens(d, columns[0], m) + MoreColumns(d, columns[1..], m + 1) + [CloseKey]
  }

  function AfterTokens(column: string, op: string, m: nat): seq<Token> {
    [OpenKey, Lit(column), RowKey, Lit(op), PairKey, Numbered(m + 1)] + [GapKey, Numbered(m + 2)] + [CloseKey]
  }

  function Pattern(search: string): Value {
    Text([MANY] + search + [MANY])
  }

  function Copies(v: Value, n: nat): (vs: seq<Value>)
    ensures |vs| == n && forall i :: 0 <= i < n ==> vs[i] == v
  {
    seq(n, i => v)
  }

  /** The conjuncts a query is made of, beside the workspace. */
  datatype Part =
    | FilterPart(f: Filter)
    | SearchPart(search: string, columns: seq<string>)
    | AfterPart(column: string, desc: bool, value: Value, id: string)

  function Comparison(desc: bool): string {
    if desc then "<" else ">"
  }

  function PartTokens(d: Dialect, p: Part, m: nat): seq<Token> {
    match p
    case FilterPart(f) => FilterTokens(d, f, m)
    case SearchPart(_, columns) => SearchTokens(d, columns, m)
    case AfterPart(column, desc, _, _) => AfterTokens(column, Comparison(desc), m)
  }

  function PartArgs(d: Dialect, p: Part): seq<Value> {
    match p
    case FilterPart(f) => FilterArgs(d, f)
    case SearchPart(search, columns) => Copies(Pattern(search), |columns|)
    case AfterPart(_, _, value, id) => [value, Text(id)]
  }

  /** Parts after one another, each after an AND; each takes the arguments after its
      predecessors'. */
  function Chain<P>(tokens: (P, nat) -> seq<Token>, args: P -> seq<Value>, parts: seq<P>, m: nat): seq<Token> {
    if parts == [] then [] else [AndKey] + tokens(parts[0], m) + Chain(tokens, args, parts[1..], m + |args(parts[0])|)
  }

  function Gather<P>(args: P -> seq<Value>, parts: seq<P>): seq<Value> {
    if parts == [] then [] else args(parts[0]) + Gather(args, parts[1..])
  }

  function TokensOf(d: Dialect): (Part, nat) -> seq<Token> {
    (p: Part, m: nat) => PartTokens(d, p, m)
  }

  function ArgsOf(d: Dialect): Part -> seq<Value> {
    (p: Part) => PartArgs(d, p)
  }

  function AndAll(d: Dialect, parts: seq<Part>, m: nat): seq<Token> {
    Chain(TokensOf(d), ArgsOf(d), parts, m)
  }

  function AllArgs(d: Dialect, parts: seq<Part>): seq<Value> {
    Gather(ArgsOf(d), parts)
  }

  function FilterParts(fs: seq<Filter>): seq<Part> {
    if fs == [] then []
    else (if Dropped(fs[0]) then [] else [FilterPart(fs[0])]) + FilterParts(fs[1..])
  }

  predicate Searches(q: Query) {
    q.search != "" && q.searchColumns != []
  }

  function WhereParts(q: Query): seq<Part> {
    FilterParts(q.filters) + if Searches(q) then [SearchPart(q.search, q.searchColumns)] else []
  }

  const WORKSPACE := "workspace_id"
  const SCOPE: seq<Token> := [WhereKey] + ([Lit(WORKSPACE)] + TestTokens("=", 0))

  function WhereTokens(d: Dialect, q: Query): seq<Token> {
    SCOPE + AndAll(d, WhereParts(q), 1)
  }

  function WhereArgs(d: Dialect, ws: string, q: Query): seq<Value> {
    [Text(ws)] + AllArgs(d, WhereParts(q))
  }

  function SortColumn(q: Query): string {
    if q.cursor.Some? then q.cursor.value.col else q.sortColumn
  }

  function SortDesc(q: Query): bool {
    if q.cursor.Some? then q.cursor.value.desc else q.sortDesc
  }

  function SortNumeric(q: Query): bool {
    if q.cursor.Some? then q.cursor.value.num else q.sortNumeric
  }

  const ASC := "ASC"
  const DESC := "DESC"

  function Direction(q: Query): string {
    if SortDesc(q) then DESC else ASC
  }

  function CursorValue(c: Cursor): Value {
    if c.num then Int(NumericValue(c)) else Text(c.val)
  }

  function CursorParts(q: Query): seq<Part> {
    if q.cursor.None? then []
    else [AfterPart(SortColumn(q), SortDesc(q), CursorValue(q.cursor.value), q.cursor.value.id)]
  }

  function HeadTokens(columns: string, table: string): seq<Token> {
    [SelectKey, Lit(columns), FromKey, Lit(table)]
  }

  function TailTokens(q: Query, m: nat): seq<Token> {
    [OrderKey, Lit(SortColumn(q)), SpaceKey, Lit(Direction(q)), IdKey, Lit(Direction(q)), LimitKey, Numbered(m + 1)]
  }

  function ListParts(q: Query): seq<Part> {
    WhereParts(q) + CursorParts(q)
  }

  function ListTokens(d: Dialect, table: string, columns: string, q: Query): seq<Token> {
    HeadTokens(columns, table) + (SCOPE + AndAll(d, ListParts(q), 1)) + TailTokens(q, 1 + |AllArgs(d, ListParts(q))|)
  }

  function ListArgs(d: Dialect, ws: string, q: Query): seq<Value> {
    [Text(ws)] + AllArgs(d, ListParts(q)) + [Int(q.limit + 1)]
  }

  function CountTokens(d: Dialect, table: string, q: Query): seq<Token> {
    [CountKey, Lit(table)] + WhereTokens(d, q)
  }

  // ---- The builders --------------------------------------------------------------------

  lemma {:induction false} GatherAppend<P>(args: P -> seq<Value>, a: seq<P>, b: seq<P>)
    ensures Gather(args, a + b) == Gather(args, a) + Gather(args, b)
  {
    if a == [] {
      assert a + b == b;
    } else {
      assert (a + b)[1..] == a[1..] + b;
      GatherAppend(args, a[1..], b);
      Reassociate(args(a[0]), Gather(args, a[1..]), Gather(args, b));
    }
  }

  lemma {:induction false} ChainAppend<P>(tokens: (P, nat) -> seq<Token>, args: P -> seq<Value>, a: seq<P>, b: seq<P>,
                                          m: nat, n: nat)
    requires n == m + |Gather(args, a)|
    ensures Chain(tokens, args, a + b, m) == Chain(tokens, args, a, m) + Chain(tokens, args, b, n)
  {
    if a == [] {
      assert a + b == b;
    } else {
      var rest, k := a[1..], m + |args(a[0])|;
      assert (a + b)[1..] == rest + b;
      ChainAppend(tokens, args, rest, b, k, n);
      Reassociate([AndKey] + tokens(a[0], m), Chain(tokens, args, rest, k), Chain(tokens, args, b, n));
    }
  }

  /** Appending one part to a statement under construction. */
  lemma ChainMore<P>(tokens: (P, nat) -> seq<Token>, args: P -> seq<Value>, start: seq<Token>, first: seq<Value>,
                     parts: seq<P>, p: P)
    ensures Marked(start + Chain(tokens, args, parts + [p], |first|))
            == Marked(start + Chain(tokens, args, parts, |first|))
                + Marked([AndKey] + tokens(p, |first + Gather(args, parts)|))
    ensures first + Gather(args, parts + [p]) == first + Gather(args, parts) + args(p)
  {
    var m := |first + Gather(args, parts)|;
    var chain, last := Chain(tokens, args, parts, |first|), [AndKey] + tokens(p, m);
    assert [p][1..] == [];
    assert Chain(tokens, args, [p], m) == last;
    assert Gather(args, [p]) == args(p);
    GatherAppend(args, parts, [p]);
    ChainAppend(tokens, args, parts, [p], |first|, m);
    Reassociate(start, chain, last);
    MarkedAppend(start + chain, last);
    Reassociate(first, Gather(args, parts), args(p));
  }

  lemma {:induction false} FilterPartsSnoc(fs: seq<Filter>, f: Filter)
    ensures FilterParts(fs + [f]) == FilterParts(fs) + if Dropped(f) then [] else [FilterPart(f)]
  {
    if fs == [] {
      assert fs + [f] == [f] && [f][1..] == [];
    } else {
      assert (fs + [f])[1..] == fs[1..] + [f];
      FilterPartsSnoc(fs[1..], f);
    }
  }

  lemma OneMoreFilter(d: Dialect, start: seq<Token>, first: seq<Value>, fs: seq<Filter>, i: nat)
    requires i < |fs|
    ensures var parts, more := FilterParts(fs[..i]), FilterParts(fs[..i + 1]);
            if Dropped(fs[i]) then more == parts
            else Marked(start + AndAll(d, more, |first|))
                 == Marked(start + AndAll(d, parts, |first|))
                     + Marked([AndKey] + FilterTokens(d, fs[i], |first + AllArgs(d, parts)|))
                 && first + AllArgs(d, more) == first + AllArgs(d, parts) + FilterArgs(d, fs[i])
  {
    assert fs[..i + 1] == fs[..i] + [fs[i]];
    FilterPartsSnoc(fs[..i], fs[i]);
    if Dropped(fs[i]) {
      assert FilterParts(fs[..i]) + [] == FilterParts(fs[..i]);
    } else {
      ChainMore(TokensOf(d), ArgsOf(d), start, first, FilterParts(fs[..i]), FilterPart(fs[i]));
    }
  }

  function MoreMarks(n: nat): seq<Token> {
    if n == 0 then [] else [CommaKey, Mark] + MoreMarks(n - 1)
  }

  /** "?,?,?" */
  function MarkTokens(n: nat): seq<Token> {
    if n == 0 then [] else [Mark] + MoreMarks(n - 1)
  }

  lemma {:induction false} MoreSlotsMarked(n: nat, m: nat)
    ensures Marked(MoreSlots(n, m)) == MoreMarks(n)
  {
    if n > 0 {
      MoreSlotsMarked(n - 1, m + 1);
      MarkedAppend([CommaKey, Numbered(m + 1)], MoreSlots(n - 1, m + 1));
    }
  }

  lemma SlotsMarked(n: nat, m: nat)
    ensures Marked(SlotTokens(n, m)) == MarkTokens(n)
  {
    if n > 0 {
      MoreSlotsMarked(n - 1, m + 1);
      MarkedAppend([Numbered(m + 1)], MoreSlots(n - 1, m + 1));
    }
  }

  lemma InMarked(column: string, n: nat, m: nat)
    ensures Marked([AndKey] + ([Lit(column), InKey] + SlotTokens(n, m) + [CloseKey]))
            == [AndKey] + ([Lit(column), InKey] + MarkTokens(n) + [CloseKey])
  {
    SlotsMarked(n, m);
    MarkedAppend([AndKey], [Lit(column), InKey] + SlotTokens(n, m) + [CloseKey]);
    MarkedAppend([Lit(column), InKey] + SlotTokens(n, m), [CloseKey]);
    MarkedAppend([Lit(column), InKey], SlotTokens(n, m));
  }

  lemma JsonMarked(d: Dialect, column: string, op: string, m: nat)
    ensures Marked([AndKey] + (JsonTextTokens(d, column, m) + TestTokens(op, m + 1)))
            == if d == Postgres then [AndKey, OpenKey, Lit(column), ArrowKey, Mark, CloseKey, SpaceKey, Lit(op),
                SpaceKey, Mark]
               else [AndKey, ExtractKey, Lit(column), GapKey, Mark, CloseKey, SpaceKey, Lit(op), SpaceKey, Mark]
  {
  }

  /** One pass of buildWhere's filter loop. */
  method AppendFilter(d: Dialect, f: Filter, sb: seq<Token>, args: seq<Value>)
    returns (sql: seq<Token>, more: seq<Value>)
    ensures sql == if Dropped(f) then sb else sb + Marked([AndKey] + FilterTokens(d, f, |args|))
    ensures more == if Dropped(f) then args else args + FilterArgs(d, f)
  {
    sql, more := sb, args;
    if f.expr.Some? {
      sql := sql + [AndKey, Lit(f.expr.value.head), Mark, Lit(f.expr.value.tail)];
      more := more + [f.value];
      assert [AndKey, Lit(f.expr.value.head), Mark, Lit(f.expr.value.tail)]
          == Marked([AndKey] + ExprTokens(f.expr.value, |args|));
      return;
    }
    if f.jsonKey != "" {
      var op := f.op;
      if op == LIKE {
        op := LikeWord(d);
      }
      if d == Postgres {
        sql := sql + [AndKey, OpenKey, Lit(f.column), ArrowKey, Mark, CloseKey, SpaceKey, Lit(op), SpaceKey, Mark];
      } else {
        sql := sql + [AndKey, ExtractKey, Lit(f.column), GapKey, Mark, CloseKey, SpaceKey, Lit(op), SpaceKey, Mark];
      }
      more := more + [Text(JsonTextArg(d, f.jsonKey)), f.value];
      JsonMarked(d, f.column, op, |args|);
      return;
    }
    if f.op == IS_NULL || f.op == IS_NOT_NULL {
      sql := sql + [AndKey, Lit(f.column), SpaceKey, Lit(f.op)];
      assert [AndKey, Lit(f.column), SpaceKey, Lit(f.op)] == Marked([AndKey] + [Lit(f.column), SpaceKey, Lit(f.op)]);
    } else if f.op == IN {
      if |f.values| == 0 {
        return;
      }
      sql := sql + ([AndKey] + ([Lit(f.column), InKey] + MarkTokens(|f.values|) + [CloseKey]));
      more := more + f.values;
      InMarked(f.column, |f.values|, |args|);
    } else {
      var op := f.op;
      if op == LIKE {
        op := LikeWord(d);
      }
      sql := sql + [AndKey, Lit(f.column), SpaceKey, Lit(op), SpaceKey, Mark];
      more := more + [f.value];
      assert [AndKey, Lit(f.column), SpaceKey, Lit(op), SpaceKey, Mark]
          == Marked([AndKey] + ([Lit(f.column)] + TestTokens(op, |args|)));
    }
  }

  function Join(parts: seq<seq<Token>>, sep: Token): seq<Token> {
    if parts == [] then [] else if |parts| == 1 then parts[0] else parts[0] + [sep] + Join(parts[1..], sep)
  }

  function LikeMark(d: Dialect, column: string): seq<Token> {
    [Lit(column), SpaceKey, Lit(LikeWord(d)), SpaceKey, Mark]
  }

  lemma {:induction false} JoinedColumns(d: Dialect, columns: seq<string>, parts: seq<seq<Token>>, m: nat)
    requires |parts| == |columns| > 0
    requires forall i :: 0 <= i < |columns| ==> parts[i] == LikeMark(d, columns[i])
    ensures Join(parts, OrKey) == Marked(ColumnTokens(d, columns[0], m) + MoreColumns(d, columns[1..], m + 1))
  {
    MarkedAppend(ColumnTokens(d, columns[0], m), MoreColumns(d, columns[1..], m + 1));
    assert Marked(ColumnTokens(d, columns[0], m)) == parts[0];
    if |columns| == 1 {
      assert MoreColumns(d, columns[1..], m + 1) == [];
    } else {
      var rest := columns[1..];
      JoinedColumns(d, rest, parts[1..], m + 1);
      var tail := ColumnTokens(d, rest[0], m + 1) + MoreColumns(d, rest[1..], m + 2);
      Reassociate([OrKey], ColumnTokens(d, rest[0], m + 1), MoreColumns(d, rest[1..], m + 2));
      assert MoreColumns(d, rest, m + 1) == [OrKey] + tail;
      MarkedAppend([OrKey], tail);
      assert Marked([OrKey]) == [OrKey];
      Reassociate(parts[0], [OrKey], Marked(tail));
    }
  }

  lemma SearchMarked(first: seq<Token>, more: seq<Token>)
    ensures Marked([AndKey] + ([OpenKey] + first + more + [CloseKey]))
        == [AndKey, OpenKey] + Marked(first + more) + [CloseKey]
  {
  }

  /** The fuzzy search of buildWhere. */
  method AppendSearch(d: Dialect, search: string, columns: seq<string>, sb: seq<Token>, before: seq<Value>)
    returns (sql: seq<Token>, args: seq<Value>)
    requires columns != []
    ensures sql == sb + Marked([AndKey] + SearchTokens(d, columns, |before|))
    ensures args == before + Copies(Pattern(search), |columns|)
  {
    var like := Text([MANY] + search + [MANY]);
    var parts: seq<seq<Token>> := [];
    args := before;
    for i := 0 to |columns|
      invariant |parts| == i
      invariant forall k :: 0 <= k < i ==> parts[k] == LikeMark(d, columns[k])
      invariant args == before + Copies(like, i)
    {
      parts := parts + [[Lit(columns[i]), SpaceKey, Lit(LikeWord(d)), SpaceKey, Mark]];
      args := args + [like];
      assert Copies(like, i) + [like] == Copies(like, i + 1);
    }
    JoinedColumns(d, columns, parts, |before|);
    SearchMarked(ColumnTokens(d, columns[0], |before|), MoreColumns(d, columns[1..], |before| + 1));
    sql := sb + ([AndKey, OpenKey] + Join(parts, OrKey) + [CloseKey]);
  }

  /** The filter loop of buildWhere, on the scope condition. */
  method AppendFilters(d: Dialect, ws: string, fs: seq<Filter>) returns (sql: seq<Token>, args: seq<Value>)
    ensures sql == Marked(SCOPE + AndAll(d, FilterParts(fs), 1))
    ensures args == [Text(ws)] + AllArgs(d, FilterParts(fs))
  {
    args := [Text(ws)];
    sql := [WhereKey, Lit(WORKSPACE), SpaceKey, Lit("="), SpaceKey, Mark];
    assert SCOPE + AndAll(d, FilterParts(fs[..0]), 1) == SCOPE;
    for i := 0 to |fs|
      invariant sql == Marked(SCOPE + AndAll(d, FilterParts(fs[..i]), 1))
      invariant args == [Text(ws)] + AllArgs(d, FilterParts(fs[..i]))
    {
      OneMoreFilter(d, SCOPE, [Text(ws)], fs, i);
      sql, args := AppendFilter(d, fs[i], sql, args);
    }
    assert fs[..|fs|] == fs;
  }

  method BuildWhere(d: Dialect, ws: string, q: Query) returns (sql: seq<Token>, args: seq<Value>)
    ensures sql == Marked(WhereTokens(d, q))
    ensures args == WhereArgs(d, ws, q)
  {
    sql, args := AppendFilters(d, ws, q.filters);
    if q.search != "" && |q.searchColumns| > 0 {
      ChainMore(TokensOf(d), ArgsOf(d), SCOPE, [Text(ws)], FilterParts(q.filters),
        SearchPart(q.search, q.searchColumns));
      sql, args := AppendSearch(d, q.search, q.searchColumns, sql, args);
    } else {
      assert WhereParts(q) == FilterParts(q.filters);
    }
  }

  /** The keyset continuation of buildListSQL. */
  method AppendCursor(d: Dialect, ws: string, q: Query, sb: seq<Token>, before: seq<Value>)
    returns (sql: seq<Token>, args: seq<Value>)
    requires sb == Marked(WhereTokens(d, q)) && before == WhereArgs(d, ws, q)
    ensures sql == Marked(SCOPE + AndAll(d, ListParts(q), 1))
    ensures args == [Text(ws)] + AllArgs(d, ListParts(q))
  {
    sql, args := sb, before;
    if q.cursor.None? {
      assert ListParts(q) == WhereParts(q);
      return;
    }
    var col, cmp := SortColumn(q), ">";
    if SortDesc(q) {
      cmp := "<";
    }
    var v := Text(q.cursor.value.val);
    if SortNumeric(q) {
      v := Int(NumericValue(q.cursor.value));
    }
    ChainMore(TokensOf(d), ArgsOf(d), SCOPE, [Text(ws)], WhereParts(q),
      AfterPart(col, SortDesc(q), v, q.cursor.value.id));
    AfterMarked(col, cmp, |before|);
    sql := sql + [AndKey, OpenKey, Lit(col), RowKey, Lit(cmp), PairKey, Mark, GapKey, Mark, CloseKey];
    args := args + [v, Text(q.cursor.value.id)];
  }

  lemma AfterMarked(column: string, op: string, m: nat)
    ensures Marked([AndKey] + AfterTokens(column, op, m))
            == [AndKey, OpenKey, Lit(column), RowKey, Lit(op), PairKey, Mark, GapKey, Mark, CloseKey]
  {
  }

  method BuildListSQL(d: Dialect, table: string, columns: string, ws: string, q: Query)
    returns (sql: seq<Token>, args: seq<Value>)
    ensures sql == Marked(ListTokens(d, table, columns, q))
    ensures args == ListArgs(d, ws, q)
  {
    var clause, whereArgs := BuildWhere(d, ws, q);
    clause, args := AppendCursor(d, ws, q, clause, whereArgs);
    sql := [SelectKey, Lit(columns), FromKey, Lit(table)] + clause;
    var dir := ASC;
    if SortDesc(q) {
      dir := DESC;
    }
    sql := sql + [OrderKey, Lit(SortColumn(q)), SpaceKey, Lit(dir), IdKey, Lit(dir), LimitKey, Mark];
    args := args + [Int(q.limit + 1)];
    var m := 1 + |AllArgs(d, ListParts(q))|;
    MarkedParts(HeadTokens(columns, table), SCOPE + AndAll(d, ListParts(q), 1), TailTokens(q, m));
    EndsMarked(columns, table, q, m);
  }

  lemma MarkedParts(a: seq<Token>, b: seq<Token>, c: seq<Token>)
    ensures Marked(a + b + c) == Marked(a) + Marked(b) + Marked(c)
  {
  }

  lemma EndsMarked(columns: string, table: string, q: Query, m: nat)
    ensures Marked(HeadTokens(columns, table)) == HeadTokens(columns, table)
    ensures Marked(TailTokens(q, m)) == [OrderKey, Lit(SortColumn(q)), SpaceKey, Lit(Direction(q)), IdKey,
        Lit(Direction(q)), LimitKey, Mark]
  {
  }
}
