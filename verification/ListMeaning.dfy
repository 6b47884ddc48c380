/** What the list statements mean: the server's reading of the emitted tokens selects exactly
    the rows the query asks for, and every placeholder stands for the argument built with it. */
module ListMeaning {
  import opened Dialects
  import opened ListSql
  import opened Options
  import opened SqlSelect
  import opened SqlText
  import opened SqlValues

  // ---- What a query asks for -----------------------------------------------------------

  function Field(d: Dialect, f: Filter, row: Row): Value {
    if f.jsonKey == "" then Cell(row, f.column)
    else if d == Postgres then ArrowText(row, f.column, f.jsonKey)
    else Extracted(row, f.column, f.jsonKey)
  }

  /** A value meets a filter. NULL meets none but IS NULL; an IN without values asks for
      nothing. */
  predicate Meets(f: Filter, v: Value)
    requires FilterOk(f) && f.expr.None?
  {
    if f.jsonKey == "" && f.op == IS_NULL then v == Null
    else if f.jsonKey == "" && f.op == IN then f.values == [] || (v != Null && v in f.values)
    else if f.jsonKey == "" && f.op == IS_NOT_NULL then v != Null
    else v != Null && f.value != Null && Related(f.op, v, f.value)
  }

  predicate Satisfies(d: Dialect, f: Filter, row: Row)
    requires FilterOk(f)
  {
    if f.expr.Some? then HoldsFor(row, f.expr.value, f.value) else Meets(f, Field(d, f, row))
  }

  predicate FoundIn(search: string, column: string, row: Row) {
    Cell(row, column) != Null && Like(AsText(Cell(row, column)), [MANY] + search + [MANY])
  }

  predicate Finds(search: string, columns: seq<string>, row: Row) {
    exists i :: 0 <= i < |columns| && FoundIn(search, columns[i], row)
  }

  predicate Selected(d: Dialect, ws: string, q: Query, row: Row)
    requires QueryOk(q)
  {
    && Cell(row, "workspace_id") == Text(ws)
    && (forall f :: f in q.filters ==> Satisfies(d, f, row))
    && (Searches(q) ==> Finds(q.search, q.searchColumns, row))
  }

  // ---- Queries the parser of requests can produce --------------------------------------

  predicate ColumnOk(column: string) {
    MARK !in column
  }

  predicate FilterOk(f: Filter) {
    if f.expr.Some? then MARK !in f.expr.value.head && MARK !in f.expr.value.tail
    else
      && ColumnOk(f.column)
      && (IsOperator(f.op) || (f.jsonKey == "" && f.op in {IS_NULL, IS_NOT_NULL, IN}))
  }

  predicate QueryOk(q: Query) {
    && (forall f :: f in q.filters ==> FilterOk(f))
    && (forall c :: c in q.searchColumns ==> ColumnOk(c))
    && MARK !in SortColumn(q)
  }

  // ---- Reading one piece of a statement ------------------------------------------------

  /** The tokens `piece` stand at position i. */
  predicate Placed(ts: seq<Token>, i: nat, piece: seq<Token>) {
    i + |piece| <= |ts| && ts[i..i + |piece|] == piece
  }

  lemma PlacedAt(ts: seq<Token>, i: nat, piece: seq<Token>, k: nat)
    requires Placed(ts, i, piece) && k < |piece|
    ensures i + k < |ts| && ts[i + k] == piece[k]
  {
  }

  lemma PlacedParts(ts: seq<Token>, i: nat, a: seq<Token>, b: seq<Token>)
    requires Placed(ts, i, a + b)
    ensures Placed(ts, i, a) && Placed(ts, i + |a|, b)
  {
    var s := ts[i..i + |a + b|];
    assert s[..|a|] == a && s[|a|..] == b;
    assert ts[i..i + |a|] == s[..|a|] && ts[i + |a|..i + |a| + |b|] == s[|a|..];
  }

  lemma PlacedAfter(ts: seq<Token>, i: nat, key: Token, piece: seq<Token>, rest: seq<Token>)
    requires Placed(ts, i, [key] + piece + rest)
    ensures KeyAt(ts, i, key) && Placed(ts, i + 1, piece) && Placed(ts, i + 1 + |piece|, rest)
  {
    PlacedParts(ts, i, [key] + piece, rest);
    PlacedParts(ts, i, [key], piece);
    PlacedAt(ts, i, [key], 0);
  }

  lemma PlacedBefore(ts: seq<Token>, i: nat, piece: seq<Token>, key: Token)
    requires Placed(ts, i, piece + [key])
    ensures Placed(ts, i, piece) && KeyAt(ts, i + |piece|, key)
  {
    PlacedParts(ts, i, piece, [key]);
    PlacedAt(ts, i + |piece|, [key], 0);
  }

  function Consecutive(m: nat, n: nat): (r: seq<nat>)
    ensures |r| == n && forall i :: 0 <= i < n ==> r[i] == m + i
  {
    seq(n, i requires 0 <= i => m + i)
  }

  lemma ConsecutiveNext(m: nat, n: nat)
    requires n > 0
    ensures Consecutive(m, n) == [m] + Consecutive(m + 1, n - 1)
  {
  }

  lemma {:induction false} MoreSlotsParse(ts: seq<Token>, i: nat, n: nat, m: nat)
    requires Placed(ts, i, MoreSlots(n, m)) && !KeyAt(ts, i + |MoreSlots(n, m)|, CommaKey)
    ensures More(SlotParser(ts), ts, CommaKey, i) == Parsed(Consecutive(m, n), i + |MoreSlots(n, m)|)
    decreases n
  {
    if n > 0 {
      PlacedParts(ts, i, [CommaKey, Numbered(m + 1)], MoreSlots(n - 1, m + 1));
      PlacedAt(ts, i, [CommaKey, Numbered(m + 1)], 0);
      PlacedAt(ts, i, [CommaKey, Numbered(m + 1)], 1);
      MoreSlotsParse(ts, i + 2, n - 1, m + 1);
      ConsecutiveNext(m, n);
    } else {
      assert Consecutive(m, 0) == [];
    }
  }

  lemma SlotsParse(ts: seq<Token>, i: nat, n: nat, m: nat)
    requires n > 0 && Placed(ts, i, SlotTokens(n, m)) && !KeyAt(ts, i + |SlotTokens(n, m)|, CommaKey)
    ensures Items(SlotParser(ts), ts, CommaKey, i) == Parsed(Consecutive(m, n), i + |SlotTokens(n, m)|)
  {
    PlacedParts(ts, i, [Numbered(m + 1)], MoreSlots(n - 1, m + 1));
    PlacedAt(ts, i, [Numbered(m + 1)], 0);
    MoreSlotsParse(ts, i + 1, n - 1, m + 1);
    ConsecutiveNext(m, n);
  }

  /** An operator of either server. */
  predicate IsWord(op: string) {
    IsOperator(op) || op == ILIKE
  }

  lemma TestParses(ts: seq<Token>, i: nat, op: string, m: nat)
    requires IsWord(op) && Placed(ts, i, TestTokens(op, m))
    ensures ParseTest(ts, i) == Parsed(Op(op, m), i + 4)
    ensures KeyAt(ts, i, SpaceKey)
  {
    var piece := TestTokens(op, m);
    PlacedAt(ts, i, piece, 0);
    PlacedAt(ts, i, piece, 1);
    PlacedAt(ts, i, piece, 2);
    PlacedAt(ts, i, piece, 3);
  }

  lemma ExprParses(ts: seq<Token>, i: nat, p: Predicate, m: nat)
    requires Placed(ts, i, ExprTokens(p, m))
    ensures ParseCond(ts, i) == Parsed(Exists(p, m), i + 3)
  {
    PlacedAt(ts, i, ExprTokens(p, m), 0);
    PlacedAt(ts, i, ExprTokens(p, m), 1);
    PlacedAt(ts, i, ExprTokens(p, m), 2);
  }

  function JsonOperand(d: Dialect, column: string, m: nat): Operand {
    if d == Postgres then JsonArrow(column, m) else JsonExtract(column, m)
  }

  lemma JsonOperandParses(ts: seq<Token>, i: nat, d: Dialect, column: string, m: nat)
    requires Placed(ts, i, JsonTextTokens(d, column, m))
    ensures ParseOperand(ts, i) == Parsed(JsonOperand(d, column, m), i + 5)
    ensures !LitAt(ts, i) && LitAt(ts, i + 1) && !KeyAt(ts, i + 2, RowKey)
        && (KeyAt(ts, i, OpenKey) ==> KeyAt(ts, i + 2, ArrowKey))
  {
    var piece := JsonTextTokens(d, column, m);
    PlacedAt(ts, i, piece, 0);
    PlacedAt(ts, i, piece, 1);
    PlacedAt(ts, i, piece, 2);
    PlacedAt(ts, i, piece, 3);
    PlacedAt(ts, i, piece, 4);
  }

  lemma JsonParses(ts: seq<Token>, i: nat, d: Dialect, column: string, op: string, m: nat)
    requires IsWord(op) && Placed(ts, i, JsonTextTokens(d, column, m) + TestTokens(op, m + 1))
    ensures ParseCond(ts, i) == Parsed(Tested(JsonOperand(d, column, m), Op(op, m + 1)), i + 9)
  {
    PlacedParts(ts, i, JsonTextTokens(d, column, m), TestTokens(op, m + 1));
    JsonOperandParses(ts, i, d, column, m);
    TestParses(ts, i + 5, op, m + 1);
  }

  lemma ColumnThen(ts: seq<Token>, i: nat, column: string, test: Test, next: nat)
    requires KeyAt(ts, i, Lit(column)) && !ParamAt(ts, i + 1) && ParseTest(ts, i + 1) == Parsed(test, next)
    ensures ParseCond(ts, i) == Parsed(Tested(Column(column), test), next)
  {
  }

  lemma ColumnParses(ts: seq<Token>, i: nat, column: string, op: string, m: nat)
    requires IsWord(op) && Placed(ts, i, [Lit(column)] + TestTokens(op, m))
    ensures ParseCond(ts, i) == Parsed(Tested(Column(column), Op(op, m)), i + 5)
  {
    PlacedParts(ts, i, [Lit(column)], TestTokens(op, m));
    PlacedAt(ts, i, [Lit(column)], 0);
    TestParses(ts, i + 1, op, m);
    ColumnThen(ts, i, column, Op(op, m), i + 5);
  }

  lemma NullTestParses(ts: seq<Token>, i: nat, column: string, op: string)
    requires op in {IS_NULL, IS_NOT_NULL} && Placed(ts, i, [Lit(column), SpaceKey, Lit(op)])
    ensures ParseCond(ts, i) == Parsed(Tested(Column(column), if op == IS_NULL then IsNull else IsNotNull), i + 3)
  {
    var piece := [Lit(column), SpaceKey, Lit(op)];
    PlacedAt(ts, i, piece, 0);
    PlacedAt(ts, i, piece, 1);
    PlacedAt(ts, i, piece, 2);
    ColumnThen(ts, i, column, if op == IS_NULL then IsNull else IsNotNull, i + 3);
  }

  lemma InParses(ts: seq<Token>, i: nat, column: string, slots: seq<Token>, n: nat, m: nat)
    requires n > 0 && slots == SlotTokens(n, m) && Placed(ts, i, [Lit(column), InKey] + slots + [CloseKey])
    ensures ParseCond(ts, i) == Parsed(Tested(Column(column), In(Consecutive(m, n))), i + 3 + |slots|)
  {
    var start := [Lit(column), InKey];
    PlacedBefore(ts, i, start + slots, CloseKey);
    PlacedParts(ts, i, start, slots);
    PlacedAt(ts, i, start, 0);
    PlacedAt(ts, i, start, 1);
    SlotsParse(ts, i + 2, n, m);
    ColumnThen(ts, i, column, In(Consecutive(m, n)), i + 3 + |slots|);
  }

  /** The condition a filter's tokens read as when m arguments precede them. */
  function FilterCond(d: Dialect, f: Filter, m: nat): Cond {
    if f.expr.Some? then Exists(f.expr.value, m)
    else if f.jsonKey != "" then Tested(JsonOperand(d, f.column, m), Op(OpWord(d, f.op), m + 1))
    else if f.op == IS_NULL then Tested(Column(f.column), IsNull)
    else if f.op == IS_NOT_NULL then Tested(Column(f.column), IsNotNull)
    else if f.op == IN then Tested(Column(f.column), In(Consecutive(m, |f.values|)))
    else Tested(Column(f.column), Op(OpWord(d, f.op), m))
  }

  lemma FilterParses(ts: seq<Token>, i: nat, d: Dialect, f: Filter, m: nat)
    requires FilterOk(f) && !Dropped(f) && Placed(ts, i, FilterTokens(d, f, m))
    ensures ParseCond(ts, i) == Parsed(FilterCond(d, f, m), i + |FilterTokens(d, f, m)|)
  {
    if f.expr.Some? {
      ExprParses(ts, i, f.expr.value, m);
    } else if f.jsonKey != "" {
      JsonParses(ts, i, d, f.column, OpWord(d, f.op), m);
    } else if f.op == IS_NULL || f.op == IS_NOT_NULL {
      NullTestParses(ts, i, f.column, f.op);
    } else if f.op == IN {
      InParses(ts, i, f.column, SlotTokens(|f.values|, m), |f.values|, m);
    } else {
      ColumnParses(ts, i, f.column, OpWord(d, f.op), m);
    }
  }

  /** A search reads as one alternative per column. */
  function Alternatives(d: Dialect, columns: seq<string>, m: nat): (r: seq<Alternative>)
    ensures |r| == |columns|
    ensures forall k :: 0 <= k < |columns| ==> r[k] == Alternative(columns[k], LikeWord(d), m + k)
  {
    seq(|columns|, k requires 0 <= k < |columns| => Alternative(columns[k], LikeWord(d), m + k))
  }

  lemma AlternativesNext(d: Dialect, columns: seq<string>, m: nat)
    requires columns != []
    ensures Alternatives(d, columns, m) == [Alternative(columns[0], LikeWord(d), m)]
        + Alternatives(d, columns[1..], m + 1)
  {
  }

  lemma AlternativeParses(ts: seq<Token>, i: nat, d: Dialect, column: string, m: nat)
    requires Placed(ts, i, ColumnTokens(d, column, m))
    ensures ParseAlternative(ts, i) == Parsed(Alternative(column, LikeWord(d), m), i + 5)
    ensures !ParamAt(ts, i) && KeyAt(ts, i + 1, SpaceKey)
  {
    var test := TestTokens(LikeWord(d), m);
    PlacedParts(ts, i, [Lit(column)], test);
    PlacedAt(ts, i, [Lit(column)], 0);
    PlacedAt(ts, i + 1, test, 0);
    PlacedAt(ts, i + 1, test, 1);
    PlacedAt(ts, i + 1, test, 2);
    PlacedAt(ts, i + 1, test, 3);
  }

  lemma NextColumn(ts: seq<Token>, i: nat, d: Dialect, column: string, rest: seq<Token>, m: nat)
    requires Placed(ts, i, [OrKey] + ColumnTokens(d, column, m) + rest)
    ensures KeyAt(ts, i, OrKey) && ParseAlternative(ts, i + 1) == Parsed(Alternative(column, LikeWord(d), m), i + 6)
    ensures Placed(ts, i + 6, rest) && i + 6 <= |ts|
  {
    PlacedAfter(ts, i, OrKey, ColumnTokens(d, column, m), rest);
    AlternativeParses(ts, i + 1, d, column, m);
  }

  lemma {:induction false} MoreColumnsParse(ts: seq<Token>, i: nat, d: Dialect, columns: seq<string>, m: nat)
    requires Placed(ts, i, MoreColumns(d, columns, m)) && !KeyAt(ts, i + |MoreColumns(d, columns, m)|, OrKey)
    ensures More(AlternativeParser(ts), ts, OrKey, i) == Parsed(Alternatives(d, columns, m),
        i + |MoreColumns(d, columns, m)|)
    decreases columns
  {
    if columns == [] {
      assert Alternatives(d, columns, m) == [];
    } else {
      NextColumn(ts, i, d, columns[0], MoreColumns(d, columns[1..], m + 1), m);
      MoreColumnsParse(ts, i + 6, d, columns[1..], m + 1);
      AlternativesNext(d, columns, m);
    }
  }

  lemma AlternativesParse(ts: seq<Token>, i: nat, d: Dialect, columns: seq<string>, rest: seq<Token>, m: nat)
    requires columns != [] && rest == MoreColumns(d, columns[1..], m + 1)
    requires Placed(ts, i, ColumnTokens(d, columns[0], m)) && Placed(ts, i + 5, rest)
        && !KeyAt(ts, i + 5 + |rest|, OrKey)
    ensures Items(AlternativeParser(ts), ts, OrKey, i) == Parsed(Alternatives(d, columns, m), i + 5 + |rest|)
    ensures KeyAt(ts, i + 1, SpaceKey) && !ParamAt(ts, i)
  {
    AlternativeParses(ts, i, d, columns[0], m);
    MoreColumnsParse(ts, i + 5, d, columns[1..], m + 1);
    AlternativesNext(d, columns, m);
  }

  lemma AnyParses(ts: seq<Token>, i: nat, alternatives: seq<Alternative>, next: nat)
    requires KeyAt(ts, i, OpenKey) && !ParamAt(ts, i + 1) && KeyAt(ts, i + 2, SpaceKey)
    requires Items(AlternativeParser(ts), ts, OrKey, i + 1) == Parsed(alternatives, next) && KeyAt(ts, next, CloseKey)
    ensures ParseCond(ts, i) == Parsed(AnyOf(alternatives), next + 1)
  {
  }

  lemma SearchParses(ts: seq<Token>, i: nat, d: Dialect, columns: seq<string>, first: seq<Token>, rest: seq<Token>,
                     m: nat)
    requires columns != [] && first == ColumnTokens(d, columns[0], m) && rest == MoreColumns(d, columns[1..], m + 1)
    requires Placed(ts, i, [OpenKey] + first + rest + [CloseKey])
    ensures ParseCond(ts, i) == Parsed(AnyOf(Alternatives(d, columns, m)), i + 2 + |first| + |rest|)
  {
    PlacedBefore(ts, i, [OpenKey] + first + rest, CloseKey);
    PlacedAfter(ts, i, OpenKey, first, rest);
    AlternativesParse(ts, i + 1, d, columns, rest, m);
    AnyParses(ts, i, Alternatives(d, columns, m), i + 6 + |rest|);
  }

  lemma AfterParses(ts: seq<Token>, i: nat, column: string, op: string, m: nat)
    requires Placed(ts, i, AfterTokens(column, op, m))
    ensures ParseCond(ts, i) == Parsed(After(column, op, m, m + 1), i + 9)
  {
    var a, b := [OpenKey, Lit(column), RowKey, Lit(op), PairKey, Numbered(m + 1)], [GapKey, Numbered(m + 2)];
    PlacedBefore(ts, i, a + b, CloseKey);
    PlacedParts(ts, i, a, b);
    PlacedAt(ts, i, a, 0);
    PlacedAt(ts, i, a, 1);
    PlacedAt(ts, i, a, 2);
    PlacedAt(ts, i, a, 3);
    PlacedAt(ts, i, a, 4);
    PlacedAt(ts, i, a, 5);
    PlacedAt(ts, i + 6, b, 0);
    PlacedAt(ts, i + 6, b, 1);
  }

  // ---- Evaluating one piece ------------------------------------------------------------

  /** The arguments `own` stand at position m. */
  predicate Supplied(args: seq<Value>, m: nat, own: seq<Value>) {
    m + |own| <= |args| && args[m..m + |own|] == own
  }

  lemma SuppliedAt(args: seq<Value>, m: nat, own: seq<Value>, k: nat)
    requires Supplied(args, m, own) && k < |own|
    ensures Arg(args, m + k) == own[k]
  {
  }

  lemma SuppliedParts(args: seq<Value>, m: nat, a: seq<Value>, b: seq<Value>)
    requires Supplied(args, m, a + b)
    ensures Supplied(args, m, a) && Supplied(args, m + |a|, b)
  {
    var s := args[m..m + |a + b|];
    assert s[..|a|] == a && s[|a|..] == b;
    assert args[m..m + |a|] == s[..|a|] && args[m + |a|..m + |a| + |b|] == s[|a|..];
  }

  lemma {:induction false} InEvaluates(v: Value, slots: seq<nat>, args: seq<Value>, values: seq<Value>)
    requires |slots| == |values| && forall i :: 0 <= i < |slots| ==> Arg(args, slots[i]) == values[i]
    ensures EvalIn(v, slots, args) == True <==> v != Null && v in values
  {
    if slots != [] {
      InEvaluates(v, slots[1..], args, values[1..]);
      assert values == [values[0]] + values[1..];
    }
  }

  /** Whatever word the backend has for an operator, its server makes of it what was asked for. */
  lemma OperatorEvaluates(d: Dialect, op: string, a: Value, b: Value)
    requires IsOperator(op)
    ensures Understands(d, OpWord(d, op))
    ensures Compared(d, OpWord(d, op), a, b) == True <==> a != Null && b != Null && Related(op, a, b)
  {
  }

  lemma FilterEvaluates(d: Dialect, f: Filter, m: nat, args: seq<Value>, row: Row)
    requires FilterOk(f) && !Dropped(f) && Supplied(args, m, FilterArgs(d, f))
    ensures EvalCond(d, FilterCond(d, f, m), args, row) == True <==> Satisfies(d, f, row)
  {
    var own := FilterArgs(d, f);
    if f.expr.Some? {
      SuppliedAt(args, m, own, 0);
    } else if f.jsonKey != "" {
      SuppliedAt(args, m, own, 0);
      SuppliedAt(args, m, own, 1);
      assert (PATH_ROOT + f.jsonKey)[|PATH_ROOT|..] == f.jsonKey;
      OperatorEvaluates(d, f.op, Field(d, f, row), f.value);
    } else if f.op == IN {
      forall k | 0 <= k < |own|
        ensures Arg(args, m + k) == own[k]
      {
        SuppliedAt(args, m, own, k);
      }
      InEvaluates(Cell(row, f.column), Consecutive(m, |f.values|), args, f.values);
    } else if f.op != IS_NULL && f.op != IS_NOT_NULL {
      SuppliedAt(args, m, own, 0);
      OperatorEvaluates(d, f.op, Cell(row, f.column), f.value);
    }
  }

  lemma {:induction false} SearchEvaluates(d: Dialect, search: string, columns: seq<string>, m: nat, args: seq<Value>,
                                           row: Row)
    requires Supplied(args, m, Copies(Pattern(search), |columns|))
    ensures EvalAny(d, Alternatives(d, columns, m), args, row) == True <==> Finds(search, columns, row)
    decreases columns
  {
    if columns != [] {
      var rest := columns[1..];
      assert Copies(Pattern(search), |columns|) == [Pattern(search)] + Copies(Pattern(search), |rest|);
      SuppliedParts(args, m, [Pattern(search)], Copies(Pattern(search), |rest|));
      SuppliedAt(args, m, [Pattern(search)], 0);
      assert Alternatives(d, columns, m)[1..] == Alternatives(d, rest, m + 1);
      SearchEvaluates(d, search, rest, m + 1, args, row);
      OperatorEvaluates(d, LIKE, Cell(row, columns[0]), Pattern(search));
      FindsNext(search, columns, row);
    }
  }

  lemma FindsNext(search: string, columns: seq<string>, row: Row)
    requires columns != []
    ensures Finds(search, columns, row)
            <==> FoundIn(search, columns[0], row) || Finds(search, columns[1..], row)
  {
  }

  // ---- All the parts -------------------------------------------------------------------

  predicate PartOk(p: Part) {
    match p
    case FilterPart(f) => FilterOk(f) && !Dropped(f)
    case SearchPart(_, columns) => columns != []
    case AfterPart(_, _, _, _) => true
  }

  predicate PartsOk(parts: seq<Part>) {
    forall k :: 0 <= k < |parts| ==> PartOk(parts[k])
  }

  function PartCond(d: Dialect, p: Part, m: nat): Cond {
    match p
    case FilterPart(f) => FilterCond(d, f, m)
    case SearchPart(_, columns) => AnyOf(Alternatives(d, columns, m))
    case AfterPart(column, desc, _, _) => After(column, Comparison(desc), m, m + 1)
  }

  function CondOf(d: Dialect): (Part, nat) -> Cond {
    (p: Part, m: nat) => PartCond(d, p, m)
  }

  /** The values of parts that take their arguments one after the other. */
  function Values<P, T>(value: (P, nat) -> T, args: P -> seq<Value>, parts: seq<P>, m: nat): seq<T> {
    if parts == [] then [] else [value(parts[0], m)] + Values(value, args, parts[1..], m + |args(parts[0])|)
  }

  function Conds(d: Dialect, parts: seq<Part>, m: nat): seq<Cond> {
    Values(CondOf(d), ArgsOf(d), parts, m)
  }

  /** The row's (column, id) comes after (value, id) in the sort direction. */
  predicate Follows(column: string, desc: bool, value: Value, id: string, row: Row) {
    var cell, rowId := Cell(row, column), Cell(row, "id");
    if cell == Null || value == Null then false
    else if cell == value then rowId != Null && (if desc then Less(rowId, Text(id)) else Less(Text(id), rowId))
    else if desc then Less(cell, value) else Less(value, cell)
  }

  predicate PartHolds(d: Dialect, p: Part, row: Row)
    requires PartOk(p)
  {
    match p
    case FilterPart(f) => Satisfies(d, f, row)
    case SearchPart(search, columns) => Finds(search, columns, row)
    case AfterPart(column, desc, value, id) => Follows(column, desc, value, id, row)
  }

  lemma PartParses(ts: seq<Token>, i: nat, d: Dialect, p: Part, m: nat)
    requires PartOk(p) && Placed(ts, i, PartTokens(d, p, m))
    ensures ParseCond(ts, i) == Parsed(PartCond(d, p, m), i + |PartTokens(d, p, m)|)
    ensures PartTokens(d, p, m) != []
  {
    match p
    case FilterPart(f) => FilterParses(ts, i, d, f, m);
    case SearchPart(_, columns) =>
      SearchParses(ts, i, d, columns, ColumnTokens(d, columns[0], m), MoreColumns(d, columns[1..], m + 1), m);
    case AfterPart(column, desc, _, _) => AfterParses(ts, i, column, Comparison(desc), m);
  }

  lemma PartEvaluates(d: Dialect, p: Part, m: nat, args: seq<Value>, row: Row)
    requires PartOk(p) && Supplied(args, m, PartArgs(d, p))
    ensures EvalCond(d, PartCond(d, p, m), args, row) == True <==> PartHolds(d, p, row)
  {
    match p
    case FilterPart(f) => FilterEvaluates(d, f, m, args, row);
    case SearchPart(search, columns) => SearchEvaluates(d, search, columns, m, args, row);
    case AfterPart(column, desc, value, id) =>
      SuppliedAt(args, m, PartArgs(d, p), 0);
      SuppliedAt(args, m, PartArgs(d, p), 1);
      ValueOrder(Cell(row, column), value, value);
  }

  lemma PartRuns(d: Dialect, p: Part, m: nat)
    requires PartOk(p)
    ensures CondRuns(d, PartCond(d, p, m))
  {
    match p
    case FilterPart(f) =>
      if IsOperator(f.op) {
        OperatorEvaluates(d, f.op, Null, Null);
      }
    case SearchPart(_, _) => OperatorEvaluates(d, LIKE, Null, Null);
    case AfterPart(_, desc, _, _) =>
  }

  /** The server has every operator that the parts of a query are written with. */
  lemma {:induction false} PartsRun(d: Dialect, parts: seq<Part>, m: nat)
    requires PartsOk(parts)
    ensures Runs(d, Conds(d, parts, m))
    decreases |parts|
  {
    if parts != [] {
      PartRuns(d, parts[0], m);
      PartsRun(d, parts[1..], m + |ArgsOf(d)(parts[0])|);
    }
  }

  lemma ScopedRuns(d: Dialect, parts: seq<Part>)
    requires PartsOk(parts)
    ensures Runs(d, [SCOPE_COND] + Conds(d, parts, 1))
  {
    PartsRun(d, parts, 1);
  }

  /** Wherever the part stands, it reads as its value. */
  ghost predicate Reads<P, T(!new)>(item: nat -> Parsed<T>, ts: seq<Token>, tokens: (P, nat) -> seq<Token>,
                                    value: (P, nat) -> T, p: P) {
    forall i: nat, m: nat {:trigger Placed(ts, i, tokens(p, m))} :: Placed(ts, i, tokens(p, m))
        ==> item(i) == Parsed(value(p, m), i + |tokens(p, m)|)
  }

  ghost predicate AllRead<P, T(!new)>(item: nat -> Parsed<T>, ts: seq<Token>, tokens: (P, nat) -> seq<Token>,
                                      value: (P, nat) -> T, parts: seq<P>) {
    forall k :: 0 <= k < |parts| ==> Reads(item, ts, tokens, value, parts[k])
  }

  lemma AllReadNext<P, T(!new)>(item: nat -> Parsed<T>, ts: seq<Token>, tokens: (P, nat) -> seq<Token>,
                                value: (P, nat) -> T, parts: seq<P>)
    requires parts != [] && AllRead(item, ts, tokens, value, parts)
    ensures Reads(item, ts, tokens, value, parts[0]) && AllRead(item, ts, tokens, value, parts[1..])
  {
  }

  /** The first part of a chain. */
  lemma ChainHead<P, T(!new)>(item: nat -> Parsed<T>, ts: seq<Token>, i: nat, tokens: (P, nat) -> seq<Token>,
                              args: P -> seq<Value>,
                              value: (P, nat) -> T, parts: seq<P>, m: nat, p: P, rest: seq<P>, piece: seq<Token>,
                                chain: seq<Token>)
    requires parts != [] && p == parts[0] && rest == parts[1..]
    requires piece == tokens(p, m) && chain == Chain(tokens, args, rest, m + |args(p)|)
    requires Placed(ts, i, Chain(tokens, args, parts, m)) && AllRead(item, ts, tokens, value, parts)
    ensures Chain(tokens, args, parts, m) == [AndKey] + piece + chain
    ensures Placed(ts, i + 1 + |piece|, chain) && AllRead(item, ts, tokens, value, rest)
    ensures item(i + 1) == Parsed(value(p, m), i + 1 + |piece|)
  {
    PlacedAfter(ts, i, AndKey, piece, chain);
    AllReadNext(item, ts, tokens, value, parts);
  }

  /** What is read after the first part. */
  lemma ChainTail<P, T>(item: nat -> Parsed<T>, ts: seq<Token>, i: nat, args: P -> seq<Value>, value: (P, nat) -> T,
                        parts: seq<P>, m: nat,
                        p: P, rest: seq<P>, n: nat, piece: seq<Token>, chain: seq<Token>, whole: seq<Token>)
    requires parts != [] && p == parts[0] && rest == parts[1..] && n == m + |args(p)|
    requires whole == [AndKey] + piece + chain && Placed(ts, i, whole)
        && item(i + 1) == Parsed(value(p, m), i + 1 + |piece|)
    requires More(item, ts, AndKey, i + 1 + |piece|)
             == Preceded(Values(value, args, rest, n), More(item, ts, AndKey, i + 1 + |piece| + |chain|))
    ensures More(item, ts, AndKey, i) == Preceded(Values(value, args, parts, m), More(item, ts, AndKey, i + |whole|))
  {
    PlacedAfter(ts, i, AndKey, piece, chain);
    MoreStep(item, ts, AndKey, i, value(p, m), i + 1 + |piece|, Values(value, args, rest, n),
      i + 1 + |piece| + |chain|);
  }

  /** A chain of parts reads as the list of their values. */
  lemma {:induction false} ChainReads<P, T(!new)>(item: nat -> Parsed<T>, ts: seq<Token>, i: nat,
                                                  tokens: (P, nat) -> seq<Token>,
                                                  args: P -> seq<Value>, value: (P, nat) -> T, parts: seq<P>, m: nat)
    requires Placed(ts, i, Chain(tokens, args, parts, m)) && AllRead(item, ts, tokens, value, parts)
    ensures More(item, ts, AndKey, i)
            == Preceded(Values(value, args, parts, m), More(item, ts, AndKey, i + |Chain(tokens, args, parts, m)|))
    decreases |parts|
  {
    if parts == [] {
      PrecededTwice([], [], More(item, ts, AndKey, i));
    } else {
      var p, rest, n := parts[0], parts[1..], m + |args(parts[0])|;
      var piece, chain := tokens(p, m), Chain(tokens, args, rest, n);
      ChainHead(item, ts, i, tokens, args, value, parts, m, p, rest, piece, chain);
      ChainReads(item, ts, i + 1 + |piece|, tokens, args, value, rest, n);
      ChainTail(item, ts, i, args, value, parts, m, p, rest, n, piece, chain, Chain(tokens, args, parts, m));
    }
  }

  lemma PartReads(ts: seq<Token>, d: Dialect, p: Part)
    requires PartOk(p)
    ensures Reads(CondParser(ts), ts, TokensOf(d), CondOf(d), p)
  {
    forall i: nat, m: nat | Placed(ts, i, TokensOf(d)(p, m))
      ensures CondParser(ts)(i) == Parsed(CondOf(d)(p, m), i + |TokensOf(d)(p, m)|)
    {
      PartParses(ts, i, d, p, m);
    }
  }

  lemma PartsRead(ts: seq<Token>, d: Dialect, parts: seq<Part>)
    requires PartsOk(parts)
    ensures AllRead(CondParser(ts), ts, TokensOf(d), CondOf(d), parts)
  {
    forall k | 0 <= k < |parts|
      ensures Reads(CondParser(ts), ts, TokensOf(d), CondOf(d), parts[k])
    {
      PartReads(ts, d, parts[k]);
    }
  }

  /** The part's condition, given the part's arguments, is true of exactly the rows it holds for. */
  ghost predicate Means<P(!new)>(d: Dialect, args: seq<Value>, row: Row, own: P -> seq<Value>, cond: (P, nat) -> Cond,
                                 holds: P -> bool, p: P) {
    forall m: nat {:trigger Supplied(args, m, own(p))} :: Supplied(args, m, own(p))
        ==> (EvalCond(d, cond(p, m), args, row) == True <==> holds(p))
  }

  ghost predicate AllMean<P(!new)>(d: Dialect, args: seq<Value>, row: Row, own: P -> seq<Value>, cond: (P, nat) -> Cond,
                                   holds: P -> bool, parts: seq<P>) {
    forall k :: 0 <= k < |parts| ==> Means(d, args, row, own, cond, holds, parts[k])
  }

  lemma AllMeanNext<P(!new)>(d: Dialect, args: seq<Value>, row: Row, own: P -> seq<Value>, cond: (P, nat) -> Cond,
                             holds: P -> bool, parts: seq<P>)
    requires parts != [] && AllMean(d, args, row, own, cond, holds, parts)
    ensures Means(d, args, row, own, cond, holds, parts[0]) && AllMean(d, args, row, own, cond, holds, parts[1..])
  {
  }

  predicate All<P>(holds: P -> bool, parts: seq<P>) {
    forall k :: 0 <= k < |parts| ==> holds(parts[k])
  }

  lemma AllNext<P>(holds: P -> bool, parts: seq<P>)
    requires parts != []
    ensures All(holds, parts) <==> holds(parts[0]) && All(holds, parts[1..])
  {
  }

  lemma {:induction false} ChainMeans<P(!new)>(d: Dialect, args: seq<Value>, row: Row, own: P -> seq<Value>,
                                               cond: (P, nat) -> Cond, holds: P -> bool, parts: seq<P>, m: nat)
    requires Supplied(args, m, Gather(own, parts)) && AllMean(d, args, row, own, cond, holds, parts)
    ensures Kept(d, Values(cond, own, parts, m), args, row) <==> All(holds, parts)
    decreases |parts|
  {
    if parts != [] {
      var p, rest := parts[0], parts[1..];
      SuppliedParts(args, m, own(p), Gather(own, rest));
      AllMeanNext(d, args, row, own, cond, holds, parts);
      AllNext(holds, parts);
      ChainMeans(d, args, row, own, cond, holds, rest, m + |own(p)|);
      KeptNext(d, cond(p, m), Values(cond, own, rest, m + |own(p)|), args, row);
    }
  }

  lemma KeptNext(d: Dialect, c: Cond, rest: seq<Cond>, args: seq<Value>, row: Row)
    ensures Kept(d, [c] + rest, args, row) <==> EvalCond(d, c, args, row) == True && Kept(d, rest, args, row)
  {
  }

  predicate AllHold(d: Dialect, parts: seq<Part>, row: Row)
    requires PartsOk(parts)
  {
    forall k :: 0 <= k < |parts| ==> PartHolds(d, parts[k], row)
  }

  lemma AllHoldNext(d: Dialect, parts: seq<Part>, row: Row)
    requires PartsOk(parts) && parts != []
    ensures PartsOk(parts[1..])
    ensures AllHold(d, parts, row) <==> PartHolds(d, parts[0], row) && AllHold(d, parts[1..], row)
  {
  }

  function HoldsOf(d: Dialect, row: Row): Part -> bool {
    (p: Part) => PartOk(p) && PartHolds(d, p, row)
  }

  lemma PartMeans(d: Dialect, p: Part, args: seq<Value>, row: Row)
    requires PartOk(p)
    ensures Means(d, args, row, ArgsOf(d), CondOf(d), HoldsOf(d, row), p)
  {
    forall m: nat | Supplied(args, m, ArgsOf(d)(p))
      ensures EvalCond(d, CondOf(d)(p, m), args, row) == True <==> HoldsOf(d, row)(p)
    {
      PartEvaluates(d, p, m, args, row);
    }
  }

  lemma PartsEvaluate(d: Dialect, parts: seq<Part>, m: nat, args: seq<Value>, row: Row)
    requires PartsOk(parts) && Supplied(args, m, AllArgs(d, parts))
    ensures Kept(d, Conds(d, parts, m), args, row) <==> AllHold(d, parts, row)
  {
    forall k | 0 <= k < |parts|
      ensures Means(d, args, row, ArgsOf(d), CondOf(d), HoldsOf(d, row), parts[k])
    {
      PartMeans(d, parts[k], args, row);
    }
    ChainMeans(d, args, row, ArgsOf(d), CondOf(d), HoldsOf(d, row), parts, m);
    assert forall k :: 0 <= k < |parts| ==> (HoldsOf(d, row)(parts[k]) <==> PartHolds(d, parts[k], row));
  }

  // ---- The parts of a query ------------------------------------------------------------

  lemma {:induction false} FilterPartsHold(d: Dialect, fs: seq<Filter>, row: Row)
    requires forall f :: f in fs ==> FilterOk(f)
    ensures PartsOk(FilterParts(fs))
    ensures AllHold(d, FilterParts(fs), row) <==> forall f :: f in fs ==> Satisfies(d, f, row)
  {
    if fs != [] {
      assert fs == [fs[0]] + fs[1..] && fs[0] in fs;
      FilterPartsHold(d, fs[1..], row);
      if !Dropped(fs[0]) {
        var parts := FilterParts(fs);
        assert parts[0] == FilterPart(fs[0]) && parts[1..] == FilterParts(fs[1..]);
        assert PartsOk(parts) by {
          assert forall k :: 0 < k < |parts| ==> parts[k] == parts[1..][k - 1];
        }
        AllHoldNext(d, parts, row);
      } else {
        assert FilterParts(fs) == FilterParts(fs[1..]);
      }
    }
  }

  lemma AllHoldBoth(d: Dialect, a: seq<Part>, b: seq<Part>, row: Row)
    requires PartsOk(a) && PartsOk(b)
    ensures PartsOk(a + b)
    ensures AllHold(d, a + b, row) <==> AllHold(d, a, row) && AllHold(d, b, row)
  {
    assert forall k :: 0 <= k < |b| ==> b[k] == (a + b)[|a| + k];
    assert forall k :: 0 <= k < |a| ==> a[k] == (a + b)[k];
  }

  lemma WherePartsHold(d: Dialect, q: Query, row: Row)
    requires QueryOk(q)
    ensures PartsOk(WhereParts(q))
    ensures AllHold(d, WhereParts(q), row)
            <==> && (forall f :: f in q.filters ==> Satisfies(d, f, row))
                 && (Searches(q) ==> Finds(q.search, q.searchColumns, row))
  {
    FilterPartsHold(d, q.filters, row);
    var search := if Searches(q) then [SearchPart(q.search, q.searchColumns)] else [];
    if Searches(q) {
      assert AllHold(d, search, row) <==> PartHolds(d, search[0], row);
    }
    AllHoldBoth(d, FilterParts(q.filters), search, row);
  }

  /** The row comes after the query's cursor, if it has one, in the sort direction. */
  predicate Beyond(q: Query, row: Row) {
    q.cursor.Some? ==> Follows(SortColumn(q), SortDesc(q), CursorValue(q.cursor.value), q.cursor.value.id, row)
  }

  lemma ListPartsHold(d: Dialect, q: Query, row: Row)
    requires QueryOk(q)
    ensures PartsOk(ListParts(q))
    ensures AllHold(d, ListParts(q), row)
            <==> && (forall f :: f in q.filters ==> Satisfies(d, f, row))
                 && (Searches(q) ==> Finds(q.search, q.searchColumns, row))
                 && Beyond(q, row)
  {
    WherePartsHold(d, q, row);
    if q.cursor.Some? {
      assert AllHold(d, CursorParts(q), row) <==> PartHolds(d, CursorParts(q)[0], row);
    }
    AllHoldBoth(d, WhereParts(q), CursorParts(q), row);
  }

  // ---- Whole statements ----------------------------------------------------------------

  const SCOPE_COND := Tested(Column(WORKSPACE), Op("=", 0))

  lemma ScopeParses(ts: seq<Token>, i: nat)
    requires Placed(ts, i, SCOPE)
    ensures KeyAt(ts, i, WhereKey) && ParseCond(ts, i + 1) == Parsed(SCOPE_COND, i + 6)
  {
    PlacedParts(ts, i, [WhereKey], [Lit(WORKSPACE)] + TestTokens("=", 0));
    PlacedAt(ts, i, [WhereKey], 0);
    ColumnParses(ts, i + 1, WORKSPACE, "=", 0);
  }

  /** An item of n tokens and a chain of parts after it. */
  lemma ScopedItems<P, T(!new)>(item: nat -> Parsed<T>, ts: seq<Token>, i: nat, n: nat, v: T,
                                tokens: (P, nat) -> seq<Token>,
                                args: P -> seq<Value>, value: (P, nat) -> T, parts: seq<P>, m: nat, chain: seq<Token>)
    requires item(i) == Parsed(v, i + n) && chain == Chain(tokens, args, parts, m) && Placed(ts, i + n, chain)
    requires AllRead(item, ts, tokens, value, parts) && !KeyAt(ts, i + n + |chain|, AndKey)
    ensures Items(item, ts, AndKey, i) == Parsed([v] + Values(value, args, parts, m), i + n + |chain|)
  {
    ChainReads(item, ts, i + n, tokens, args, value, parts, m);
    assert Values(value, args, parts, m) + [] == Values(value, args, parts, m);
  }

  lemma ScopedConds(ts: seq<Token>, i: nat, d: Dialect, parts: seq<Part>, chain: seq<Token>)
    requires PartsOk(parts) && chain == AndAll(d, parts, 1) && !KeyAt(ts, i + 6 + |chain|, AndKey)
    requires CondParser(ts)(i + 1) == Parsed(SCOPE_COND, i + 6) && Placed(ts, i + 6, chain)
    ensures Items(CondParser(ts), ts, AndKey, i + 1) == Parsed([SCOPE_COND] + Conds(d, parts, 1), i + 6 + |chain|)
  {
    PartsRead(ts, d, parts);
    ScopedItems(CondParser(ts), ts, i + 1, 5, SCOPE_COND, TokensOf(d), ArgsOf(d), CondOf(d), parts, 1, chain);
  }

  lemma ScopedParses(ts: seq<Token>, i: nat, d: Dialect, parts: seq<Part>, chain: seq<Token>)
    requires PartsOk(parts) && chain == AndAll(d, parts, 1) && Placed(ts, i, SCOPE + chain)
        && !KeyAt(ts, i + 6 + |chain|, AndKey)
    ensures ParseWhere(ts, i) == Parsed([SCOPE_COND] + Conds(d, parts, 1), i + 6 + |chain|)
  {
    ScopeBefore(ts, i, chain);
    ScopedConds(ts, i, d, parts, chain);
  }

  lemma ScopeBefore(ts: seq<Token>, i: nat, chain: seq<Token>)
    requires Placed(ts, i, SCOPE + chain)
    ensures KeyAt(ts, i, WhereKey) && CondParser(ts)(i + 1) == Parsed(SCOPE_COND, i + 6) && Placed(ts, i + 6, chain)
  {
    PlacedParts(ts, i, SCOPE, chain);
    ScopeParses(ts, i);
  }

  lemma ScopedEvaluates(d: Dialect, ws: string, parts: seq<Part>, args: seq<Value>, row: Row)
    requires PartsOk(parts) && Supplied(args, 0, [Text(ws)] + AllArgs(d, parts))
    ensures Kept(d, [SCOPE_COND] + Conds(d, parts, 1), args, row)
        <==> Cell(row, WORKSPACE) == Text(ws) && AllHold(d, parts, row)
  {
    SuppliedParts(args, 0, [Text(ws)], AllArgs(d, parts));
    SuppliedAt(args, 0, [Text(ws)], 0);
    PartsEvaluate(d, parts, 1, args, row);
    var all := [SCOPE_COND] + Conds(d, parts, 1);
    assert all[1..] == Conds(d, parts, 1);
  }

  /** The list statement, once its placeholders are numbered, reads as the query. */
  lemma ListReads(d: Dialect, table: string, columns: string, q: Query)
    requires PartsOk(ListParts(q))
    ensures var ts := ListTokens(d, table, columns, q);
            ParseSelect(ts) == Parsed(Select(columns, table, [SCOPE_COND] + Conds(d, ListParts(q), 1),
                                             SortColumn(q), Direction(q), Direction(q), 1 + |AllArgs(d, ListParts(q))|),
                                               |ts|)
  {
    ListReadsFrom(d, table, columns, q, ListTokens(d, table, columns, q), AndAll(d, ListParts(q), 1),
      1 + |AllArgs(d, ListParts(q))|);
  }

  lemma ListReadsFrom(d: Dialect, table: string, columns: string, q: Query, ts: seq<Token>, chain: seq<Token>, m: nat)
    requires PartsOk(ListParts(q)) && chain == AndAll(d, ListParts(q), 1)
    requires ts == HeadTokens(columns, table) + (SCOPE + chain) + TailTokens(q, m)
    ensures ParseSelect(ts) == Parsed(Select(columns, table, [SCOPE_COND] + Conds(d, ListParts(q), 1),
                                             SortColumn(q), Direction(q), Direction(q), m), |ts|)
  {
    var head, clause, tail := HeadTokens(columns, table), SCOPE + chain, TailTokens(q, m);
    assert ts[0..|ts|] == ts;
    PlacedParts(ts, 0, head + clause, tail);
    PlacedParts(ts, 0, head, clause);
    PlacedAt(ts, 4 + |clause|, tail, 0);
    ScopedParses(ts, 4, d, ListParts(q), chain);
    SelectReads(WhereParser(ts), ts, columns, table, [SCOPE_COND] + Conds(d, ListParts(q), 1), 4 + |clause|, q, m);
  }

  lemma SelectReads(where: nat -> Parsed<seq<Cond>>, ts: seq<Token>, columns: string, table: string, conds: seq<Cond>,
                    i: nat, q: Query, m: nat)
    requires Placed(ts, 0, HeadTokens(columns, table)) && where(4) == Parsed(conds, i)
    requires Placed(ts, i, TailTokens(q, m)) && |ts| == i + 8
    ensures SelectOf(where, ts) == Parsed(Select(columns, table, conds, SortColumn(q), Direction(q), Direction(q), m),
        |ts|)
  {
    ReadHead(ts, columns, table);
    ReadTail(ts, i, q, m);
  }

  lemma ReadHead(ts: seq<Token>, columns: string, table: string)
    requires Placed(ts, 0, HeadTokens(columns, table))
    ensures KeyAt(ts, 0, SelectKey) && KeyAt(ts, 1, Lit(columns)) && KeyAt(ts, 2, FromKey) && KeyAt(ts, 3, Lit(table))
  {
  }

  lemma ReadTail(ts: seq<Token>, i: nat, q: Query, m: nat)
    requires Placed(ts, i, TailTokens(q, m))
    ensures KeyAt(ts, i, OrderKey) && KeyAt(ts, i + 1, Lit(SortColumn(q))) && KeyAt(ts, i + 2, SpaceKey)
    ensures KeyAt(ts, i + 3, Lit(Direction(q))) && KeyAt(ts, i + 4, IdKey) && KeyAt(ts, i + 5, Lit(Direction(q)))
    ensures KeyAt(ts, i + 6, LimitKey) && KeyAt(ts, i + 7, Numbered(m + 1))
  {
    var tail := TailTokens(q, m);
    PlacedAt(ts, i, tail, 0);
    PlacedAt(ts, i, tail, 1);
    PlacedAt(ts, i, tail, 2);
    PlacedAt(ts, i, tail, 3);
    PlacedAt(ts, i, tail, 4);
    PlacedAt(ts, i, tail, 5);
    PlacedAt(ts, i, tail, 6);
    PlacedAt(ts, i, tail, 7);
  }

  lemma CountPlaced(ts: seq<Token>, table: string, clause: seq<Token>)
    requires ts == [CountKey, Lit(table)] + clause
    ensures KeyAt(ts, 0, CountKey) && LitAt(ts, 1) && Placed(ts, 2, clause) && |ts| == 2 + |clause|
  {
    assert ts[0..|ts|] == ts;
    PlacedParts(ts, 0, [CountKey, Lit(table)], clause);
    PlacedAt(ts, 0, [CountKey, Lit(table)], 0);
    PlacedAt(ts, 0, [CountKey, Lit(table)], 1);
  }

  lemma CountReads(d: Dialect, table: string, q: Query)
    requires PartsOk(WhereParts(q))
    ensures ParseCount(CountTokens(d, table, q)) == Parsed([SCOPE_COND]
        + Conds(d, WhereParts(q), 1), |CountTokens(d, table, q)|)
  {
    var ts, chain := CountTokens(d, table, q), AndAll(d, WhereParts(q), 1);
    CountPlaced(ts, table, SCOPE + chain);
    ScopedParses(ts, 2, d, WhereParts(q), chain);
  }
}
