/** Keyset paging over a list query: internal/store/query.go. The server runs the statements of
    ListSql over a table of rows; each request may see a different table. */
module Pager {
  import opened Cursors
  import Decimal
  import opened Dialects
  import opened ListMeaning
  import opened ListSql
  import opened ListStatements
  import opened Options
  import opened SqlSelect
  import opened SqlText
  import opened SqlValues

  type Table = seq<Row>
  /** The tables of a server by their names. */
  type Database = map<string, Table>

  const ID := "id"

  // ---- The server ----------------------------------------------------------------------

  /** a comes before b in the order of (column, id). */
  predicate Precedes(column: string, desc: bool, a: Row, b: Row) {
    var x, y := Cell(a, column), Cell(b, column);
    if x == y then (if desc then Less(Cell(b, ID), Cell(a, ID)) else Less(Cell(a, ID), Cell(b, ID)))
    else if desc then Less(y, x) else Less(x, y)
  }

  function Insert(column: string, desc: bool, row: Row, rows: seq<Row>): seq<Row> {
    if rows == [] then [row]
    else if Precedes(column, desc, row, rows[0]) then [row] + rows
    else [rows[0]] + Insert(column, desc, row, rows[1..])
  }

  function Ordered(column: string, desc: bool, rows: seq<Row>): seq<Row> {
    if rows == [] then [] else Insert(column, desc, rows[0], Ordered(column, desc, rows[1..]))
  }

  function Filtered(keep: Row -> bool, table: Table): (r: Table)
    ensures |r| <= |table| && forall row :: row in r <==> row in table && keep(row)
  {
    if table == [] then []
    else (if keep(table[0]) then [table[0]] else []) + Filtered(keep, table[1..])
  }

  function Taken(rows: seq<Row>, limit: Value): seq<Row> {
    if limit.Int? && 0 <= limit.n < |rows| then rows[..limit.n] else rows
  }

  function KeptBy(d: Dialect, conds: seq<Cond>, args: seq<Value>): Row -> bool {
    (row: Row) => Kept(d, conds, args, row)
  }

  function RunSelect(d: Dialect, s: Select, args: seq<Value>, table: Table): seq<Row> {
    Taken(Ordered(s.column, s.direction == DESC, Filtered(KeptBy(d, s.conds, args), table)), Arg(args, s.limit))
  }

  /** The rows a list statement returns; one that the server refuses returns none. */
  function RunList(d: Dialect, sql: seq<Token>, args: seq<Value>, db: Database): seq<Row> {
    match ParseSelect(Understood(d, sql))
    case Fail => []
    case Parsed(s, _) => if s.table in db && Runs(d, s.conds) then RunSelect(d, s, args, db[s.table]) else []
  }

  function RunCount(d: Dialect, sql: seq<Token>, args: seq<Value>, db: Database): nat {
    var ts := Understood(d, sql);
    match ParseCount(ts)
    case Fail => 0
    case Parsed(conds, _) =>
      if ts[1].s in db && Runs(d, conds) then |Filtered(KeptBy(d, conds, args), db[ts[1].s])| else 0
  }

  // ---- Records and their sort values ---------------------------------------------------

  datatype Entity = Contacts | Deals

  /** A database with these rows of the entity. */
  function Holding(e: Entity, rows: Table): Database {
    match e
    case Contacts => map["contacts" := rows]
    case Deals => map["deals" := rows]
  }

  function TableName(e: Entity): string {
    if e == Contacts then "contacts" else "deals"
  }

  function TextColumn(e: Entity): string {
    if e == Contacts then "name" else "title"
  }

  predicate IsSortColumn(e: Entity, column: string) {
    column in {TextColumn(e), "created_at", "updated_at"} || (e == Deals && column == "amount_cents")
  }

  predicate IsInt64(v: Value) {
    v.Int? && Decimal.MIN_INT64 <= v.n <= Decimal.MAX_INT64
  }

  /** The columns the scan of a record needs: an id, a text and 64-bit integers. */
  predicate RowOk(e: Entity, row: Row) {
    && Cell(row, ID).Text? && Cell(row, TextColumn(e)).Text?
    && IsInt64(Cell(row, "created_at")) && IsInt64(Cell(row, "updated_at"))
    && (e == Deals ==> IsInt64(Cell(row, "amount_cents")))
  }

  /** Rows are well typed and ids are unique. */
  predicate TableOk(e: Entity, table: Table) {
    && (forall i :: 0 <= i < |table| ==> RowOk(e, table[i]))
    && (forall i, j :: 0 <= i < j < |table| ==> Cell(table[i], ID) != Cell(table[j], ID))
  }

  /** contactSortVal and dealSortVal. */
  function SortVal(e: Entity, row: Row, column: string): string
    requires RowOk(e, row)
  {
    if column == TextColumn(e) then Cell(row, column).s
    else if e == Deals && column == "amount_cents" then Decimal.FormatInt(Cell(row, "amount_cents").n)
    else if column == "created_at" then Decimal.FormatInt(Cell(row, "created_at").n)
    else Decimal.FormatInt(Cell(row, "updated_at").n)
  }

  function NextCursor(q: Query, val: string, id: string): string {
    EncodeCursor(Cursor(SortColumn(q), SortDesc(q), SortNumeric(q), val, id))
  }

  /** What a query answers: the page, the number of matching rows, and the next cursor. */
  datatype Answer = Answer(items: seq<Row>, total: nat, next: string)

  function MatchingAfter(d: Dialect, ws: string, q: Query): Row -> bool
    requires QueryOk(q)
  {
    (row: Row) => Selected(d, ws, q, row) && Beyond(q, row)
  }

  function Matching(d: Dialect, ws: string, q: Query): Row -> bool
    requires QueryOk(q)
  {
    (row: Row) => Selected(d, ws, q, row)
  }

  /** The matching rows that lie beyond the cursor, in sort order. */
  function Remaining(d: Dialect, ws: string, q: Query, table: Table): seq<Row>
    requires QueryOk(q)
  {
    Ordered(SortColumn(q), SortDesc(q), Filtered(MatchingAfter(d, ws, q), table))
  }

  // ---- Sorting -------------------------------------------------------------------------

  predicate Keyed(column: string, row: Row) {
    Cell(row, column) != Null && Cell(row, ID) != Null
  }

  predicate AllKeyed(column: string, rows: seq<Row>) {
    forall i :: 0 <= i < |rows| ==> Keyed(column, rows[i])
  }

  predicate DistinctIds(rows: seq<Row>) {
    forall i, j :: 0 <= i < j < |rows| ==> Cell(rows[i], ID) != Cell(rows[j], ID)
  }

  predicate Sorted(column: string, desc: bool, rows: seq<Row>) {
    forall i, j :: 0 <= i < j < |rows| ==> Precedes(column, desc, rows[i], rows[j])
  }

  lemma PrecedesOrder(column: string, desc: bool, a: Row, b: Row, c: Row)
    requires Keyed(column, a) && Keyed(column, b) && Keyed(column, c)
    ensures !(Precedes(column, desc, a, b) && Precedes(column, desc, b, a)) && !Precedes(column, desc, a, a)
    ensures Cell(a, ID) != Cell(b, ID) ==> Precedes(column, desc, a, b) || Precedes(column, desc, b, a)
    ensures Precedes(column, desc, a, b) && Precedes(column, desc, b, c) ==> Precedes(column, desc, a, c)
  {
    ValueOrder(Cell(a, column), Cell(b, column), Cell(c, column));
    ValueOrder(Cell(c, column), Cell(b, column), Cell(a, column));
    ValueOrder(Cell(a, ID), Cell(b, ID), Cell(c, ID));
    ValueOrder(Cell(c, ID), Cell(b, ID), Cell(a, ID));
    ValueOrder(Cell(b, column), Cell(a, column), Cell(a, column));
    ValueOrder(Cell(b, column), Cell(c, column), Cell(c, column));
  }

  lemma {:induction false} InsertElements(column: string, desc: bool, row: Row, rows: seq<Row>)
    ensures forall r :: r in Insert(column, desc, row, rows) <==> r == row || r in rows
    ensures |Insert(column, desc, row, rows)| == |rows| + 1
  {
    if rows != [] && !Precedes(column, desc, row, rows[0]) {
      InsertElements(column, desc, row, rows[1..]);
      assert rows == [rows[0]] + rows[1..];
    }
  }

  lemma {:induction false} OrderedElements(column: string, desc: bool, rows: seq<Row>)
    ensures forall r :: r in Ordered(column, desc, rows) <==> r in rows
    ensures |Ordered(column, desc, rows)| == |rows|
  {
    if rows != [] {
      OrderedElements(column, desc, rows[1..]);
      InsertElements(column, desc, rows[0], Ordered(column, desc, rows[1..]));
      assert rows == [rows[0]] + rows[1..];
    }
  }

  /** Every element of the tail follows the head. */
  lemma SortedCons(column: string, desc: bool, row: Row, rows: seq<Row>)
    requires Sorted(column, desc, rows) && forall r :: r in rows ==> Precedes(column, desc, row, r)
    ensures Sorted(column, desc, [row] + rows)
  {
  }

  lemma SortedTail(column: string, desc: bool, rows: seq<Row>)
    requires rows != [] && Sorted(column, desc, rows)
    ensures Sorted(column, desc, rows[1..]) && forall r :: r in rows[1..] ==> Precedes(column, desc, rows[0], r)
  {
  }

  lemma {:induction false} InsertSorts(column: string, desc: bool, row: Row, rows: seq<Row>)
    requires Sorted(column, desc, rows) && AllKeyed(column, rows) && Keyed(column, row)
    requires forall r :: r in rows ==> Cell(r, ID) != Cell(row, ID)
    ensures Sorted(column, desc, Insert(column, desc, row, rows))
  {
    if rows != [] {
      var head, tail := rows[0], rows[1..];
      assert head in rows && Keyed(column, head);
      SortedTail(column, desc, rows);
      PrecedesOrder(column, desc, row, head, head);
      if Precedes(column, desc, row, head) {
        forall r | r in rows
          ensures Precedes(column, desc, row, r)
        {
          var k :| 0 <= k < |rows| && rows[k] == r;
          PrecedesOrder(column, desc, row, head, r);
        }
        SortedCons(column, desc, row, rows);
      } else {
        assert AllKeyed(column, tail) by {
          assert forall k :: 0 <= k < |tail| ==> tail[k] == rows[k + 1];
        }
        assert forall r :: r in tail ==> r in rows;
        InsertSorts(column, desc, row, tail);
        InsertElements(column, desc, row, tail);
        SortedCons(column, desc, head, Insert(column, desc, row, tail));
      }
    }
  }

  lemma {:induction false} OrderedSorts(column: string, desc: bool, rows: seq<Row>)
    requires AllKeyed(column, rows) && DistinctIds(rows)
    ensures Sorted(column, desc, Ordered(column, desc, rows)) && AllKeyed(column, Ordered(column, desc, rows))
  {
    if rows != [] {
      var tail := rows[1..];
      assert forall k :: 0 <= k < |tail| ==> tail[k] == rows[k + 1];
      OrderedSorts(column, desc, tail);
      OrderedElements(column, desc, tail);
      OrderedElements(column, desc, rows);
      forall r | r in Ordered(column, desc, tail)
        ensures Cell(r, ID) != Cell(rows[0], ID)
      {
        var k :| 0 <= k < |tail| && tail[k] == r;
        assert rows[k + 1] == r;
      }
      InsertSorts(column, desc, rows[0], Ordered(column, desc, tail));
      KeyedElements(column, rows, Ordered(column, desc, rows));
    }
  }

  lemma KeyedElements(column: string, rows: seq<Row>, others: seq<Row>)
    requires AllKeyed(column, rows) && forall r :: r in others ==> r in rows
    ensures AllKeyed(column, others)
  {
    forall i | 0 <= i < |others|
      ensures Keyed(column, others[i])
    {
      assert others[i] in others;
      var k :| 0 <= k < |rows| && rows[k] == others[i];
    }
  }

  /** Two sorted lists of the same rows are the same list. */
  lemma {:induction false} SortedIsUnique(column: string, desc: bool, a: seq<Row>, b: seq<Row>)
    requires Sorted(column, desc, a) && Sorted(column, desc, b) && AllKeyed(column, a) && AllKeyed(column, b)
    requires forall r :: r in a <==> r in b
    ensures a == b
  {
    if a == [] {
      assert forall k :: 0 <= k < |b| ==> b[k] in b;
    } else {
      assert a[0] in a && a[0] in b;
      assert b[0] in b && b[0] in a;
      HeadsAgree(column, desc, a, b);
      SortedTail(column, desc, a);
      SortedTail(column, desc, b);
      TailsAgree(column, desc, a, b);
      KeyedElements(column, a, a[1..]);
      KeyedElements(column, b, b[1..]);
      SortedIsUnique(column, desc, a[1..], b[1..]);
      assert a == [a[0]] + a[1..] && b == [b[0]] + b[1..];
    }
  }

  lemma HeadsAgree(column: string, desc: bool, a: seq<Row>, b: seq<Row>)
    requires a != [] && b != [] && a[0] in b && b[0] in a
    requires Sorted(column, desc, a) && Sorted(column, desc, b) && AllKeyed(column, a) && AllKeyed(column, b)
    ensures a[0] == b[0]
  {
    var i :| 0 <= i < |a| && a[i] == b[0];
    var j :| 0 <= j < |b| && b[j] == a[0];
    if i > 0 && j > 0 {
      PrecedesOrder(column, desc, a[0], b[0], a[0]);
    }
  }

  lemma TailsAgree(column: string, desc: bool, a: seq<Row>, b: seq<Row>)
    requires a != [] && b != [] && a[0] == b[0] && forall r :: r in a <==> r in b
    requires AllKeyed(column, a) && AllKeyed(column, b)
    requires forall r :: r in a[1..] ==> Precedes(column, desc, a[0], r)
    requires forall r :: r in b[1..] ==> Precedes(column, desc, b[0], r)
    ensures forall r :: r in a[1..] <==> r in b[1..]
  {
    PrecedesOrder(column, desc, a[0], a[0], a[0]);
    assert a == [a[0]] + a[1..] && b == [b[0]] + b[1..];
    forall r
      ensures r in a[1..] <==> r in b[1..]
    {
      assert r in a <==> r == a[0] || r in a[1..];
      assert r in b <==> r == b[0] || r in b[1..];
    }
  }

  // ---- One page ------------------------------------------------------------------------

  lemma RowBefore(e: Entity, row: Row, rows: Table)
    requires TableOk(e, rows) && RowOk(e, row) && forall r :: r in rows ==> Cell(r, ID) != Cell(row, ID)
    ensures TableOk(e, [row] + rows)
  {
    var all := [row] + rows;
    forall i | 0 <= i < |all|
      ensures RowOk(e, all[i]) && (i > 0 ==> all[i] == rows[i - 1] && all[i] in rows)
    {
    }
  }

  lemma TailOk(e: Entity, table: Table)
    requires TableOk(e, table) && table != []
    ensures TableOk(e, table[1..]) && RowOk(e, table[0])
    ensures forall r :: r in table[1..] ==> Cell(r, ID) != Cell(table[0], ID)
  {
    assert forall k :: 0 <= k < |table[1..]| ==> table[1..][k] == table[k + 1];
  }

  lemma {:induction false} FilteredIn(keep: Row -> bool, table: Table)
    ensures forall r :: r in Filtered(keep, table) ==> r in table
  {
    if table != [] {
      FilteredIn(keep, table[1..]);
      assert table == [table[0]] + table[1..];
    }
  }

  lemma {:induction false} FilteredRows(e: Entity, keep: Row -> bool, table: Table)
    requires TableOk(e, table)
    ensures TableOk(e, Filtered(keep, table))
  {
    if table != [] {
      TailOk(e, table);
      FilteredRows(e, keep, table[1..]);
      FilteredIn(keep, table[1..]);
      RowBefore(e, table[0], Filtered(keep, table[1..]));
    }
  }

  lemma RowOkIsKeyed(e: Entity, row: Row, column: string)
    requires RowOk(e, row) && IsSortColumn(e, column)
    ensures Keyed(column, row)
  {
  }

  /** A request that the parser of requests accepts for this kind of record. */
  predicate Asks(e: Entity, q: Query) {
    QueryOk(q) && 1 <= q.limit && IsSortColumn(e, SortColumn(q)) && (SortNumeric(q) <==> SortColumn(q) != TextColumn(e))
  }

  /** The rows not yet shown are well typed, in strict sort order, and exactly those rows of
      the table that the query selects beyond its cursor. */
  lemma RemainingIs(e: Entity, d: Dialect, ws: string, q: Query, table: Table)
    requires Asks(e, q) && TableOk(e, table)
    ensures var rows := Remaining(d, ws, q, table);
            && (forall i :: 0 <= i < |rows| ==> RowOk(e, rows[i]))
            && AllKeyed(SortColumn(q), rows) && Sorted(SortColumn(q), SortDesc(q), rows)
            && (forall row :: row in rows <==> row in table && Selected(d, ws, q, row) && Beyond(q, row))
  {
    var kept := Filtered(MatchingAfter(d, ws, q), table);
    FilteredRows(e, MatchingAfter(d, ws, q), table);
    forall i | 0 <= i < |kept|
      ensures Keyed(SortColumn(q), kept[i])
    {
      RowOkIsKeyed(e, kept[i], SortColumn(q));
    }
    OrderedSorts(SortColumn(q), SortDesc(q), kept);
    OrderedElements(SortColumn(q), SortDesc(q), kept);
    var rows := Remaining(d, ws, q, table);
    forall i | 0 <= i < |rows|
      ensures RowOk(e, rows[i])
    {
      assert rows[i] in rows && rows[i] in kept;
      var k :| 0 <= k < |kept| && kept[k] == rows[i];
    }
  }

  /** The page and the total are read by two statements, which may see different tables. */
  function Answered(e: Entity, d: Dialect, ws: string, q: Query, listed: Table, counted: Table): Answer
    requires Asks(e, q) && TableOk(e, listed)
  {
    var rows := Remaining(d, ws, q, listed);
    var total := |Filtered(Matching(d, ws, q), counted)|;
    RemainingIs(e, d, ws, q, listed);
    if |rows| > q.limit then
      var last := rows[q.limit - 1];
      Answer(rows[..q.limit], total, NextCursor(q, SortVal(e, last, SortColumn(q)), Cell(last, ID).s))
    else Answer(rows, total, "")
  }

  lemma {:induction false} FilteredAlike(keep: Row -> bool, other: Row -> bool, table: Table)
    requires forall row :: row in table ==> (keep(row) <==> other(row))
    ensures Filtered(keep, table) == Filtered(other, table)
  {
    if table != [] {
      assert table[0] in table;
      FilteredAlike(keep, other, table[1..]);
    }
  }

  lemma RunSelectIs(d: Dialect, ws: string, q: Query, s: Select, rows: Table)
    requires QueryOk(q) && s.conds == [SCOPE_COND] + Conds(d, ListParts(q), 1)
    requires s.column == SortColumn(q) && s.direction == Direction(q)
        && Arg(ListArgs(d, ws, q), s.limit) == Int(q.limit + 1)
    ensures RunSelect(d, s, ListArgs(d, ws, q), rows) == Taken(Remaining(d, ws, q, rows), Int(q.limit + 1))
  {
    var args := ListArgs(d, ws, q);
    forall row | row in rows
      ensures KeptBy(d, s.conds, args)(row) <==> MatchingAfter(d, ws, q)(row)
    {
      ListEvaluates(d, ws, q, row);
    }
    FilteredAlike(KeptBy(d, s.conds, args), MatchingAfter(d, ws, q), rows);
  }

  /** What the server returns for the list statement. */
  lemma RunListIs(d: Dialect, table: string, columns: string, ws: string, q: Query, rows: Table, db: Database)
    requires QueryOk(q) && 0 <= q.limit && table in db && db[table] == rows
    ensures RunList(d, Marked(ListTokens(d, table, columns, q)), ListArgs(d, ws, q), db)
            == Taken(Remaining(d, ws, q, rows), Int(q.limit + 1))
  {
    ListPartsHold(d, q, Row(map[], map[], map[]));
    ListUnderstood(d, table, columns, ws, q);
    ListEvaluates(d, ws, q, Row(map[], map[], map[]));
    ScopedRuns(d, ListParts(q));
    RunSelectIs(d, ws, q, ListSelect(d, table, columns, q), rows);
  }

  lemma RunCountIs(d: Dialect, table: string, ws: string, q: Query, rows: Table, db: Database)
    requires QueryOk(q) && table in db && db[table] == rows
    ensures RunCount(d, Marked(CountTokens(d, table, q)), WhereArgs(d, ws, q), db)
        == |Filtered(Matching(d, ws, q), rows)|
  {
    var args := WhereArgs(d, ws, q);
    var parsed := ParseCount(Understood(d, Marked(CountTokens(d, table, q))));
    CountSelects(d, table, ws, q, Row(map[], map[], map[]));
    forall row | row in rows
      ensures KeptBy(d, parsed.value, args)(row) <==> Matching(d, ws, q)(row)
    {
      CountSelects(d, table, ws, q, row);
    }
    FilteredAlike(KeptBy(d, parsed.value, args), Matching(d, ws, q), rows);
  }

  /** The rows of one page, and one more if there is a next page. */
  method FetchRows(e: Entity, d: Dialect, columns: string, ws: string, q: Query, listed: Table) returns (rows: seq<Row>)
    requires Asks(e, q)
    ensures rows == Taken(Remaining(d, ws, q, listed), Int(q.limit + 1))
  {
    var sql, args := BuildListSQL(d, TableName(e), columns, ws, q);
    rows := RunList(d, sql, args, Holding(e, listed));
    RunListIs(d, TableName(e), columns, ws, q, listed, Holding(e, listed));
  }

  /** countMatching. */
  method CountMatching(e: Entity, d: Dialect, ws: string, q: Query, counted: Table) returns (total: nat)
    requires QueryOk(q)
    ensures total == |Filtered(Matching(d, ws, q), counted)|
  {
    var clause, args := BuildWhere(d, ws, q);
    var head := [CountKey, Lit(TableName(e))];
    total := RunCount(d, head + clause, args, Holding(e, counted));
    MarkedAppend(head, WhereTokens(d, q));
    assert Marked(head) == head;
    RunCountIs(d, TableName(e), ws, q, counted, Holding(e, counted));
  }

  lemma TakenCut(all: seq<Row>, n: int, rows: seq<Row>)
    requires 1 <= n && rows == Taken(all, Int(n + 1))
    ensures if |all| > n then |rows| > n && rows[..n] == all[..n] && rows[n - 1] == all[n - 1] else rows == all
  {
  }

  lemma RemainingRowOk(e: Entity, d: Dialect, ws: string, q: Query, table: Table, i: nat)
    requires Asks(e, q) && TableOk(e, table) && i < |Remaining(d, ws, q, table)|
    ensures RowOk(e, Remaining(d, ws, q, table)[i])
  {
    RemainingIs(e, d, ws, q, table);
  }

  /** Cutting off the row beyond the page gives the answer. */
  lemma AnsweredIs(e: Entity, d: Dialect, ws: string, q: Query, listed: Table, counted: Table, rows: seq<Row>)
    requires Asks(e, q) && TableOk(e, listed) && rows == Taken(Remaining(d, ws, q, listed), Int(q.limit + 1))
    ensures |rows| > q.limit ==> RowOk(e, rows[q.limit - 1])
    ensures var total := |Filtered(Matching(d, ws, q), counted)|;
            Answered(e, d, ws, q, listed, counted)
            == if |rows| > q.limit then
                 var last := rows[q.limit - 1];
                 Answer(rows[..q.limit], total, NextCursor(q, SortVal(e, last, SortColumn(q)), Cell(last, ID).s))
               else Answer(rows, total, "")
  {
    TakenCut(Remaining(d, ws, q, listed), q.limit, rows);
    if |rows| > q.limit {
      RemainingRowOk(e, d, ws, q, listed, q.limit - 1);
    }
  }

  /** QueryContacts, and QueryDeals, which differs in table and sort values. */
  method QueryRecords(e: Entity, d: Dialect, columns: string, ws: string, q: Query, listed: Table, counted: Table)
    returns (out: seq<Row>, total: nat, next: string)
    requires Asks(e, q) && TableOk(e, listed)
    ensures Answer(out, total, next) == Answered(e, d, ws, q, listed, counted)
  {
    out := FetchRows(e, d, columns, ws, q, listed);
    AnsweredIs(e, d, ws, q, listed, counted, out);
    next := "";
    if |out| > q.limit {
      var last := out[q.limit - 1];
      out := out[..q.limit];
      next := NextCursor(q, SortVal(e, last, SortColumn(q)), Cell(last, ID).s);
    }
    total := CountMatching(e, d, ws, q, counted);
  }
}
