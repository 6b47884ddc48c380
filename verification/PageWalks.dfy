/** Walks over the pages of a query, each request resuming at the cursor the last one returned,
    on a table that may change between requests. */
module PageWalks {
  import opened Cursors
  import Decimal
  import opened Dialects
  import opened ListMeaning
  import opened ListSql
  import opened Options
  import opened Pager
  import opened SqlSelect
  import opened SqlValues

  /** The next request repeats the parameters of the last one, in whatever order they are
      visited, and adds the cursor it was given. */
  ghost predicate Resumes(q: Query, r: Query, next: string) {
    && (forall f :: f in q.filters <==> f in r.filters)
    && r.search == q.search && r.searchColumns == q.searchColumns && r.limit == q.limit
    && DecodeCursor(next).Good? && r.cursor == Some(DecodeCursor(next).cursor)
  }

  /** A walk: one table and one answer per request. */
  ghost predicate Walk(e: Entity, d: Dialect, ws: string, qs: seq<Query>, listed: seq<Table>, counted: seq<Table>,
                       answers: seq<Answer>) {
    && |qs| == |listed| == |counted| == |answers| > 0
    && qs[0].cursor == None
    && (forall k :: 0 <= k < |qs| ==> Asks(e, qs[k]) && TableOk(e, listed[k]))
    && (forall k :: 0 <= k < |qs| ==> answers[k] == Answered(e, d, ws, qs[k], listed[k], counted[k]))
    && (forall k :: 0 <= k < |qs| - 1 ==> Continued(qs[k], qs[k + 1], answers[k]))
  }

  ghost predicate Continued(q: Query, r: Query, a: Answer) {
    a.next != "" && Resumes(q, r, a.next)
  }

  // ---- One step of a walk --------------------------------------------------------------

  lemma SortValCarries(e: Entity, q: Query, last: Row)
    requires Asks(e, q) && RowOk(e, last)
    ensures CursorValue(Cursor(SortColumn(q), SortDesc(q), SortNumeric(q), SortVal(e, last, SortColumn(q)),
        Cell(last, ID).s))
            == Cell(last, SortColumn(q))
  {
    if SortNumeric(q) {
      Decimal.IntRoundTrip(Cell(last, SortColumn(q)).n);
    }
  }

  /** A cursor carries the sort and the exact key of the last row shown. */
  lemma CursorCarries(e: Entity, q: Query, last: Row)
    requires Asks(e, q) && RowOk(e, last)
    ensures var next := NextCursor(q, SortVal(e, last, SortColumn(q)), Cell(last, ID).s);
            && next != "" && DecodeCursor(next).Good?
            && var c := DecodeCursor(next).cursor;
            && c.col == SortColumn(q) && c.desc == SortDesc(q) && c.num == SortNumeric(q)
            && CursorValue(c) == Cell(last, SortColumn(q)) && Text(c.id) == Cell(last, ID)
  {
    var c := Cursor(SortColumn(q), SortDesc(q), SortNumeric(q), SortVal(e, last, SortColumn(q)), Cell(last, ID).s);
    CursorRoundTrip(c);
    SortValCarries(e, q, last);
  }

  /** The page ends where the sort order says, and the cursor is empty only when nothing is
      left. */
  lemma LastOnPageIsRow(e: Entity, d: Dialect, ws: string, q: Query, table: Table)
    requires Asks(e, q) && TableOk(e, table) && |Remaining(d, ws, q, table)| > q.limit
    ensures RowOk(e, Remaining(d, ws, q, table)[q.limit - 1])
  {
    RemainingIs(e, d, ws, q, table);
  }

  lemma NextIsNotEmpty(q: Query, val: string, id: string)
    ensures NextCursor(q, val, id) != ""
  {
  }

  lemma PageGoesOn(e: Entity, d: Dialect, ws: string, q: Query, listed: Table, counted: Table)
    requires Asks(e, q) && TableOk(e, listed) && |Remaining(d, ws, q, listed)| > q.limit
    ensures var rows, a := Remaining(d, ws, q, listed), Answered(e, d, ws, q, listed, counted);
            && a.items == rows[..q.limit] && a.next != "" && RowOk(e, rows[q.limit - 1])
            && a.next == NextCursor(q, SortVal(e, rows[q.limit - 1], SortColumn(q)), Cell(rows[q.limit - 1], ID).s)
  {
    LastOnPageIsRow(e, d, ws, q, listed);
    var rows, last := Remaining(d, ws, q, listed), Remaining(d, ws, q, listed)[q.limit - 1];
    var next := NextCursor(q, SortVal(e, last, SortColumn(q)), Cell(last, ID).s);
    NextIsNotEmpty(q, SortVal(e, last, SortColumn(q)), Cell(last, ID).s);
    var a := Answered(e, d, ws, q, listed, counted);
    assert a == Answer(rows[..q.limit], a.total, next);
  }

  lemma PageIs(e: Entity, d: Dialect, ws: string, q: Query, listed: Table, counted: Table)
    requires Asks(e, q) && TableOk(e, listed)
    ensures var rows, a := Remaining(d, ws, q, listed), Answered(e, d, ws, q, listed, counted);
            && a.items == (if |rows| > q.limit then rows[..q.limit] else rows)
            && (a.next == "" <==> |rows| <= q.limit)
            && (|rows| > q.limit ==>
                  && RowOk(e, rows[q.limit - 1])
                  && a.next == NextCursor(q, SortVal(e, rows[q.limit - 1], SortColumn(q)),
                      Cell(rows[q.limit - 1], ID).s))
  {
    if |Remaining(d, ws, q, listed)| > q.limit {
      PageGoesOn(e, d, ws, q, listed, counted);
    }
  }

  /** A request that resumes after the row `last`. */
  ghost predicate ResumesAfter(q: Query, r: Query, last: Row) {
    && SortColumn(r) == SortColumn(q) && SortDesc(r) == SortDesc(q) && r.limit == q.limit
    && (forall f :: f in q.filters <==> f in r.filters)
    && r.search == q.search && r.searchColumns == q.searchColumns
    && r.cursor.Some? && CursorValue(r.cursor.value) == Cell(last, SortColumn(q))
        && Text(r.cursor.value.id) == Cell(last, ID)
  }

  /** A page is full, and the next request resumes after its last row. */
  ghost predicate Advances(d: Dialect, ws: string, q: Query, r: Query, table: Table)
    requires QueryOk(q) && 1 <= q.limit
  {
    var rows := Remaining(d, ws, q, table);
    |rows| > q.limit && ResumesAfter(q, r, rows[q.limit - 1])
  }

  lemma ContinuedAdvances(e: Entity, d: Dialect, ws: string, q: Query, r: Query, listed: Table, counted: Table)
    requires Asks(e, q) && Asks(e, r) && TableOk(e, listed) && Continued(q, r, Answered(e, d, ws, q, listed, counted))
    ensures Advances(d, ws, q, r, listed)
  {
    RemainingIs(e, d, ws, q, listed);
    CursorCarriesLast(e, d, ws, q, listed, counted);
  }

  lemma CursorCarriesLast(e: Entity, d: Dialect, ws: string, q: Query, listed: Table, counted: Table)
    requires Asks(e, q) && TableOk(e, listed) && Answered(e, d, ws, q, listed, counted).next != ""
    ensures var rows, next := Remaining(d, ws, q, listed), Answered(e, d, ws, q, listed, counted).next;
            && |rows| > q.limit && DecodeCursor(next).Good?
            && var c, last := DecodeCursor(next).cursor, rows[q.limit - 1];
            && c.col == SortColumn(q) && c.desc == SortDesc(q) && CursorValue(c) == Cell(last, SortColumn(q))
                && Text(c.id) == Cell(last, ID)
  {
    PageIs(e, d, ws, q, listed, counted);
    CursorCarries(e, q, Remaining(d, ws, q, listed)[q.limit - 1]);
  }

  /** The rows beyond the next cursor are those the last row shown precedes. */
  lemma BeyondLast(q: Query, r: Query, last: Row, row: Row)
    requires ResumesAfter(q, r, last) && Keyed(SortColumn(q), last) && Keyed(SortColumn(q), row)
    ensures Beyond(r, row) <==> Precedes(SortColumn(q), SortDesc(q), last, row)
  {
  }

  lemma SelectsAlike(d: Dialect, ws: string, q: Query, r: Query, last: Row, row: Row)
    requires QueryOk(q) && QueryOk(r) && ResumesAfter(q, r, last)
    ensures Selected(d, ws, r, row) <==> Selected(d, ws, q, row)
  {
  }

  /** A walk, seen as the queries it runs and the tables they see. */
  ghost predicate Paged(e: Entity, d: Dialect, ws: string, qs: seq<Query>, listed: seq<Table>) {
    && |qs| == |listed| > 0 && qs[0].cursor == None
    && (forall k :: 0 <= k < |qs| ==> Asks(e, qs[k]) && TableOk(e, listed[k]))
    && (forall k :: 0 <= k < |qs| - 1 ==> Advances(d, ws, qs[k], qs[k + 1], listed[k]))
  }

  lemma WalkIsPaged(e: Entity, d: Dialect, ws: string, qs: seq<Query>, listed: seq<Table>, counted: seq<Table>,
                    answers: seq<Answer>)
    requires Walk(e, d, ws, qs, listed, counted, answers)
    ensures Paged(e, d, ws, qs, listed)
  {
    forall k | 0 <= k < |qs| - 1
      ensures Advances(d, ws, qs[k], qs[k + 1], listed[k])
    {
      assert Continued(qs[k], qs[k + 1], answers[k]);
      ContinuedAdvances(e, d, ws, qs[k], qs[k + 1], listed[k], counted[k]);
    }
  }

  lemma {:induction false} PagedSort(e: Entity, d: Dialect, ws: string, qs: seq<Query>, listed: seq<Table>, k: nat)
    requires Paged(e, d, ws, qs, listed) && k < |qs|
    ensures SortColumn(qs[k]) == SortColumn(qs[0]) && SortDesc(qs[k]) == SortDesc(qs[0]) && qs[k].limit == qs[0].limit
  {
    if k > 0 {
      PagedSort(e, d, ws, qs, listed, k - 1);
      assert Advances(d, ws, qs[k - 1], qs[k - 1 + 1], listed[k - 1]);
    }
  }

  // ---- A table that does not change ----------------------------------------------------

  function Min(a: int, b: int): int {
    if a <= b then a else b
  }

  /** In a sorted list, the rows after position p are those the row before it precedes. */
  lemma SortedSuffix(column: string, desc: bool, rows: seq<Row>, p: nat, row: Row)
    requires Sorted(column, desc, rows) && AllKeyed(column, rows) && 0 < p <= |rows|
    ensures row in rows[p..] <==> row in rows && Precedes(column, desc, rows[p - 1], row)
  {
    if row in rows[p..] {
      var i :| 0 <= i < |rows[p..]| && rows[p..][i] == row;
      assert rows[p + i] == row;
    }
    if row in rows && Precedes(column, desc, rows[p - 1], row) {
      var i :| 0 <= i < |rows| && rows[i] == row;
      PrecedesOrder(column, desc, rows[p - 1], row, row);
      PrecedesOrder(column, desc, row, rows[p - 1], row);
      if i >= p {
        assert rows[p..][i - p] == row;
      }
    }
  }

  lemma SortedSlice(column: string, desc: bool, rows: seq<Row>, p: nat)
    requires Sorted(column, desc, rows) && AllKeyed(column, rows) && p <= |rows|
    ensures Sorted(column, desc, rows[p..]) && AllKeyed(column, rows[p..])
  {
  }

  lemma BeyondNext(e: Entity, d: Dialect, ws: string, q: Query, r: Query, table: Table, row: Row)
    requires Asks(e, q) && Asks(e, r) && TableOk(e, table) && Advances(d, ws, q, r, table) && RowOk(e, row)
    ensures Selected(d, ws, r, row) && Beyond(r, row)
            <==> && Selected(d, ws, q, row) && Beyond(q, row)
                 && Precedes(SortColumn(q), SortDesc(q), Remaining(d, ws, q, table)[q.limit - 1], row)
  {
    var last := Remaining(d, ws, q, table)[q.limit - 1];
    RemainingIs(e, d, ws, q, table);
    RowOkIsKeyed(e, row, SortColumn(q));
    BeyondLast(q, r, last, row);
    SelectsAlike(d, ws, q, r, last, row);
    BeyondMoves(e, d, ws, q, table, row);
  }

  lemma InRemaining(e: Entity, d: Dialect, ws: string, q: Query, table: Table, row: Row)
    requires Asks(e, q) && TableOk(e, table)
    ensures row in Remaining(d, ws, q, table) <==> row in table && Selected(d, ws, q, row) && Beyond(q, row)
  {
    RemainingIs(e, d, ws, q, table);
  }

  lemma RemainingSorted(e: Entity, d: Dialect, ws: string, q: Query, table: Table)
    requires Asks(e, q) && TableOk(e, table)
    ensures Sorted(SortColumn(q), SortDesc(q), Remaining(d, ws, q, table))
        && AllKeyed(SortColumn(q), Remaining(d, ws, q, table))
  {
    RemainingIs(e, d, ws, q, table);
  }

  lemma ShrinksFrom(e: Entity, d: Dialect, ws: string, q: Query, r: Query, table: Table, row: Row)
    requires Asks(e, q) && Asks(e, r) && TableOk(e, table) && Advances(d, ws, q, r, table) && row in table
    ensures Selected(d, ws, r, row) && Beyond(r, row)
            <==> && Selected(d, ws, q, row) && Beyond(q, row)
                 && Precedes(SortColumn(q), SortDesc(q), Remaining(d, ws, q, table)[q.limit - 1], row)
  {
    MemberOk(e, table, row);
    BeyondNext(e, d, ws, q, r, table, row);
  }

  lemma InPagesAfter(e: Entity, d: Dialect, ws: string, q: Query, table: Table, row: Row)
    requires Asks(e, q) && TableOk(e, table) && |Remaining(d, ws, q, table)| > q.limit
    ensures row in Remaining(d, ws, q, table)[q.limit..]
            <==> && row in table && Selected(d, ws, q, row) && Beyond(q, row)
                 && Precedes(SortColumn(q), SortDesc(q), Remaining(d, ws, q, table)[q.limit - 1], row)
  {
    InRemaining(e, d, ws, q, table, row);
    InSuffix(e, d, ws, q, table, row, q.limit);
  }

  lemma ShrinksAt(e: Entity, d: Dialect, ws: string, q: Query, r: Query, table: Table, row: Row)
    requires Asks(e, q) && Asks(e, r) && TableOk(e, table) && Advances(d, ws, q, r, table)
    ensures row in Remaining(d, ws, r, table) <==> row in Remaining(d, ws, q, table)[q.limit..]
  {
    InPagesAfter(e, d, ws, q, table, row);
    InRemaining(e, d, ws, r, table, row);
    if row in table {
      ShrinksFrom(e, d, ws, q, r, table, row);
    }
  }

  lemma InSuffix(e: Entity, d: Dialect, ws: string, q: Query, table: Table, row: Row, p: nat)
    requires Asks(e, q) && TableOk(e, table) && 0 < p <= |Remaining(d, ws, q, table)|
    ensures var rows := Remaining(d, ws, q, table);
            row in rows[p..] <==> row in rows && Precedes(SortColumn(q), SortDesc(q), rows[p - 1], row)
  {
    RemainingSorted(e, d, ws, q, table);
    SortedSuffix(SortColumn(q), SortDesc(q), Remaining(d, ws, q, table), p, row);
  }

  /** After a page that is not the last, what remains is what remained, less the page. */
  lemma RemainingShrinks(e: Entity, d: Dialect, ws: string, q: Query, r: Query, table: Table)
    requires Asks(e, q) && Asks(e, r) && TableOk(e, table) && Advances(d, ws, q, r, table)
    ensures Remaining(d, ws, r, table) == Remaining(d, ws, q, table)[q.limit..]
  {
    var rows, rest := Remaining(d, ws, q, table), Remaining(d, ws, r, table);
    var column, desc := SortColumn(q), SortDesc(q);
    RemainingIs(e, d, ws, q, table);
    RemainingIs(e, d, ws, r, table);
    SortedSlice(column, desc, rows, q.limit);
    forall row
      ensures row in rest <==> row in rows[q.limit..]
    {
      ShrinksAt(e, d, ws, q, r, table, row);
    }
    SortedIsUnique(column, desc, rest, rows[q.limit..]);
  }

  lemma MemberOk(e: Entity, table: Table, row: Row)
    requires TableOk(e, table) && row in table
    ensures RowOk(e, row)
  {
  }

  /** A row after the last one shown was beyond the cursor already. */
  lemma BeyondMoves(e: Entity, d: Dialect, ws: string, q: Query, table: Table, row: Row)
    requires Asks(e, q) && TableOk(e, table) && RowOk(e, row) && |Remaining(d, ws, q, table)| > q.limit
    ensures var last := Remaining(d, ws, q, table)[q.limit - 1];
            Precedes(SortColumn(q), SortDesc(q), last, row) ==> Beyond(q, row)
  {
    RemainingIs(e, d, ws, q, table);
    var rows := Remaining(d, ws, q, table);
    var last := rows[q.limit - 1];
    assert last in rows;
    if q.cursor.Some? && Precedes(SortColumn(q), SortDesc(q), last, row) {
      RowOkIsKeyed(e, last, SortColumn(q));
      RowOkIsKeyed(e, row, SortColumn(q));
      FollowsOn(SortColumn(q), SortDesc(q), CursorValue(q.cursor.value), q.cursor.value.id, last, row);
    }
  }

  lemma FollowsOn(column: string, desc: bool, value: Value, id: string, a: Row, b: Row)
    requires Keyed(column, a) && Keyed(column, b)
    requires Follows(column, desc, value, id, a) && Precedes(column, desc, a, b)
    ensures Follows(column, desc, value, id, b)
  {
    ValueOrder(value, Cell(a, column), Cell(b, column));
    ValueOrder(Cell(b, column), Cell(a, column), value);
    ValueOrder(Text(id), Cell(a, ID), Cell(b, ID));
    ValueOrder(Cell(b, ID), Cell(a, ID), Text(id));
    ValueOrder(value, Cell(b, column), value);
  }

  lemma SliceTwice(rows: seq<Row>, p: nat, n: nat)
    requires p + n <= |rows|
    ensures rows[p..][n..] == rows[p + n..]
  {
  }

  predicate AllAre(tables: seq<Table>, table: Table) {
    forall i :: 0 <= i < |tables| ==> tables[i] == table
  }

  /** Where page k starts: k times the page size. */
  function Offset(k: nat, limit: nat): nat {
    if k == 0 then 0 else Offset(k - 1, limit) + limit
  }

  lemma {:induction false} OffsetIs(k: nat, limit: nat)
    ensures Offset(k, limit) == k * limit
  {
    if k > 0 {
      OffsetIs(k - 1, limit);
      assert (k - 1) * limit + limit == k * limit;
    }
  }

  lemma FixedAdvance(e: Entity, d: Dialect, ws: string, qs: seq<Query>, listed: seq<Table>, table: Table, k: nat)
    requires Paged(e, d, ws, qs, listed) && k + 1 < |qs| && AllAre(listed, table)
    ensures var left := Remaining(d, ws, qs[k], table);
            |left| > qs[0].limit && Remaining(d, ws, qs[k + 1], table) == left[qs[0].limit..]
  {
    PagedSort(e, d, ws, qs, listed, k);
    assert listed[k] == table && Advances(d, ws, qs[k], qs[k + 1], listed[k]);
    RemainingShrinks(e, d, ws, qs[k], qs[k + 1], table);
  }

  /** Lists each of which is the one before less its first `limit` rows. */
  predicate Shrinking(lefts: seq<seq<Row>>, limit: nat) {
    forall i :: 0 <= i < |lefts| - 1 ==> |lefts[i]| > limit && lefts[i + 1] == lefts[i][limit..]
  }

  lemma {:induction false} ShrinkingIsSlicing(lefts: seq<seq<Row>>, limit: nat, k: nat)
    requires Shrinking(lefts, limit) && k < |lefts|
    ensures Offset(k, limit) <= |lefts[0]| && lefts[k] == lefts[0][Offset(k, limit)..]
  {
    if k == 0 {
      assert lefts[0][0..] == lefts[0];
    } else {
      ShrinkingIsSlicing(lefts, limit, k - 1);
      assert lefts[k - 1 + 1] == lefts[k - 1][limit..];
      SliceTwice(lefts[0], Offset(k - 1, limit), limit);
    }
  }

  lemma FixedRemaining(e: Entity, d: Dialect, ws: string, qs: seq<Query>, listed: seq<Table>, table: Table, k: nat,
                       limit: nat)
    requires Paged(e, d, ws, qs, listed) && k < |qs| && limit == qs[0].limit && AllAre(listed, table)
    ensures Offset(k, limit) <= |Remaining(d, ws, qs[0], table)|
    ensures Remaining(d, ws, qs[k], table) == Remaining(d, ws, qs[0], table)[Offset(k, limit)..]
  {
    var lefts := seq(|qs|, i requires 0 <= i < |qs| => Remaining(d, ws, qs[i], table));
    forall i | 0 <= i < |lefts| - 1
      ensures |lefts[i]| > limit && lefts[i + 1] == lefts[i][limit..]
    {
      FixedAdvance(e, d, ws, qs, listed, table, i);
    }
    ShrinkingIsSlicing(lefts, limit, k);
  }

  /** The matching rows of a table, in the sort order of a query. */
  function InOrderOf(d: Dialect, ws: string, q: Query, table: Table): seq<Row>
    requires QueryOk(q)
  {
    Ordered(SortColumn(q), SortDesc(q), Filtered(Matching(d, ws, q), table))
  }

  /** Every request of a walk selects the same rows, cursor aside. */
  lemma {:induction false} PagedSelects(e: Entity, d: Dialect, ws: string, qs: seq<Query>, listed: seq<Table>, k: nat,
                                        row: Row)
    requires Paged(e, d, ws, qs, listed) && k < |qs|
    ensures Selected(d, ws, qs[k], row) <==> Selected(d, ws, qs[0], row)
  {
    if k > 0 {
      PagedSelects(e, d, ws, qs, listed, k - 1, row);
      assert Advances(d, ws, qs[k - 1], qs[k - 1 + 1], listed[k - 1]);
      SelectsAlike(d, ws, qs[k - 1], qs[k], Remaining(d, ws, qs[k - 1], listed[k - 1])[qs[k - 1].limit - 1], row);
    }
  }

  lemma FixedTotal(e: Entity, d: Dialect, ws: string, qs: seq<Query>, listed: seq<Table>, table: Table, k: nat)
    requires Paged(e, d, ws, qs, listed) && k < |qs|
    ensures |Filtered(Matching(d, ws, qs[k]), table)| == |InOrderOf(d, ws, qs[0], table)|
    ensures Remaining(d, ws, qs[0], table) == InOrderOf(d, ws, qs[0], table)
  {
    forall row | row in table
      ensures Matching(d, ws, qs[k])(row) <==> Matching(d, ws, qs[0])(row)
    {
      PagedSelects(e, d, ws, qs, listed, k, row);
    }
    FilteredAlike(Matching(d, ws, qs[k]), Matching(d, ws, qs[0]), table);
    FilteredAlike(MatchingAfter(d, ws, qs[0]), Matching(d, ws, qs[0]), table);
    OrderedElements(SortColumn(qs[0]), SortDesc(qs[0]), Filtered(Matching(d, ws, qs[0]), table));
  }

  /** The answer is the slice of `all` from p on, and says whether it reaches the end. */
  predicate IsSlice(a: Answer, all: seq<Row>, p: nat, limit: int) {
    && 0 <= limit && p <= |all|
    && a.items == all[p..Min(p + limit, |all|)]
    && (a.next == "" <==> |all| <= p + limit)
    && a.total == |all|
  }

  /** On a table that does not change, page k is the k-th slice of the sorted matching rows;
      the cursor is empty exactly when the slice reaches their end, so a walk stops after as
      many pages as they fill; and every page reports their number. */
  lemma FixedTablePages(e: Entity, d: Dialect, ws: string, qs: seq<Query>, listed: seq<Table>, counted: seq<Table>,
                  answers: seq<Answer>, table: Table, k: nat, limit: nat)
    requires Walk(e, d, ws, qs, listed, counted, answers) && k < |qs| && limit == qs[0].limit
    requires AllAre(listed, table) && AllAre(counted, table)
    ensures IsSlice(answers[k], InOrderOf(d, ws, qs[0], table), Offset(k, limit), limit)
  {
    WalkIsPaged(e, d, ws, qs, listed, counted, answers);
    FixedTotal(e, d, ws, qs, listed, table, k);
    FixedRemaining(e, d, ws, qs, listed, table, k, limit);
    PagedSort(e, d, ws, qs, listed, k);
    PageIs(e, d, ws, qs[k], table, table);
    FixedSlice(answers[k], InOrderOf(d, ws, qs[0], table), Offset(k, limit), limit, Remaining(d, ws, qs[k], table));
  }

  lemma FixedSlice(a: Answer, all: seq<Row>, p: nat, limit: int, rest: seq<Row>)
    requires 1 <= limit && p <= |all| && rest == all[p..] && a.total == |all|
    requires a.items == (if |rest| > limit then rest[..limit] else rest) && (a.next == "" <==> |rest| <= limit)
    ensures IsSlice(a, all, p, limit)
  {
  }

  function Shown(answers: seq<Answer>): seq<Row> {
    if answers == [] then [] else Shown(answers[..|answers| - 1]) + answers[|answers| - 1].items
  }

  predicate AreSlices(answers: seq<Answer>, all: seq<Row>, limit: nat) {
    forall k :: 0 <= k < |answers| ==> IsSlice(answers[k], all, Offset(k, limit), limit)
  }

  /** A finished walk of a table that does not change shows the sorted matching rows. */
  lemma FixedTableWalk(e: Entity, d: Dialect, ws: string, qs: seq<Query>, listed: seq<Table>, counted: seq<Table>,
                       answers: seq<Answer>, table: Table)
    requires Walk(e, d, ws, qs, listed, counted, answers) && answers[|answers| - 1].next == ""
    requires AllAre(listed, table) && AllAre(counted, table)
    ensures Shown(answers) == InOrderOf(d, ws, qs[0], table)
    ensures (|qs| - 1) * qs[0].limit <= |InOrderOf(d, ws, qs[0], table)| <= |qs| * qs[0].limit
  {
    var limit: nat := qs[0].limit;
    FixedSlices(e, d, ws, qs, listed, counted, answers, table, limit);
    SlicesShown(answers, InOrderOf(d, ws, qs[0], table), limit);
    OffsetIs(|qs|, limit);
    OffsetIs(|qs| - 1, limit);
  }

  lemma FixedSlices(e: Entity, d: Dialect, ws: string, qs: seq<Query>, listed: seq<Table>, counted: seq<Table>,
                    answers: seq<Answer>, table: Table, limit: nat)
    requires Walk(e, d, ws, qs, listed, counted, answers) && limit == qs[0].limit
    requires AllAre(listed, table) && AllAre(counted, table)
    ensures AreSlices(answers, InOrderOf(d, ws, qs[0], table), limit)
  {
    forall k | 0 <= k < |answers|
      ensures IsSlice(answers[k], InOrderOf(d, ws, qs[0], table), Offset(k, limit), limit)
    {
      FixedTablePages(e, d, ws, qs, listed, counted, answers, table, k, limit);
    }
  }

  lemma {:induction false} SlicesSoFar(answers: seq<Answer>, all: seq<Row>, limit: nat)
    requires AreSlices(answers, all, limit)
    ensures Shown(answers) == all[..Min(Offset(|answers|, limit), |all|)]
  {
    if answers == [] {
      assert all[..0] == [];
    } else {
      var k := |answers| - 1;
      var p := Offset(k, limit);
      SlicesSoFar(answers[..k], all, limit);
      assert IsSlice(answers[k], all, p, limit);
      assert all[..p] + all[p..Min(p + limit, |all|)] == all[..Min(p + limit, |all|)];
    }
  }

  lemma SlicesShown(answers: seq<Answer>, all: seq<Row>, limit: nat)
    requires AreSlices(answers, all, limit) && answers != [] && answers[|answers| - 1].next == ""
    ensures Shown(answers) == all
    ensures Offset(|answers| - 1, limit) <= |all| <= Offset(|answers|, limit)
  {
    SlicesSoFar(answers, all, limit);
    assert IsSlice(answers[|answers| - 1], all, Offset(|answers| - 1, limit), limit);
    assert all[..|all|] == all;
  }

  /** The query of the client that adds the cursor it was given. */
  function WithCursor(q: Query, next: string): Query {
    var r := DecodeCursor(next);
    if r.Good? then q.(cursor := Some(r.cursor)) else q
  }

  lemma CursorLeadsOn(e: Entity, d: Dialect, ws: string, q: Query, table: Table)
    requires Asks(e, q) && TableOk(e, table) && Answered(e, d, ws, q, table, table).next != ""
    ensures var a := Answered(e, d, ws, q, table, table);
            Asks(e, WithCursor(q, a.next)) && Continued(q, WithCursor(q, a.next), a)
  {
    PageIs(e, d, ws, q, table, table);
    CursorCarries(e, q, Remaining(d, ws, q, table)[q.limit - 1]);
  }

  lemma FewerRemain(e: Entity, d: Dialect, ws: string, q: Query, r: Query, table: Table)
    requires Asks(e, q) && Asks(e, r) && TableOk(e, table) && Continued(q, r, Answered(e, d, ws, q, table, table))
    ensures |Remaining(d, ws, r, table)| < |Remaining(d, ws, q, table)|
  {
    ContinuedAdvances(e, d, ws, q, r, table, table);
    RemainingShrinks(e, d, ws, q, r, table);
  }

  predicate Linked(qs: seq<Query>, next: Query -> Query) {
    forall k :: 0 <= k < |qs| - 1 ==> qs[k + 1] == next(qs[k])
  }

  lemma LinkedBefore(q: Query, qs: seq<Query>, next: Query -> Query)
    requires qs != [] && Linked(qs, next) && qs[0] == next(q)
    ensures Linked([q] + qs, next)
  {
    var all := [q] + qs;
    forall k | 0 <= k < |all| - 1
      ensures all[k + 1] == next(all[k])
    {
      assert k > 0 ==> all[k] == qs[k - 1] && all[k + 1] == qs[k - 1 + 1];
    }
  }

  /** A client that asks on as long as it is not done, each time with fewer rows left. */
  lemma AskedToTheEnd(q: Query, asks: Query -> bool, done: Query -> bool, next: Query -> Query, left: Query -> nat)
    returns (qs: seq<Query>)
    requires asks(q) && forall x :: asks(x) && !done(x) ==> asks(next(x)) && left(next(x)) < left(x)
    ensures qs != [] && qs[0] == q && Linked(qs, next) && (forall r :: r in qs ==> asks(r))
    ensures done(qs[|qs| - 1]) && forall k :: 0 <= k < |qs| - 1 ==> !done(qs[k])
    decreases left(q)
  {
    qs := [q];
    if !done(q) {
      var rest := AskedToTheEnd(next(q), asks, done, next, left);
      LinkedBefore(q, rest, next);
      qs := [q] + rest;
    }
  }

  function Repeated(table: Table, n: nat): seq<Table> {
    seq(n, _ => table)
  }

  function AnswersTo(e: Entity, d: Dialect, ws: string, qs: seq<Query>, table: Table): seq<Answer>
    requires TableOk(e, table) && forall q :: q in qs ==> Asks(e, q)
  {
    seq(|qs|, k requires 0 <= k < |qs| => Answered(e, d, ws, qs[k], table, table))
  }

  /** The next request of a client that follows its cursors on a table that does not change. */
  function Onward(e: Entity, d: Dialect, ws: string, q: Query, table: Table): Query
    requires TableOk(e, table)
  {
    if Asks(e, q) then WithCursor(q, Answered(e, d, ws, q, table, table).next) else q
  }

  predicate AtEnd(e: Entity, d: Dialect, ws: string, q: Query, table: Table)
    requires TableOk(e, table)
  {
    Asks(e, q) && Answered(e, d, ws, q, table, table).next == ""
  }

  function LeftOver(e: Entity, d: Dialect, ws: string, q: Query, table: Table): nat
    requires TableOk(e, table)
  {
    if Asks(e, q) then |Remaining(d, ws, q, table)| else 0
  }

  lemma OnwardLeadsOn(e: Entity, d: Dialect, ws: string, q: Query, table: Table)
    requires Asks(e, q) && TableOk(e, table) && !AtEnd(e, d, ws, q, table)
    ensures var r := Onward(e, d, ws, q, table);
            && Asks(e, r) && Continued(q, r, Answered(e, d, ws, q, table, table))
            && LeftOver(e, d, ws, r, table) < LeftOver(e, d, ws, q, table)
  {
    CursorLeadsOn(e, d, ws, q, table);
    FewerRemain(e, d, ws, q, Onward(e, d, ws, q, table), table);
  }

  lemma LinkedIsWalk(e: Entity, d: Dialect, ws: string, qs: seq<Query>, table: Table)
    requires TableOk(e, table) && qs != [] && qs[0].cursor == None && forall r :: r in qs ==> Asks(e, r)
    requires forall k :: 0 <= k < |qs| - 1 ==>
               qs[k + 1] == Onward(e, d, ws, qs[k], table) && !AtEnd(e, d, ws, qs[k], table)
    ensures Walk(e, d, ws, qs, Repeated(table, |qs|), Repeated(table, |qs|), AnswersTo(e, d, ws, qs, table))
  {
    forall k | 0 <= k < |qs| - 1
      ensures Continued(qs[k], qs[k + 1], AnswersTo(e, d, ws, qs, table)[k])
    {
      assert qs[k] in qs && qs[k + 1] == Onward(e, d, ws, qs[k], table);
      OnwardLeadsOn(e, d, ws, qs[k], table);
    }
  }

  /** Following the cursors of a table that does not change leads to an empty one. */
  lemma FixedTableWalkEnds(e: Entity, d: Dialect, ws: string, q: Query, table: Table) returns (qs: seq<Query>)
    requires Asks(e, q) && q.cursor == None && TableOk(e, table)
    ensures qs != [] && qs[0] == q && forall r :: r in qs ==> Asks(e, r)
    ensures var answers := AnswersTo(e, d, ws, qs, table);
            Walk(e, d, ws, qs, Repeated(table, |qs|), Repeated(table, |qs|), answers) && answers[|qs| - 1].next == ""
  {
    var done := (x: Query) => AtEnd(e, d, ws, x, table);
    var next := (x: Query) => Onward(e, d, ws, x, table);
    forall x | Asks(e, x) && !done(x)
      ensures Asks(e, next(x)) && LeftOver(e, d, ws, next(x), table) < LeftOver(e, d, ws, x, table)
    {
      OnwardLeadsOn(e, d, ws, x, table);
    }
    qs := AskedToTheEnd(q, x => Asks(e, x), done, next, x => LeftOver(e, d, ws, x, table));
    LinkedIsWalk(e, d, ws, qs, table);
  }

  // ---- A table that changes between requests -------------------------------------------

  /** Successive cursors move strictly in the sort direction: a row beyond the later one is
      beyond the earlier one, and the row the later one was made from is beyond the earlier
      one but not beyond itself. */
  lemma CursorsAdvance(e: Entity, d: Dialect, ws: string, q: Query, r: Query, table: Table)
    requires Asks(e, q) && Asks(e, r) && TableOk(e, table) && Advances(d, ws, q, r, table)
    ensures forall row :: RowOk(e, row) && Beyond(r, row) ==> Beyond(q, row)
    ensures var last := Remaining(d, ws, q, table)[q.limit - 1];
            RowOk(e, last) && Beyond(q, last) && !Beyond(r, last)
  {
    RemainingIs(e, d, ws, q, table);
    var rows := Remaining(d, ws, q, table);
    var last := rows[q.limit - 1];
    assert last in rows;
    RowOkIsKeyed(e, last, SortColumn(q));
    forall row | RowOk(e, row) && Beyond(r, row)
      ensures Beyond(q, row)
    {
      RowOkIsKeyed(e, row, SortColumn(q));
      BeyondLast(q, r, last, row);
      BeyondMoves(e, d, ws, q, table, row);
    }
    BeyondLast(q, r, last, last);
    PrecedesOrder(SortColumn(q), SortDesc(q), last, last, last);
  }

  function PageOf(d: Dialect, ws: string, q: Query, table: Table): seq<Row>
    requires QueryOk(q) && 1 <= q.limit
  {
    var rows := Remaining(d, ws, q, table);
    if |rows| > q.limit then rows[..q.limit] else rows
  }

  predicate SameKey(column: string, a: Row, b: Row) {
    Cell(a, ID) == Cell(b, ID) && Cell(a, column) == Cell(b, column)
  }

  /** A record that keeps matching, under the same sort key, while the walk lasts: its row at
      each request. */
  ghost predicate Stable(d: Dialect, ws: string, qs: seq<Query>, listed: seq<Table>, rows: seq<Row>)
    requires |qs| == |listed| > 0 && QueryOk(qs[0])
  {
    && |rows| == |qs|
    && (forall k :: 0 <= k < |rows| ==> rows[k] in listed[k] && Selected(d, ws, qs[0], rows[k]))
    && (forall k :: 0 <= k < |rows| ==> SameKey(SortColumn(qs[0]), rows[0], rows[k]))
  }

  lemma SameBeyond(q: Query, a: Row, b: Row)
    requires SameKey(SortColumn(q), a, b)
    ensures Beyond(q, a) <==> Beyond(q, b)
  {
  }

  /** The page leaves nothing to show. */
  predicate Finished(d: Dialect, ws: string, q: Query, table: Table)
    requires QueryOk(q)
  {
    |Remaining(d, ws, q, table)| <= q.limit
  }

  predicate OnPage(d: Dialect, ws: string, q: Query, table: Table, row: Row, j: nat)
    requires QueryOk(q) && 1 <= q.limit
  {
    j < |PageOf(d, ws, q, table)| && PageOf(d, ws, q, table)[j] == row
  }

  /** The page is full and the row comes after its last row. */
  predicate AfterEnd(d: Dialect, ws: string, q: Query, table: Table, row: Row)
    requires QueryOk(q) && 1 <= q.limit
  {
    !Finished(d, ws, q, table) && Precedes(SortColumn(q), SortDesc(q), Remaining(d, ws, q, table)[q.limit - 1], row)
  }

  /** A selected row beyond the cursor is on the page or after its end. */
  lemma OnPageOrAfter(e: Entity, d: Dialect, ws: string, q: Query, table: Table, row: Row) returns (j: nat)
    requires Asks(e, q) && TableOk(e, table) && row in table && Selected(d, ws, q, row) && Beyond(q, row)
    ensures !OnPage(d, ws, q, table, row, j) ==> AfterEnd(d, ws, q, table, row)
  {
    InRemaining(e, d, ws, q, table, row);
    RemainingSorted(e, d, ws, q, table);
    var rows := Remaining(d, ws, q, table);
    j :| 0 <= j < |rows| && rows[j] == row;
    if j >= q.limit {
      assert Precedes(SortColumn(q), SortDesc(q), rows[q.limit - 1], rows[j]);
    }
  }

  /** A row after the end of a full page is beyond the next cursor. */
  lemma AfterPage(e: Entity, d: Dialect, ws: string, q: Query, r: Query, table: Table, row: Row, next: Row)
    requires Asks(e, q) && Asks(e, r) && TableOk(e, table) && Advances(d, ws, q, r, table) && RowOk(e, row)
    requires AfterEnd(d, ws, q, table, row) && SameKey(SortColumn(q), row, next)
    ensures Beyond(r, next)
  {
    RemainingIs(e, d, ws, q, table);
    var last := Remaining(d, ws, q, table)[q.limit - 1];
    RowOkIsKeyed(e, last, SortColumn(q));
    RowOkIsKeyed(e, row, SortColumn(q));
    BeyondLast(q, r, last, row);
    SameBeyond(r, row, next);
  }

  lemma StableAt(e: Entity, d: Dialect, ws: string, qs: seq<Query>, listed: seq<Table>, rows: seq<Row>, k: nat, m: nat)
    requires Paged(e, d, ws, qs, listed) && Stable(d, ws, qs, listed, rows) && k < |qs| && m < |qs|
    ensures rows[k] in listed[k] && RowOk(e, rows[k]) && Selected(d, ws, qs[k], rows[k])
    ensures SameKey(SortColumn(qs[0]), rows[k], rows[m])
    ensures SortColumn(qs[k]) == SortColumn(qs[0]) && SortDesc(qs[k]) == SortDesc(qs[0])
  {
    MemberOk(e, listed[k], rows[k]);
    PagedSelects(e, d, ws, qs, listed, k, rows[k]);
    PagedSort(e, d, ws, qs, listed, k);
    assert SameKey(SortColumn(qs[0]), rows[0], rows[k]) && SameKey(SortColumn(qs[0]), rows[0], rows[m]);
  }

  /** A stable row that is beyond the cursor of page k is on that page or beyond the next
      cursor. */
  lemma ShownOrNext(e: Entity, d: Dialect, ws: string, qs: seq<Query>, listed: seq<Table>, rows: seq<Row>, k: nat)
    returns (j: nat)
    requires Paged(e, d, ws, qs, listed) && Stable(d, ws, qs, listed, rows) && k < |qs| && Beyond(qs[k], rows[k])
    ensures !OnPage(d, ws, qs[k], listed[k], rows[k], j) ==>
              !Finished(d, ws, qs[k], listed[k]) && (k + 1 < |qs| ==> Beyond(qs[k + 1], rows[k + 1]))
  {
    StableAt(e, d, ws, qs, listed, rows, k, k);
    j := OnPageOrAfter(e, d, ws, qs[k], listed[k], rows[k]);
    if !OnPage(d, ws, qs[k], listed[k], rows[k], j) && k + 1 < |qs| {
      assert Advances(d, ws, qs[k], qs[k + 1], listed[k]);
      StableAt(e, d, ws, qs, listed, rows, k, k + 1);
      AfterPage(e, d, ws, qs[k], qs[k + 1], listed[k], rows[k], rows[k + 1]);
    }
  }

  /** From page k on, a stable row that is still beyond the cursor is on some page. */
  lemma ShownLater(e: Entity, d: Dialect, ws: string, qs: seq<Query>, listed: seq<Table>, rows: seq<Row>, k: nat)
    returns (page: nat, j: nat)
    requires Paged(e, d, ws, qs, listed) && Stable(d, ws, qs, listed, rows)
    requires Finished(d, ws, qs[|qs| - 1], listed[|qs| - 1])
    requires k < |qs| && Beyond(qs[k], rows[k])
    ensures k <= page < |qs| && OnPage(d, ws, qs[page], listed[page], rows[page], j)
    decreases |qs| - k
  {
    page := k;
    j := ShownOrNext(e, d, ws, qs, listed, rows, k);
    if !OnPage(d, ws, qs[k], listed[k], rows[k], j) {
      page, j := ShownLater(e, d, ws, qs, listed, rows, k + 1);
    }
  }

  /** A row beyond a later cursor is beyond every earlier one. */
  lemma {:induction false} BeyondEarlier(e: Entity, d: Dialect, ws: string, qs: seq<Query>, listed: seq<Table>, k: nat,
                                         m: nat, row: Row)
    requires Paged(e, d, ws, qs, listed) && k <= m < |qs| && RowOk(e, row) && Beyond(qs[m], row)
    ensures Beyond(qs[k], row)
    decreases m - k
  {
    if k < m {
      assert Advances(d, ws, qs[m - 1], qs[m - 1 + 1], listed[m - 1]);
      CursorsAdvance(e, d, ws, qs[m - 1], qs[m], listed[m - 1]);
      BeyondEarlier(e, d, ws, qs, listed, k, m - 1, row);
    }
  }

  /** What a page shows is in the table and beyond its cursor, but not beyond the next one. */
  lemma PageIsBetween(e: Entity, d: Dialect, ws: string, q: Query, table: Table, j: nat)
    requires Asks(e, q) && TableOk(e, table) && j < |PageOf(d, ws, q, table)|
    ensures var row := PageOf(d, ws, q, table)[j]; RowOk(e, row) && row in table && Beyond(q, row)
  {
    RemainingIs(e, d, ws, q, table);
    var rows := Remaining(d, ws, q, table);
    assert PageOf(d, ws, q, table)[j] == rows[j] && rows[j] in rows;
  }

  lemma NotPreceded(column: string, desc: bool, rows: seq<Row>, j: nat, p: nat)
    requires Sorted(column, desc, rows) && AllKeyed(column, rows) && j <= p < |rows|
    ensures !Precedes(column, desc, rows[p], rows[j])
  {
    PrecedesOrder(column, desc, rows[j], rows[p], rows[j]);
    assert j < p ==> Precedes(column, desc, rows[j], rows[p]);
  }

  lemma PageIsBefore(e: Entity, d: Dialect, ws: string, q: Query, r: Query, table: Table, j: nat)
    requires Asks(e, q) && Asks(e, r) && TableOk(e, table) && j < |PageOf(d, ws, q, table)|
        && Advances(d, ws, q, r, table)
    ensures !Beyond(r, PageOf(d, ws, q, table)[j])
  {
    RemainingSorted(e, d, ws, q, table);
    var rows := Remaining(d, ws, q, table);
    BeyondLast(q, r, rows[q.limit - 1], rows[j]);
    NotPreceded(SortColumn(q), SortDesc(q), rows, j, q.limit - 1);
  }

  /** No page shows an id twice. */
  lemma PageShowsOnce(e: Entity, d: Dialect, ws: string, q: Query, table: Table, i: nat, j: nat)
    requires Asks(e, q) && TableOk(e, table) && i < |PageOf(d, ws, q, table)| && j < |PageOf(d, ws, q, table)|
    requires Cell(PageOf(d, ws, q, table)[i], ID) == Cell(PageOf(d, ws, q, table)[j], ID)
    ensures i == j
  {
    RemainingIs(e, d, ws, q, table);
    var rows := Remaining(d, ws, q, table);
    assert rows[i] in rows && rows[j] in rows;
    SameRow(e, table, rows[i], rows[j]);
    SortedDistinct(SortColumn(q), SortDesc(q), rows);
  }

  lemma SortedDistinct(column: string, desc: bool, rows: seq<Row>)
    requires Sorted(column, desc, rows) && AllKeyed(column, rows)
    ensures forall i, j :: 0 <= i < j < |rows| ==> rows[i] != rows[j]
  {
    forall i, j | 0 <= i < j < |rows|
      ensures rows[i] != rows[j]
    {
      PrecedesOrder(column, desc, rows[i], rows[i], rows[i]);
    }
  }

  lemma SameRow(e: Entity, table: Table, a: Row, b: Row)
    requires TableOk(e, table) && a in table && b in table && Cell(a, ID) == Cell(b, ID)
    ensures a == b
  {
  }

  /** No two pages show the same stable row. */
  lemma PagesShowOnce(e: Entity, d: Dialect, ws: string, qs: seq<Query>, listed: seq<Table>, rows: seq<Row>, k: nat,
                      j: nat, m: nat, i: nat)
    requires Paged(e, d, ws, qs, listed) && Stable(d, ws, qs, listed, rows) && k < m < |qs|
    requires j < |PageOf(d, ws, qs[k], listed[k])| && Cell(PageOf(d, ws, qs[k], listed[k])[j], ID) == Cell(rows[0], ID)
    ensures i < |PageOf(d, ws, qs[m], listed[m])| ==> Cell(PageOf(d, ws, qs[m], listed[m])[i], ID) != Cell(rows[0], ID)
  {
    StableAt(e, d, ws, qs, listed, rows, k, 0);
    StableAt(e, d, ws, qs, listed, rows, m, k);
    PageIsBetween(e, d, ws, qs[k], listed[k], j);
    SameRow(e, listed[k], PageOf(d, ws, qs[k], listed[k])[j], rows[k]);
    assert Advances(d, ws, qs[k], qs[k + 1], listed[k]);
    PageIsBefore(e, d, ws, qs[k], qs[k + 1], listed[k], j);
    if i < |PageOf(d, ws, qs[m], listed[m])| && Cell(PageOf(d, ws, qs[m], listed[m])[i], ID) == Cell(rows[0], ID) {
      StableAt(e, d, ws, qs, listed, rows, m, 0);
      PageIsBetween(e, d, ws, qs[m], listed[m], i);
      SameRow(e, listed[m], PageOf(d, ws, qs[m], listed[m])[i], rows[m]);
      BeyondEarlier(e, d, ws, qs, listed, k + 1, m, rows[m]);
      PagedSort(e, d, ws, qs, listed, k + 1);
      SameBeyond(qs[k + 1], rows[k], rows[m]);
    }
  }

  predicate ShownAt(answers: seq<Answer>, id: Value, k: nat, j: nat) {
    k < |answers| && j < |answers[k].items| && Cell(answers[k].items[j], ID) == id
  }

  lemma AnswersArePages(e: Entity, d: Dialect, ws: string, qs: seq<Query>, listed: seq<Table>, counted: seq<Table>,
                        answers: seq<Answer>, k: nat)
    requires Walk(e, d, ws, qs, listed, counted, answers) && k < |qs|
    ensures answers[k].items == PageOf(d, ws, qs[k], listed[k])
    ensures answers[k].next == "" <==> Finished(d, ws, qs[k], listed[k])
  {
    PageIs(e, d, ws, qs[k], listed[k], counted[k]);
  }

  lemma ShownOnlyThere(e: Entity, d: Dialect, ws: string, qs: seq<Query>, listed: seq<Table>, counted: seq<Table>,
                       answers: seq<Answer>,
                       rows: seq<Row>, k: nat, j: nat, m: nat, i: nat)
    requires Walk(e, d, ws, qs, listed, counted, answers) && Paged(e, d, ws, qs, listed)
        && Stable(d, ws, qs, listed, rows)
    requires ShownAt(answers, Cell(rows[0], ID), k, j) && ShownAt(answers, Cell(rows[0], ID), m, i)
    ensures m == k && i == j
  {
    AnswersArePages(e, d, ws, qs, listed, counted, answers, k);
    AnswersArePages(e, d, ws, qs, listed, counted, answers, m);
    if m < k {
      PagesShowOnce(e, d, ws, qs, listed, rows, m, i, k, j);
    } else if k < m {
      PagesShowOnce(e, d, ws, qs, listed, rows, k, j, m, i);
    } else {
      PageShowsOnce(e, d, ws, qs[k], listed[k], i, j);
    }
  }

  ghost predicate ShownOnlyAt(answers: seq<Answer>, id: Value, k: nat, j: nat) {
    forall m: nat, i: nat :: ShownAt(answers, id, m, i) ==> m == k && i == j
  }

  lemma OnPageIsShown(e: Entity, d: Dialect, ws: string, qs: seq<Query>, listed: seq<Table>, counted: seq<Table>,
                      answers: seq<Answer>,
                      row: Row, k: nat, j: nat)
    requires Walk(e, d, ws, qs, listed, counted, answers) && k < |qs| && OnPage(d, ws, qs[k], listed[k], row, j)
    ensures ShownAt(answers, Cell(row, ID), k, j) && answers[k].items[j] == row
  {
    AnswersArePages(e, d, ws, qs, listed, counted, answers, k);
  }

  lemma StableRowShown(e: Entity, d: Dialect, ws: string, qs: seq<Query>, listed: seq<Table>, counted: seq<Table>,
                       answers: seq<Answer>, rows: seq<Row>) returns (page: nat, j: nat)
    requires Walk(e, d, ws, qs, listed, counted, answers) && answers[|answers| - 1].next == ""
    requires Paged(e, d, ws, qs, listed) && Stable(d, ws, qs, listed, rows)
    ensures ShownAt(answers, Cell(rows[0], ID), page, j) && answers[page].items[j] == rows[page]
  {
    AnswersArePages(e, d, ws, qs, listed, counted, answers, |answers| - 1);
    page, j := ShownLater(e, d, ws, qs, listed, rows, 0);
    OnPageIsShown(e, d, ws, qs, listed, counted, answers, rows[page], page, j);
    StableAt(e, d, ws, qs, listed, rows, page, 0);
  }

  /** While other rows come, go and move between requests, a walk that ends with an empty
      cursor shows every record that keeps matching under the same sort key, exactly once. */
  lemma StableRowShownExactlyOnce(e: Entity, d: Dialect, ws: string, qs: seq<Query>, listed: seq<Table>,
                                  counted: seq<Table>,
                                  answers: seq<Answer>, rows: seq<Row>) returns (page: nat, j: nat)
    requires Walk(e, d, ws, qs, listed, counted, answers) && answers[|answers| - 1].next == ""
    requires Stable(d, ws, qs, listed, rows)
    ensures page < |answers| && j < |answers[page].items| && answers[page].items[j] == rows[page]
    ensures ShownOnlyAt(answers, Cell(rows[0], ID), page, j)
  {
    WalkIsPaged(e, d, ws, qs, listed, counted, answers);
    page, j := StableRowShown(e, d, ws, qs, listed, counted, answers, rows);
    forall m: nat, i: nat | ShownAt(answers, Cell(rows[0], ID), m, i)
      ensures m == page && i == j
    {
      ShownOnlyThere(e, d, ws, qs, listed, counted, answers, rows, page, j, m, i);
    }
  }
}
