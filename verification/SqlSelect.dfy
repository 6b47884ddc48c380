/** How a server reads and runs the statements of the list engine: a parser from tokens, whose
    marks the server has numbered, to conditions, and NULL-aware evaluation of the conditions on
    a row. */
module SqlSelect {
  import opened Dialects
  import opened SqlText
  import opened SqlValues

  // ---- Rows ----------------------------------------------------------------------------

  /** One value in a record's `custom` JSON object. */
  datatype Json = JsonText(s: string) | JsonInt(n: int)

  /** A predicate over related rows, with one mark between head and tail. */
  datatype Predicate = Predicate(head: string, tail: string)

  /** What a statement can see of one row: its columns and the expressions standing in for a
      column, by their text; its custom fields; and for each related-row predicate the
      lower-cased values it holds for. */
  datatype Row = Row(cells: map<string, Value>, custom: map<string, Json>, related: map<Predicate, set<string>>)

  function Cell(row: Row, column: string): Value {
    if column in row.cells then row.cells[column] else Null
  }

  const CUSTOM := "custom"

  /** PostgreSQL's ->> gives text whatever the value's type; SQLite's json_extract gives the
      value in its own type. */
  function ArrowText(row: Row, column: string, key: string): Value {
    if column != CUSTOM || key !in row.custom then Null
    else
      match row.custom[key]
      case JsonText(s) => Text(s)
      case JsonInt(n) => AsTextValue(Int(n))
  }

  function AsTextValue(v: Value): Value
    requires v != Null
  {
    Text(AsText(v))
  }

  function Extracted(row: Row, column: string, key: string): Value {
    if column != CUSTOM || key !in row.custom then Null
    else
      match row.custom[key]
      case JsonText(s) => Text(s)
      case JsonInt(n) => Int(n)
  }

  predicate HoldsFor(row: Row, p: Predicate, v: Value) {
    p in row.related && v.Text? && Lower(v.s) in row.related[p]
  }

  // ---- Syntax --------------------------------------------------------------------------

  datatype Operand = Column(name: string) | JsonExtract(column: string, path: nat) | JsonArrow(column: string, key: nat)

  datatype Test = Op(op: string, slot: nat) | IsNull | IsNotNull | In(slots: seq<nat>)

  datatype Alternative = Alternative(column: string, op: string, slot: nat)

  datatype Cond =
    | Tested(left: Operand, test: Test)
    | Exists(p: Predicate, slot: nat)
    | AnyOf(alternatives: seq<Alternative>)
    | After(column: string, op: string, value: nat, id: nat)

  datatype Select = Select(columns: string, table: string, conds: seq<Cond>,
                           column: string, direction: string, idDirection: string, limit: nat)

  datatype Parsed<T> = Fail | Parsed(value: T, next: nat)

  const PATH_ROOT := "$."

  predicate KeyAt(ts: seq<Token>, i: nat, key: Token) {
    i < |ts| && ts[i] == key
  }

  predicate LitAt(ts: seq<Token>, i: nat) {
    i < |ts| && ts[i].Lit?
  }

  predicate WordAt(ts: seq<Token>, i: nat, word: string) {
    LitAt(ts, i) && ts[i].s == word
  }

  predicate ParamAt(ts: seq<Token>, i: nat) {
    i < |ts| && ts[i].Numbered? && ts[i].n > 0
  }

  /** The argument a placeholder stands for. */
  function Slot(ts: seq<Token>, i: nat): nat
    requires ParamAt(ts, i)
  {
    ts[i].n - 1
  }

  /** Values read before those read by p. */
  function Preceded<T>(values: seq<T>, p: Parsed<seq<T>>): Parsed<seq<T>> {
    match p
    case Fail => Fail
    case Parsed(more, next) => Parsed(values + more, next)
  }

  /** Any number of further items, each after a separator. */
  function More<T>(item: nat -> Parsed<T>, ts: seq<Token>, sep: Token, i: nat): Parsed<seq<T>>
    decreases |ts| - i
  {
    if !KeyAt(ts, i, sep) then Parsed([], i)
    else
      match item(i + 1)
      case Fail => Fail
      case Parsed(value, next) => if i < next <= |ts| then Preceded([value], More(item, ts, sep, next)) else Fail
  }

  function Items<T>(item: nat -> Parsed<T>, ts: seq<Token>, sep: Token, i: nat): Parsed<seq<T>> {
    match item(i)
    case Fail => Fail
    case Parsed(value, next) => Preceded([value], More(item, ts, sep, next))
  }

  function ParseOperand(ts: seq<Token>, i: nat): Parsed<Operand> {
    if LitAt(ts, i) then Parsed(Column(ts[i].s), i + 1)
    else if LitAt(ts, i + 1) && ParamAt(ts, i + 3) && KeyAt(ts, i + 4, CloseKey) then
      if KeyAt(ts, i, ExtractKey) && KeyAt(ts, i + 2, GapKey)
          then Parsed(JsonExtract(ts[i + 1].s, Slot(ts, i + 3)), i + 5)
      else if KeyAt(ts, i, OpenKey) && KeyAt(ts, i + 2, ArrowKey)
          then Parsed(JsonArrow(ts[i + 1].s, Slot(ts, i + 3)), i + 5)
      else Fail
    else Fail
  }

  function SlotParser(ts: seq<Token>): nat -> Parsed<nat> {
    (i: nat) => if ParamAt(ts, i) then Parsed(Slot(ts, i), i + 1) else Fail
  }

  function ParseTest(ts: seq<Token>, i: nat): Parsed<Test> {
    if KeyAt(ts, i, InKey) then
      match Items(SlotParser(ts), ts, CommaKey, i + 1)
      case Fail => Fail
      case Parsed(slots, next) => if KeyAt(ts, next, CloseKey) then Parsed(In(slots), next + 1) else Fail
    else if !(KeyAt(ts, i, SpaceKey) && LitAt(ts, i + 1)) then Fail
    else if WordAt(ts, i + 1, "IS NULL") then Parsed(IsNull, i + 2)
    else if WordAt(ts, i + 1, "IS NOT NULL") then Parsed(IsNotNull, i + 2)
    else if KeyAt(ts, i + 2, SpaceKey) && ParamAt(ts, i + 3) then Parsed(Op(ts[i + 1].s, Slot(ts, i + 3)), i + 4)
    else Fail
  }

  function ParseAlternative(ts: seq<Token>, i: nat): Parsed<Alternative> {
    if LitAt(ts, i) && KeyAt(ts, i + 1, SpaceKey) && LitAt(ts, i + 2) && KeyAt(ts, i + 3, SpaceKey)
        && ParamAt(ts, i + 4) then
      Parsed(Alternative(ts[i].s, ts[i + 2].s, Slot(ts, i + 4)), i + 5)
    else Fail
  }

  function AlternativeParser(ts: seq<Token>): nat -> Parsed<Alternative> {
    (i: nat) => ParseAlternative(ts, i)
  }

  function ParseAfter(ts: seq<Token>, i: nat): Parsed<Cond> {
    if LitAt(ts, i + 1) && LitAt(ts, i + 3) && KeyAt(ts, i + 4, PairKey) && ParamAt(ts, i + 5)
        && KeyAt(ts, i + 6, GapKey)
       && ParamAt(ts, i + 7) && KeyAt(ts, i + 8, CloseKey) then
      Parsed(After(ts[i + 1].s, ts[i + 3].s, Slot(ts, i + 5), Slot(ts, i + 7)), i + 9)
    else Fail
  }

  function ParseAny(ts: seq<Token>, i: nat): Parsed<Cond> {
    match Items(AlternativeParser(ts), ts, OrKey, i + 1)
    case Fail => Fail
    case Parsed(alternatives, next) => if KeyAt(ts, next, CloseKey) then Parsed(AnyOf(alternatives), next + 1) else Fail
  }

  function ParseTested(ts: seq<Token>, i: nat): Parsed<Cond> {
    match ParseOperand(ts, i)
    case Fail => Fail
    case Parsed(left, middle) =>
      match ParseTest(ts, middle)
      case Fail => Fail
      case Parsed(test, next) => Parsed(Tested(left, test), next)
  }

  function ParseCond(ts: seq<Token>, i: nat): Parsed<Cond> {
    if LitAt(ts, i) && ParamAt(ts, i + 1) && LitAt(ts, i + 2) then
      Parsed(Exists(Predicate(ts[i].s, ts[i + 2].s), Slot(ts, i + 1)), i + 3)
    else if KeyAt(ts, i, OpenKey) && KeyAt(ts, i + 2, RowKey) then ParseAfter(ts, i)
    else if KeyAt(ts, i, OpenKey) && !KeyAt(ts, i + 2, ArrowKey) then ParseAny(ts, i)
    else ParseTested(ts, i)
  }

  function CondParser(ts: seq<Token>): nat -> Parsed<Cond> {
    (i: nat) => ParseCond(ts, i)
  }

  /** Conditions joined by AND. */
  function ParseWhere(ts: seq<Token>, i: nat): Parsed<seq<Cond>> {
    if KeyAt(ts, i, WhereKey) then Items(CondParser(ts), ts, AndKey, i + 1) else Fail
  }

  function WhereParser(ts: seq<Token>): nat -> Parsed<seq<Cond>> {
    (i: nat) => ParseWhere(ts, i)
  }

  function SelectOf(where: nat -> Parsed<seq<Cond>>, ts: seq<Token>): Parsed<Select> {
    if !(KeyAt(ts, 0, SelectKey) && LitAt(ts, 1) && KeyAt(ts, 2, FromKey) && LitAt(ts, 3)) then Fail
    else
      match where(4)
      case Fail => Fail
      case Parsed(conds, i) =>
        if KeyAt(ts, i, OrderKey) && LitAt(ts, i + 1) && KeyAt(ts, i + 2, SpaceKey) && LitAt(ts, i + 3)
           && KeyAt(ts, i + 4, IdKey) && LitAt(ts, i + 5) && KeyAt(ts, i + 6, LimitKey) && ParamAt(ts, i + 7)
               && |ts| == i + 8 then
          Parsed(Select(ts[1].s, ts[3].s, conds, ts[i + 1].s, ts[i + 3].s, ts[i + 5].s, Slot(ts, i + 7)), i + 8)
        else Fail
  }

  function ParseSelect(ts: seq<Token>): Parsed<Select> {
    SelectOf(WhereParser(ts), ts)
  }

  /** The conditions of a COUNT over one table. */
  function ParseCount(ts: seq<Token>): Parsed<seq<Cond>> {
    if KeyAt(ts, 0, CountKey) && LitAt(ts, 1) && ParseWhere(ts, 2).Parsed? && ParseWhere(ts, 2).next == |ts|
        then ParseWhere(ts, 2) else Fail
  }

  /** An item after a separator comes before the items read after it. */
  lemma MoreStep<T>(item: nat -> Parsed<T>, ts: seq<Token>, sep: Token, i: nat, value: T, next: nat, values: seq<T>,
                    end: nat)
    requires KeyAt(ts, i, sep) && i < next <= |ts| && item(i + 1) == Parsed(value, next)
    requires More(item, ts, sep, next) == Preceded(values, More(item, ts, sep, end))
    ensures More(item, ts, sep, i) == Preceded([value] + values, More(item, ts, sep, end))
  {
    PrecededTwice([value], values, More(item, ts, sep, end));
  }

  lemma PrecededTwice<T>(a: seq<T>, b: seq<T>, p: Parsed<seq<T>>)
    ensures Preceded(a, Preceded(b, p)) == Preceded(a + b, p)
    ensures Preceded([], p) == p
  {
    if p.Parsed? {
      assert a + (b + p.value) == a + b + p.value;
      assert [] + p.value == p.value;
    }
  }

  // ---- Evaluation ----------------------------------------------------------------------

  function Arg(args: seq<Value>, slot: nat): Value {
    if slot < |args| then args[slot] else Null
  }

  function OperandValue(left: Operand, args: seq<Value>, row: Row): Value {
    match left
    case Column(name) => Cell(row, name)
    case JsonExtract(column, path) =>
      (match Arg(args, path)
       case Text(p) => if PATH_ROOT <= p then Extracted(row, column, p[|PATH_ROOT|..]) else Null
       case _ => Null)
    case JsonArrow(column, key) =>
      match Arg(args, key)
      case Text(k) => ArrowText(row, column, k)
      case _ => Null
  }

  /** The server has the operators of a condition and its way into JSON; it refuses a statement
      with any other. */
  predicate CondRuns(d: Dialect, c: Cond) {
    match c
    case Tested(left, test) =>
      && (left.JsonExtract? ==> d == Sqlite) && (left.JsonArrow? ==> d == Postgres)
      && (test.Op? ==> Understands(d, test.op))
    case Exists(_, _) => true
    case AnyOf(alternatives) =>
      forall k :: 0 <= k < |alternatives| ==> Understands(d, alternatives[k].op)
    case After(_, op, _, _) => Understands(d, op)
  }

  predicate Runs(d: Dialect, conds: seq<Cond>) {
    forall k :: 0 <= k < |conds| ==> CondRuns(d, conds[k])
  }

  function EvalIn(v: Value, slots: seq<nat>, args: seq<Value>): Truth {
    if slots == [] then False
    else Or(Equal(v, Arg(args, slots[0])), EvalIn(v, slots[1..], args))
  }

  function EvalTest(d: Dialect, v: Value, test: Test, args: seq<Value>): Truth {
    match test
    case Op(op, slot) => Compared(d, op, v, Arg(args, slot))
    case IsNull => Known(v == Null)
    case IsNotNull => Known(v != Null)
    case In(slots) => EvalIn(v, slots, args)
  }

  function EvalAny(d: Dialect, alternatives: seq<Alternative>, args: seq<Value>, row: Row): Truth {
    if alternatives == [] then False
    else
      Or(Compared(d, alternatives[0].op, Cell(row, alternatives[0].column), Arg(args, alternatives[0].slot)),
         EvalAny(d, alternatives[1..], args, row))
  }

  /** (column, id) op (value, id), compared left to right. */
  function EvalAfter(d: Dialect, op: string, cell: Value, rowId: Value, value: Value, id: Value): Truth {
    Or(Compared(d, op, cell, value), And(Equal(cell, value), Compared(d, op, rowId, id)))
  }

  function EvalCond(d: Dialect, c: Cond, args: seq<Value>, row: Row): Truth {
    match c
    case Tested(left, test) => EvalTest(d, OperandValue(left, args, row), test, args)
    case Exists(p, slot) => Known(HoldsFor(row, p, Arg(args, slot)))
    case AnyOf(alternatives) => EvalAny(d, alternatives, args, row)
    case After(column, op, value, id) => EvalAfter(d, op, Cell(row, column), Cell(row, "id"), Arg(args, value),
        Arg(args, id))
  }

  function EvalConds(d: Dialect, conds: seq<Cond>, args: seq<Value>, row: Row): Truth {
    if conds == [] then True else And(EvalCond(d, conds[0], args, row), EvalConds(d, conds[1..], args, row))
  }

  /** WHERE keeps the rows its conditions are true of, not those they are unknown for. */
  predicate Kept(d: Dialect, conds: seq<Cond>, args: seq<Value>, row: Row) {
    EvalConds(d, conds, args, row) == True
  }
}
