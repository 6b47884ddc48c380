/** From request parameters to a list query: internal/server/query.go. The parameters are a map
    whose iteration order is arbitrary; the order of one iteration is an argument here. RFC 3339
    timestamps are read by a parameter. */
module QueryParams {
  import opened Cursors
  import Decimal
  import opened Dialects
  import opened ListMeaning
  import opened ListSql
  import opened Options
  import opened SqlSelect
  import opened SqlValues
  import opened Texts

  datatype ColKind = ColText | ColInt | ColTime

  datatype ColSpec = ColSpec(column: string, kind: ColKind)

  /** queryConfig: the whitelist of one kind of record. */
  datatype Config = Config(
    filter: map<string, ColSpec>,
    sortBy: map<string, ColSpec>,
    search: seq<string>,
    defSort: string,
    tags: bool,
    custom: bool,
    behalf: Option<Predicate>)

  datatype QueryError = InvalidCursor | InvalidSort | InvalidFilter | InvalidValue | InvalidOp

  datatype Result<+T> = Ok(value: T) | Err(error: QueryError)

  /** A result list after values already found. */
  function Following<T>(done: seq<T>, rest: Result<seq<T>>): Result<seq<T>> {
    match rest
    case Err(e) => Err(e)
    case Ok(vs) => Ok(done + vs)
  }

  lemma FollowingTwice<T>(a: seq<T>, b: seq<T>, rest: Result<seq<T>>)
    ensures Following(a, Following(b, rest)) == Following(a + b, rest)
    ensures Following([], rest) == rest
  {
    if rest.Ok? {
      assert a + (b + rest.value) == a + b + rest.value;
      assert [] + rest.value == rest.value;
    }
  }

  type Params = map<string, seq<string>>

  /** time.Parse(time.RFC3339, ...), in unix seconds. */
  type TimeParser = string -> Option<int>

  // ---- Strings -------------------------------------------------------------------------

  function TrimSpace(s: string): string {
    Trim(IsSpace, s)
  }

  predicate HasPrefix(s: string, prefix: string) {
    prefix <= s
  }

  /** url.Values.Get: the first value, or none. */
  function Get(params: Params, key: string): string {
    if key in params && params[key] != [] then params[key][0] else ""
  }

  // ---- One filter ----------------------------------------------------------------------

  function SqlOp(op: string): Option<string> {
    match op
    case "eq" => Some("=")
    case "ne" => Some("!=")
    case "gt" => Some(">")
    case "gte" => Some(">=")
    case "lt" => Some("<")
    case "lte" => Some("<=")
    case "like" => Some(LIKE)
    case "in" => Some(IN)
    case "is" => Some(IS_NULL)
    case "not" => Some(IS_NOT_NULL)
    case _ => None
  }

  function Coerce(times: TimeParser, spec: ColSpec, val: string): Result<Value> {
    match spec.kind
    case ColText => Ok(Text(val))
    case ColInt =>
      var (n, ok) := Decimal.ParseInt(val);
      if ok then Ok(Int(n)) else Err(InvalidValue)
    case ColTime =>
      match times(val)
      case None => Err(InvalidValue)
      case Some(t) => Ok(Int(t))
  }

  function CoerceAll(times: TimeParser, spec: ColSpec, parts: seq<string>): Result<seq<Value>> {
    if parts == [] then Ok([])
    else
      match Coerce(times, spec, TrimSpace(parts[0]))
      case Err(e) => Err(e)
      case Ok(v) => Following([v], CoerceAll(times, spec, parts[1..]))
  }

  /** A value may start with an operator and a colon; anything else before a colon is part of
      the value. */
  function Operator(raw: string): (string, string) {
    var i := IndexOf(raw, ':');
    if i >= 0 && SqlOp(raw[..i]).Some? then (raw[..i], raw[i + 1..]) else ("eq", raw)
  }

  function ColumnFilter(spec: ColSpec, op: string): Filter {
    Filter(spec.column, op, Null, [], "", None)
  }

  function FilterOf(times: TimeParser, spec: ColSpec, raw: string): Result<Filter> {
    var (op, val) := Operator(raw);
    FilterWith(times, spec, op, val)
  }

  function FilterWith(times: TimeParser, spec: ColSpec, op: string, val: string): Result<Filter> {
    if op == "is" || op == "not" then
      if Lower(val) != "null" then Err(InvalidValue)
      else Ok(ColumnFilter(spec, if op == "is" then IS_NULL else IS_NOT_NULL))
    else if op == "in" then
      match CoerceAll(times, spec, Split(val, ','))
      case Err(e) => Err(e)
      case Ok(values) => Ok(ColumnFilter(spec, IN).(values := values))
    else if op == "like" then
      if spec.kind != ColText then Err(InvalidOp)
      else Ok(ColumnFilter(spec, LIKE).(value := Pattern(val)))
    else
      match Coerce(times, spec, val)
      case Err(e) => Err(e)
      case Ok(v) => Ok(ColumnFilter(spec, if SqlOp(op).Some? then SqlOp(op).value else "").(value := v))
  }

  /** buildFilter. */
  method BuildFilter(times: TimeParser, spec: ColSpec, raw: string) returns (r: Result<Filter>)
    ensures r == FilterOf(times, spec, raw)
  {
    var op, val := "eq", raw;
    var i := IndexOf(raw, ':');
    if i >= 0 {
      if SqlOp(raw[..i]).Some? {
        op, val := raw[..i], raw[i + 1..];
      }
    }
    if op == "is" || op == "not" {
      if Lower(val) != "null" {
        return Err(InvalidValue);
      }
      return Ok(ColumnFilter(spec, if op == "is" then IS_NULL else IS_NOT_NULL));
    }
    if op == "in" {
      var parts := Split(val, ',');
      var values: seq<Value> := [];
      FollowingTwice([], [], CoerceAll(times, spec, parts));
      for k := 0 to |parts|
        invariant CoerceAll(times, spec, parts) == Following(values, CoerceAll(times, spec, parts[k..]))
      {
        assert parts[k..][1..] == parts[k + 1..];
        var v := Coerce(times, spec, TrimSpace(parts[k]));
        if v.Err? {
          return Err(v.error);
        }
        FollowingTwice(values, [v.value], CoerceAll(times, spec, parts[k + 1..]));
        values := values + [v.value];
      }
      assert values + [] == values;
      return Ok(ColumnFilter(spec, IN).(values := values));
    }
    if op == "like" {
      if spec.kind != ColText {
        return Err(InvalidOp);
      }
      return Ok(ColumnFilter(spec, LIKE).(value := Text([MANY] + val + [MANY])));
    }
    var v := Coerce(times, spec, val);
    if v.Err? {
      return Err(v.error);
    }
    r := Ok(ColumnFilter(spec, if SqlOp(op).Some? then SqlOp(op).value else "").(value := v.value));
  }

  /** buildCustomFilter. */
  function CustomFilter(key: string, raw: string): Filter {
    if HasPrefix(raw, "like:") then Filter(CUSTOM, LIKE, Pattern(raw[5..]), [], key, None)
    else if HasPrefix(raw, "eq:") then Filter(CUSTOM, "=", Text(raw[3..]), [], key, None)
    else Filter(CUSTOM, "=", Text(raw), [], key, None)
  }

  const TAGS := "tags"

  function TagFilter(tag: string): Filter {
    Filter(TAGS, LIKE, Text([MANY, '"'] + tag + ['"', MANY]), [], "", None)
  }

  predicate IsKeyChar(c: char) {
    'A' <= c <= 'Z' || 'a' <= c <= 'z' || '0' <= c <= '9' || c == '_'
  }

  predicate IsCustomKey(key: string) {
    1 <= |key| <= 64 && forall c :: c in key ==> IsKeyChar(c)
  }

  const RESERVED := {"sort", "limit", "cursor", "search", "format", TAGS}
  const CUSTOM_PREFIX := "custom."
  const ON_BEHALF_OF := "on_behalf_of"

  predicate IsField(params: Params, field: string) {
    field in params && field !in RESERVED && params[field] != []
  }

  /** The filter one parameter stands for. */
  function FieldFilter(times: TimeParser, cfg: Config, field: string, raw: string): Result<Filter> {
    if HasPrefix(field, CUSTOM_PREFIX) then
      if !cfg.custom || !IsCustomKey(field[|CUSTOM_PREFIX|..]) then Err(InvalidFilter)
      else Ok(CustomFilter(field[|CUSTOM_PREFIX|..], raw))
    else if field == ON_BEHALF_OF then
      if cfg.behalf.None? then Err(InvalidFilter)
      else if TrimSpace(raw) == "" then Err(InvalidValue)
      else Ok(Filter("", "", Text(TrimSpace(raw)), [], "", cfg.behalf))
    else if field !in cfg.filter then Err(InvalidFilter)
    else FilterOf(times, cfg.filter[field], raw)
  }

  // ---- The whole query -----------------------------------------------------------------

  function Tag(part: string): seq<Filter> {
    if TrimSpace(part) == "" then [] else [TagFilter(TrimSpace(part))]
  }

  function TagsOf(parts: seq<string>): seq<Filter> {
    if parts == [] then [] else Tag(parts[0]) + TagsOf(parts[1..])
  }

  function TagFilters(raws: seq<string>): seq<Filter> {
    if raws == [] then [] else TagsOf(Split(raws[0], ',')) + TagFilters(raws[1..])
  }

  function FieldFilters(times: TimeParser, cfg: Config, params: Params, order: seq<string>): Result<seq<Filter>> {
    if order == [] then Ok([])
    else if !IsField(params, order[0]) then FieldFilters(times, cfg, params, order[1..])
    else
      match FieldFilter(times, cfg, order[0], params[order[0]][0])
      case Err(e) => Err(e)
      case Ok(f) => Following([f], FieldFilters(times, cfg, params, order[1..]))
  }

  function Limit(raw: string): int {
    var (n, ok) := Decimal.ParseInt(raw);
    var limit := if ok then n else 50;
    if limit < 1 then 1 else if limit > 200 then 200 else limit
  }

  predicate Sortable(cfg: Config, column: string) {
    exists name :: name in cfg.sortBy && cfg.sortBy[name].column == column
  }

  function DefaultSort(cfg: Config): string {
    if cfg.defSort in cfg.sortBy then cfg.sortBy[cfg.defSort].column else ""
  }

  datatype Sort = Sort(column: string, desc: bool, numeric: bool)

  function SortOf(cfg: Config, raw: string): Result<Sort> {
    var name := TrimSpace(raw);
    if name == "" then Ok(Sort(DefaultSort(cfg), true, true))
    else
      var desc := name[0] == '-';
      var field := if desc then name[1..] else name;
      if field !in cfg.sortBy then Err(InvalidSort)
      else Ok(Sort(cfg.sortBy[field].column, desc, cfg.sortBy[field].kind != ColText))
  }

  function Started(cfg: Config, params: Params): Result<Query> {
    var blank := Query([], TrimSpace(Get(params, "search")), cfg.search, "", false, false, Limit(Get(params, "limit")),
        None);
    match DecodeCursor(Get(params, "cursor"))
    case Bad => Err(InvalidCursor)
    case Good(c) => if Sortable(cfg, c.col) then Ok(blank.(cursor := Some(c))) else Err(InvalidCursor)
    case Absent =>
      match SortOf(cfg, Get(params, "sort"))
      case Err(e) => Err(e)
      case Ok(s) => Ok(blank.(sortColumn := s.column, sortDesc := s.desc, sortNumeric := s.numeric))
  }

  function TagParams(cfg: Config, params: Params): seq<Filter> {
    if cfg.tags && TAGS in params then TagFilters(params[TAGS]) else []
  }

  function ParsedQuery(times: TimeParser, cfg: Config, params: Params, order: seq<string>): Result<Query> {
    match Started(cfg, params)
    case Err(e) => Err(e)
    case Ok(q) =>
      match FieldFilters(times, cfg, params, order)
      case Err(e) => Err(e)
      case Ok(fs) => Ok(q.(filters := TagParams(cfg, params) + fs))
  }

  lemma TagsCons(part: string, parts: seq<string>)
    ensures TagsOf([part] + parts) == Tag(part) + TagsOf(parts)
  {
    assert ([part] + parts)[1..] == parts;
  }

  lemma {:induction false} TagsSnoc(parts: seq<string>, part: string)
    ensures TagsOf(parts + [part]) == TagsOf(parts) + Tag(part)
  {
    if parts == [] {
      assert [] + [part] == [part] + [];
      TagsCons(part, []);
      assert [] + Tag(part) == Tag(part) + [];
    } else {
      var head, tail := parts[0], parts[1..];
      assert parts == [head] + tail && parts + [part] == [head] + (tail + [part]);
      TagsCons(head, tail);
      TagsCons(head, tail + [part]);
      TagsSnoc(tail, part);
      assert (Tag(head) + TagsOf(tail)) + Tag(part) == Tag(head) + (TagsOf(tail) + Tag(part));
    }
  }

  lemma {:induction false} TagFiltersSnoc(raws: seq<string>, raw: string)
    ensures TagFilters(raws + [raw]) == TagFilters(raws) + TagsOf(Split(raw, ','))
  {
    if raws == [] {
      assert raws + [raw] == [raw] && [raw][1..] == [];
    } else {
      assert (raws + [raw])[1..] == raws[1..] + [raw];
      TagFiltersSnoc(raws[1..], raw);
    }
  }

  /** The tags of one parameter value. */
  method ParseTagList(raw: string) returns (filters: seq<Filter>)
    ensures filters == TagsOf(Split(raw, ','))
  {
    filters := [];
    var parts := Split(raw, ',');
    for k := 0 to |parts|
      invariant filters == TagsOf(parts[..k])
    {
      assert parts[..k + 1] == parts[..k] + [parts[k]];
      TagsSnoc(parts[..k], parts[k]);
      var tag := TrimSpace(parts[k]);
      if tag != "" {
        filters := filters + [Filter(TAGS, LIKE, Text([MANY, '"'] + tag + ['"', MANY]), [], "", None)];
      }
    }
    assert parts[..|parts|] == parts;
  }

  /** The tag loop of parseListQuery. */
  method ParseTags(raws: seq<string>) returns (filters: seq<Filter>)
    ensures filters == TagFilters(raws)
  {
    filters := [];
    for i := 0 to |raws|
      invariant filters == TagFilters(raws[..i])
    {
      var more := ParseTagList(raws[i]);
      filters := filters + more;
      assert raws[..i + 1] == raws[..i] + [raws[i]];
      TagFiltersSnoc(raws[..i], raws[i]);
    }
    assert raws[..|raws|] == raws;
  }

  /** parseListQuery, its loop over the parameters running in the given order. */
  method ParseListQuery(times: TimeParser, cfg: Config, params: Params, order: seq<string>) returns (r: Result<Query>)
    ensures r == ParsedQuery(times, cfg, params, order)
  {
    var started := Started(cfg, params);
    if started.Err? {
      return Err(started.error);
    }
    var q := started.value;
    var filters: seq<Filter> := [];
    if cfg.tags && TAGS in params {
      filters := ParseTags(params[TAGS]);
    }
    ghost var tags := filters;
    ghost var own: seq<Filter> := [];
    FollowingTwice([], [], FieldFilters(times, cfg, params, order));
    for i := 0 to |order|
      invariant filters == tags + own
      invariant FieldFilters(times, cfg, params, order) == Following(own, FieldFilters(times, cfg, params, order[i..]))
    {
      var field := order[i];
      assert order[i..][1..] == order[i + 1..];
      if IsField(params, field) {
        var f := FieldFilter(times, cfg, field, params[field][0]);
        if f.Err? {
          return Err(f.error);
        }
        FollowingTwice(own, [f.value], FieldFilters(times, cfg, params, order[i + 1..]));
        Reassociate(tags, own, [f.value]);
        own := own + [f.value];
        filters := filters + [f.value];
      }
    }
    assert own + [] == own;
    r := Ok(q.(filters := filters));
  }

  // ---- Parsed queries are fit to run ---------------------------------------------------

  /** What the whitelists must be like: no placeholder mark in any text that ends up in a
      statement, and a default sort that exists. */
  predicate ConfigOk(cfg: Config) {
    && (forall name :: name in cfg.filter ==> ColumnOk(cfg.filter[name].column))
    && (forall name :: name in cfg.sortBy ==> ColumnOk(cfg.sortBy[name].column))
    && (forall c :: c in cfg.search ==> ColumnOk(c))
    && cfg.defSort in cfg.sortBy
    && (cfg.behalf.Some? ==> MARK !in cfg.behalf.value.head && MARK !in cfg.behalf.value.tail)
  }

  /** A filter the store can turn into SQL, and does not drop. */
  predicate Fit(f: Filter) {
    FilterOk(f) && !Dropped(f)
  }

  lemma {:induction false} CoerceAllCount(times: TimeParser, spec: ColSpec, parts: seq<string>)
    ensures CoerceAll(times, spec, parts).Ok? ==> |CoerceAll(times, spec, parts).value| == |parts|
  {
    if parts != [] && Coerce(times, spec, TrimSpace(parts[0])).Ok? {
      CoerceAllCount(times, spec, parts[1..]);
    }
  }

  lemma FilterOfFits(times: TimeParser, spec: ColSpec, raw: string)
    requires ColumnOk(spec.column)
    ensures FilterOf(times, spec, raw).Ok? ==> Fit(FilterOf(times, spec, raw).value)
  {
    var (op, val) := Operator(raw);
    CoerceAllCount(times, spec, Split(val, ','));
  }

  lemma FieldFilterFits(times: TimeParser, cfg: Config, field: string, raw: string)
    requires ConfigOk(cfg)
    ensures FieldFilter(times, cfg, field, raw).Ok? ==> Fit(FieldFilter(times, cfg, field, raw).value)
  {
    if HasPrefix(field, CUSTOM_PREFIX) {
      assert ColumnOk(CUSTOM);
    } else if field in cfg.filter {
      FilterOfFits(times, cfg.filter[field], raw);
    }
  }

  lemma {:induction false} FieldFiltersFit(times: TimeParser, cfg: Config, params: Params, order: seq<string>)
    requires ConfigOk(cfg) && FieldFilters(times, cfg, params, order).Ok?
    ensures forall f :: f in FieldFilters(times, cfg, params, order).value ==> Fit(f)
  {
    if order != [] {
      FieldFiltersFit(times, cfg, params, order[1..]);
      if IsField(params, order[0]) {
        FieldFilterFits(times, cfg, order[0], params[order[0]][0]);
      }
    }
  }

  lemma {:induction false} TagsFit(parts: seq<string>)
    ensures forall f :: f in TagsOf(parts) ==> Fit(f)
  {
    if parts != [] {
      TagsFit(parts[1..]);
      assert ColumnOk(TAGS);
    }
  }

  lemma {:induction false} TagFiltersFit(raws: seq<string>)
    ensures forall f :: f in TagFilters(raws) ==> Fit(f)
  {
    if raws != [] {
      TagsFit(Split(raws[0], ','));
      TagFiltersFit(raws[1..]);
    }
  }

  /** Every query that comes out of the request parser satisfies what the statement theorems
      ask for: all its filters are fit, its page size is between 1 and 200, and it sorts by a
      whitelisted column, also when the column comes from a cursor. */
  lemma ParsedQueryIsOk(times: TimeParser, cfg: Config, params: Params, order: seq<string>)
    requires ConfigOk(cfg) && ParsedQuery(times, cfg, params, order).Ok?
    ensures var q := ParsedQuery(times, cfg, params, order).value;
            && QueryOk(q) && (forall f :: f in q.filters ==> Fit(f))
            && 1 <= q.limit <= 200
            && Sortable(cfg, SortColumn(q))
  {
    FieldFiltersFit(times, cfg, params, order);
    if cfg.tags && TAGS in params {
      TagFiltersFit(params[TAGS]);
    }
    var q := ParsedQuery(times, cfg, params, order).value;
    if q.cursor.None? {
      var s := SortOf(cfg, Get(params, "sort")).value;
      var name := TrimSpace(Get(params, "sort"));
      var field := if name == "" then cfg.defSort else if name[0] == '-' then name[1..] else name;
      assert field in cfg.sortBy && cfg.sortBy[field].column == s.column;
    }
    var name :| name in cfg.sortBy && cfg.sortBy[name].column == SortColumn(q);
    assert ColumnOk(SortColumn(q));
  }

  // ---- The order of the parameters does not matter -------------------------------------

  /** Iterating over the parameters visits each key once, in some order. */
  predicate Enumerates(order: seq<string>, params: Params) {
    (forall field :: field in order ==> field in params) && (forall field :: field in params ==> field in order)
  }

  lemma {:induction false} FieldFiltersByField(times: TimeParser, cfg: Config, params: Params, order: seq<string>)
    ensures var r := FieldFilters(times, cfg, params, order);
            r.Ok? <==>
            forall field :: field in order && IsField(params, field) ==>
              FieldFilter(times, cfg, field, params[field][0]).Ok?
    ensures var r := FieldFilters(times, cfg, params, order);
            r.Ok? ==> forall f :: f in r.value <==>
              exists field :: field in order && IsField(params, field)
                && FieldFilter(times, cfg, field, params[field][0]) == Ok(f)
  {
    if order != [] {
      FieldFiltersByField(times, cfg, params, order[1..]);
      assert order == [order[0]] + order[1..];
    }
  }

  /** A row meets every parameter of a request. */
  predicate MeetsAll(times: TimeParser, cfg: Config, params: Params, d: Dialect, row: Row)
    requires ConfigOk(cfg)
  {
    && (forall f :: f in TagParams(cfg, params) ==> FilterOk(f) && Satisfies(d, f, row))
    && (forall field :: field in params && IsField(params, field) ==>
          var f := FieldFilter(times, cfg, field, params[field][0]);
          f.Ok? && FilterOk(f.value) && Satisfies(d, f.value, row))
  }

  /** Whatever order the parameters are visited in, the request is accepted or refused alike,
      its query differs only in the order of its filters, and the rows it selects are those of
      the workspace that meet each parameter and the search. */
  lemma ParameterOrderDoesNotMatter(times: TimeParser, cfg: Config, params: Params, order: seq<string>,
                                    other: seq<string>,
                                    d: Dialect, ws: string, row: Row)
    requires ConfigOk(cfg) && Enumerates(order, params) && Enumerates(other, params)
    ensures ParsedQuery(times, cfg, params, order).Ok? <==> ParsedQuery(times, cfg, params, other).Ok?
    ensures ParsedQuery(times, cfg, params, order).Ok? ==>
              var q, r := ParsedQuery(times, cfg, params, order).value, ParsedQuery(times, cfg, params, other).value;
              && r == q.(filters := r.filters) && (forall f :: f in q.filters <==> f in r.filters)
              && QueryOk(q)
              && (Selected(d, ws, q, row) <==>
                    && Cell(row, WORKSPACE) == Text(ws)
                    && MeetsAll(times, cfg, params, d, row)
                    && (Searches(q) ==> Finds(q.search, q.searchColumns, row)))
  {
    FieldFiltersByField(times, cfg, params, order);
    FieldFiltersByField(times, cfg, params, other);
    if ParsedQuery(times, cfg, params, order).Ok? {
      ParsedQueryIsOk(times, cfg, params, order);
      SelectedByParameters(times, cfg, params, order, d, row);
    }
  }

  lemma ParametersMet(times: TimeParser, cfg: Config, params: Params, order: seq<string>, d: Dialect, row: Row)
    requires ConfigOk(cfg) && Enumerates(order, params) && ParsedQuery(times, cfg, params, order).Ok?
    requires QueryOk(ParsedQuery(times, cfg, params, order).value)
    requires forall f :: f in ParsedQuery(times, cfg, params, order).value.filters ==> Satisfies(d, f, row)
    ensures MeetsAll(times, cfg, params, d, row)
  {
    FieldFiltersByField(times, cfg, params, order);
    var q := ParsedQuery(times, cfg, params, order).value;
    forall field | field in params && IsField(params, field)
      ensures FieldFilter(times, cfg, field, params[field][0]).Ok?
      ensures FieldFilter(times, cfg, field, params[field][0]).value in q.filters
    {
      assert field in order;
    }
  }

  lemma FiltersSatisfied(times: TimeParser, cfg: Config, params: Params, order: seq<string>, d: Dialect, row: Row,
                         f: Filter)
    requires ConfigOk(cfg) && Enumerates(order, params) && ParsedQuery(times, cfg, params, order).Ok?
    requires MeetsAll(times, cfg, params, d, row) && f in ParsedQuery(times, cfg, params, order).value.filters
    ensures FilterOk(f) && Satisfies(d, f, row)
  {
    FieldFiltersByField(times, cfg, params, order);
    if f !in TagParams(cfg, params) {
      assert f in FieldFilters(times, cfg, params, order).value;
      var field :| field in order && IsField(params, field)
          && FieldFilter(times, cfg, field, params[field][0]) == Ok(f);
    }
  }

  lemma SelectedByParameters(times: TimeParser, cfg: Config, params: Params, order: seq<string>, d: Dialect, row: Row)
    requires ConfigOk(cfg) && Enumerates(order, params) && ParsedQuery(times, cfg, params, order).Ok?
    requires QueryOk(ParsedQuery(times, cfg, params, order).value)
    ensures var q := ParsedQuery(times, cfg, params, order).value;
            (forall f :: f in q.filters ==> Satisfies(d, f, row)) <==> MeetsAll(times, cfg, params, d, row)
  {
    var q := ParsedQuery(times, cfg, params, order).value;
    if forall f :: f in q.filters ==> Satisfies(d, f, row) {
      ParametersMet(times, cfg, params, order, d, row);
    }
    if MeetsAll(times, cfg, params, d, row) {
      forall f | f in q.filters
        ensures Satisfies(d, f, row)
      {
        FiltersSatisfied(times, cfg, params, order, d, row, f);
      }
    }
  }

  // ---- The two backends ----------------------------------------------------------------

  /** A custom filter finds the same rows on both backends except where the record holds a
      number whose text equals the value asked for: PostgreSQL compares it as text, SQLite does
      not. */
  lemma CustomFilterDialects(key: string, raw: string, row: Row)
    requires IsCustomKey(key)
    ensures FilterOk(CustomFilter(key, raw))
    ensures var f := CustomFilter(key, raw);
            (Satisfies(Sqlite, f, row) <==> Satisfies(Postgres, f, row))
            <==> !(&& f.op == "=" && key in row.custom && row.custom[key].JsonInt?
                   && f.value == Text(Decimal.FormatInt(row.custom[key].n)))
  {
    assert ColumnOk(CUSTOM);
  }

  /** Filters that do not look inside JSON mean the same on both backends. */
  lemma OtherFiltersDialects(f: Filter, row: Row)
    requires FilterOk(f) && (f.expr.Some? || f.jsonKey == "")
    ensures Satisfies(Sqlite, f, row) <==> Satisfies(Postgres, f, row)
  {
  }

  /** `field=like:term` on a text field finds the rows whose field contains the term ignoring
      case, if the term has no wildcard. */
  lemma LikeParameter(times: TimeParser, spec: ColSpec, term: string, d: Dialect, row: Row)
    requires ColumnOk(spec.column) && spec.kind == ColText && Plain(term)
    ensures var f := FilterOf(times, spec, "like:" + term);
            && f.Ok? && FilterOk(f.value)
            && (Cell(row, spec.column).Text? ==> (Satisfies(d, f.value, row)
                <==> Contains(Cell(row, spec.column).s, term)))
  {
    var raw := "like:" + term;
    assert raw[0] == 'l' && raw[1] == 'i' && raw[2] == 'k' && raw[3] == 'e' && raw[4] == ':';
    FirstColon(raw);
    assert raw[..4] == "like" && raw[5..] == term;
    assert Operator(raw) == ("like", term);
    ContainsFilter(term);
  }

  lemma FirstColon(raw: string)
    requires |raw| >= 5 && raw[4] == ':' && ':' !in raw[..4]
    ensures IndexOf(raw, ':') == 4
  {
    assert raw[0] in raw[..4] && raw[1] in raw[..4] && raw[2] in raw[..4] && raw[3] in raw[..4];
    assert IndexOf(raw[4..], ':') == 0;
    assert raw[3..][1..] == raw[4..] && raw[2..][1..] == raw[3..] && raw[1..][1..] == raw[2..];
    assert IndexOf(raw[3..], ':') == 1;
    assert IndexOf(raw[2..], ':') == 2;
    assert IndexOf(raw[1..], ':') == 3;
  }
}
