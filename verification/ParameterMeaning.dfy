/** What the parameters of a list request ask for, said without the parser: which values each
    operator token accepts, which rows it selects, and what page size and order a request has.
    The parser of QueryParams is proved to give exactly that. */
module ParameterMeaning {
  import opened Cursors
  import Decimal
  import opened Dialects
  import opened ListMeaning
  import opened ListSql
  import opened Options
  import opened QueryParams
  import opened SqlSelect
  import opened SqlValues
  import opened Texts

  // ---- Order ---------------------------------------------------------------------------

  /** The texts agree up to a character that is smaller in a, or a ends there. */
  predicate BelowText(a: string, b: string) {
    exists k :: 0 <= k <= |a| && k < |b| && a[..k] == b[..k] && (k == |a| || a[k] < b[k])
  }

  predicate Below(a: Value, b: Value) {
    match a
    case Null => false
    case Int(m) => b.Text? || (b.Int? && m < b.n)
    case Text(s) => b.Text? && BelowText(s, b.s)
  }

  lemma {:induction false} TextLessIs(a: string, b: string)
    ensures TextLess(a, b) <==> BelowText(a, b)
  {
    if b != [] && a == [] {
      assert a[..0] == b[..0];
    } else if b != [] && a[0] < b[0] {
      assert a[..0] == b[..0];
    } else if b != [] && a[0] == b[0] {
      TextLessIs(a[1..], b[1..]);
      if BelowText(a[1..], b[1..]) {
        var k :| 0 <= k <= |a[1..]| && k < |b[1..]| && a[1..][..k] == b[1..][..k]
          && (k == |a[1..]| || a[1..][k] < b[1..][k]);
        assert a[..k + 1] == [a[0]] + a[1..][..k] && b[..k + 1] == [b[0]] + b[1..][..k];
      }
      if BelowText(a, b) {
        var k :| 0 <= k <= |a| && k < |b| && a[..k] == b[..k] && (k == |a| || a[k] < b[k]);
        assert k > 0;
        assert a[1..][..k - 1] == a[..k][1..] && b[1..][..k - 1] == b[..k][1..];
      }
    } else if b != [] {
      assert forall k :: 0 < k <= |a| && k < |b| && a[..k] == b[..k] ==> a[..k][0] == b[..k][0];
    }
  }

  lemma LessIs(a: Value, b: Value)
    ensures Less(a, b) <==> Below(a, b)
  {
    if a.Text? && b.Text? {
      TextLessIs(a.s, b.s);
    }
  }

  // ---- One parameter -------------------------------------------------------------------

  /** The value a text stands for in a column of this kind. */
  predicate ReadsAs(times: TimeParser, kind: ColKind, text: string, v: Value) {
    match kind
    case ColText => v == Text(text)
    case ColInt => v.Int? && Decimal.ParseInt(text) == (v.n, true)
    case ColTime => v.Int? && times(text) == Some(v.n)
  }

  ghost predicate Readable(times: TimeParser, kind: ColKind, text: string) {
    exists v :: ReadsAs(times, kind, text, v)
  }

  predicate SaysNull(text: string) {
    |text| == 4 && text[0] in "nN" && text[1] in "uU" && text[2] in "lL" && text[3] in "lL"
  }

  const TOKENS := {"eq", "ne", "gt", "gte", "lt", "lte", "like", "in", "is", "not"}

  /** A parameter's value is a token, a colon and a text. Anything else is a text as a whole. */
  predicate Splits(raw: string, token: string, text: string) {
    token in TOKENS && raw == token + ":" + text
  }

  /** The texts that a token is not refused with. */
  ghost predicate Accepts(times: TimeParser, kind: ColKind, token: string, text: string) {
    match token
    case "is" => SaysNull(text)
    case "not" => SaysNull(text)
    case "like" => kind == ColText
    case "in" => forall part :: part in Split(text, ',') ==> Readable(times, kind, TrimSpace(part))
    case _ => Readable(times, kind, text)
  }

  /** The cells that a token selects: but for `is`, none that is NULL. */
  ghost predicate Selects(times: TimeParser, kind: ColKind, token: string, text: string, cell: Value) {
    if cell == Null then token == "is"
    else
      match token
      case "is" => false
      case "not" => true
      case "like" => Like(AsText(cell), "%" + text + "%")
      case "in" => exists part :: part in Split(text, ',') && ReadsAs(times, kind, TrimSpace(part), cell)
      case "ne" => !ReadsAs(times, kind, text, cell)
      case "gt" => exists v :: ReadsAs(times, kind, text, v) && Below(v, cell)
      case "gte" => exists v :: ReadsAs(times, kind, text, v) && !Below(cell, v)
      case "lt" => exists v :: ReadsAs(times, kind, text, v) && Below(cell, v)
      case "lte" => exists v :: ReadsAs(times, kind, text, v) && !Below(v, cell)
      case _ => ReadsAs(times, kind, text, cell)
  }

  /** The values that `field=raw` is not refused for. */
  ghost predicate Acceptable(times: TimeParser, kind: ColKind, raw: string) {
    && (forall token, text :: Splits(raw, token, text) ==> Accepts(times, kind, token, text))
    && ((forall token, text :: !Splits(raw, token, text)) ==> Readable(times, kind, raw))
  }

  /** The cells that `field=raw` selects. */
  ghost predicate Chooses(times: TimeParser, kind: ColKind, raw: string, cell: Value) {
    && (forall token, text :: Splits(raw, token, text) ==> Selects(times, kind, token, text, cell))
    && ((forall token, text :: !Splits(raw, token, text)) ==> ReadsAs(times, kind, raw, cell))
  }

  lemma CoerceReads(times: TimeParser, spec: ColSpec, text: string)
    ensures Coerce(times, spec, text).Ok? <==> Readable(times, spec.kind, text)
    ensures Coerce(times, spec, text).Ok? ==>
              forall v :: ReadsAs(times, spec.kind, text, v) <==> v == Coerce(times, spec, text).value
    ensures Coerce(times, spec, text).Err? ==> Coerce(times, spec, text).error == InvalidValue
  {
    if Coerce(times, spec, text).Ok? {
      assert ReadsAs(times, spec.kind, text, Coerce(times, spec, text).value);
    }
  }

  lemma {:induction false} CoerceAllReads(times: TimeParser, spec: ColSpec, parts: seq<string>)
    ensures var r := CoerceAll(times, spec, parts);
            && (r.Ok? <==> forall part :: part in parts ==> Readable(times, spec.kind, TrimSpace(part)))
            && (r.Err? ==> r.error == InvalidValue)
            && (r.Ok? ==> forall v :: v in r.value
                            <==> exists part :: part in parts && ReadsAs(times, spec.kind, TrimSpace(part), v))
  {
    if parts != [] {
      CoerceReads(times, spec, TrimSpace(parts[0]));
      CoerceAllReads(times, spec, parts[1..]);
      assert parts == [parts[0]] + parts[1..] && parts[0] in parts;
    }
  }

  lemma TokensAreKnown(token: string)
    ensures token in TOKENS <==> SqlOp(token).Some?
    ensures token in TOKENS ==> ':' !in token
  {
  }

  lemma FirstColonAfter(token: string, text: string)
    requires ':' !in token
    ensures var raw := token + ":" + text;
            IndexOf(raw, ':') == |token| && raw[..|token|] == token && raw[|token| + 1..] == text
  {
    var raw := token + ":" + text;
    FirstIndex(raw, ':');
    var i := IndexOf(raw, ':');
    assert raw[|token|] == ':' && raw[..|token|] == token && raw[|token| + 1..] == text;
    assert forall k :: 0 <= k < |token| ==> raw[k] == token[k] && token[k] in token;
    assert forall k :: 0 <= k < i ==> raw[k] in raw[..i];
    assert i == |token|;
  }

  lemma SplitIsFound(raw: string, token: string, text: string)
    requires Splits(raw, token, text)
    ensures Operator(raw) == (token, text)
  {
    TokensAreKnown(token);
    FirstColonAfter(token, text);
  }

  lemma OperatorSplits(raw: string)
    ensures var (op, val) := Operator(raw);
            Splits(raw, op, val) || ((op, val) == ("eq", raw) && forall token, text :: !Splits(raw, token, text))
  {
    var i := IndexOf(raw, ':');
    if i >= 0 {
      assert raw == raw[..i] + ":" + raw[i + 1..];
      TokensAreKnown(raw[..i]);
    }
    forall token, text | Splits(raw, token, text)
      ensures Operator(raw) == (token, text)
    {
      SplitIsFound(raw, token, text);
    }
  }

  lemma NullSaid(text: string)
    ensures Lower(text) == "null" <==> SaysNull(text)
  {
    if SaysNull(text) {
      assert Lower(text)[0] == 'n' && Lower(text)[1] == 'u' && Lower(text)[2] == 'l' && Lower(text)[3] == 'l';
    }
    if Lower(text) == "null" {
      assert Fold(text[0]) == 'n' && Fold(text[1]) == 'u' && Fold(text[2]) == 'l' && Fold(text[3]) == 'l';
    }
  }

  /** What is proved of each token. */
  ghost predicate TokenMeans(times: TimeParser, spec: ColSpec, token: string, text: string, d: Dialect, row: Row)
  {
    var r := FilterWith(times, spec, token, text);
    && (r.Ok? <==> Accepts(times, spec.kind, token, text))
    && (r.Err? ==> r.error == if token == "like" then InvalidOp else InvalidValue)
    && (r.Ok? ==> FilterOk(r.value)
                  && (Satisfies(d, r.value, row)
                      <==> Selects(times, spec.kind, token, text, Cell(row, spec.column))))
  }

  lemma NullTokens(times: TimeParser, spec: ColSpec, token: string, text: string, d: Dialect, row: Row)
    requires ColumnOk(spec.column) && token in {"is", "not", "like"}
    ensures TokenMeans(times, spec, token, text, d, row)
  {
    NullSaid(text);
  }

  lemma InToken(times: TimeParser, spec: ColSpec, text: string, d: Dialect, row: Row)
    requires ColumnOk(spec.column)
    ensures TokenMeans(times, spec, "in", text, d, row)
  {
    CoerceAllReads(times, spec, Split(text, ','));
    CoerceAllCount(times, spec, Split(text, ','));
  }

  lemma EqualTokens(times: TimeParser, spec: ColSpec, token: string, text: string, d: Dialect, row: Row)
    requires ColumnOk(spec.column) && token in {"eq", "ne"}
    ensures TokenMeans(times, spec, token, text, d, row)
  {
    CoerceReads(times, spec, text);
  }

  lemma OrderTokens(times: TimeParser, spec: ColSpec, token: string, text: string, d: Dialect, row: Row)
    requires ColumnOk(spec.column) && token in {"gt", "gte", "lt", "lte"}
    ensures TokenMeans(times, spec, token, text, d, row)
  {
    CoerceReads(times, spec, text);
    if Coerce(times, spec, text).Ok? {
      LessIs(Cell(row, spec.column), Coerce(times, spec, text).value);
      LessIs(Coerce(times, spec, text).value, Cell(row, spec.column));
    }
  }

  lemma TokenSelects(times: TimeParser, spec: ColSpec, token: string, text: string, d: Dialect, row: Row)
    requires ColumnOk(spec.column) && token in TOKENS
    ensures TokenMeans(times, spec, token, text, d, row)
  {
    if token in {"is", "not", "like"} {
      NullTokens(times, spec, token, text, d, row);
    } else if token == "in" {
      InToken(times, spec, text, d, row);
    } else if token in {"eq", "ne"} {
      EqualTokens(times, spec, token, text, d, row);
    } else {
      OrderTokens(times, spec, token, text, d, row);
    }
  }

  /** buildFilter accepts exactly the acceptable values, and its filter selects exactly the rows
      whose cell the parameter chooses. */
  lemma FilterChooses(times: TimeParser, spec: ColSpec, raw: string, d: Dialect, row: Row)
    requires ColumnOk(spec.column)
    ensures var r := FilterOf(times, spec, raw);
            && (r.Ok? <==> Acceptable(times, spec.kind, raw))
            && (r.Err? ==> r.error in {InvalidOp, InvalidValue}
                           && (r.error == InvalidOp <==> exists text :: Splits(raw, "like", text)))
            && (r.Ok? ==> FilterOk(r.value)
                          && (Satisfies(d, r.value, row)
                              <==> Chooses(times, spec.kind, raw, Cell(row, spec.column))))
  {
    var (op, val) := Operator(raw);
    OperatorSplits(raw);
    TokenSelects(times, spec, op, val, d, row);
    forall token, text | Splits(raw, token, text)
      ensures token == op && text == val
    {
      SplitIsFound(raw, token, text);
    }
  }

  // ---- All parameters ------------------------------------------------------------------

  const NOT_FIELDS := {"sort", "limit", "cursor", "search", "format", "tags"}

  /** The parameters that filter, but for the tags. */
  predicate Filters(params: Params, field: string) {
    field in params && field !in NOT_FIELDS && params[field] != []
  }

  predicate KeyFits(key: string) {
    1 <= |key| <= 64 && forall c :: c in key ==> 'A' <= c <= 'Z' || 'a' <= c <= 'z' || '0' <= c <= '9' || c == '_'
  }

  /** The parameter is not refused. */
  ghost predicate FieldAcceptable(times: TimeParser, cfg: Config, field: string, raw: string) {
    if "custom." <= field then cfg.custom && KeyFits(field[7..])
    else if field == "on_behalf_of" then cfg.behalf.Some? && TrimSpace(raw) != ""
    else field in cfg.filter && Acceptable(times, cfg.filter[field].kind, raw)
  }

  /** A custom field is compared as text, but on SQLite a number never equals a text. */
  predicate CustomChooses(d: Dialect, row: Row, key: string, raw: string) {
    key in row.custom &&
    var v := row.custom[key];
    var text := if v.JsonText? then v.s else Decimal.FormatInt(v.n);
    if "like:" <= raw then Like(text, "%" + raw[5..] + "%")
    else text == (if "eq:" <= raw then raw[3..] else raw) && (d == Sqlite ==> v.JsonText?)
  }

  /** The row is one of those the parameter asks for. */
  ghost predicate FieldChooses(times: TimeParser, cfg: Config, field: string, raw: string, d: Dialect, row: Row) {
    if "custom." <= field then CustomChooses(d, row, field[7..], raw)
    else if field == "on_behalf_of" then cfg.behalf.Some? && HoldsFor(row, cfg.behalf.value, Text(TrimSpace(raw)))
    else
      field in cfg.filter && Chooses(times, cfg.filter[field].kind, raw, Cell(row, cfg.filter[field].column))
  }

  /** The tag in quotes occurs in the row's JSON list of tags. */
  predicate Tagged(row: Row, tag: string) {
    Cell(row, "tags") != Null && Like(AsText(Cell(row, "tags")), "%\"" + tag + "\"%")
  }

  /** The row has every tag of every `tags` parameter, each a list separated by commas. */
  ghost predicate HasTags(raws: seq<string>, row: Row) {
    forall raw, part :: raw in raws && part in Split(raw, ',') && TrimSpace(part) != "" ==> Tagged(row, TrimSpace(part))
  }

  ghost predicate Wanted(times: TimeParser, cfg: Config, params: Params, d: Dialect, row: Row) {
    && (cfg.tags && "tags" in params ==> HasTags(params["tags"], row))
    && (forall field :: Filters(params, field) ==> FieldChooses(times, cfg, field, params[field][0], d, row))
  }

  lemma CustomMeans(key: string, raw: string, d: Dialect, row: Row)
    ensures FilterOk(CustomFilter(key, raw))
    ensures key != "" ==> (Satisfies(d, CustomFilter(key, raw), row) <==> CustomChooses(d, row, key, raw))
  {
    assert ColumnOk(CUSTOM);
  }

  /** What one parameter's filter, if it is not refused, selects. */
  lemma FieldMeans(times: TimeParser, cfg: Config, field: string, raw: string, d: Dialect, row: Row)
    requires ConfigOk(cfg)
    ensures var r := FieldFilter(times, cfg, field, raw);
            && (r.Ok? <==> FieldAcceptable(times, cfg, field, raw))
            && (r.Ok? ==> FilterOk(r.value)
                          && (Satisfies(d, r.value, row) <==> FieldChooses(times, cfg, field, raw, d, row)))
  {
    if "custom." <= field {
      CustomMeans(field[7..], raw, d, row);
      assert IsCustomKey(field[7..]) <==> KeyFits(field[7..]);
    } else if field != "on_behalf_of" && field in cfg.filter {
      FilterChooses(times, cfg.filter[field], raw, d, row);
    }
  }

  lemma TagMeans(tag: string, d: Dialect, row: Row)
    ensures FilterOk(TagFilter(tag)) && (Satisfies(d, TagFilter(tag), row) <==> Tagged(row, tag))
  {
    assert ColumnOk(TAGS);
    assert [MANY, '"'] + tag + ['"', MANY] == "%\"" + tag + "\"%";
  }

  lemma {:induction false} TagsAre(parts: seq<string>)
    ensures forall f :: f in TagsOf(parts)
                   <==> exists part :: part in parts && TrimSpace(part) != "" && f == TagFilter(TrimSpace(part))
  {
    if parts != [] {
      TagsAre(parts[1..]);
      assert parts == [parts[0]] + parts[1..];
    }
  }

  ghost predicate InSome(raws: seq<string>, f: Filter) {
    exists raw :: raw in raws && f in TagsOf(Split(raw, ','))
  }

  lemma {:induction false} TagListsAre(raws: seq<string>)
    ensures forall f :: f in TagFilters(raws) <==> InSome(raws, f)
  {
    if raws != [] {
      TagListsAre(raws[1..]);
      assert raws == [raws[0]] + raws[1..] && raws[0] in raws;
      forall f
        ensures InSome(raws, f) <==> f in TagsOf(Split(raws[0], ',')) || InSome(raws[1..], f)
      {
        if InSome(raws, f) {
          var raw :| raw in raws && f in TagsOf(Split(raw, ','));
        }
        if InSome(raws[1..], f) {
          var raw :| raw in raws[1..] && f in TagsOf(Split(raw, ','));
          assert raw in raws;
        }
      }
    }
  }

  lemma TagsMean(raws: seq<string>, d: Dialect, row: Row)
    ensures forall f :: f in TagFilters(raws) ==> FilterOk(f)
    ensures (forall f :: f in TagFilters(raws) ==> Satisfies(d, f, row)) <==> HasTags(raws, row)
  {
    TagListsAre(raws);
    forall f | f in TagFilters(raws)
      ensures FilterOk(f) && (HasTags(raws, row) ==> Satisfies(d, f, row))
    {
      var raw :| raw in raws && f in TagsOf(Split(raw, ','));
      TagsAre(Split(raw, ','));
      var part :| part in Split(raw, ',') && TrimSpace(part) != "" && f == TagFilter(TrimSpace(part));
      TagMeans(TrimSpace(part), d, row);
    }
    if forall f :: f in TagFilters(raws) ==> Satisfies(d, f, row) {
      forall raw, part | raw in raws && part in Split(raw, ',') && TrimSpace(part) != ""
        ensures Tagged(row, TrimSpace(part))
      {
        TagsAre(Split(raw, ','));
        assert TagFilter(TrimSpace(part)) in TagFilters(raws);
        TagMeans(TrimSpace(part), d, row);
      }
    }
  }

  /** The filters of a request ask for exactly the wanted rows. */
  lemma WantedIs(times: TimeParser, cfg: Config, params: Params, d: Dialect, row: Row)
    requires ConfigOk(cfg) && forall field :: Filters(params, field) ==>
               FieldAcceptable(times, cfg, field, params[field][0])
    ensures MeetsAll(times, cfg, params, d, row) <==> Wanted(times, cfg, params, d, row)
  {
    TagsMean(if TAGS in params then params[TAGS] else [], d, row);
    forall field
      ensures IsField(params, field) <==> Filters(params, field)
      ensures Filters(params, field) ==>
                var r := FieldFilter(times, cfg, field, params[field][0]);
                r.Ok? && FilterOk(r.value)
                && (Satisfies(d, r.value, row) <==> FieldChooses(times, cfg, field, params[field][0], d, row))
    {
      if Filters(params, field) {
        FieldMeans(times, cfg, field, params[field][0], d, row);
      }
    }
  }

  // ---- Page size and order -------------------------------------------------------------

  /** `limit`: fifty unless it is a number, and between one and two hundred. */
  predicate IsPageSize(raw: string, n: int) {
    var (k, ok) := Decimal.ParseInt(raw);
    if !ok then n == 50 else if k < 1 then n == 1 else if k > 200 then n == 200 else n == k
  }

  /** `sort`: a whitelisted name, descending after a minus sign; without it, the default,
      descending. */
  predicate IsSort(cfg: Config, raw: string, column: string, desc: bool, numeric: bool) {
    var name := TrimSpace(raw);
    if name == "" then
      cfg.defSort in cfg.sortBy && column == cfg.sortBy[cfg.defSort].column && desc && numeric
    else if name[0] == '-' then
      name[1..] in cfg.sortBy && column == cfg.sortBy[name[1..]].column && desc
      && (numeric <==> cfg.sortBy[name[1..]].kind != ColText)
    else
      name in cfg.sortBy && column == cfg.sortBy[name].column && !desc
      && (numeric <==> cfg.sortBy[name].kind != ColText)
  }

  predicate SortAcceptable(cfg: Config, raw: string) {
    var name := TrimSpace(raw);
    name == "" || (if name[0] == '-' then name[1..] in cfg.sortBy else name in cfg.sortBy)
  }

  /** The request's cursor is one this list could have issued, or there is none and the sort is
      known. */
  ghost predicate StartAcceptable(cfg: Config, params: Params) {
    match DecodeCursor(Get(params, "cursor"))
    case Bad => false
    case Good(c) => exists name :: name in cfg.sortBy && cfg.sortBy[name].column == c.col
    case Absent => SortAcceptable(cfg, Get(params, "sort"))
  }

  ghost predicate RequestAcceptable(times: TimeParser, cfg: Config, params: Params) {
    StartAcceptable(cfg, params)
    && forall field :: Filters(params, field) ==> FieldAcceptable(times, cfg, field, params[field][0])
  }

  /** The search text occurs in one of the searched columns. */
  predicate SearchFinds(cfg: Config, params: Params, row: Row) {
    var text := TrimSpace(Get(params, "search"));
    text != "" && cfg.search != [] ==>
      exists i :: 0 <= i < |cfg.search| && Cell(row, cfg.search[i]) != Null
                  && Like(AsText(Cell(row, cfg.search[i])), "%" + text + "%")
  }

  /** The page size and the order of the query a request becomes. */
  predicate Pages(cfg: Config, params: Params, q: Query) {
    && IsPageSize(Get(params, "limit"), q.limit)
    && match DecodeCursor(Get(params, "cursor"))
       case Bad => false
       case Good(c) => q.cursor == Some(c)
       case Absent =>
         q.cursor == None && IsSort(cfg, Get(params, "sort"), q.sortColumn, q.sortDesc, q.sortNumeric)
  }

  lemma StartedMeans(cfg: Config, params: Params)
    requires ConfigOk(cfg)
    ensures Started(cfg, params).Ok? <==> StartAcceptable(cfg, params)
    ensures Started(cfg, params).Ok? ==>
              var q := Started(cfg, params).value;
              Pages(cfg, params, q) && q.search == TrimSpace(Get(params, "search")) && q.searchColumns == cfg.search
  {
  }

  /** A list request is accepted exactly if its cursor or sort and each of its parameters are, and
      the query it becomes has the page size and order asked for and selects exactly the wanted
      rows of the workspace. */
  lemma RequestMeans(times: TimeParser, cfg: Config, params: Params, order: seq<string>, d: Dialect, ws: string,
                     row: Row)
    requires ConfigOk(cfg) && Enumerates(order, params)
    ensures ParsedQuery(times, cfg, params, order).Ok? <==> RequestAcceptable(times, cfg, params)
    ensures ParsedQuery(times, cfg, params, order).Ok? ==>
              var q := ParsedQuery(times, cfg, params, order).value;
              && Pages(cfg, params, q) && QueryOk(q)
              && (Selected(d, ws, q, row)
                  <==> && Cell(row, "workspace_id") == Text(ws)
                       && Wanted(times, cfg, params, d, row)
                       && SearchFinds(cfg, params, row))
  {
    StartedMeans(cfg, params);
    FieldFiltersByField(times, cfg, params, order);
    forall field | Filters(params, field)
      ensures FieldFilter(times, cfg, field, params[field][0]).Ok?
          <==> FieldAcceptable(times, cfg, field, params[field][0])
    {
      FieldMeans(times, cfg, field, params[field][0], d, row);
    }
    assert forall field :: Filters(params, field) <==> field in order && IsField(params, field);
    if RequestAcceptable(times, cfg, params) {
      ParameterOrderDoesNotMatter(times, cfg, params, order, order, d, ws, row);
      WantedIs(times, cfg, params, d, row);
    }
  }
}
