/** Walks from the client's side: a first request without a cursor, then the same parameters
    with the cursor of the last answer added. */
module ListRequests {
  import opened Cursors
  import opened ListMeaning
  import opened ListSql
  import opened Options
  import opened PageWalks
  import opened Pager
  import opened QueryParams
  import opened SqlSelect
  import Whitelists

  const CURSOR := "cursor"

  lemma ContactSortColumns(column: string)
    ensures Sortable(Whitelists.CONTACTS, column) <==> IsSortColumn(Contacts, column)
  {
    if IsSortColumn(Contacts, column) {
      assert column in Whitelists.CONTACTS.sortBy && Whitelists.CONTACTS.sortBy[column].column == column;
    }
  }

  /** Without a cursor the sort is the one asked for. */
  lemma FirstSort(times: TimeParser, cfg: Config, params: Params, order: seq<string>)
    requires ParsedQuery(times, cfg, params, order).Ok? && ParsedQuery(times, cfg, params, order).value.cursor == None
    ensures SortOf(cfg, Get(params, "sort")).Ok?
    ensures var q, sort := ParsedQuery(times, cfg, params, order).value, SortOf(cfg, Get(params, "sort")).value;
            SortColumn(q) == sort.column && SortNumeric(q) == sort.numeric
  {
  }

  lemma ContactSortKind(raw: string)
    requires SortOf(Whitelists.CONTACTS, raw).Ok?
    ensures var sort := SortOf(Whitelists.CONTACTS, raw).value; sort.numeric <==> sort.column != TextColumn(Contacts)
  {
  }

  /** The first request for a list of contacts is one the pager takes. */
  lemma FirstRequestAsks(times: TimeParser, params: Params, order: seq<string>)
    requires ParsedQuery(times, Whitelists.CONTACTS, params, order).Ok?
    requires ParsedQuery(times, Whitelists.CONTACTS, params, order).value.cursor == None
    ensures Asks(Contacts, ParsedQuery(times, Whitelists.CONTACTS, params, order).value)
  {
    var q := ParsedQuery(times, Whitelists.CONTACTS, params, order).value;
    Whitelists.ContactWhitelistIsOk();
    ParsedQueryIsOk(times, Whitelists.CONTACTS, params, order);
    FirstSort(times, Whitelists.CONTACTS, params, order);
    ContactSortKind(Get(params, "sort"));
    ContactSortColumns(SortColumn(q));
  }

  function Adding(params: Params, cursor: string): Params {
    params[CURSOR := [cursor]]
  }

  lemma SameFields(params: Params, cursor: string, field: string)
    ensures IsField(Adding(params, cursor), field) <==> IsField(params, field)
    ensures IsField(params, field) ==> Adding(params, cursor)[field] == params[field]
  {
  }

  lemma SameFilters(times: TimeParser, cfg: Config, params: Params, order: seq<string>, cursor: string,
                    other: seq<string>)
    requires Enumerates(order, params) && Enumerates(other, Adding(params, cursor))
    requires FieldFilters(times, cfg, params, order).Ok?
    ensures FieldFilters(times, cfg, Adding(params, cursor), other).Ok?
    ensures forall f :: f in FieldFilters(times, cfg, params, order).value
                        <==> f in FieldFilters(times, cfg, Adding(params, cursor), other).value
  {
    FieldFiltersByField(times, cfg, params, order);
    FieldFiltersByField(times, cfg, Adding(params, cursor), other);
    forall field
      ensures IsField(Adding(params, cursor), field) <==> IsField(params, field)
      ensures IsField(params, field) ==>
                Adding(params, cursor)[field] == params[field] && field in order && field in other
    {
      SameFields(params, cursor, field);
    }
  }

  /** A good cursor for a sortable column replaces the sort and leaves the rest as it was. */
  lemma SameStart(cfg: Config, params: Params, cursor: string)
    requires Started(cfg, params).Ok? && DecodeCursor(cursor).Good? && Sortable(cfg, DecodeCursor(cursor).cursor.col)
    ensures var q, r := Started(cfg, params).value, Started(cfg, Adding(params, cursor));
            && r.Ok? && r.value.cursor == Some(DecodeCursor(cursor).cursor)
            && r.value.search == q.search && r.value.searchColumns == q.searchColumns && r.value.limit == q.limit
  {
    var more := Adding(params, cursor);
    assert Get(more, CURSOR) == cursor && Get(more, "search") == Get(params, "search")
        && Get(more, "limit") == Get(params, "limit");
  }

  lemma ParsedParts(times: TimeParser, cfg: Config, params: Params, order: seq<string>)
    ensures var start, fields, parsed := Started(cfg, params), FieldFilters(times, cfg, params, order),
        ParsedQuery(times, cfg, params, order);
            && (parsed.Ok? <==> start.Ok? && fields.Ok?)
            && (parsed.Ok? ==> parsed.value == start.value.(filters := TagParams(cfg, params) + fields.value))
  {
  }

  lemma SameMembers(tags: seq<Filter>, a: seq<Filter>, b: seq<Filter>)
    requires forall f :: f in a <==> f in b
    ensures forall f :: f in tags + a <==> f in tags + b
  {
  }

  lemma CursorAddedResumes(times: TimeParser, cfg: Config, params: Params, order: seq<string>, cursor: string,
                           other: seq<string>)
    requires ParsedQuery(times, cfg, params, order).Ok? && Enumerates(order, params)
        && Enumerates(other, Adding(params, cursor))
    requires DecodeCursor(cursor).Good? && Sortable(cfg, DecodeCursor(cursor).cursor.col)
    ensures var q, r := ParsedQuery(times, cfg, params, order).value,
        ParsedQuery(times, cfg, Adding(params, cursor), other);
            r.Ok? && Resumes(q, r.value, cursor)
  {
    var more := Adding(params, cursor);
    ParsedParts(times, cfg, params, order);
    ParsedParts(times, cfg, more, other);
    SameStart(cfg, params, cursor);
    SameFilters(times, cfg, params, order, cursor, other);
    assert TagParams(cfg, more) == TagParams(cfg, params);
    SameMembers(TagParams(cfg, params), FieldFilters(times, cfg, params, order).value,
      FieldFilters(times, cfg, more, other).value);
  }

  /** A client that repeats its parameters and adds the cursor it was given resumes the walk
      after the last row it was shown, whatever its sort parameter says. */
  lemma NextRequestResumes(times: TimeParser, cfg: Config, e: Entity, params: Params, order: seq<string>, q: Query,
                           last: Row, next: string, other: seq<string>)
    requires ConfigOk(cfg) && ParsedQuery(times, cfg, params, order) == Ok(q) && Asks(e, q) && RowOk(e, last)
    requires next == NextCursor(q, SortVal(e, last, SortColumn(q)), Cell(last, ID).s)
    requires Enumerates(order, params) && Enumerates(other, Adding(params, next))
    ensures var r := ParsedQuery(times, cfg, Adding(params, next), other);
            r.Ok? && Resumes(q, r.value, next) && ResumesAfter(q, r.value, last) && Asks(e, r.value)
  {
    ParsedQueryIsOk(times, cfg, params, order);
    CursorCarries(e, q, last);
    CursorAddedResumes(times, cfg, params, order, next, other);
    ParsedQueryIsOk(times, cfg, Adding(params, next), other);
  }
}
