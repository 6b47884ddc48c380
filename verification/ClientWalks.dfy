/** A client's whole walk over a list, from its parameters to the records it was shown: a first
    request without a cursor, and after every answer with a cursor the same parameters with that
    cursor added, visited in some order each time, on tables that may change. */
module ClientWalks {
  import opened Cursors
  import opened Dialects
  import opened ListMeaning
  import opened ListRequests
  import opened ListSql
  import opened Options
  import opened PageWalks
  import opened Pager
  import opened ParameterMeaning
  import opened QueryParams
  import opened SqlSelect
  import opened SqlValues
  import Whitelists

  /** One request: its parameters, the order they are visited in, and the tables that its page
      and its total are read from. */
  datatype Request = Request(params: Params, order: seq<string>, listed: Table, counted: Table)

  function Parsed(times: TimeParser, cfg: Config, x: Request): Result<Query> {
    ParsedQuery(times, cfg, x.params, x.order)
  }

  predicate RequestOk(e: Entity, x: Request) {
    Enumerates(x.order, x.params) && TableOk(e, x.listed)
  }

  /** The request is not refused. */
  predicate Accepted(times: TimeParser, cfg: Config, e: Entity, x: Request) {
    Parsed(times, cfg, x).Ok? && Asks(e, Parsed(times, cfg, x).value)
  }

  /** The answer to a request, if it is accepted. */
  ghost predicate Answers(times: TimeParser, cfg: Config, e: Entity, d: Dialect, ws: string, x: Request, a: Answer) {
    RequestOk(e, x) && (Accepted(times, cfg, e, x)
      ==> a == Answered(e, d, ws, Parsed(times, cfg, x).value, x.listed, x.counted))
  }

  /** The client goes on with the cursor it was given. */
  predicate GoesOn(x: Request, a: Answer, y: Request) {
    a.next != "" && y.params == Adding(x.params, a.next)
  }

  ghost predicate ClientWalk(times: TimeParser, cfg: Config, e: Entity, d: Dialect, ws: string, xs: seq<Request>,
                             answers: seq<Answer>) {
    && |xs| == |answers| > 0 && Get(xs[0].params, CURSOR) == ""
    && (forall k :: 0 <= k < |xs| ==> Answers(times, cfg, e, d, ws, xs[k], answers[k]))
    && (forall k :: 0 <= k < |xs| - 1 ==> GoesOn(xs[k], answers[k], xs[k + 1]))
  }

  /** Both are accepted, and the second resumes where the first one's answer ends. */
  ghost predicate ResumedBy(times: TimeParser, cfg: Config, e: Entity, x: Request, a: Answer, y: Request) {
    && Accepted(times, cfg, e, x) && Accepted(times, cfg, e, y)
    && Continued(Parsed(times, cfg, x).value, Parsed(times, cfg, y).value, a)
  }

  /** A request with the cursor of the last answer is accepted and goes on after it. */
  lemma NextIsAccepted(times: TimeParser, cfg: Config, e: Entity, d: Dialect, ws: string, x: Request, a: Answer,
                       y: Request)
    requires ConfigOk(cfg) && Accepted(times, cfg, e, x) && Answers(times, cfg, e, d, ws, x, a)
    requires GoesOn(x, a, y) && RequestOk(e, y)
    ensures ResumedBy(times, cfg, e, x, a, y)
  {
    var q := Parsed(times, cfg, x).value;
    PageIs(e, d, ws, q, x.listed, x.counted);
    var last := Remaining(d, ws, q, x.listed)[q.limit - 1];
    NextRequestResumes(times, cfg, e, x.params, x.order, q, last, a.next, y.order);
  }

  lemma WalkGoesOn(times: TimeParser, cfg: Config, e: Entity, d: Dialect, ws: string, xs: seq<Request>,
                   answers: seq<Answer>, k: nat)
    requires ConfigOk(cfg) && ClientWalk(times, cfg, e, d, ws, xs, answers) && k + 1 < |xs|
        && Accepted(times, cfg, e, xs[k])
    ensures ResumedBy(times, cfg, e, xs[k], answers[k], xs[k + 1])
  {
    assert Answers(times, cfg, e, d, ws, xs[k], answers[k]);
    assert Answers(times, cfg, e, d, ws, xs[k + 1], answers[k + 1]);
    NextIsAccepted(times, cfg, e, d, ws, xs[k], answers[k], xs[k + 1]);
  }

  lemma {:induction false} FromTheFirstOn<T>(xs: seq<T>, ok: T -> bool, k: nat)
    requires k < |xs| && ok(xs[0]) && forall i :: 0 <= i < |xs| - 1 && ok(xs[i]) ==> ok(xs[i + 1])
    ensures ok(xs[k])
  {
    if k > 0 {
      FromTheFirstOn(xs, ok, k - 1);
      assert ok(xs[k - 1 + 1]);
    }
  }

  lemma AcceptedThroughout(times: TimeParser, cfg: Config, e: Entity, d: Dialect, ws: string,
                           xs: seq<Request>, answers: seq<Answer>, k: nat)
    requires ConfigOk(cfg) && ClientWalk(times, cfg, e, d, ws, xs, answers) && Accepted(times, cfg, e, xs[0])
        && k < |xs|
    ensures Accepted(times, cfg, e, xs[k])
  {
    var ok := (x: Request) => Accepted(times, cfg, e, x);
    forall i | 0 <= i < |xs| - 1 && ok(xs[i])
      ensures ok(xs[i + 1])
    {
      WalkGoesOn(times, cfg, e, d, ws, xs, answers, i);
    }
    FromTheFirstOn(xs, ok, k);
  }

  function Queries(times: TimeParser, cfg: Config, xs: seq<Request>): (qs: seq<Query>)
    requires forall x :: x in xs ==> Parsed(times, cfg, x).Ok?
    ensures |qs| == |xs| && forall k :: 0 <= k < |qs| ==> qs[k] == Parsed(times, cfg, xs[k]).value
  {
    seq(|xs|, k requires 0 <= k < |xs| => Parsed(times, cfg, xs[k]).value)
  }

  function ListedBy(xs: seq<Request>): (ts: seq<Table>)
    ensures |ts| == |xs| && forall k :: 0 <= k < |ts| ==> ts[k] == xs[k].listed
  {
    seq(|xs|, k requires 0 <= k < |xs| => xs[k].listed)
  }

  function CountedBy(xs: seq<Request>): (ts: seq<Table>)
    ensures |ts| == |xs| && forall k :: 0 <= k < |ts| ==> ts[k] == xs[k].counted
  {
    seq(|xs|, k requires 0 <= k < |xs| => xs[k].counted)
  }

  lemma FirstHasNoCursor(times: TimeParser, cfg: Config, x: Request)
    requires Get(x.params, CURSOR) == "" && Parsed(times, cfg, x).Ok?
    ensures Parsed(times, cfg, x).value.cursor == None
  {
  }

  lemma RequestIsAnswered(times: TimeParser, cfg: Config, e: Entity, d: Dialect, ws: string,
                          xs: seq<Request>, answers: seq<Answer>, k: nat)
    requires ConfigOk(cfg) && ClientWalk(times, cfg, e, d, ws, xs, answers) && Accepted(times, cfg, e, xs[0])
        && k < |xs|
    ensures Accepted(times, cfg, e, xs[k]) && RequestOk(e, xs[k])
    ensures answers[k] == Answered(e, d, ws, Parsed(times, cfg, xs[k]).value, xs[k].listed, xs[k].counted)
  {
    AcceptedThroughout(times, cfg, e, d, ws, xs, answers, k);
    assert Answers(times, cfg, e, d, ws, xs[k], answers[k]);
  }

  lemma RequestIsContinued(times: TimeParser, cfg: Config, e: Entity, d: Dialect, ws: string,
                           xs: seq<Request>, answers: seq<Answer>, k: nat)
    requires ConfigOk(cfg) && ClientWalk(times, cfg, e, d, ws, xs, answers) && Accepted(times, cfg, e, xs[0])
        && k + 1 < |xs|
    ensures ResumedBy(times, cfg, e, xs[k], answers[k], xs[k + 1])
  {
    AcceptedThroughout(times, cfg, e, d, ws, xs, answers, k);
    WalkGoesOn(times, cfg, e, d, ws, xs, answers, k);
  }

  /** If the first request is accepted, so are all, and they are a walk of the pager. */
  lemma ClientWalkIsWalk(times: TimeParser, cfg: Config, e: Entity, d: Dialect, ws: string, xs: seq<Request>,
                         answers: seq<Answer>)
    requires ConfigOk(cfg) && ClientWalk(times, cfg, e, d, ws, xs, answers) && Accepted(times, cfg, e, xs[0])
    ensures forall x :: x in xs ==> Accepted(times, cfg, e, x)
    ensures Walk(e, d, ws, Queries(times, cfg, xs), ListedBy(xs), CountedBy(xs), answers)
  {
    forall k | 0 <= k < |xs|
      ensures Accepted(times, cfg, e, xs[k]) && TableOk(e, xs[k].listed)
      ensures answers[k] == Answered(e, d, ws, Parsed(times, cfg, xs[k]).value, xs[k].listed, xs[k].counted)
    {
      RequestIsAnswered(times, cfg, e, d, ws, xs, answers, k);
    }
    FirstHasNoCursor(times, cfg, xs[0]);
    var qs := Queries(times, cfg, xs);
    forall k | 0 <= k < |qs| - 1
      ensures Continued(qs[k], qs[k + 1], answers[k])
    {
      RequestIsContinued(times, cfg, e, d, ws, xs, answers, k);
    }
  }

  /** A row of the workspace that every parameter of a request wants, and its search finds. */
  ghost predicate AskedFor(times: TimeParser, cfg: Config, d: Dialect, ws: string, x: Request, row: Row) {
    && Cell(row, "workspace_id") == Text(ws)
    && Wanted(times, cfg, x.params, d, row)
    && SearchFinds(cfg, x.params, row)
  }

  lemma AskedForIsSelected(times: TimeParser, cfg: Config, d: Dialect, ws: string, x: Request, row: Row)
    requires ConfigOk(cfg) && Parsed(times, cfg, x).Ok? && Enumerates(x.order, x.params)
    ensures QueryOk(Parsed(times, cfg, x).value)
    ensures AskedFor(times, cfg, d, ws, x, row) <==> Selected(d, ws, Parsed(times, cfg, x).value, row)
  {
    RequestMeans(times, cfg, x.params, x.order, d, ws, row);
  }

  /** The rows of one record, one per request: there, asked for by the first request, and under
      one sort key. */
  ghost predicate KeepsMatching(times: TimeParser, cfg: Config, d: Dialect, ws: string, xs: seq<Request>,
                                rows: seq<Row>)
    requires ConfigOk(cfg) && xs != [] && Parsed(times, cfg, xs[0]).Ok?
  {
    && |rows| == |xs|
    && (forall k :: 0 <= k < |rows| ==> rows[k] in xs[k].listed && AskedFor(times, cfg, d, ws, xs[0], rows[k]))
    && (forall k :: 0 <= k < |rows| ==> SameKey(SortColumn(Parsed(times, cfg, xs[0]).value), rows[0], rows[k]))
  }

  /** From parameters to pages: a client that follows its cursors until there is none is shown
      every record that meets its parameters and keeps its sort key, exactly once, whatever else
      happens to the table meanwhile. */
  lemma ClientIsShownExactlyOnce(times: TimeParser, cfg: Config, e: Entity, d: Dialect, ws: string,
                                 xs: seq<Request>, answers: seq<Answer>, rows: seq<Row>) returns (page: nat, j: nat)
    requires ConfigOk(cfg) && ClientWalk(times, cfg, e, d, ws, xs, answers) && Accepted(times, cfg, e, xs[0])
    requires answers[|answers| - 1].next == "" && KeepsMatching(times, cfg, d, ws, xs, rows)
    ensures page < |answers| && j < |answers[page].items| && answers[page].items[j] == rows[page]
    ensures ShownOnlyAt(answers, Cell(rows[0], ID), page, j)
  {
    ClientWalkIsWalk(times, cfg, e, d, ws, xs, answers);
    var qs := Queries(times, cfg, xs);
    assert Answers(times, cfg, e, d, ws, xs[0], answers[0]);
    forall k | 0 <= k < |rows|
      ensures rows[k] in ListedBy(xs)[k] && Selected(d, ws, qs[0], rows[k])
    {
      AskedForIsSelected(times, cfg, d, ws, xs[0], rows[k]);
    }
    page, j := StableRowShownExactlyOnce(e, d, ws, qs, ListedBy(xs), CountedBy(xs), answers, rows);
  }

  lemma AllInOrder(e: Entity, d: Dialect, ws: string, q: Query, table: Table)
    requires Asks(e, q) && TableOk(e, table) && q.cursor == None
    ensures Sorted(SortColumn(q), SortDesc(q), InOrderOf(d, ws, q, table))
    ensures forall row :: row in InOrderOf(d, ws, q, table) <==> row in table && Selected(d, ws, q, row)
  {
    RemainingIs(e, d, ws, q, table);
    FilteredAlike(MatchingAfter(d, ws, q), Matching(d, ws, q), table);
  }

  lemma FixedWalkShowsAll(e: Entity, d: Dialect, ws: string, qs: seq<Query>, listed: seq<Table>, counted: seq<Table>,
                          answers: seq<Answer>, table: Table)
    requires Walk(e, d, ws, qs, listed, counted, answers) && answers[|answers| - 1].next == ""
    requires AllAre(listed, table) && AllAre(counted, table)
    ensures Sorted(SortColumn(qs[0]), SortDesc(qs[0]), Shown(answers))
    ensures forall row :: row in Shown(answers) <==> row in table && Selected(d, ws, qs[0], row)
    ensures forall k :: 0 <= k < |answers| ==> answers[k].total == |Shown(answers)|
  {
    FixedTableWalk(e, d, ws, qs, listed, counted, answers, table);
    FixedSlices(e, d, ws, qs, listed, counted, answers, table, qs[0].limit);
    assert listed[0] == table;
    AllInOrder(e, d, ws, qs[0], table);
    forall k | 0 <= k < |answers|
      ensures answers[k].total == |Shown(answers)|
    {
      assert IsSlice(answers[k], InOrderOf(d, ws, qs[0], table), Offset(k, qs[0].limit), qs[0].limit);
    }
  }

  lemma AllAskedFor(times: TimeParser, cfg: Config, d: Dialect, ws: string, x: Request)
    requires ConfigOk(cfg) && Parsed(times, cfg, x).Ok? && Enumerates(x.order, x.params)
    ensures QueryOk(Parsed(times, cfg, x).value)
    ensures forall row :: AskedFor(times, cfg, d, ws, x, row) <==> Selected(d, ws, Parsed(times, cfg, x).value, row)
  {
    AskedForIsSelected(times, cfg, d, ws, x, Row(map[], map[], map[]));
    forall row
      ensures AskedFor(times, cfg, d, ws, x, row) <==> Selected(d, ws, Parsed(times, cfg, x).value, row)
    {
      AskedForIsSelected(times, cfg, d, ws, x, row);
    }
  }

  lemma SameTables(xs: seq<Request>, table: Table)
    requires forall x :: x in xs ==> x.listed == x.counted == table
    ensures AllAre(ListedBy(xs), table) && AllAre(CountedBy(xs), table)
  {
  }

  /** The records asked for, in the order asked for, as many as every answer says there are. */
  ghost predicate IsTheList(times: TimeParser, cfg: Config, d: Dialect, ws: string, x: Request, table: Table,
                            answers: seq<Answer>)
    requires ConfigOk(cfg) && Parsed(times, cfg, x).Ok?
  {
    var q := Parsed(times, cfg, x).value;
    && Sorted(SortColumn(q), SortDesc(q), Shown(answers))
    && (forall row :: row in Shown(answers) <==> row in table && AskedFor(times, cfg, d, ws, x, row))
    && forall k :: 0 <= k < |answers| ==> answers[k].total == |Shown(answers)|
  }

  lemma ShownIsTheList(times: TimeParser, cfg: Config, d: Dialect, ws: string, x: Request, table: Table,
                       answers: seq<Answer>)
    requires ConfigOk(cfg) && Parsed(times, cfg, x).Ok? && Enumerates(x.order, x.params)
    requires QueryOk(Parsed(times, cfg, x).value)
    requires var q := Parsed(times, cfg, x).value;
             && Sorted(SortColumn(q), SortDesc(q), Shown(answers))
             && (forall row :: row in Shown(answers) <==> row in table && Selected(d, ws, q, row))
             && forall k :: 0 <= k < |answers| ==> answers[k].total == |Shown(answers)|
    ensures IsTheList(times, cfg, d, ws, x, table, answers)
  {
    AllAskedFor(times, cfg, d, ws, x);
  }

  /** On a table that does not change, such a client is shown just that. */
  lemma ClientIsShownTheList(times: TimeParser, cfg: Config, e: Entity, d: Dialect, ws: string,
                             xs: seq<Request>, answers: seq<Answer>, table: Table)
    requires ConfigOk(cfg) && ClientWalk(times, cfg, e, d, ws, xs, answers) && Accepted(times, cfg, e, xs[0])
    requires answers[|answers| - 1].next == "" && forall x :: x in xs ==> x.listed == x.counted == table
    ensures IsTheList(times, cfg, d, ws, xs[0], table, answers)
  {
    ClientWalkIsWalk(times, cfg, e, d, ws, xs, answers);
    SameTables(xs, table);
    FixedWalkShowsAll(e, d, ws, Queries(times, cfg, xs), ListedBy(xs), CountedBy(xs), answers, table);
    RequestIsAnswered(times, cfg, e, d, ws, xs, answers, 0);
    ShownIsTheList(times, cfg, d, ws, xs[0], table, answers);
  }

  /** For contacts, a first request is accepted exactly if its sort and each of its parameters
      are. */
  lemma ContactRequestsAreAccepted(times: TimeParser, x: Request)
    requires Get(x.params, CURSOR) == "" && Enumerates(x.order, x.params)
    ensures ConfigOk(Whitelists.CONTACTS)
    ensures Accepted(times, Whitelists.CONTACTS, Contacts, x)
        <==> RequestAcceptable(times, Whitelists.CONTACTS, x.params)
  {
    Whitelists.ContactWhitelistIsOk();
    RequestMeans(times, Whitelists.CONTACTS, x.params, x.order, Sqlite, "", Row(map[], map[], map[]));
    if Parsed(times, Whitelists.CONTACTS, x).Ok? {
      FirstHasNoCursor(times, Whitelists.CONTACTS, x);
      FirstRequestAsks(times, x.params, x.order);
    }
  }
}
