/** List filters derived from the activity log: internal/server/query.go. A statement over
    contacts sees, for each whitelisted expression, what the subquery it reads there comes to on
    the log and on the row's own cells; the filters then select by the figures that are shown. */
module ActivityFilters {
  import opened ActivityStats
  import opened Dialects
  import opened ListMeaning
  import opened ListSql
  import opened Options
  import opened ParameterMeaning
  import opened QueryParams
  import opened SqlSelect
  import opened SqlValues
  import opened Subqueries
  import opened Texts
  import opened Whitelists

  // ---- Running a subquery --------------------------------------------------------------

  function MaybeText(t: Option<string>): Value {
    if t.Some? then Text(t.value) else Null
  }

  function Reference(a: Activity, kind: Kind): Value {
    if kind in a.refs then Text(a.refs[kind]) else Null
  }

  /** A column of the activities table; those a log does not hold are NULL here. */
  function ActivityCell(a: Activity, column: string): Value {
    match column
    case "workspace_id" => Text(a.ws)
    case "contact_id" => Reference(a, Contact)
    case "deal_id" => Reference(a, Deal)
    case "company_id" => Reference(a, Company)
    case "ticket_id" => Reference(a, Ticket)
    case "kind" => Text(a.kind)
    case "created_at" => Int(a.at)
    case "on_behalf_of" => MaybeText(a.onBehalfOf)
    case _ => Null
  }

  function AmongTexts(v: Value, texts: seq<string>): Truth {
    if texts == [] then False else Or(Equal(v, Text(texts[0])), AmongTexts(v, texts[1..]))
  }

  /** lower() of a text; of anything else it is not needed. */
  function Lowered(v: Value): Value {
    if v.Text? then Text(Lower(v.s)) else Null
  }

  /** A condition of a subquery, on an activity, the outer row and the argument. */
  function ConditionOn(c: Condition, a: Activity, row: Row, arg: Value): Truth {
    match c
    case SameAs(inner, outer) => Equal(ActivityCell(a, inner), Cell(row, outer))
    case OneOf(inner, texts) => AmongTexts(ActivityCell(a, inner), texts)
    case SameText(inner) => Equal(Lowered(ActivityCell(a, inner)), Lowered(arg))
  }

  /** The activities a subquery's WHERE keeps. */
  function Where(q: Subquery, row: Row, arg: Value): Activity -> bool {
    (a: Activity) => forall c :: c in q.conditions ==> ConditionOn(c, a, row, arg) == True
  }

  /** MAX(a.column): NULL over no rows. */
  function Max(log: Log, chosen: Activity -> bool, column: string): Value {
    if log == [] then Null
    else
      var before, v := Max(log[..|log| - 1], chosen, column), ActivityCell(log[|log| - 1], column);
      if !chosen(log[|log| - 1]) || v == Null then before
      else if before == Null || Less(before, v) then v
      else before
  }

  function Scalar(q: Subquery, log: Log, row: Row): Value {
    match q.figure
    case CountAll => Int(Count(log, Where(q, row, Null)))
    case MaxOf(column) => Max(log, Where(q, row, Null), column)
    case One => if Count(log, Where(q, row, Null)) > 0 then Int(1) else Null
  }

  /** What an expression standing in for a column comes to. */
  function Derived(log: Log, row: Row, text: string): Value {
    match ReadSubquery(CONTACTS_TABLE, text)
    case None => Null
    case Some(q) => Scalar(q, log, row)
  }

  /** The subquery between the words EXISTS and the end of a predicate. */
  function ReadPredicate(p: Predicate): Option<Subquery> {
    match Between(p.head + "?" + p.tail, "EXISTS ", "")
    case None => None
    case Some(text) => ReadSubquery(CONTACTS_TABLE, text)
  }

  predicate ExistsFor(p: Predicate, log: Log, row: Row, arg: Value) {
    match ReadPredicate(p)
    case None => false
    case Some(q) => Count(log, Where(q, row, arg)) > 0
  }

  const DERIVED_COLUMNS := {CONTACT_LAST_OUTREACH, CONTACT_OUTREACH_COUNT}

  /** The values, in lower case, that a predicate holds for: some activity's principal, or none. */
  function HoldingFor(p: Predicate, log: Log, row: Row): set<string> {
    set a | a in log && a.onBehalfOf.Some? && ExistsFor(p, log, row, Text(a.onBehalfOf.value))
      :: Lower(a.onBehalfOf.value)
  }

  /** A contact's row as a statement sees it. */
  function ContactView(log: Log, row: Row): Row {
    row.(cells := row.cells + map text | text in DERIVED_COLUMNS :: Derived(log, row, text),
         related := row.related[CONTACT_BEHALF := HoldingFor(CONTACT_BEHALF, log, row)])
  }

  // ---- What the whitelisted texts say --------------------------------------------------

  const ITS_ACTIVITIES := [SameAs("workspace_id", "workspace_id"), SameAs("contact_id", "id")]
  const OUTREACH_KIND := OneOf("kind", ["call", "email", "meeting"])

  const LAST_OUTREACH := Subquery(MaxOf("created_at"), ITS_ACTIVITIES + [OUTREACH_KIND])
  const OUTREACH_COUNT := Subquery(CountAll, ITS_ACTIVITIES + [OUTREACH_KIND])
  const BEHALF := Subquery(One, ITS_ACTIVITIES + [SameText("on_behalf_of")])

  lemma ThreeConditions(a: Condition, b: Condition, c: Condition)
    ensures var table := CONTACTS_TABLE;
            ConditionsWords(table, [a, b, c])
            == ConditionWords(table, a) + ["AND"] + (ConditionWords(table, b) + ["AND"] + ConditionWords(table, c))
  {
    assert [a, b, c][1..] == [b, c] && [b, c][1..] == [c];
    assert ConditionsWords(CONTACTS_TABLE, [c]) == ConditionWords(CONTACTS_TABLE, c);
    assert ConditionsWords(CONTACTS_TABLE, [b, c])
        == ConditionWords(CONTACTS_TABLE, b) + ["AND"] + ConditionWords(CONTACTS_TABLE, c);
  }

  lemma ItsActivitiesWritten()
    ensures ConditionWords(CONTACTS_TABLE, SameAs("workspace_id", "workspace_id")) == SAME_WORKSPACE
    ensures ConditionWords(CONTACTS_TABLE, SameAs("contact_id", "id")) == THIS_CONTACT
  {
    assert INNER + "workspace_id" == "a.workspace_id";
    assert CONTACTS_TABLE + "." + "workspace_id" == "contacts.workspace_id";
    assert INNER + "contact_id" == "a.contact_id" && CONTACTS_TABLE + "." + "id" == "contacts.id";
  }

  /** The words of a subquery over a contact's activities with one more condition. */
  lemma ContactWords(figure: Figure, last: Condition, select: string, words: seq<string>)
    requires FigureWord(figure) == select && ConditionWords(CONTACTS_TABLE, last) == words
    ensures SubqueryWords(CONTACTS_TABLE, Subquery(figure, ITS_ACTIVITIES + [last]))
            == ["SELECT", select] + CONTACT_ACTIVITIES + (["AND"] + words)
  {
    ItsActivitiesWritten();
    ThreeConditions(ITS_ACTIVITIES[0], ITS_ACTIVITIES[1], last);
    assert ITS_ACTIVITIES + [last] == [ITS_ACTIVITIES[0], ITS_ACTIVITIES[1], last];
    AndLast(["SELECT", select] + FROM, SAME_WORKSPACE, THIS_CONTACT, words);
    assert ["SELECT", select] + CONTACT_ACTIVITIES == ["SELECT",
        select] + FROM + SAME_WORKSPACE + ["AND"] + THIS_CONTACT;
  }

  lemma ContactNamed(figure: Figure, last: Condition)
    requires (figure.MaxOf? ==> Name(figure.column)) && ConditionNamed(last)
    ensures Named(Subquery(figure, ITS_ACTIVITIES + [last])) && Name(CONTACTS_TABLE)
  {
    assert ConditionNamed(ITS_ACTIVITIES[0]) && ConditionNamed(ITS_ACTIVITIES[1]);
  }

  lemma ContactReads(figure: Figure, last: Condition, select: string, words: seq<string>)
    requires FigureWord(figure) == select && ConditionWords(CONTACTS_TABLE, last) == words
    requires (figure.MaxOf? ==> Name(figure.column)) && ConditionNamed(last)
    ensures ReadSubquery(CONTACTS_TABLE, "(" + Words(["SELECT", select] + CONTACT_ACTIVITIES + (["AND"] + words)) + ")")
            == Some(Subquery(figure, ITS_ACTIVITIES + [last]))
  {
    ContactWords(figure, last, select, words);
    ContactNamed(figure, last);
    WrittenIsRead(CONTACTS_TABLE, Subquery(figure, ITS_ACTIVITIES + [last]));
  }

  lemma AndLast(start: seq<string>, a: seq<string>, b: seq<string>, c: seq<string>)
    ensures start + (a + ["AND"] + (b + ["AND"] + c)) == (start + a + ["AND"] + b) + (["AND"] + c)
  {
  }

  lemma KindsWritten()
    ensures Separated(["'call'", "'email'", "'meeting'"], ',') == "'call','email','meeting'"
  {
    var quoted := ["'call'", "'email'", "'meeting'"];
    assert quoted[1..] == ["'email'", "'meeting'"] && quoted[1..][1..] == ["'meeting'"];
    assert Separated(quoted[1..], ',') == "'email'" + [','] + "'meeting'";
  }

  lemma OutreachKindsQuoted()
    ensures AllQuoted(["call", "email", "meeting"]) == ["'call'", "'email'", "'meeting'"]
  {
    assert Quoted("call") == "'call'" && Quoted("email") == "'email'" && Quoted("meeting") == "'meeting'";
  }

  lemma OutreachKindWritten()
    ensures ConditionWords(CONTACTS_TABLE, OUTREACH_KIND) == ["a.kind", "IN", "('call','email','meeting')"]
  {
    OutreachKindsQuoted();
    KindsWritten();
    assert INNER + "kind" == "a.kind";
    assert "(" + "'call','email','meeting'" + ")" == "('call','email','meeting')";
  }

  lemma OutreachKindNamed()
    ensures ConditionNamed(OUTREACH_KIND)
  {
  }

  lemma OutreachReads(figure: Figure, select: string)
    requires FigureWord(figure) == select && (figure.MaxOf? ==> Name(figure.column))
    ensures ReadSubquery(CONTACTS_TABLE, "(" + Words(["SELECT", select] + CONTACT_ACTIVITIES + OUTREACH) + ")")
            == Some(Subquery(figure, ITS_ACTIVITIES + [OUTREACH_KIND]))
  {
    var words := ["a.kind", "IN", "('call','email','meeting')"];
    OutreachKindWritten();
    OutreachKindNamed();
    ContactReads(figure, OUTREACH_KIND, select, words);
    assert OUTREACH == ["AND"] + words;
  }

  lemma LastOutreachReads()
    ensures ReadSubquery(CONTACTS_TABLE, CONTACT_LAST_OUTREACH) == Some(LAST_OUTREACH)
  {
    assert FigureWord(MaxOf("created_at")) == "MAX(a.created_at)";
    OutreachReads(MaxOf("created_at"), "MAX(a.created_at)");
  }

  lemma OutreachCountReads()
    ensures ReadSubquery(CONTACTS_TABLE, CONTACT_OUTREACH_COUNT) == Some(OUTREACH_COUNT)
  {
    OutreachReads(CountAll, "COUNT(*)");
  }

  lemma {:induction false} LastWord(ws: seq<string>, w: string)
    requires ws != []
    ensures Words(ws + [w]) == Words(ws) + [' '] + w
  {
    if |ws| == 1 {
      assert ws + [w] == [ws[0], w] && [ws[0], w][1..] == [w];
      assert Words([w]) == w;
      assert Words([ws[0], w]) == ws[0] + [' '] + Words([w]);
    } else {
      LastWord(ws[1..], w);
      assert (ws + [w])[1..] == ws[1..] + [w];
      assert Words(ws + [w]) == ws[0] + [' '] + Words(ws[1..] + [w]);
    }
  }

  lemma BehalfReads()
    ensures ReadPredicate(CONTACT_BEHALF) == Some(BEHALF)
  {
    var words := ["lower(a.on_behalf_of)", "=", LOWER_ARG];
    assert LOWER_INNER + "on_behalf_of" + ")" == "lower(a.on_behalf_of)";
    ContactReads(One, SameText("on_behalf_of"), "1", words);
    BehalfWritten(words);
    AfterIs("EXISTS ", "(" + Words(["SELECT", "1"] + CONTACT_ACTIVITIES + (["AND"] + words)) + ")");
  }

  lemma BehalfWritten(words: seq<string>)
    requires words == ["lower(a.on_behalf_of)", "=", LOWER_ARG]
    ensures CONTACT_BEHALF.head + "?" + CONTACT_BEHALF.tail
            == "EXISTS " + ("(" + Words(["SELECT", "1"] + CONTACT_ACTIVITIES + (["AND"] + words)) + ")")
  {
    assert ["SELECT", "1"] + CONTACT_ACTIVITIES + (["AND"] + words) == BEHALF_WORDS + [LOWER_ARG];
    LastWord(BEHALF_WORDS, LOWER_ARG);
    BehalfText(Words(BEHALF_WORDS));
  }

  lemma BehalfText(body: string)
    ensures "EXISTS (" + body + " lower(" + "?" + "))" == "EXISTS " + ("(" + (body + [' '] + LOWER_ARG) + ")")
  {
    assert "EXISTS (" == "EXISTS " + "(";
    assert " lower(" + "?" + "))" == [' '] + LOWER_ARG + ")";
  }

  // ---- What they come to ---------------------------------------------------------------

  /** The row of a contact. */
  predicate IsContact(row: Row, ws: string, id: string) {
    Cell(row, "workspace_id") == Text(ws) && Cell(row, "id") == Text(id)
  }

  lemma ItsActivitiesAre(a: Activity, row: Row, ws: string, id: string, arg: Value)
    requires IsContact(row, ws, id)
    ensures ConditionOn(ITS_ACTIVITIES[0], a, row, arg) == True && ConditionOn(ITS_ACTIVITIES[1], a, row, arg) == True
            <==> Refers(a, ws, Contact, id)
  {
  }

  lemma OutreachKindIs(a: Activity, row: Row, arg: Value)
    ensures ConditionOn(OUTREACH_KIND, a, row, arg) == True <==> IsOutreach(a)
  {
    AmongTextsIs(Text(a.kind), ["call", "email", "meeting"]);
  }

  lemma {:induction false} AmongTextsIs(v: Value, texts: seq<string>)
    ensures AmongTexts(v, texts) == True <==> v.Text? && v.s in texts
  {
    if texts != [] {
      AmongTextsIs(v, texts[1..]);
    }
  }

  lemma WhereIs(figure: Figure, last: Condition, a: Activity, row: Row, ws: string, id: string, arg: Value)
    requires IsContact(row, ws, id)
    ensures Where(Subquery(figure, ITS_ACTIVITIES + [last]), row, arg)(a)
            <==> Refers(a, ws, Contact, id) && ConditionOn(last, a, row, arg) == True
  {
    var cs := ITS_ACTIVITIES + [last];
    ItsActivitiesAre(a, row, ws, id, arg);
    assert cs[0] in cs && cs[1] in cs && cs[2] in cs;
  }

  lemma {:induction false} MaxIsLatest(log: Log, chosen: Activity -> bool)
    ensures Max(log, chosen, "created_at") == match Latest(log, chosen) case None => Null case Some(t) => Int(t)
  {
    if log != [] {
      MaxIsLatest(log[..|log| - 1], chosen);
    }
  }

  function MaybeInt(t: Option<int>): Value {
    if t.Some? then Int(t.value) else Null
  }

  lemma OutreachWhere(figure: Figure, log: Log, row: Row, ws: string, id: string)
    requires IsContact(row, ws, id)
    ensures var kept := Where(Subquery(figure, ITS_ACTIVITIES + [OUTREACH_KIND]), row, Null);
            && Count(log, kept) == Count(log, OutreachOf(ws, Contact, id))
            && Latest(log, kept) == Latest(log, OutreachOf(ws, Contact, id))
  {
    var kept := Where(Subquery(figure, ITS_ACTIVITIES + [OUTREACH_KIND]), row, Null);
    forall a
      ensures kept(a) <==> OutreachOf(ws, Contact, id)(a)
    {
      WhereIs(figure, OUTREACH_KIND, a, row, ws, id, Null);
      OutreachKindIs(a, row, Null);
    }
    SameFigures(log, kept, OutreachOf(ws, Contact, id));
  }

  lemma DerivedCells(log: Log, row: Row, ws: string, id: string)
    requires IsContact(row, ws, id)
    ensures Cell(ContactView(log, row), CONTACT_LAST_OUTREACH) == MaybeInt(Latest(log, OutreachOf(ws, Contact, id)))
    ensures Cell(ContactView(log, row), CONTACT_OUTREACH_COUNT) == Int(Count(log, OutreachOf(ws, Contact, id)))
  {
    LastOutreachReads();
    OutreachCountReads();
    OutreachWhere(MaxOf("created_at"), log, row, ws, id);
    OutreachWhere(CountAll, log, row, ws, id);
    MaxIsLatest(log, Where(LAST_OUTREACH, row, Null));
  }

  /** The predicate holds for a value in the view exactly when its subquery finds a row. */
  lemma ViewRunsExists(log: Log, row: Row, ws: string, id: string, arg: Value)
    requires IsContact(row, ws, id)
    ensures HoldsFor(ContactView(log, row), CONTACT_BEHALF, arg) <==> ExistsFor(CONTACT_BEHALF, log, row, arg)
    ensures ExistsFor(CONTACT_BEHALF, log, row, arg)
            <==> arg.Text? && exists p :: p in Principals(log, ws, Contact, id) && Lower(p) == Lower(arg.s)
  {
    BehalfExists(log, row, ws, id, arg);
    forall a | a in log && a.onBehalfOf.Some?
      ensures ExistsFor(CONTACT_BEHALF, log, row, Text(a.onBehalfOf.value))
              <==> exists p :: p in Principals(log, ws, Contact, id) && Lower(p) == Lower(a.onBehalfOf.value)
    {
      BehalfExists(log, row, ws, id, Text(a.onBehalfOf.value));
    }
  }

  lemma BehalfExists(log: Log, row: Row, ws: string, id: string, arg: Value)
    requires IsContact(row, ws, id)
    ensures ExistsFor(CONTACT_BEHALF, log, row, arg)
            <==> arg.Text? && exists p :: p in Principals(log, ws, Contact, id) && Lower(p) == Lower(arg.s)
  {
    BehalfReads();
    LatestIsMaximum(log, Where(BEHALF, row, arg));
    if i: nat :| i < |log| && Where(BEHALF, row, arg)(log[i]) {
      BehalfWhere(log[i], row, ws, id, arg);
      assert log[i].onBehalfOf.value in Principals(log, ws, Contact, id);
    }
    if arg.Text? && exists p :: p in Principals(log, ws, Contact, id) && Lower(p) == Lower(arg.s) {
      var p :| p in Principals(log, ws, Contact, id) && Lower(p) == Lower(arg.s);
      var a :| a in log && Refers(a, ws, Contact, id) && a.onBehalfOf == Some(p);
      var i :| 0 <= i < |log| && log[i] == a;
      BehalfWhere(log[i], row, ws, id, arg);
    }
  }

  lemma BehalfWhere(a: Activity, row: Row, ws: string, id: string, arg: Value)
    requires IsContact(row, ws, id)
    ensures Where(BEHALF, row, arg)(a)
            <==> && Refers(a, ws, Contact, id) && a.onBehalfOf.Some? && arg.Text?
                 && Lower(a.onBehalfOf.value) == Lower(arg.s)
  {
    WhereIs(One, SameText("on_behalf_of"), a, row, ws, id, arg);
  }

  // ---- The filters ---------------------------------------------------------------------

  /** A filter on one derived column, whatever its operator. */
  predicate FiltersColumn(f: Filter, column: string) {
    FilterOk(f) && f.expr.None? && f.jsonKey == "" && f.column == column
  }

  /** Any `outreach_count` filter selects by the number that the batch query shows for the row. */
  lemma OutreachCountFilters(log: Log, stats: map<string, Stat>, ids: seq<string>, ws: string, id: string, row: Row,
                             d: Dialect, f: Filter)
    requires IsBatch(stats, log, ws, Contact, ids) && id in ids && id != "" && IsContact(row, ws, id)
    requires FiltersColumn(f, CONTACT_OUTREACH_COUNT)
    ensures Satisfies(d, f, ContactView(log, row)) <==> Meets(f, Int(Displayed(stats, id).outreach))
  {
    DerivedCells(log, row, ws, id);
    BatchAgreesWithSingle(log, ws, Contact, ids, stats, id);
  }

  /** A filter that time zero and no time at all answer differently. */
  predicate TellsTimeZero(f: Filter)
    requires FilterOk(f) && f.expr.None? && f.jsonKey == ""
  {
    || f.op == IS_NULL || f.op == IS_NOT_NULL
    || (if f.op == IN then Int(0) in f.values else f.value != Null && Related(f.op, Int(0), f.value))
  }

  /** Any `last_outreach` filter selects by the time that the batch query shows for the row,
      exactly unless the last outreach happened at time zero, which is shown as none, and the
      filter tells the two apart. */
  lemma LastOutreachFilters(log: Log, stats: map<string, Stat>, ids: seq<string>, ws: string, id: string, row: Row,
                            d: Dialect, f: Filter)
    requires IsBatch(stats, log, ws, Contact, ids) && id in ids && id != "" && IsContact(row, ws, id)
    requires FiltersColumn(f, CONTACT_LAST_OUTREACH)
    ensures (Satisfies(d, f, ContactView(log, row)) <==> Meets(f, MaybeInt(Displayed(stats, id).lastOutreach)))
            <==> !(Latest(log, OutreachOf(ws, Contact, id)) == Some(0) && TellsTimeZero(f))
  {
    DerivedCells(log, row, ws, id);
    BatchAgreesWithSingle(log, ws, Contact, ids, stats, id);
  }

  lemma DerivedSpecs()
    ensures "outreach_count" in CONTACTS.filter && "last_outreach" in CONTACTS.filter
    ensures CONTACTS.filter["outreach_count"] == ColSpec(CONTACT_OUTREACH_COUNT, ColInt)
    ensures CONTACTS.filter["last_outreach"] == ColSpec(CONTACT_LAST_OUTREACH, ColTime)
  {
    assert "outreach_count" in CONTACT_DERIVED && "last_outreach" in CONTACT_DERIVED;
  }

  /** A field that is neither custom nor on_behalf_of is filtered by its column. */
  lemma FieldIsColumn(times: TimeParser, cfg: Config, field: string, raw: string, spec: ColSpec)
    requires field in cfg.filter && cfg.filter[field] == spec
    requires |field| > 7 && field[0] != 'c' && field[3] != 'b'
    ensures FieldFilter(times, cfg, field, raw) == FilterOf(times, spec, raw)
  {
    assert CUSTOM_PREFIX[0] == 'c' && ON_BEHALF_OF[3] == 'b';
  }

  lemma OutreachCountIsColumn(times: TimeParser, cfg: Config, raw: string, spec: ColSpec)
    requires "outreach_count" in cfg.filter && cfg.filter["outreach_count"] == spec
    ensures FieldFilter(times, cfg, "outreach_count", raw) == FilterOf(times, spec, raw)
  {
    FieldIsColumn(times, cfg, "outreach_count", raw, spec);
  }

  lemma LastOutreachIsColumn(times: TimeParser, cfg: Config, raw: string, spec: ColSpec)
    requires "last_outreach" in cfg.filter && cfg.filter["last_outreach"] == spec
    ensures FieldFilter(times, cfg, "last_outreach", raw) == FilterOf(times, spec, raw)
  {
    FieldIsColumn(times, cfg, "last_outreach", raw, spec);
  }

  /** From the parameter on: `outreach_count=raw` selects exactly the contacts whose shown number of
      outreaches the value chooses. */
  lemma OutreachCountParameter(times: TimeParser, log: Log, stats: map<string, Stat>, ids: seq<string>, ws: string,
                               id: string, row: Row, d: Dialect, raw: string)
    requires IsBatch(stats, log, ws, Contact, ids) && id in ids && id != "" && IsContact(row, ws, id)
    ensures var r := FieldFilter(times, CONTACTS, "outreach_count", raw);
            && (r.Ok? <==> Acceptable(times, ColInt, raw))
            && (r.Ok? ==> FilterOk(r.value)
                          && (Satisfies(d, r.value, ContactView(log, row))
                              <==> Chooses(times, ColInt, raw, Int(Displayed(stats, id).outreach))))
  {
    DerivedSpecs();
    OutreachCountIsColumn(times, CONTACTS, raw, ColSpec(CONTACT_OUTREACH_COUNT, ColInt));
    OutreachCountLacks(MARK);
    FilterChooses(times, ColSpec(CONTACT_OUTREACH_COUNT, ColInt), raw, d, ContactView(log, row));
    DerivedCells(log, row, ws, id);
    BatchAgreesWithSingle(log, ws, Contact, ids, stats, id);
  }

  /** Likewise `last_outreach=raw` and the shown time, exactly unless the last outreach happened at
      time zero and the value chooses one of time zero and no time but not the other. */
  lemma LastOutreachParameter(times: TimeParser, log: Log, stats: map<string, Stat>, ids: seq<string>, ws: string,
                              id: string, row: Row, d: Dialect, raw: string)
    requires IsBatch(stats, log, ws, Contact, ids) && id in ids && id != "" && IsContact(row, ws, id)
    ensures var r := FieldFilter(times, CONTACTS, "last_outreach", raw);
            && (r.Ok? <==> Acceptable(times, ColTime, raw))
            && (r.Ok? ==> FilterOk(r.value)
                          && ((Satisfies(d, r.value, ContactView(log, row))
                               <==> Chooses(times, ColTime, raw, MaybeInt(Displayed(stats, id).lastOutreach)))
                              <==> !(&& Latest(log, OutreachOf(ws, Contact, id)) == Some(0)
                                     && Chooses(times, ColTime, raw, Int(0)) != Chooses(times, ColTime, raw, Null))))
  {
    DerivedSpecs();
    LastOutreachIsColumn(times, CONTACTS, raw, ColSpec(CONTACT_LAST_OUTREACH, ColTime));
    LastOutreachLacks(MARK);
    FilterChooses(times, ColSpec(CONTACT_LAST_OUTREACH, ColTime), raw, d, ContactView(log, row));
    DerivedCells(log, row, ws, id);
    BatchAgreesWithSingle(log, ws, Contact, ids, stats, id);
  }

  /** An `on_behalf_of` filter selects exactly the contacts among whose shown principals one
      equals the value asked for, ignoring case; a blank value, which the request parser
      refuses, would also find blank principals, which are not shown. */
  lemma BehalfFilter(log: Log, shown: map<string, seq<string>>, ids: seq<string>, ws: string, id: string, row: Row,
                     d: Dialect, value: string)
    requires IsPrincipalsBatch(shown, log, ws, Contact, ids) && id in ids && id != "" && IsContact(row, ws, id)
    ensures var f := Filter("", "", Text(value), [], "", Some(CONTACT_BEHALF));
            var names := if id in shown then shown[id] else [];
            && FilterOk(f)
            && ((Satisfies(d, f, ContactView(log, row)) <==> exists p :: p in names && Lower(p) == Lower(value))
                <==> !(value == "" && "" in Principals(log, ws, Contact, id)))
  {
    BehalfLacks(MARK);
    PrincipalsAre(log, ws, Contact, id);
    ViewRunsExists(log, row, ws, id, Text(value));
    var names := if id in shown then shown[id] else [];
    assert names == PrincipalsOf(log, ws, Contact, id);
    assert forall p: string :: |Lower(p)| == |p|;
    assert Lower("") == "";
  }
}
