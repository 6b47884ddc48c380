/** The whitelist for contacts, and the expressions derived from the activity log
    that stand in for columns: internal/server/query.go. */
module Whitelists {
  import opened Dialects
  import opened ListMeaning
  import opened Options
  import opened QueryParams
  import opened SqlSelect
  import opened Texts

  /** Words with one space between them. */
  function Words(ws: seq<string>): string {
    Separated(ws, ' ')
  }

  const CONTACTS_TABLE := "contacts"

  const SAME_WORKSPACE := ["a.workspace_id", "=", "contacts.workspace_id"]
  const THIS_CONTACT := ["a.contact_id", "=", "contacts.id"]
  const FROM_ACTIVITIES := ["FROM", "activities", "a", "WHERE"]
  const CONTACT_ACTIVITIES := FROM_ACTIVITIES + SAME_WORKSPACE + ["AND"] + THIS_CONTACT
  const OUTREACH := ["AND", "a.kind", "IN", "('call','email','meeting')"]
  const ON_BEHALF := ["AND", "lower(a.on_behalf_of)", "="]

  const LAST_OUTREACH_WORDS := ["SELECT", "MAX(a.created_at)"] + CONTACT_ACTIVITIES + OUTREACH
  const OUTREACH_COUNT_WORDS := ["SELECT", "COUNT(*)"] + CONTACT_ACTIVITIES + OUTREACH
  const BEHALF_WORDS := ["SELECT", "1"] + CONTACT_ACTIVITIES + ON_BEHALF

  const CONTACT_LAST_OUTREACH := "(" + Words(LAST_OUTREACH_WORDS) + ")"
  const CONTACT_OUTREACH_COUNT := "(" + Words(OUTREACH_COUNT_WORDS) + ")"
  const CONTACT_BEHALF := Predicate("EXISTS (" + Words(BEHALF_WORDS) + " lower(", "))")

  const CONTACT_TEXTS := {"name", "email", "phone", "company_id", "owner", "stage", "created_by"}
  const TIMES := {"created_at", "updated_at"}

  /** Fields that are columns of the same name. */
  function Plain(names: set<string>, kind: ColKind): map<string, ColSpec> {
    map name | name in names :: ColSpec(name, kind)
  }

  const CONTACT_SORTS := Plain({"name"}, ColText) + Plain(TIMES, ColTime)

  const CONTACT_DERIVED: map<string, ColSpec> := map[
    "last_outreach" := ColSpec(CONTACT_LAST_OUTREACH, ColTime),
      "outreach_count" := ColSpec(CONTACT_OUTREACH_COUNT, ColInt)]

  const CONTACTS := Config(Plain(CONTACT_TEXTS, ColText) + Plain(TIMES, ColTime) + CONTACT_DERIVED, CONTACT_SORTS,
                           ["name", "email", "phone", "company_id", "stage"], "updated_at",
                           true, true, Some(CONTACT_BEHALF))

  predicate Lacking(ws: seq<string>, c: char) {
    forall w :: w in ws ==> c !in w
  }

  lemma {:induction false} SeparatedLacks(ws: seq<string>, sep: char, c: char)
    requires c != sep && Lacking(ws, c)
    ensures c !in Separated(ws, sep)
  {
    if ws != [] {
      assert ws[0] in ws;
      SeparatedLacks(ws[1..], sep, c);
    }
  }

  predicate IsMark(c: char) {
    c == MARK || c == DOLLAR
  }

  lemma JoinsLack(c: char)
    requires IsMark(c)
    ensures Lacking(SAME_WORKSPACE, c) && Lacking(THIS_CONTACT, c)
  {
  }

  lemma PhrasesLack(c: char)
    requires IsMark(c)
    ensures Lacking(FROM_ACTIVITIES, c) && Lacking(SAME_WORKSPACE, c)
    ensures Lacking(["AND"], c) && Lacking(THIS_CONTACT, c)
  {
    JoinsLack(c);
  }

  lemma ActivitiesLack(c: char)
    requires IsMark(c)
    ensures Lacking(CONTACT_ACTIVITIES, c)
  {
    PhrasesLack(c);
  }

  lemma SelectLacks(select: seq<string>, end: seq<string>, c: char)
    requires IsMark(c) && Lacking(select, c) && Lacking(end, c)
    ensures c !in Words(select + CONTACT_ACTIVITIES + end)
  {
    ActivitiesLack(c);
    SeparatedLacks(select + CONTACT_ACTIVITIES + end, ' ', c);
  }

  lemma OutreachLacks(c: char)
    requires IsMark(c)
    ensures Lacking(OUTREACH, c)
  {
  }

  lemma LastOutreachLacks(c: char)
    requires IsMark(c)
    ensures c !in CONTACT_LAST_OUTREACH
  {
    assert Lacking(["SELECT", "MAX(a.created_at)"], c);
    OutreachLacks(c);
    SelectLacks(["SELECT", "MAX(a.created_at)"], OUTREACH, c);
  }

  lemma OutreachCountLacks(c: char)
    requires IsMark(c)
    ensures c !in CONTACT_OUTREACH_COUNT
  {
    assert Lacking(["SELECT", "COUNT(*)"], c);
    OutreachLacks(c);
    SelectLacks(["SELECT", "COUNT(*)"], OUTREACH, c);
  }

  lemma BehalfLacks(c: char)
    requires IsMark(c)
    ensures c !in CONTACT_BEHALF.head && c !in CONTACT_BEHALF.tail
  {
    assert Lacking(["SELECT", "1"], c) && Lacking(ON_BEHALF, c);
    SelectLacks(["SELECT", "1"], ON_BEHALF, c);
  }

  predicate SpecsOk(specs: map<string, ColSpec>) {
    forall name :: name in specs ==> ColumnOk(specs[name].column)
  }

  lemma DerivedOk()
    ensures SpecsOk(CONTACT_DERIVED)
  {
    LastOutreachLacks(MARK);
    OutreachCountLacks(MARK);
  }

  lemma PlainOk(names: set<string>, kind: ColKind)
    requires forall name :: name in names ==> MARK !in name
    ensures SpecsOk(Plain(names, kind))
  {
  }

  lemma MergedOk(a: map<string, ColSpec>, b: map<string, ColSpec>)
    requires SpecsOk(a) && SpecsOk(b)
    ensures SpecsOk(a + b)
  {
  }

  lemma ContactNames()
    ensures forall name :: name in CONTACT_TEXTS ==> MARK !in name
    ensures forall name :: name in TIMES ==> MARK !in name
  {
  }

  /** A whitelisted name stands for the column of that name, but for the two derived ones; only the
      two times are read as times, and a list is sorted by nothing else but the name. */
  lemma ContactFieldsAreColumns(field: string)
    ensures field in CONTACTS.filter && field != "last_outreach" && field != "outreach_count" ==>
              CONTACTS.filter[field].column == field
              && CONTACTS.filter[field].kind == if field in {"created_at", "updated_at"} then ColTime else ColText
    ensures field in CONTACTS.sortBy <==> field in {"name", "created_at", "updated_at"}
    ensures field in CONTACTS.sortBy ==> CONTACTS.sortBy[field] == CONTACTS.filter[field]
  {
    var plain := Plain(CONTACT_TEXTS, ColText) + Plain(TIMES, ColTime);
    assert CONTACTS.filter == plain + CONTACT_DERIVED;
    assert field in CONTACT_DERIVED <==> field == "last_outreach" || field == "outreach_count";
  }

  /** The whitelist satisfies what the statement theorems ask of one. */
  lemma ContactWhitelistIsOk()
    ensures ConfigOk(CONTACTS)
  {
    ContactNames();
    PlainOk(CONTACT_TEXTS, ColText);
    PlainOk(TIMES, ColTime);
    MergedOk(Plain(CONTACT_TEXTS, ColText), Plain(TIMES, ColTime));
    DerivedOk();
    MergedOk(Plain(CONTACT_TEXTS, ColText) + Plain(TIMES, ColTime), CONTACT_DERIVED);
    SortsOk();
    BehalfLacks(MARK);
    assert forall c :: c in CONTACTS.search ==> c in CONTACT_TEXTS;
  }

  lemma SortsOk()
    ensures SpecsOk(CONTACT_SORTS) && "updated_at" in CONTACT_SORTS
  {
    ContactNames();
    assert MARK !in "name";
    PlainOk({"name"}, ColText);
    PlainOk(TIMES, ColTime);
  }
}
