/** The texts of the statements that accepted requests lead to: every query parsed under a plain
    whitelist, the contacts' among them, is one whose statements keep their meaning when they
    are rebound. */
module RequestText {
  import opened Cursors
  import opened Dialects
  import opened ListMeaning
  import opened ListSql
  import opened ListText
  import opened Options
  import opened QueryParams
  import opened SqlSelect
  import opened SqlText
  import opened SqlValues
  import opened Texts
  import Whitelists

  /** No text of a whitelist holds a placeholder, and what follows a placeholder may. */
  predicate ConfigPlain(cfg: Config) {
    && (forall name :: name in cfg.filter ==> PlainText(cfg.filter[name].column))
    && (forall name :: name in cfg.sortBy ==> PlainText(cfg.sortBy[name].column))
    && (forall c :: c in cfg.search ==> PlainText(c))
    && (cfg.behalf.Some? ==>
          && PlainText(cfg.behalf.value.head) && PlainText(cfg.behalf.value.tail)
          && MayFollow(Lit(cfg.behalf.value.tail)))
  }

  lemma FilterOfColumn(times: TimeParser, spec: ColSpec, raw: string)
    ensures var f := FilterOf(times, spec, raw); f.Ok? ==> f.value.column == spec.column && f.value.expr.None?
  {
  }

  lemma CustomFilterPlain(key: string, raw: string)
    ensures FilterPlain(CustomFilter(key, raw))
  {
    assert PlainText(CUSTOM);
    assert CustomFilter(key, raw).column == CUSTOM && CustomFilter(key, raw).expr.None?;
  }

  lemma FieldFilterPlain(times: TimeParser, cfg: Config, field: string, raw: string)
    requires ConfigPlain(cfg)
    ensures FieldFilter(times, cfg, field, raw).Ok? ==> FilterPlain(FieldFilter(times, cfg, field, raw).value)
  {
    if HasPrefix(field, CUSTOM_PREFIX) {
      CustomFilterPlain(field[|CUSTOM_PREFIX|..], raw);
    } else if field != ON_BEHALF_OF && field in cfg.filter {
      FilterOfColumn(times, cfg.filter[field], raw);
    }
  }

  lemma {:induction false} FieldFiltersPlain(times: TimeParser, cfg: Config, params: Params, order: seq<string>)
    requires ConfigPlain(cfg) && FieldFilters(times, cfg, params, order).Ok?
    ensures forall f :: f in FieldFilters(times, cfg, params, order).value ==> FilterPlain(f)
  {
    if order != [] {
      FieldFiltersPlain(times, cfg, params, order[1..]);
      if IsField(params, order[0]) {
        FieldFilterPlain(times, cfg, order[0], params[order[0]][0]);
      }
    }
  }

  lemma {:induction false} TagsPlain(parts: seq<string>)
    ensures forall f :: f in TagsOf(parts) ==> FilterPlain(f)
  {
    if parts != [] {
      TagsPlain(parts[1..]);
      assert PlainText(TAGS);
    }
  }

  lemma {:induction false} TagFiltersPlain(raws: seq<string>)
    ensures forall f :: f in TagFilters(raws) ==> FilterPlain(f)
  {
    if raws != [] {
      TagsPlain(Split(raws[0], ','));
      TagFiltersPlain(raws[1..]);
    }
  }

  /** Every query of an accepted request is plain. */
  lemma ParsedQueryIsPlain(times: TimeParser, cfg: Config, params: Params, order: seq<string>)
    requires ConfigOk(cfg) && ConfigPlain(cfg) && ParsedQuery(times, cfg, params, order).Ok?
    ensures QueryPlain(ParsedQuery(times, cfg, params, order).value)
  {
    var q := ParsedQuery(times, cfg, params, order).value;
    ParsedQueryIsOk(times, cfg, params, order);
    FieldFiltersPlain(times, cfg, params, order);
    if cfg.tags && TAGS in params {
      TagFiltersPlain(params[TAGS]);
    }
    var name :| name in cfg.sortBy && cfg.sortBy[name].column == SortColumn(q);
    assert PlainText(cfg.sortBy[name].column);
    assert forall i :: 0 <= i < |q.searchColumns| ==> q.searchColumns[i] in cfg.search;
  }

  // ---- Contacts ------------------------------------------------------------------------

  lemma NamesPlain()
    ensures forall name :: name in Whitelists.CONTACT_TEXTS ==> PlainText(name)
    ensures forall name :: name in Whitelists.TIMES ==> PlainText(name)
    ensures PlainText("name")
  {
  }

  lemma DerivedPlain()
    ensures forall name :: name in Whitelists.CONTACT_DERIVED ==> PlainText(Whitelists.CONTACT_DERIVED[name].column)
    ensures PlainText(Whitelists.CONTACT_BEHALF.head) && PlainText(Whitelists.CONTACT_BEHALF.tail)
  {
    Whitelists.LastOutreachLacks(MARK);
    Whitelists.LastOutreachLacks(DOLLAR);
    Whitelists.OutreachCountLacks(MARK);
    Whitelists.OutreachCountLacks(DOLLAR);
    Whitelists.BehalfLacks(MARK);
    Whitelists.BehalfLacks(DOLLAR);
  }

  lemma ContactFiltersPlain()
    ensures forall name :: name in Whitelists.CONTACTS.filter ==> PlainText(Whitelists.CONTACTS.filter[name].column)
  {
    NamesPlain();
    DerivedPlain();
  }

  lemma ContactSortsPlain()
    ensures forall name :: name in Whitelists.CONTACTS.sortBy ==> PlainText(Whitelists.CONTACTS.sortBy[name].column)
    ensures forall c :: c in Whitelists.CONTACTS.search ==> PlainText(c)
  {
    NamesPlain();
    assert forall c :: c in Whitelists.CONTACTS.search ==> c in Whitelists.CONTACT_TEXTS;
  }

  lemma ContactWhitelistIsPlain()
    ensures ConfigPlain(Whitelists.CONTACTS)
  {
    ContactFiltersPlain();
    ContactSortsPlain();
    DerivedPlain();
  }

  /** The columns a contact is read from. */
  const CONTACT_COLUMNS := Separated(COLUMN_NAMES, ',')
  const COLUMN_NAMES := FIRST_NAMES + MORE_NAMES
  const FIRST_NAMES := ["id", " handle", " version", " name", " email", " phone", " company_id", " owner"]
  const MORE_NAMES := [" stage", " tags", " notes", " custom", " created_at", " updated_at", " created_by"]

  lemma ColumnsPlain()
    ensures PlainText(CONTACT_COLUMNS) && PlainText(Whitelists.CONTACTS_TABLE)
  {
    forall c | c == MARK || c == DOLLAR
      ensures c !in CONTACT_COLUMNS
    {
      NamesLack(c);
      Whitelists.SeparatedLacks(COLUMN_NAMES, ',', c);
    }
  }

  lemma NamesLack(c: char)
    requires c == MARK || c == DOLLAR
    ensures Whitelists.Lacking(COLUMN_NAMES, c)
  {
    FirstNamesLack(c);
    MoreNamesLack(c);
  }

  lemma FirstNamesLack(c: char)
    requires c == MARK || c == DOLLAR
    ensures Whitelists.Lacking(FIRST_NAMES, c)
  {
  }

  lemma MoreNamesLack(c: char)
    requires c == MARK || c == DOLLAR
    ensures Whitelists.Lacking(MORE_NAMES, c)
  {
  }

  /** Both statements of every accepted contact list request, as the driver sends them, are the
      texts of their numbered tokens and read with the same placeholders as before rebinding. */
  lemma ContactTextsKeepMeaning(times: TimeParser, params: Params, order: seq<string>, d: Dialect)
    requires ParsedQuery(times, Whitelists.CONTACTS, params, order).Ok?
    ensures var q := ParsedQuery(times, Whitelists.CONTACTS, params, order).value;
            var list := Marked(ListTokens(d, Whitelists.CONTACTS_TABLE, CONTACT_COLUMNS, q));
            var count := Marked(CountTokens(d, Whitelists.CONTACTS_TABLE, q));
            && Render(Sent(d, list)) == Rebound(d, Render(list))
            && Read(Rebound(d, Render(list)), 0) == Read(Render(list), 0)
            && Render(Sent(d, count)) == Rebound(d, Render(count))
            && Read(Rebound(d, Render(count)), 0) == Read(Render(count), 0)
  {
    Whitelists.ContactWhitelistIsOk();
    ContactWhitelistIsPlain();
    ParsedQueryIsPlain(times, Whitelists.CONTACTS, params, order);
    ColumnsPlain();
    ListTextKeepsMeaning(d, Whitelists.CONTACTS_TABLE, CONTACT_COLUMNS,
      ParsedQuery(times, Whitelists.CONTACTS, params, order).value);
    CountTextKeepsMeaning(d, Whitelists.CONTACTS_TABLE, ParsedQuery(times, Whitelists.CONTACTS, params, order).value);
  }
}
