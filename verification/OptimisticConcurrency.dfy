/** PATCH on a contact: a read, a merge and a version-checked write, spread over several SQL
    statements of internal/store/crm.go and internal/server/handlers_crm.go. First the
    statements and the handler run alone, then any interleaving of any number of requests. */
module OptimisticConcurrency {
  import Decimal
  import opened Options
  import opened Texts

  /** A contact is addressed inside its workspace. */
  datatype Key = Key(ws: string, id: string)

  /** The columns that UPDATE contacts sets, besides `custom`, and a value for each. */
  datatype Column = Name | Email | Phone | CompanyId | Owner | Stage | Tags | Notes
  type Columns = m: map<Column, string> | forall f: Column :: f in m witness BLANK

  const BLANK: map<Column, string> := map f: Column | true :: ""

  /** What a PATCH can change of a contact; `custom` is a JSON object of its own. */
  datatype Content = Content(columns: Columns, custom: map<string, string>)

  /** A PATCH body: the columns it names (null does not name a text column: it leaves it alone),
      and what it says of `custom`: nothing, null, or an object with some of its keys. */
  datatype Patch = Patch(columns: map<Column, string>, custom: CustomPatch)
  datatype CustomPatch = Unnamed | Cleared | Named(fields: map<string, string>)

  /** A body that decodes, with the version in it, zero if there is none. */
  datatype Body = Body(patch: Patch, version: int)

  datatype Row = Row(version: int, content: Content)
  type Table = map<Key, Row>

  datatype Outcome = Updated(version: int, content: Content) | NotFound | Conflict | BadRequest | ServerError

  /** Decoding the body onto the record that was read: named columns win, the rest stay, and
      so do the keys of `custom` unless it is cleared. */
  function Merge(p: Patch, c: Content): (r: Content)
    ensures forall f :: r.columns[f] == if f in p.columns then p.columns[f] else c.columns[f]
    ensures p.custom.Unnamed? ==> r.custom == c.custom
    ensures p.custom.Cleared? ==> r.custom == map[]
    ensures p.custom.Named? ==> forall f :: f in r.custom <==> f in p.custom.fields || f in c.custom
    ensures p.custom.Named? ==>
              forall f :: f in r.custom ==> r.custom[f] == if f in p.custom.fields then p.custom.fields[f]
                  else c.custom[f]
  {
    Content(c.columns + p.columns,
            match p.custom
            case Unnamed => c.custom
            case Cleared => map[]
            case Named(fields) => c.custom + fields)
  }

  // ---- The version a request expects -----------------------------------------------

  predicate IsQuote(c: char) {
    c == '"' || c == ' '
  }

  /** The If-Match header if it holds a number, else the version in the body, zero if none. */
  function ExpectedVersion(ifMatch: string, inBody: int): int {
    var m := Trim(IsQuote, ifMatch);
    if m != "" && m != "*" && Decimal.ParseInt(m).1 then Decimal.ParseInt(m).0 else inBody
  }

  predicate Padding(s: string) {
    forall i :: 0 <= i < |s| ==> s[i] == '"' || s[i] == ' '
  }

  /** The header is a number, in quotes and spaces or not. */
  ghost predicate Pads(ifMatch: string, before: string, core: string, after: string, n: int) {
    ifMatch == before + core + after && Padding(before) && Padding(after) && Decimal.Spells(core, n)
  }

  ghost predicate NamesVersion(ifMatch: string, n: int) {
    Decimal.MIN_INT64 <= n <= Decimal.MAX_INT64 && exists before, core, after :: Pads(ifMatch, before, core, after, n)
  }

  /** The version a request carries: the one its header names, or the one in its body if the
      header names none. */
  ghost predicate Carries(ifMatch: string, inBody: int, n: int) {
    NamesVersion(ifMatch, n) || (n == inBody && forall k :: !NamesVersion(ifMatch, k))
  }

  lemma NumbersAreBare(core: string, n: int)
    requires Decimal.Spells(core, n)
    ensures core != [] && Bare(IsQuote, core)
  {
    var sign, digits :| Decimal.SpelledBy(core, n, sign, digits);
    assert core[|core| - 1] == digits[|digits| - 1];
    assert sign == "" ==> core[0] == digits[0];
    assert sign != "" ==> core[0] == sign[0];
  }

  lemma NamedIsExpected(ifMatch: string, inBody: int, n: int)
    requires NamesVersion(ifMatch, n)
    ensures ExpectedVersion(ifMatch, inBody) == n
  {
    var before, core, after :| Pads(ifMatch, before, core, after, n);
    NumbersAreBare(core, n);
    TrimFinds(IsQuote, ifMatch, before, core, after);
    Decimal.ParseIntIs(core, n);
    Decimal.ParseIntIs("*", n);
  }

  /** Whatever the header, the version expected is the one the request carries. */
  lemma CarriedIsExpected(ifMatch: string, inBody: int, n: int)
    ensures Carries(ifMatch, inBody, n) <==> n == ExpectedVersion(ifMatch, inBody)
  {
    var m := Trim(IsQuote, ifMatch);
    forall k | NamesVersion(ifMatch, k)
      ensures ExpectedVersion(ifMatch, inBody) == k
    {
      NamedIsExpected(ifMatch, inBody, k);
    }
    if m != "" && m != "*" && Decimal.ParseInt(m).1 {
      var k := Decimal.ParseInt(m).0;
      var before, after := TrimIs(IsQuote, ifMatch);
      Decimal.ParseIntIs(m, k);
      assert Pads(ifMatch, before, m, after, k);
      assert NamesVersion(ifMatch, k);
    }
  }

  /** An entity tag made of a 64-bit version, quoted or not, is read back as that version. */
  lemma EntityTagRoundTrip(version: int, inBody: int)
    requires Decimal.MIN_INT64 <= version <= Decimal.MAX_INT64
    ensures ExpectedVersion(['"'] + Decimal.FormatInt(version) + ['"'], inBody) == version
    ensures ExpectedVersion(Decimal.FormatInt(version), inBody) == version
  {
    var s := Decimal.FormatInt(version);
    Decimal.IntRoundTrip(version);
    Decimal.ParseIntIs(s, version);
    assert Pads(['"'] + s + ['"'], ['"'], s, ['"'], version);
    assert Pads(s, [], s, [], version) by {
      assert s == [] + s + [];
    }
    NamedIsExpected(['"'] + s + ['"'], inBody, version);
    NamedIsExpected(s, inBody, version);
  }

  // ---- The statements ------------------------------------------------------------

  /** WHERE workspace_id = ? AND id = ? AND (? <= 0 OR version = ?) */
  predicate Matches(t: Table, k: Key, ifMatch: int) {
    k in t && (ifMatch <= 0 || t[k].version == ifMatch)
  }

  function AfterUpdate(t: Table, k: Key, c: Content, ifMatch: int): Table {
    if Matches(t, k, ifMatch) then t[k := Row(t[k].version + 1, c)] else t
  }

  /** checkConditional's reading of an UPDATE that touched no row. */
  function Refusal(t: Table, k: Key, ifMatch: int): Outcome {
    if k in t && ifMatch > 0 then Conflict else NotFound
  }

  /** A request that carries another version than the row's, in its header or in its body, is a
      conflict and changes nothing. */
  lemma StaleVersionConflicts(t: Table, k: Key, c: Content, ifMatch: string, inBody: int, n: int)
    requires Carries(ifMatch, inBody, n) && n > 0 && k in t && t[k].version != n
    ensures var e := ExpectedVersion(ifMatch, inBody);
            AfterUpdate(t, k, c, e) == t && Refusal(t, k, e) == Conflict
  {
    CarriedIsExpected(ifMatch, inBody, n);
  }

  /** The contacts table, one method per store call. */
  class ContactStore {
    var rows: Table

    constructor ()
      ensures rows == map[]
    {
      rows := map[];
    }

    method GetContact(k: Key) returns (found: bool, row: Row)
      ensures found == (k in rows)
      ensures found ==> row == rows[k]
    {
      found := k in rows;
      row := if found then rows[k] else Row(0, Content(BLANK, map[]));
    }

    method UpdateContact(k: Key, c: Content, ifMatch: int) returns (o: Outcome)
      modifies this
      ensures rows == AfterUpdate(old(rows), k, c, ifMatch)
      ensures Matches(old(rows), k, ifMatch) ==> o == Updated(old(rows)[k].version + 1, c)
      ensures !Matches(old(rows), k, ifMatch) ==> o == Refusal(old(rows), k, ifMatch)
    {
      var affected := 0;
      if Matches(rows, k, ifMatch) {
        rows := rows[k := Row(rows[k].version + 1, c)];
        affected := 1;
      }
      if affected == 0 {
        if k !in rows {
          return NotFound;
        }
        if ifMatch > 0 {
          return Conflict;
        }
        return NotFound;
      }
      var version := rows[k].version;
      return Updated(version, c);
    }

    /** handleUpdateContact with no other request in between; no body is one that does not
        decode. */
    method HandleUpdateContact(k: Key, ifMatch: string, body: Option<Body>) returns (o: Outcome)
      modifies this
      ensures k !in old(rows) ==> o == NotFound && rows == old(rows)
      ensures k in old(rows) && body.None? ==> o == BadRequest && rows == old(rows)
      ensures k in old(rows) && body.Some? ==>
                forall n :: Carries(ifMatch, body.value.version, n) ==>
                  if n > 0 && old(rows)[k].version != n then o == Conflict && rows == old(rows)
                  else
                    var merged := Merge(body.value.patch, old(rows)[k].content);
                    var next := old(rows)[k].version + 1;
                    o == Updated(next, merged) && rows == old(rows)[k := Row(next, merged)]
      ensures body.Some? ==> exists n :: Carries(ifMatch, body.value.version, n)
    {
      if body.Some? {
        CarriedIsExpected(ifMatch, body.value.version, ExpectedVersion(ifMatch, body.value.version));
        forall n | Carries(ifMatch, body.value.version, n)
          ensures n == ExpectedVersion(ifMatch, body.value.version)
        {
          CarriedIsExpected(ifMatch, body.value.version, n);
        }
      }
      var found, row := GetContact(k);
      if !found {
        return NotFound;
      }
      if body.None? {
        return BadRequest;
      }
      var merged := Merge(body.value.patch, row.content);
      o := UpdateContact(k, merged, ExpectedVersion(ifMatch, body.value.version));
    }
  }

  // ---- Interleaved requests --------------------------------------------------------

  /** One PATCH request with a body that decodes, and how far it has come; one without ends
      after its read. `sighted` records whether the version it
      expects already existed when the request arrived. */
  datatype Request = Request(key: Key, patch: Patch, expected: int, sighted: bool, at: Progress)

  datatype Progress =
    | Arrived
    | HasRead(base: Row)
    | Refused
    | HasWritten(wrote: int, content: Content)
    | Answered(outcome: Outcome)

  /** A write that took effect: request r moved the row from version `from` with what it had
      merged onto version `base`. */
  datatype Write = Write(request: nat, key: Key, patch: Patch, expected: int, sighted: bool, base: int, from: int)

  /** The table, the requests, and what the properties speak about: every content a row has
      had by version, every id ever used, and the writes in the order they took effect. */
  datatype State = State(
    rows: Table,
    requests: map<nat, Request>,
    history: map<(Key, int), Content>,
    used: set<string>,
    log: seq<Write>)

  const INITIAL := State(map[], map[], map[], {}, [])

  datatype Step =
    | Create(key: Key, content: Content)
    | Delete(key: Key)
    | Arrive(r: nat, key: Key, patch: Patch, expected: int)
    | Read(r: nat)
    | Update(r: nat)
    | Check(r: nat)
    | Reload(r: nat)

  function Advance(s: State, r: nat, at: Progress): State
    requires r in s.requests
  {
    s.(requests := s.requests[r := s.requests[r].(at := at)])
  }

  /** One statement of one request, or another client's create or delete. A step that is not
      enabled leaves the state as it is. */
  function Next(s: State, step: Step): State {
    match step
    case Create(k, c) =>
      if k.id in s.used then s
      else s.(rows := s.rows[k := Row(1, c)], history := s.history[(k, 1) := c], used := s.used + {k.id})
    case Delete(k) =>
      s.(rows := s.rows - {k})
    case Arrive(r, k, p, e) =>
      if r in s.requests then s
      else s.(requests := s.requests[r := Request(k, p, e, (k, e) in s.history, Arrived)])
    case Read(r) =>
      if r !in s.requests || !s.requests[r].at.Arrived? then s
      else
        var k := s.requests[r].key;
        Advance(s, r, if k in s.rows then HasRead(s.rows[k]) else Answered(NotFound))
    case Update(r) =>
      if r !in s.requests || !s.requests[r].at.HasRead? then s
      else
        var q := s.requests[r];
        if Matches(s.rows, q.key, q.expected) then Written(s, r) else Advance(s, r, Refused)
    case Check(r) =>
      if r !in s.requests || !s.requests[r].at.Refused? then s
      else Advance(s, r, Answered(Refusal(s.rows, s.requests[r].key, s.requests[r].expected)))
    case Reload(r) =>
      if r !in s.requests || !s.requests[r].at.HasWritten? then s
      else
        var q := s.requests[r];
        Advance(s, r, Answered(if q.key in s.rows then Updated(s.rows[q.key].version, q.at.content) else ServerError))
  }

  function Written(s: State, r: nat): State
    requires r in s.requests && s.requests[r].at.HasRead?
    requires Matches(s.rows, s.requests[r].key, s.requests[r].expected)
  {
    var q := s.requests[r];
    var c := Merge(q.patch, q.at.base.content);
    var v := s.rows[q.key].version;
    Advance(s, r, HasWritten(v + 1, c)).(
      rows := AfterUpdate(s.rows, q.key, c, q.expected),
      history := s.history[(q.key, v + 1) := c],
      log := s.log + [Write(r, q.key, q.patch, q.expected, q.sighted, q.at.base.version, v)])
  }

  function Run(s: State, steps: seq<Step>): State {
    if steps == [] then s else Next(Run(s, steps[..|steps| - 1]), steps[|steps| - 1])
  }

  lemma RunThen(s: State, steps: seq<Step>, step: Step)
    ensures Run(s, steps + [step]) == Next(Run(s, steps), step)
  {
    assert (steps + [step])[..|steps|] == steps;
  }

  lemma {:induction false} RunBoth(s: State, a: seq<Step>, b: seq<Step>)
    ensures Run(s, a + b) == Run(Run(s, a), b)
  {
    if b == [] {
      assert a + b == a;
    } else {
      var n := |b| - 1;
      RunBoth(s, a, b[..n]);
      assert (a + b)[..|a + b| - 1] == a + b[..n];
      assert b == b[..n] + [b[n]];
    }
  }

  /** A request that arrives, reads and runs its update with nothing in between. */
  function PatchSteps(r: nat, k: Key, p: Patch, e: int): seq<Step> {
    [Arrive(r, k, p, e)] + [Read(r)] + [Update(r)]
  }

  lemma PatchStepsRun(s: State, r: nat, k: Key, p: Patch, e: int)
    ensures Run(s, PatchSteps(r, k, p, e)) == Patched(s, r, k, p, e)
  {
    RunThen(s, [], Arrive(r, k, p, e));
    assert [] + [Arrive(r, k, p, e)] == [Arrive(r, k, p, e)];
    RunThen(s, [Arrive(r, k, p, e)], Read(r));
    RunThen(s, [Arrive(r, k, p, e)] + [Read(r)], Update(r));
  }

  /** A request's statements with nothing in between. */
  function Alone(s: State, r: nat, k: Key, p: Patch, e: int): State {
    Next(Next(Next(Next(Next(s, Arrive(r, k, p, e)), Read(r)), Update(r)), Check(r)), Reload(r))
  }

  /** A request that has arrived and read; one that has also run its update. */
  function Sent(s: State, r: nat, k: Key, p: Patch, e: int): State {
    Next(Next(s, Arrive(r, k, p, e)), Read(r))
  }

  function Patched(s: State, r: nat, k: Key, p: Patch, e: int): State {
    Next(Sent(s, r, k, p, e), Update(r))
  }

  lemma SentHasRead(s: State, r: nat, k: Key, p: Patch, e: int)
    requires k in s.rows && r !in s.requests
    ensures Sent(s, r, k, p, e)
            == s.(requests := s.requests[r := Request(k, p, e, (k, e) in s.history, HasRead(s.rows[k]))])
  {
  }

  lemma PatchedWrites(s: State, r: nat, k: Key, p: Patch, e: int)
    requires Matches(s.rows, k, e) && r !in s.requests
    ensures var t := Patched(s, r, k, p, e);
            && t.rows == s.rows[k := Row(s.rows[k].version + 1, Merge(p, s.rows[k].content))]
            && (forall o :: o in s.requests ==> o in t.requests && t.requests[o] == s.requests[o])
            && r in t.requests && t.requests[r].key == k && t.requests[r].patch == p
            && t.requests[r].at == HasWritten(s.rows[k].version + 1, Merge(p, s.rows[k].content))
            && t.log == s.log + [Write(r, k, p, e, (k, e) in s.history, s.rows[k].version, s.rows[k].version)]
  {
    SentHasRead(s, r, k, p, e);
  }

  lemma AloneNotFound(s: State, r: nat, k: Key, p: Patch, e: int)
    requires r !in s.requests && k !in s.rows
    ensures Alone(s, r, k, p, e)
         == s.(requests := s.requests[r := Request(k, p, e, (k, e) in s.history, Answered(NotFound))])
  {
    var t := s.(requests := s.requests[r := Request(k, p, e, (k, e) in s.history, Answered(NotFound))]);
    assert Sent(s, r, k, p, e) == t;
    assert Next(Next(Next(t, Update(r)), Check(r)), Reload(r)) == t;
  }

  lemma AloneConflict(s: State, r: nat, k: Key, p: Patch, e: int)
    requires r !in s.requests && k in s.rows && !Matches(s.rows, k, e)
    ensures r in Alone(s, r, k, p, e).requests && Alone(s, r, k, p, e).requests[r].at == Answered(Conflict)
    ensures Alone(s, r, k, p, e).rows == s.rows
  {
    SentHasRead(s, r, k, p, e);
    var t := Patched(s, r, k, p, e);
    assert t.rows == s.rows && t.requests[r].at == Refused;
  }

  lemma AloneUpdates(s: State, r: nat, k: Key, p: Patch, e: int)
    requires r !in s.requests && Matches(s.rows, k, e)
    ensures var t := Alone(s, r, k, p, e);
            var merged := Merge(p, s.rows[k].content);
            var next := s.rows[k].version + 1;
            && t.rows == s.rows[k := Row(next, merged)]
            && r in t.requests && t.requests[r].at == Answered(Updated(next, merged))
  {
    PatchedWrites(s, r, k, p, e);
  }

  /** They do what HandleUpdateContact is proved to do. */
  lemma AloneIsTheHandler(s: State, r: nat, k: Key, p: Patch, e: int)
    requires r !in s.requests
    ensures r in Alone(s, r, k, p, e).requests
    ensures var t := Alone(s, r, k, p, e);
            && (k !in s.rows ==> t.rows == s.rows && t.requests[r].at == Answered(NotFound))
            && (k in s.rows && !Matches(s.rows, k, e) ==> t.rows == s.rows && t.requests[r].at == Answered(Conflict))
            && (Matches(s.rows, k, e) ==>
                  var merged := Merge(p, s.rows[k].content);
                  var next := s.rows[k].version + 1;
                  t.rows == s.rows[k := Row(next, merged)] && t.requests[r].at == Answered(Updated(next, merged)))
  {
    if k !in s.rows {
      AloneNotFound(s, r, k, p, e);
    } else if Matches(s.rows, k, e) {
      AloneUpdates(s, r, k, p, e);
    } else {
      AloneConflict(s, r, k, p, e);
    }
  }

  // ---- What every reachable state satisfies ------------------------------------------

  /** Rows hold the latest version of their history; versions start at one and have no gap. */
  ghost predicate RowsFollowHistory(s: State) {
    && (forall k :: k in s.rows ==>
          k.id in s.used && s.rows[k].version >= 1
          && (k, s.rows[k].version) in s.history && s.history[(k, s.rows[k].version)] == s.rows[k].content)
    && (forall k, v :: (k, v) in s.history ==>
          k.id in s.used && 1 <= v && (k in s.rows ==> v <= s.rows[k].version))
  }

  /** What a request has read is a recorded version, and no older than one it sighted. */
  ghost predicate RequestRecorded(history: map<(Key, int), Content>, q: Request) {
    && (q.sighted ==> (q.key, q.expected) in history)
    && (q.at.HasRead? ==>
          && (q.key, q.at.base.version) in history
          && history[(q.key, q.at.base.version)] == q.at.base.content
          && (q.sighted ==> q.expected <= q.at.base.version))
    && (q.at.HasWritten? ==>
          (q.key, q.at.wrote) in history && history[(q.key, q.at.wrote)] == q.at.content)
  }

  ghost predicate ReadsAreRecorded(s: State) {
    forall r :: r in s.requests ==> RequestRecorded(s.history, s.requests[r])
  }

  /** The write merged its patch onto the version the request had read, which was the one it
      replaced whenever the request was conditional on a version it had sighted. */
  ghost predicate IsMerge(history: map<(Key, int), Content>, w: Write) {
    && (w.key, w.base) in history && (w.key, w.from) in history && (w.key, w.from + 1) in history
    && history[(w.key, w.from + 1)] == Merge(w.patch, history[(w.key, w.base)])
    && w.base <= w.from
    && (w.expected > 0 ==> w.from == w.expected && (w.sighted ==> w.base == w.expected))
  }

  ghost predicate WritesAreMerges(s: State) {
    forall i :: 0 <= i < |s.log| ==> IsMerge(s.history, s.log[i])
  }

  /** No version is replaced twice. */
  ghost predicate WritesAreDistinct(s: State) {
    forall i, j :: 0 <= i < j < |s.log| && s.log[i].key == s.log[j].key ==> s.log[i].from < s.log[j].from
  }

  ghost predicate Inv(s: State) {
    RowsFollowHistory(s) && ReadsAreRecorded(s) && WritesAreMerges(s) && WritesAreDistinct(s)
  }

  /** The version a write creates is new, and later than every write before it. */
  lemma WriteIsNew(s: State, k: Key)
    requires Inv(s) && k in s.rows
    ensures (k, s.rows[k].version + 1) !in s.history
    ensures forall i :: 0 <= i < |s.log| && s.log[i].key == k ==> s.log[i].from < s.rows[k].version
  {
  }

  lemma WriteKeepsLatest(s: State, r: nat, k: Key)
    requires Inv(s) && r in s.requests && s.requests[r].at.HasRead?
    requires Matches(s.rows, s.requests[r].key, s.requests[r].expected) && k in Written(s, r).rows
    ensures var row, history := Written(s, r).rows[k], Written(s, r).history;
            && k.id in s.used && row.version >= 1
            && (k, row.version) in history && history[(k, row.version)] == row.content
  {
    WriteIsNew(s, s.requests[r].key);
  }

  lemma WriteKeepsRows(s: State, r: nat)
    requires Inv(s) && r in s.requests && s.requests[r].at.HasRead?
    requires Matches(s.rows, s.requests[r].key, s.requests[r].expected)
    ensures RowsFollowHistory(Written(s, r))
  {
    var t := Written(s, r);
    forall k | k in t.rows
      ensures k.id in t.used && t.rows[k].version >= 1
      ensures (k, t.rows[k].version) in t.history && t.history[(k, t.rows[k].version)] == t.rows[k].content
    {
      WriteKeepsLatest(s, r, k);
    }
  }

  lemma RecordedStays(history: map<(Key, int), Content>, added: (Key, int), c: Content, q: Request)
    requires RequestRecorded(history, q) && added !in history
    ensures RequestRecorded(history[added := c], q)
  {
  }

  lemma MergeStays(history: map<(Key, int), Content>, added: (Key, int), c: Content, w: Write)
    requires IsMerge(history, w) && added !in history
    ensures IsMerge(history[added := c], w)
  {
  }

  lemma WriteKeepsReads(s: State, r: nat)
    requires Inv(s) && r in s.requests && s.requests[r].at.HasRead?
    requires Matches(s.rows, s.requests[r].key, s.requests[r].expected)
    ensures ReadsAreRecorded(Written(s, r))
  {
    var q, t := s.requests[r], Written(s, r);
    var added := (q.key, s.rows[q.key].version + 1);
    WriteIsNew(s, q.key);
    forall o | o in t.requests
      ensures RequestRecorded(t.history, t.requests[o])
    {
      RecordedStays(s.history, added, t.history[added], s.requests[o]);
    }
  }

  lemma NewWriteIsMerge(s: State, r: nat)
    requires Inv(s) && r in s.requests && s.requests[r].at.HasRead?
    requires Matches(s.rows, s.requests[r].key, s.requests[r].expected)
    ensures IsMerge(Written(s, r).history, Written(s, r).log[|s.log|])
  {
    WriteIsNew(s, s.requests[r].key);
    assert RequestRecorded(s.history, s.requests[r]);
  }

  lemma WriteKeepsMerges(s: State, r: nat)
    requires Inv(s) && r in s.requests && s.requests[r].at.HasRead?
    requires Matches(s.rows, s.requests[r].key, s.requests[r].expected)
    ensures WritesAreMerges(Written(s, r))
  {
    var q, t := s.requests[r], Written(s, r);
    var added := (q.key, s.rows[q.key].version + 1);
    WriteIsNew(s, q.key);
    NewWriteIsMerge(s, r);
    forall i | 0 <= i < |t.log|
      ensures IsMerge(t.history, t.log[i])
    {
      if i < |s.log| {
        MergeStays(s.history, added, t.history[added], s.log[i]);
      }
    }
  }

  lemma WriteKeepsInv(s: State, r: nat)
    requires Inv(s) && r in s.requests && s.requests[r].at.HasRead?
    requires Matches(s.rows, s.requests[r].key, s.requests[r].expected)
    ensures Inv(Written(s, r))
  {
    WriteKeepsRows(s, r);
    WriteKeepsReads(s, r);
    WriteKeepsMerges(s, r);
    WriteIsNew(s, s.requests[r].key);
  }

  lemma CreateExtendsHistory(s: State, k: Key, c: Content)
    requires RowsFollowHistory(s) && k.id !in s.used
    ensures forall v :: (k, v) !in s.history
    ensures RowsFollowHistory(Next(s, Create(k, c)))
  {
    forall v
      ensures (k, v) !in s.history
    {
      assert (k, v) in s.history ==> k.id in s.used;
    }
  }

  lemma CreateKeepsInv(s: State, k: Key, c: Content)
    requires Inv(s) && k.id !in s.used
    ensures Inv(Next(s, Create(k, c)))
  {
    var t := Next(s, Create(k, c));
    CreateExtendsHistory(s, k, c);
    forall r | r in t.requests
      ensures RequestRecorded(t.history, t.requests[r])
    {
      RecordedStays(s.history, (k, 1), c, s.requests[r]);
    }
    forall i | 0 <= i < |t.log|
      ensures IsMerge(t.history, t.log[i])
    {
      MergeStays(s.history, (k, 1), c, s.log[i]);
    }
  }

  lemma DeleteKeepsInv(s: State, k: Key)
    requires Inv(s)
    ensures Inv(Next(s, Delete(k)))
  {
  }

  /** Reading, arriving, checking and reloading touch one request and nothing else. */
  lemma RequestStepIsLocal(s: State, step: Step)
    requires step.Arrive? || step.Read? || step.Check? || step.Reload?
    ensures var t := Next(s, step);
            && t == s.(requests := t.requests)
            && (forall r :: r in t.requests && r != step.r ==> r in s.requests && t.requests[r] == s.requests[r])
  {
  }

  lemma RequestStepRecords(s: State, step: Step)
    requires Inv(s) && (step.Arrive? || step.Read? || step.Check? || step.Reload?)
    requires step.r in Next(s, step).requests
    ensures RequestRecorded(s.history, Next(s, step).requests[step.r])
  {
  }

  lemma RequestStepKeepsInv(s: State, step: Step)
    requires Inv(s) && (step.Arrive? || step.Read? || step.Check? || step.Reload?)
    ensures Inv(Next(s, step))
  {
    var t := Next(s, step);
    RequestStepIsLocal(s, step);
    forall r | r in t.requests
      ensures RequestRecorded(t.history, t.requests[r])
    {
      if r == step.r {
        RequestStepRecords(s, step);
      }
    }
  }

  lemma StepKeepsInv(s: State, step: Step)
    requires Inv(s)
    ensures Inv(Next(s, step))
  {
    if step.Create? {
      if step.key.id !in s.used {
        CreateKeepsInv(s, step.key, step.content);
      }
    } else if step.Update? {
      var r := step.r;
      if r in s.requests && s.requests[r].at.HasRead? {
        if Matches(s.rows, s.requests[r].key, s.requests[r].expected) {
          WriteKeepsInv(s, r);
        } else {
          assert Next(s, step) == Advance(s, r, Refused);
        }
      }
    } else if step.Delete? {
      DeleteKeepsInv(s, step.key);
    } else {
      RequestStepKeepsInv(s, step);
    }
  }

  lemma {:induction false} RunKeepsInv(steps: seq<Step>)
    ensures Inv(Run(INITIAL, steps))
  {
    if steps != [] {
      RunKeepsInv(steps[..|steps| - 1]);
      StepKeepsInv(Run(INITIAL, steps[..|steps| - 1]), steps[|steps| - 1]);
    }
  }

  // ---- Main results ------------------------------------------------------------------

  lemma LoggedIsMerge(s: State, i: nat)
    requires WritesAreMerges(s) && i < |s.log|
    ensures IsMerge(s.history, s.log[i])
  {
  }

  lemma RunWritesMerges(steps: seq<Step>)
    ensures WritesAreMerges(Run(INITIAL, steps))
  {
    RunKeepsInv(steps);
  }

  /** A write conditional on a version that existed when its request arrived is that
      request's patch applied to exactly that version's content: nothing written in between
      is lost. */
  lemma NoLostUpdate(steps: seq<Step>, i: nat)
    requires i < |Run(INITIAL, steps).log|
    requires var w := Run(INITIAL, steps).log[i]; w.expected > 0 && w.sighted
    ensures var s := Run(INITIAL, steps);
            var w := s.log[i];
            && (w.key, w.expected) in s.history && (w.key, w.expected + 1) in s.history
            && s.history[(w.key, w.expected + 1)] == Merge(w.patch, s.history[(w.key, w.expected)])
  {
    RunWritesMerges(steps);
    LoggedIsMerge(Run(INITIAL, steps), i);
  }

  /** At most one write replaces any one version of a row, so of the requests conditional on
      the same version at most one succeeds. */
  lemma OneWinnerPerVersion(steps: seq<Step>, i: nat, j: nat)
    requires i < |Run(INITIAL, steps).log| && j < |Run(INITIAL, steps).log|
    requires var log := Run(INITIAL, steps).log;
             log[i].key == log[j].key
             && (log[i].from == log[j].from || (log[i].expected == log[j].expected && log[i].expected > 0))
    ensures i == j
  {
    RunKeepsInv(steps);
    var s := Run(INITIAL, steps);
    assert IsMerge(s.history, s.log[i]) && IsMerge(s.history, s.log[j]);
  }

  function WritesTo(log: seq<Write>, k: Key): nat {
    if log == [] then 0
    else WritesTo(log[..|log| - 1], k) + if log[|log| - 1].key == k then 1 else 0
  }

  ghost predicate VersionsCountWrites(s: State) {
    && (forall k :: k in s.rows ==> s.rows[k].version == 1 + WritesTo(s.log, k))
    && (forall k: Key :: k.id !in s.used ==> WritesTo(s.log, k) == 0)
  }

  lemma {:induction false} WritesToAppend(log: seq<Write>, w: Write)
    ensures forall k :: WritesTo(log + [w], k) == WritesTo(log, k) + if w.key == k then 1 else 0
  {
  }

  lemma WriteKeepsVersionsCount(s: State, r: nat)
    requires Inv(s) && VersionsCountWrites(s) && r in s.requests && s.requests[r].at.HasRead?
    requires Matches(s.rows, s.requests[r].key, s.requests[r].expected)
    ensures VersionsCountWrites(Written(s, r))
  {
    var t := Written(s, r);
    WritesToAppend(s.log, t.log[|s.log|]);
  }

  lemma StepKeepsVersionsCount(s: State, step: Step)
    requires Inv(s) && VersionsCountWrites(s)
    ensures VersionsCountWrites(Next(s, step))
  {
    if step.Update? && Next(s, step).log != s.log {
      WriteKeepsVersionsCount(s, step.r);
    } else if step.Arrive? || step.Read? || step.Check? || step.Reload? {
      RequestStepIsLocal(s, step);
    }
  }

  /** A row's version is one more than the number of writes that took effect on it. */
  lemma {:induction false} VersionIsWriteCount(steps: seq<Step>)
    ensures VersionsCountWrites(Run(INITIAL, steps))
  {
    if steps != [] {
      VersionIsWriteCount(steps[..|steps| - 1]);
      RunKeepsInv(steps[..|steps| - 1]);
      StepKeepsVersionsCount(Run(INITIAL, steps[..|steps| - 1]), steps[|steps| - 1]);
    }
  }

  lemma HistoryStays(s: State, step: Step, k: Key, v: int)
    requires Inv(s) && (k, v) in s.history
    ensures (k, v) in Next(s, step).history && Next(s, step).history[(k, v)] == s.history[(k, v)]
  {
    if step.Update? && Next(s, step).log != s.log {
      WriteIsNew(s, s.requests[step.r].key);
    } else if step.Create? && step.key.id !in s.used {
      CreateExtendsHistory(s, step.key, step.content);
    }
  }

  /** A recorded version keeps its content for ever. */
  lemma HistoryIsStable(steps: seq<Step>, more: Step, k: Key, v: int)
    requires (k, v) in Run(INITIAL, steps).history
    ensures (k, v) in Run(INITIAL, steps + [more]).history
    ensures Run(INITIAL, steps + [more]).history[(k, v)] == Run(INITIAL, steps).history[(k, v)]
  {
    RunKeepsInv(steps);
    RunThen(INITIAL, steps, more);
    HistoryStays(Run(INITIAL, steps), more, k, v);
  }

  predicate TookEffect(at: Progress) {
    at.HasWritten? || (at.Answered? && (at.outcome.Updated? || at.outcome.ServerError?))
  }

  /** What request r's write, number i in the log, allows it to answer. */
  ghost predicate AnswersFor(s: State, r: nat, i: nat)
    requires r in s.requests && i < |s.log|
  {
    var w := s.log[i];
    var at := s.requests[r].at;
    && w.request == r && w.key == s.requests[r].key
    && (w.key, w.from + 1) in s.history
    && (at.HasWritten? ==> at.wrote == w.from + 1 && at.content == s.history[(w.key, w.from + 1)])
    && (at.Answered? && at.outcome.Updated? ==>
          at.outcome.version >= w.from + 1 && at.outcome.content == s.history[(w.key, w.from + 1)])
  }

  ghost predicate AnswersMatchLog(s: State) {
    && (forall r :: r in s.requests && TookEffect(s.requests[r].at) ==>
          exists i :: 0 <= i < |s.log| && AnswersFor(s, r, i))
    && (forall i :: 0 <= i < |s.log| ==> s.log[i].request in s.requests && TookEffect(s.requests[s.log[i].request].at))
  }

  lemma WrittenIsNoNewer(s: State, i: nat)
    requires Inv(s) && i < |s.log| && s.log[i].key in s.rows
    ensures s.log[i].from + 1 <= s.rows[s.log[i].key].version
  {
    assert IsMerge(s.history, s.log[i]);
  }

  lemma AnswerStays(s: State, step: Step, r: nat, i: nat)
    requires r in s.requests && TookEffect(s.requests[r].at) && i < |s.log| && AnswersFor(s, r, i)
    requires var at := (s.log[i].key, s.log[i].from + 1);
             at in Next(s, step).history && Next(s, step).history[at] == s.history[at]
    requires s.log[i].key in s.rows ==> s.log[i].from + 1 <= s.rows[s.log[i].key].version
    ensures r in Next(s, step).requests && i < |Next(s, step).log|
    ensures AnswersFor(Next(s, step), r, i)
  {
  }

  lemma AnswerSurvives(s: State, step: Step, r: nat, i: nat)
    requires Inv(s) && r in s.requests && TookEffect(s.requests[r].at)
    requires i < |s.log| && AnswersFor(s, r, i)
    ensures r in Next(s, step).requests && i < |Next(s, step).log|
    ensures AnswersFor(Next(s, step), r, i)
  {
    HistoryStays(s, step, s.log[i].key, s.log[i].from + 1);
    if s.log[i].key in s.rows {
      WrittenIsNoNewer(s, i);
    }
    AnswerStays(s, step, r, i);
  }

  lemma NewEffectIsLogged(s: State, step: Step, r: nat)
    requires Inv(s) && r in Next(s, step).requests && TookEffect(Next(s, step).requests[r].at)
    requires !(r in s.requests && TookEffect(s.requests[r].at))
    ensures |Next(s, step).log| == |s.log| + 1
    ensures AnswersFor(Next(s, step), r, |s.log|)
  {
    assert step == Update(r);
  }

  lemma StepKeepsAnswers(s: State, step: Step)
    requires Inv(s) && AnswersMatchLog(s)
    ensures AnswersMatchLog(Next(s, step))
  {
    var t := Next(s, step);
    forall r | r in t.requests && TookEffect(t.requests[r].at)
      ensures exists i :: 0 <= i < |t.log| && AnswersFor(t, r, i)
    {
      if r in s.requests && TookEffect(s.requests[r].at) {
        var i :| 0 <= i < |s.log| && AnswersFor(s, r, i);
        AnswerSurvives(s, step, r, i);
      } else {
        NewEffectIsLogged(s, step, r);
      }
    }
    forall i | 0 <= i < |t.log|
      ensures t.log[i].request in t.requests && TookEffect(t.requests[t.log[i].request].at)
    {
      LoggedRequestTookEffect(s, step, i);
    }
  }

  lemma LoggedRequestTookEffect(s: State, step: Step, i: nat)
    requires AnswersMatchLog(s) && i < |Next(s, step).log|
    ensures var t := Next(s, step);
            t.log[i].request in t.requests && TookEffect(t.requests[t.log[i].request].at)
  {
    if i < |s.log| {
      assert Next(s, step).log[i] == s.log[i];
    }
  }

  lemma {:induction false} RunKeepsAnswers(steps: seq<Step>)
    ensures AnswersMatchLog(Run(INITIAL, steps))
  {
    if steps != [] {
      RunKeepsAnswers(steps[..|steps| - 1]);
      RunKeepsInv(steps[..|steps| - 1]);
      StepKeepsAnswers(Run(INITIAL, steps[..|steps| - 1]), steps[|steps| - 1]);
    }
  }

  /** A request told not found or conflict wrote nothing; one told success wrote the content
      in its answer, under a version no newer than the one in its answer. */
  lemma AnswersAreTruthful(steps: seq<Step>, r: nat)
    requires r in Run(INITIAL, steps).requests && Run(INITIAL, steps).requests[r].at.Answered?
    ensures var s := Run(INITIAL, steps);
            var o := s.requests[r].at.outcome;
            && (o.NotFound? || o.Conflict? ==> forall i :: 0 <= i < |s.log| ==> s.log[i].request != r)
            && (o.Updated? ==> exists i :: 0 <= i < |s.log| && s.log[i].request == r
                                 && s.log[i].from + 1 <= o.version
                                 && (s.log[i].key, s.log[i].from + 1) in s.history
                                 && o.content == s.history[(s.log[i].key, s.log[i].from + 1)])
  {
    RunKeepsAnswers(steps);
    var s := Run(INITIAL, steps);
    var o := s.requests[r].at.outcome;
    if o.Updated? {
      var i :| 0 <= i < |s.log| && AnswersFor(s, r, i);
      assert s.log[i].request == r;
    }
  }

  /** Only a create, a delete or an update whose version check holds changes the table. */
  lemma OnlyEffectiveStepsChangeRows(s: State, step: Step)
    requires Next(s, step).rows != s.rows
    ensures step.Create? || step.Delete? || Next(s, step).log != s.log
  {
  }

  // ---- Where the protocol stops protecting ---------------------------------------------

  lemma UpdateWrites(s: State, r: nat)
    requires r in s.requests && s.requests[r].at.HasRead?
    ensures var q := s.requests[r];
            Next(s, Update(r)).rows == AfterUpdate(s.rows, q.key, Merge(q.patch, q.at.base.content), q.expected)
  {
  }

  /** The patch names everything in which the two contents differ. */
  ghost predicate Covers(p: Patch, a: Content, b: Content) {
    && (forall f :: a.columns[f] == b.columns[f] || f in p.columns)
    && (forall key :: || SameAt(a.custom, b.custom, key)
                      || p.custom.Cleared?
                      || (p.custom.Named? && key in p.custom.fields))
  }

  predicate SameAt(a: map<string, string>, b: map<string, string>, key: string) {
    if key in a then key in b && a[key] == b[key] else key !in b
  }

  lemma SameEverywhere(a: map<string, string>, b: map<string, string>)
    requires forall key :: SameAt(a, b, key)
    ensures a == b
  {
    forall key
      ensures key in a <==> key in b
      ensures key in a ==> a[key] == b[key]
    {
      assert SameAt(a, b, key);
    }
  }

  lemma CoveredAgree(p: Patch, a: Content, b: Content)
    requires Covers(p, a, b)
    ensures Merge(p, a) == Merge(p, b)
  {
    var x, y := Merge(p, a), Merge(p, b);
    assert x.columns == y.columns;
    forall key
      ensures SameAt(x.custom, y.custom, key)
    {
      assert SameAt(a.custom, b.custom, key) || p.custom.Cleared? || (p.custom.Named? && key in p.custom.fields);
    }
    SameEverywhere(x.custom, y.custom);
  }

  lemma AgreeingIsCovered(p: Patch, a: Content, b: Content)
    requires Merge(p, a) == Merge(p, b)
    ensures Covers(p, a, b)
  {
    var x, y := Merge(p, a), Merge(p, b);
    forall f
      ensures a.columns[f] == b.columns[f] || f in p.columns
    {
      assert x.columns[f] == y.columns[f];
    }
    forall key
      ensures SameAt(a.custom, b.custom, key) || p.custom.Cleared? || (p.custom.Named? && key in p.custom.fields)
    {
      assert SameAt(x.custom, y.custom, key);
    }
  }

  /** A patch makes the same of two contents exactly if it covers their differences. */
  lemma MergesAgree(p: Patch, a: Content, b: Content)
    ensures Merge(p, a) == Merge(p, b) <==> Covers(p, a, b)
  {
    if Covers(p, a, b) {
      CoveredAgree(p, a, b);
    }
    if Merge(p, a) == Merge(p, b) {
      AgreeingIsCovered(p, a, b);
    }
  }

  lemma GuessedVersionPasses(s: State, k: Key, a: nat, b: nat, p: Patch, q: Patch, sent: State, other: State)
    requires k in s.rows && a !in s.requests && b !in s.requests && a != b
    requires sent == Sent(s, a, k, p, s.rows[k].version + 1)
    requires other == Patched(sent, b, k, q, s.rows[k].version)
    ensures other.rows == s.rows[k := Row(s.rows[k].version + 1, Merge(q, s.rows[k].content))]
    ensures Next(other, Update(a)).rows
         == AfterUpdate(other.rows, k, Merge(p, s.rows[k].content), s.rows[k].version + 1)
  {
    SentHasRead(s, a, k, p, s.rows[k].version + 1);
    PatchedWrites(sent, b, k, q, s.rows[k].version);
    UpdateWrites(other, a);
  }

  /** Sighting the version is needed. Request a, guessing version v + 1 before it exists, reads
      version v; request b writes v + 1; a still passes the check, and what it writes is its patch
      on version v. Of b's write, it keeps what it covers: the row is as if a had read version v + 1
      exactly if a's patch covers what b changed. */
  lemma GuessedVersionLosesAnUpdate(s: State, k: Key, a: nat, b: nat, p: Patch, q: Patch, sent: State, other: State)
    requires k in s.rows && a !in s.requests && b !in s.requests && a != b
    requires sent == Sent(s, a, k, p, s.rows[k].version + 1)
    requires other == Patched(sent, b, k, q, s.rows[k].version)
    ensures other.rows == s.rows[k := Row(s.rows[k].version + 1, Merge(q, s.rows[k].content))]
    ensures Next(other, Update(a)).rows == s.rows[k := Row(s.rows[k].version + 2, Merge(p, s.rows[k].content))]
    ensures Next(other, Update(a)).rows[k].content == Merge(p, other.rows[k].content)
        <==> Covers(p, s.rows[k].content, Merge(q, s.rows[k].content))
  {
    GuessedVersionPasses(s, k, a, b, p, q, sent, other);
    MergesAgree(p, s.rows[k].content, Merge(q, s.rows[k].content));
  }
}
