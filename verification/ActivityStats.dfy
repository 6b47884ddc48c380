/** Activity figures per record: internal/store/crm.go. A log is the activities table; GROUP BY
    is a scan that keeps one accumulator per key. */
module ActivityStats {
  import opened Options
  import opened SqlValues

  datatype Kind = Contact | Deal | Company | Ticket

  /** refs holds the ids that are not NULL. */
  datatype Activity = Activity(ws: string, refs: map<Kind, string>, kind: string, at: int, onBehalfOf: Option<string>)

  type Log = seq<Activity>

  predicate IsOutreach(a: Activity) {
    a.kind == "call" || a.kind == "email" || a.kind == "meeting"
  }

  predicate Refers(a: Activity, ws: string, kind: Kind, id: string) {
    a.ws == ws && kind in a.refs && a.refs[kind] == id
  }

  // ---- Aggregates over chosen rows -----------------------------------------------------

  function Count(log: Log, chosen: Activity -> bool): nat {
    if log == [] then 0 else Count(log[..|log| - 1], chosen) + if chosen(log[|log| - 1]) then 1 else 0
  }

  /** MAX(created_at): NULL over no rows. */
  function Latest(log: Log, chosen: Activity -> bool): Option<int> {
    if log == [] then None
    else
      var before, a := Latest(log[..|log| - 1], chosen), log[|log| - 1];
      if !chosen(a) then before
      else if before.Some? && before.value >= a.at then before
      else Some(a.at)
  }

  function Coalesced(t: Option<int>): int {
    if t.Some? then t.value else 0
  }

  /** Zero is shown as no time at all. */
  function Shown(t: int): Option<int> {
    if t == 0 then None else Some(t)
  }

  function Of(ws: string, kind: Kind, id: string): Activity -> bool {
    (a: Activity) => Refers(a, ws, kind, id)
  }

  function OutreachOf(ws: string, kind: Kind, id: string): Activity -> bool {
    (a: Activity) => Refers(a, ws, kind, id) && IsOutreach(a)
  }

  lemma OneLarger(before: set<nat>, n: nat)
    requires n !in before
    ensures |before + {n}| == |before| + 1
  {
  }

  lemma {:induction false} CountIsSize(log: Log, chosen: Activity -> bool)
    ensures Count(log, chosen) == |set i | 0 <= i < |log| && chosen(log[i])|
  {
    var all := set i | 0 <= i < |log| && chosen(log[i]);
    if log == [] {
      assert all == {};
    } else {
      var n := |log| - 1;
      var before := set i | 0 <= i < n && chosen(log[..n][i]);
      CountIsSize(log[..n], chosen);
      assert all == before + if chosen(log[n]) then {n} else {};
      OneLarger(before, n);
    }
  }

  /** What Latest returns is attained and not exceeded. */
  lemma {:induction false} LatestIsMaximum(log: Log, chosen: Activity -> bool)
    ensures Latest(log, chosen).None? <==> forall i :: 0 <= i < |log| ==> !chosen(log[i])
    ensures Latest(log, chosen).None? <==> Count(log, chosen) == 0
    ensures Latest(log, chosen).Some? ==>
              && (forall i :: 0 <= i < |log| && chosen(log[i]) ==> log[i].at <= Latest(log, chosen).value)
              && (exists i :: 0 <= i < |log| && chosen(log[i]) && log[i].at == Latest(log, chosen).value)
  {
    if log != [] {
      var n := |log| - 1;
      LatestIsMaximum(log[..n], chosen);
      assert forall i :: 0 <= i < n ==> log[..n][i] == log[i];
      if Latest(log, chosen).Some? && Latest(log[..n], chosen).Some? {
        var i :| 0 <= i < n && chosen(log[..n][i]) && log[..n][i].at == Latest(log[..n], chosen).value;
        assert chosen(log[i]);
      }
    }
  }

  // ---- One record ----------------------------------------------------------------------

  datatype Stat = Stat(count: nat, last: Option<int>, outreach: nat, lastOutreach: Option<int>)

  const NO_STAT := Stat(0, None, 0, None)

  /** The four figures of one record. */
  function StatOf(log: Log, ws: string, kind: Kind, id: string): Stat {
    Stat(Count(log, Of(ws, kind, id)), Shown(Coalesced(Latest(log, Of(ws, kind, id)))),
         Count(log, OutreachOf(ws, kind, id)), Shown(Coalesced(Latest(log, OutreachOf(ws, kind, id)))))
  }

  /** The condition ActivityStats builds from the ids it is given. */
  function Given(ws: string, ids: map<Kind, string>): Activity -> bool {
    (a: Activity) =>
      a.ws == ws
      && forall kind :: kind in ids && ids[kind] != "" ==> kind in a.refs && a.refs[kind] == ids[kind]
  }

  /** ActivityStats: how many activities reference all the ids given, and the latest of their
      times, unless there is none or it is time zero. */
  method ActivityStats(log: Log, ws: string, ids: map<Kind, string>) returns (count: nat, last: Option<int>)
    ensures count == |set i | 0 <= i < |log| && Given(ws, ids)(log[i])|
    ensures last.Some? ==>
              && last.value != 0
              && (exists i :: 0 <= i < |log| && Given(ws, ids)(log[i]) && log[i].at == last.value)
              && (forall i :: 0 <= i < |log| && Given(ws, ids)(log[i]) ==> log[i].at <= last.value)
    ensures last.None? <==>
              || (forall i :: 0 <= i < |log| ==> !Given(ws, ids)(log[i]))
              || (&& (exists i :: 0 <= i < |log| && Given(ws, ids)(log[i]) && log[i].at == 0)
                  && (forall i :: 0 <= i < |log| && Given(ws, ids)(log[i]) ==> log[i].at <= 0))
  {
    CountIsSize(log, Given(ws, ids));
    LatestIsMaximum(log, Given(ws, ids));
    count := Count(log, Given(ws, ids));
    var latest := Coalesced(Latest(log, Given(ws, ids)));
    if latest == 0 {
      return count, None;
    }
    last := Some(latest);
  }

  // ---- A batch of records --------------------------------------------------------------

  function Distinct(ids: seq<string>): seq<string> {
    if ids == [] then []
    else
      var before, id := Distinct(ids[..|ids| - 1]), ids[|ids| - 1];
      if id == "" || id in before then before else before + [id]
  }

  /** distinctNonEmpty. */
  method DistinctNonEmpty(ids: seq<string>) returns (out: seq<string>)
    ensures out == Distinct(ids)
  {
    var seen: set<string> := {};
    out := [];
    for i := 0 to |ids|
      invariant out == Distinct(ids[..i])
      invariant forall id :: id in seen <==> id in out
    {
      assert ids[..i + 1][..i] == ids[..i];
      var id := ids[i];
      if id != "" && id !in seen {
        seen := seen + {id};
        out := out + [id];
      }
    }
    assert ids[..|ids|] == ids;
  }

  /** Each id that is not empty once, in the order of first appearance. */
  lemma {:induction false} DistinctIs(ids: seq<string>)
    ensures forall id :: id in Distinct(ids) <==> id in ids && id != ""
    ensures forall i, j :: 0 <= i < j < |Distinct(ids)| ==> Distinct(ids)[i] != Distinct(ids)[j]
  {
    if ids != [] {
      DistinctIs(ids[..|ids| - 1]);
      assert ids == ids[..|ids| - 1] + [ids[|ids| - 1]];
    }
  }

  function Later(t: Option<int>, at: int): Option<int> {
    if t.Some? && t.value >= at then t else Some(at)
  }

  /** One more activity counted into the group of its record while the scan runs. */
  function Joined(g: Stat, a: Activity): Stat {
    Stat(g.count + 1, Later(g.last, a.at), g.outreach + if IsOutreach(a) then 1 else 0,
          if IsOutreach(a) then Later(g.lastOutreach, a.at) else g.lastOutreach)
  }

  /** SELECT col, count(*), max(created_at), sum(CASE ...), max(CASE ...) WHERE workspace_id = ws
      AND col IN ids GROUP BY col. */
  function Grouped(log: Log, ws: string, kind: Kind, ids: seq<string>): map<string, Stat> {
    if log == [] then map[]
    else Step(Grouped(log[..|log| - 1], ws, kind, ids), log[|log| - 1], ws, kind, ids)
  }

  /** The figures of a group as they are shown. */
  function Scanned(g: Stat): Stat {
    Stat(g.count, Shown(Coalesced(g.last)), g.outreach, Shown(Coalesced(g.lastOutreach)))
  }

  /** The records of the list that have activity, and no others, with the figures of each. */
  ghost predicate IsBatch(stats: map<string, Stat>, log: Log, ws: string, kind: Kind, ids: seq<string>) {
    && (forall id :: id in stats <==> id in ids && id != "" && Count(log, Of(ws, kind, id)) > 0)
    && (forall id :: id in stats ==> stats[id] == StatOf(log, ws, kind, id))
  }

  /** ActivityStatsBatch; the rows of the query come in an arbitrary order. */
  method ActivityStatsBatch(log: Log, ws: string, kind: Option<Kind>, ids: seq<string>) returns (out: map<string, Stat>)
    ensures kind.None? ==> out == map[]
    ensures kind.Some? ==> IsBatch(out, log, ws, kind.value, ids)
  {
    out := map[];
    if kind.None? {
      return;
    }
    var distinct := DistinctNonEmpty(ids);
    DistinctIs(ids);
    var groups := Grouped(log, ws, kind.value, distinct);
    var todo := groups.Keys;
    while todo != {}
      invariant todo <= groups.Keys && out.Keys == groups.Keys - todo
      invariant forall id :: id in out ==> out[id] == Scanned(groups[id])
      decreases |todo|
    {
      var id :| id in todo;
      var g := groups[id];
      var st := Stat(g.count, None, g.outreach, None);
      if Coalesced(g.last) != 0 {
        st := st.(last := Some(Coalesced(g.last)));
      }
      if Coalesced(g.lastOutreach) != 0 {
        st := st.(lastOutreach := Some(Coalesced(g.lastOutreach)));
      }
      out := out[id := st];
      todo := todo - {id};
    }
    GroupsAreRecords(log, ws, kind.value, distinct);
    forall id
      ensures id in out <==> id in ids && id != "" && Count(log, Of(ws, kind.value, id)) > 0
      ensures id in out ==> out[id] == StatOf(log, ws, kind.value, id)
    {
      assert GroupOk(groups, log, ws, kind.value, distinct, id);
    }
  }

  /** The grouped scan comes to the figures of each record on its own. */
  lemma {:induction false} GroupsAreRecords(log: Log, ws: string, kind: Kind, ids: seq<string>)
    ensures forall id :: GroupOk(Grouped(log, ws, kind, ids), log, ws, kind, ids, id)
  {
    if log != [] {
      var before, a := log[..|log| - 1], log[|log| - 1];
      GroupsAreRecords(before, ws, kind, ids);
      assert log == before + [a];
      forall id
        ensures GroupOk(Grouped(log, ws, kind, ids), log, ws, kind, ids, id)
      {
        StepKeepsOk(Grouped(before, ws, kind, ids), before, a, ws, kind, ids, id);
      }
    }
  }

  predicate GroupIs(g: Stat, log: Log, ws: string, kind: Kind, id: string) {
    && g.count == Count(log, Of(ws, kind, id)) && g.last == Latest(log, Of(ws, kind, id))
    && g.outreach == Count(log, OutreachOf(ws, kind, id)) && g.lastOutreach == Latest(log, OutreachOf(ws, kind, id))
  }

  lemma JoinedIs(g: Stat, before: Log, a: Activity, ws: string, kind: Kind, id: string)
    requires GroupIs(g, before, ws, kind, id) && Refers(a, ws, kind, id)
    ensures GroupIs(Joined(g, a), before + [a], ws, kind, id)
  {
    assert (before + [a])[..|before|] == before;
  }

  lemma UnrelatedIs(before: Log, a: Activity, ws: string, kind: Kind, id: string)
    requires !Refers(a, ws, kind, id)
    ensures Count(before + [a], Of(ws, kind, id)) == Count(before, Of(ws, kind, id))
    ensures forall g :: GroupIs(g, before, ws, kind, id) ==> GroupIs(g, before + [a], ws, kind, id)
  {
  }

  lemma NothingYet(log: Log, ws: string, kind: Kind, id: string)
    requires Count(log, Of(ws, kind, id)) == 0
    ensures GroupIs(NO_STAT, log, ws, kind, id)
  {
    LatestIsMaximum(log, Of(ws, kind, id));
    NoOutreachBefore(log, ws, kind, id);
  }

  /** The group of one id is right, or rightly missing. */
  predicate GroupOk(groups: map<string, Stat>, log: Log, ws: string, kind: Kind, ids: seq<string>, id: string) {
    && (id in groups <==> id in ids && Count(log, Of(ws, kind, id)) > 0)
    && (id in groups ==> GroupIs(groups[id], log, ws, kind, id))
  }

  function Step(groups: map<string, Stat>, a: Activity, ws: string, kind: Kind, ids: seq<string>): map<string, Stat> {
    if a.ws == ws && kind in a.refs && a.refs[kind] in ids then
      var id := a.refs[kind];
      groups[id := Joined(if id in groups then groups[id] else NO_STAT, a)]
    else groups
  }

  lemma StepKeepsOk(groups: map<string, Stat>, before: Log, a: Activity, ws: string, kind: Kind, ids: seq<string>,
                    id: string)
    requires GroupOk(groups, before, ws, kind, ids, id)
    ensures GroupOk(Step(groups, a, ws, kind, ids), before + [a], ws, kind, ids, id)
  {
    if !Refers(a, ws, kind, id) {
      UnrelatedIs(before, a, ws, kind, id);
    } else if id in ids {
      if id !in groups {
        NothingYet(before, ws, kind, id);
      }
      JoinedIs(if id in groups then groups[id] else NO_STAT, before, a, ws, kind, id);
    }
  }

  /** Outreach is some of the activity, and its last time is no later. */
  lemma {:induction false} NoOutreachBefore(log: Log, ws: string, kind: Kind, id: string)
    ensures Count(log, OutreachOf(ws, kind, id)) <= Count(log, Of(ws, kind, id))
    ensures Latest(log, OutreachOf(ws, kind, id)).Some? ==>
              && Latest(log, Of(ws, kind, id)).Some?
              && Latest(log, OutreachOf(ws, kind, id)).value <= Latest(log, Of(ws, kind, id)).value
    ensures Count(log, OutreachOf(ws, kind, id)) == 0 <==> Latest(log, OutreachOf(ws, kind, id)).None?
  {
    if log != [] {
      NoOutreachBefore(log[..|log| - 1], ws, kind, id);
    }
  }

  function Displayed(stats: map<string, Stat>, id: string): Stat {
    if id in stats then stats[id] else NO_STAT
  }

  lemma MissingIsNothing(log: Log, ws: string, kind: Kind, id: string)
    requires Count(log, Of(ws, kind, id)) == 0
    ensures StatOf(log, ws, kind, id) == NO_STAT
  {
  }

  lemma SingleIsGiven(log: Log, ws: string, kind: Kind, id: string)
    requires id != ""
    ensures Count(log, Given(ws, map[kind := id])) == Count(log, Of(ws, kind, id))
    ensures Latest(log, Given(ws, map[kind := id])) == Latest(log, Of(ws, kind, id))
  {
    forall a
      ensures Given(ws, map[kind := id])(a) <==> Of(ws, kind, id)(a)
    {
      assert kind in map[kind := id];
    }
    SameFigures(log, Given(ws, map[kind := id]), Of(ws, kind, id));
  }

  /** For every list of ids, a record the batch was asked about is shown the figures of the
      single-record query, none if it is missing, and never more outreach than activity. */
  lemma BatchAgreesWithSingle(log: Log, ws: string, kind: Kind, ids: seq<string>, stats: map<string, Stat>, id: string)
    requires IsBatch(stats, log, ws, kind, ids) && id in ids && id != ""
    ensures var s := Displayed(stats, id);
            && s == StatOf(log, ws, kind, id)
            && s.count == Count(log, Given(ws, map[kind := id]))
                && s.last == Shown(Coalesced(Latest(log, Given(ws, map[kind := id]))))
            && s.outreach <= s.count
  {
    SingleIsGiven(log, ws, kind, id);
    NoOutreachBefore(log, ws, kind, id);
    if id !in stats {
      MissingIsNothing(log, ws, kind, id);
    }
  }

  /** The last outreach shown is no later than the last activity shown, except when the record's
      latest activity is at time zero and so shown as none, and its latest outreach is before
      that. */
  lemma {:induction false} OutreachIsNoLater(log: Log, ws: string, kind: Kind, id: string)
    ensures var s := StatOf(log, ws, kind, id);
            var latest, outreach := Latest(log, Of(ws, kind, id)), Latest(log, OutreachOf(ws, kind, id));
            (s.lastOutreach.Some? ==> s.last.Some? && s.lastOutreach.value <= s.last.value)
            <==> !(latest == Some(0) && outreach.Some? && outreach.value < 0)
  {
    NoOutreachBefore(log, ws, kind, id);
    LatestIsMaximum(log, OutreachOf(ws, kind, id));
    LatestIsMaximum(log, Of(ws, kind, id));
  }

  lemma {:induction false} SameFigures(log: Log, chosen: Activity -> bool, other: Activity -> bool)
    requires forall a :: chosen(a) <==> other(a)
    ensures Count(log, chosen) == Count(log, other) && Latest(log, chosen) == Latest(log, other)
  {
    if log != [] {
      SameFigures(log[..|log| - 1], chosen, other);
    }
  }

  // ---- On whose behalf -----------------------------------------------------------------

  function Principals(log: Log, ws: string, kind: Kind, id: string): set<string> {
    set a | a in log && Refers(a, ws, kind, id) && a.onBehalfOf.Some? :: a.onBehalfOf.value
  }

  /** SELECT DISTINCT on_behalf_of of one record, blanks skipped, in order. */
  function Inserted(p: string, ps: seq<string>): seq<string> {
    if ps == [] then [p]
    else if p == ps[0] then ps
    else if TextLess(p, ps[0]) then [p] + ps
    else [ps[0]] + Inserted(p, ps[1..])
  }

  function PrincipalsOf(log: Log, ws: string, kind: Kind, id: string): seq<string> {
    if log == [] then []
    else
      var before, a := PrincipalsOf(log[..|log| - 1], ws, kind, id), log[|log| - 1];
      if Refers(a, ws, kind, id) && a.onBehalfOf.Some? && a.onBehalfOf.value != ""
          then Inserted(a.onBehalfOf.value, before) else before
  }

  /** The records of the list with principals, and no others, with the principals of each. */
  ghost predicate IsPrincipalsBatch(out: map<string, seq<string>>, log: Log, ws: string, kind: Kind, ids: seq<string>) {
    && (forall id :: id in out <==> id in ids && id != "" && PrincipalsOf(log, ws, kind, id) != [])
    && (forall id :: id in out ==> out[id] == PrincipalsOf(log, ws, kind, id))
  }

  /** ActivityPrincipalsBatch, one record's rows at a time. */
  /** The rows scanned for one record, appended to its list. */
  method AppendRows(before: map<string, seq<string>>, id: string, rows: seq<string>)
    returns (out: map<string, seq<string>>)
    requires id !in before
    ensures out == if rows == [] then before else before[id := rows]
  {
    out := before;
    for k := 0 to |rows|
      invariant out == if k == 0 then before else before[id := rows[..k]]
    {
      assert rows[..k + 1] == rows[..k] + [rows[k]];
      out := out[id := (if id in out then out[id] else []) + [rows[k]]];
    }
    assert rows[..|rows|] == rows;
  }

  method ActivityPrincipalsBatch(log: Log, ws: string, kind: Option<Kind>, ids: seq<string>)
    returns (out: map<string, seq<string>>)
    ensures kind.None? ==> out == map[]
    ensures kind.Some? ==> IsPrincipalsBatch(out, log, ws, kind.value, ids)
  {
    out := map[];
    if kind.None? {
      return;
    }
    var distinct := DistinctNonEmpty(ids);
    DistinctIs(ids);
    for i := 0 to |distinct|
      invariant forall id :: id in out <==> id in distinct[..i] && PrincipalsOf(log, ws, kind.value, id) != []
      invariant forall id :: id in out ==> out[id] == PrincipalsOf(log, ws, kind.value, id)
    {
      var rows := PrincipalsOf(log, ws, kind.value, distinct[i]);
      assert distinct[..i + 1] == distinct[..i] + [distinct[i]];
      assert distinct[i] !in distinct[..i];
      out := AppendRows(out, distinct[i], rows);
    }
    assert distinct[..|distinct|] == distinct;
  }

  predicate Ascending(ps: seq<string>) {
    forall i, j :: 0 <= i < j < |ps| ==> TextLess(ps[i], ps[j])
  }

  lemma AscendingCons(p: string, ps: seq<string>)
    requires Ascending(ps) && forall q :: q in ps ==> TextLess(p, q)
    ensures Ascending([p] + ps)
  {
  }

  lemma {:induction false} InsertedAscends(p: string, ps: seq<string>)
    requires Ascending(ps)
    ensures Ascending(Inserted(p, ps)) && forall q :: q in Inserted(p, ps) <==> q == p || q in ps
  {
    if ps != [] && p != ps[0] {
      TextOrder(p, ps[0], ps[0]);
      assert ps == [ps[0]] + ps[1..];
      if TextLess(p, ps[0]) {
        forall q | q in ps
          ensures TextLess(p, q)
        {
          var k :| 0 <= k < |ps| && ps[k] == q;
          TextOrder(p, ps[0], q);
        }
        AscendingCons(p, ps);
      } else {
        assert forall k :: 0 <= k < |ps[1..]| ==> ps[1..][k] == ps[k + 1];
        InsertedAscends(p, ps[1..]);
        AscendingCons(ps[0], Inserted(p, ps[1..]));
      }
    }
  }

  /** The principals shown for a record are those of its activities, blanks left out, sorted and
      without repetition. */
  lemma {:induction false} PrincipalsAre(log: Log, ws: string, kind: Kind, id: string)
    ensures Ascending(PrincipalsOf(log, ws, kind, id))
    ensures forall p :: p in PrincipalsOf(log, ws, kind, id) <==> p in Principals(log, ws, kind, id) && p != ""
  {
    if log != [] {
      var before, a := log[..|log| - 1], log[|log| - 1];
      assert log == before + [a];
      PrincipalsAre(before, ws, kind, id);
      if Refers(a, ws, kind, id) && a.onBehalfOf.Some? && a.onBehalfOf.value != "" {
        InsertedAscends(a.onBehalfOf.value, PrincipalsOf(before, ws, kind, id));
      }
    }
  }
}
