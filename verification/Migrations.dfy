/** Schema migrations: internal/store/migrate.go. Any number of runs of ApplyMigrations, each
    of which may stop before any statement, against a registry that later gains versions. The
    schema and the effect of a statement on it are parameters. */
module Migrations {
  import opened Options

  type Statement = string

  datatype Migration = Migration(version: int, name: string, statements: seq<Statement>)

  /** The schema, and schema_migrations in the order its rows were inserted. */
  datatype Database<S> = Database(schema: S, recorded: seq<int>)

  /** What executing a statement does to a schema; None is an error. */
  type Executor<!S> = (S, Statement) -> Option<S>

  // ---- The registry in order -----------------------------------------------------------

  function Insert(m: Migration, ms: seq<Migration>): seq<Migration> {
    if ms == [] || m.version < ms[0].version then [m] + ms else [ms[0]] + Insert(m, ms[1..])
  }

  /** orderedMigrations: the registry, copied and sorted by version. */
  function Ordered(registry: seq<Migration>): seq<Migration> {
    if registry == [] then [] else Insert(registry[0], Ordered(registry[1..]))
  }

  predicate Ascending(ms: seq<Migration>) {
    forall i, j :: 0 <= i < j < |ms| ==> ms[i].version < ms[j].version
  }

  predicate UniqueVersions(ms: seq<Migration>) {
    forall i, j :: 0 <= i < j < |ms| ==> ms[i].version != ms[j].version
  }

  function Versions(ms: seq<Migration>): (r: seq<int>)
    ensures |r| == |ms| && forall i :: 0 <= i < |ms| ==> r[i] == ms[i].version
  {
    seq(|ms|, i requires 0 <= i < |ms| => ms[i].version)
  }

  function Pending(ordered: seq<Migration>, recorded: seq<int>): seq<Migration> {
    if ordered == [] then []
    else (if ordered[0].version in recorded then [] else [ordered[0]]) + Pending(ordered[1..], recorded)
  }

  predicate NonDescending(vs: seq<int>) {
    forall i, j :: 0 <= i < j < |vs| ==> vs[i] <= vs[j]
  }

  function InsertVersion(v: int, vs: seq<int>): seq<int> {
    if vs == [] || v <= vs[0] then [v] + vs else [vs[0]] + InsertVersion(v, vs[1..])
  }

  /** SELECT version ... ORDER BY version. */
  function SortedVersions(vs: seq<int>): seq<int> {
    if vs == [] then [] else InsertVersion(vs[0], SortedVersions(vs[1..]))
  }

  lemma FirstIsLeast(v: int, vs: seq<int>)
    requires NonDescending(vs) && forall x :: x in vs ==> v <= x
    ensures NonDescending([v] + vs)
  {
    forall i, j | 0 <= i < j < |[v] + vs|
      ensures ([v] + vs)[i] <= ([v] + vs)[j]
    {
      assert vs[j - 1] in vs;
    }
  }

  lemma {:induction false} InsertVersionIs(v: int, vs: seq<int>)
    requires NonDescending(vs)
    ensures multiset(InsertVersion(v, vs)) == multiset{v} + multiset(vs) && NonDescending(InsertVersion(v, vs))
  {
    if vs == [] || v <= vs[0] {
      FirstIsLeast(v, vs);
    } else {
      var rest := InsertVersion(v, vs[1..]);
      InsertVersionIs(v, vs[1..]);
      assert vs == [vs[0]] + vs[1..];
      forall x | x in rest
        ensures vs[0] <= x
      {
        assert x in multiset(rest);
        assert x == v || x in vs[1..];
      }
      FirstIsLeast(vs[0], rest);
    }
  }

  lemma {:induction false} SortedVersionsIs(vs: seq<int>)
    ensures multiset(SortedVersions(vs)) == multiset(vs) && NonDescending(SortedVersions(vs))
  {
    if vs != [] {
      SortedVersionsIs(vs[1..]);
      InsertVersionIs(vs[0], SortedVersions(vs[1..]));
      assert vs == [vs[0]] + vs[1..];
    }
  }

  lemma SameElements(a: seq<int>, b: seq<int>)
    requires multiset(a) == multiset(b)
    ensures forall v :: v in a <==> v in b
  {
    forall v
      ensures v in a <==> v in b
    {
      assert v in multiset(a) <==> v in multiset(b);
    }
  }

  // ---- One run ---------------------------------------------------------------------------

  /** A migration's statements inside its transaction. */
  function Executed<S>(exec: Executor<S>, schema: S, statements: seq<Statement>): Option<S> {
    if statements == [] then Some(schema)
    else
      var next := exec(schema, statements[0]);
      if next.None? then None else Executed(exec, next.value, statements[1..])
  }

  /** What a transaction costs: its statements, the record, the commit. */
  function Cost(m: Migration): nat {
    |m.statements| + 2
  }

  /** A migration takes effect as a whole or not at all: its transaction must commit before
      the run is stopped, and neither a statement nor the record's primary key may fail. */
  predicate Commits<S>(exec: Executor<S>, db: Database<S>, m: Migration, budget: nat) {
    Cost(m) <= budget && Executed(exec, db.schema, m.statements).Some? && m.version !in db.recorded
  }

  function Committed<S>(exec: Executor<S>, db: Database<S>, m: Migration): Database<S>
    requires Executed(exec, db.schema, m.statements).Some?
  {
    Database(Executed(exec, db.schema, m.statements).value, db.recorded + [m.version])
  }

  /** How many of the pending migrations a run commits before it stops. */
  function CommitCount<S>(exec: Executor<S>, db: Database<S>, pending: seq<Migration>, budget: nat): (n: nat)
    ensures n <= |pending|
    decreases |pending|
  {
    if pending == [] || !Commits(exec, db, pending[0], budget) then 0
    else 1 + CommitCount(exec, Committed(exec, db, pending[0]), pending[1..], budget - Cost(pending[0]))
  }

  function Applied<S>(exec: Executor<S>, db: Database<S>, pending: seq<Migration>, budget: nat): Database<S>
    decreases |pending|
  {
    if pending == [] || !Commits(exec, db, pending[0], budget) then db
    else Applied(exec, Committed(exec, db, pending[0]), pending[1..], budget - Cost(pending[0]))
  }

  /** Where a run is that has committed the first i of its pending migrations: the database, and
      the statements left to it. */
  function Reached<S>(exec: Executor<S>, start: Database<S>, pending: seq<Migration>, budget: nat,
                      i: nat): Option<(Database<S>, nat)>
    requires i <= |pending|
  {
    if i == 0 then Some((start, budget))
    else
      match Reached(exec, start, pending, budget, i - 1)
      case None => None
      case Some((db, left)) =>
        var m := pending[i - 1];
        if Commits(exec, db, m, left) then Some((Committed(exec, db, m), left - Cost(m))) else None
  }

  lemma {:induction false} ReachedRuns<S>(exec: Executor<S>, start: Database<S>, pending: seq<Migration>, budget: nat,
                                          i: nat)
    requires i <= |pending| && Reached(exec, start, pending, budget, i).Some?
    ensures var (db, left) := Reached(exec, start, pending, budget, i).value;
            && Applied(exec, db, pending[i..], left) == Applied(exec, start, pending, budget)
            && i + CommitCount(exec, db, pending[i..], left) == CommitCount(exec, start, pending, budget)
  {
    if i == 0 {
      assert pending[0..] == pending;
    } else {
      ReachedRuns(exec, start, pending, budget, i - 1);
      assert pending[i - 1..][0] == pending[i - 1] && pending[i - 1..][1..] == pending[i..];
    }
  }

  lemma RunStops<S>(exec: Executor<S>, start: Database<S>, pending: seq<Migration>, budget: nat, i: nat,
                    db: Database<S>, left: nat)
    requires i <= |pending| && Reached(exec, start, pending, budget, i) == Some((db, left))
    requires i < |pending| ==> !Commits(exec, db, pending[i], left)
    ensures Applied(exec, start, pending, budget) == db && CommitCount(exec, start, pending, budget) == i
  {
    ReachedRuns(exec, start, pending, budget, i);
    if i < |pending| {
      assert pending[i..][0] == pending[i];
    }
  }

  /** The highest of some versions, or zero. */
  function Highest(vs: seq<int>): int {
    if vs == [] then 0
    else
      var before, v := Highest(vs[..|vs| - 1]), vs[|vs| - 1];
      if v > before then v else before
  }

  lemma HighestNext(vs: seq<int>, i: nat)
    requires i < |vs|
    ensures Highest(vs[..i + 1]) == if vs[i] > Highest(vs[..i]) then vs[i] else Highest(vs[..i])
  {
    assert vs[..i + 1][..i] == vs[..i];
  }

  lemma {:induction false} HighestIs(vs: seq<int>)
    ensures 0 <= Highest(vs) && (forall v :: v in vs ==> v <= Highest(vs))
    ensures Highest(vs) == 0 || Highest(vs) in vs
  {
    if vs != [] {
      HighestIs(vs[..|vs| - 1]);
      assert vs == vs[..|vs| - 1] + [vs[|vs| - 1]];
    }
  }

  /** What the status says: the recorded versions in order, the highest recorded and the highest
      there is, zero if none is positive, and exactly the migrations not recorded. */
  lemma StatusIs(registry: seq<Migration>, recorded: seq<int>)
    ensures var rows := SortedVersions(recorded);
            && multiset(rows) == multiset(recorded) && NonDescending(rows)
            && 0 <= Highest(rows) && (forall v :: v in recorded ==> v <= Highest(rows))
            && (Highest(rows) == 0 || Highest(rows) in recorded)
    ensures var latest := Highest(Versions(Ordered(registry)));
            && 0 <= latest && (forall m :: m in registry ==> m.version <= latest)
            && (latest == 0 || exists m :: m in registry && m.version == latest)
    ensures forall m :: m in Pending(Ordered(registry), recorded) <==> m in registry && m.version !in recorded
  {
    PendingIs(Ordered(registry), recorded);
    SortedVersionsIs(recorded);
    SameElements(SortedVersions(recorded), recorded);
    HighestIs(SortedVersions(recorded));
    var ordered := Ordered(registry);
    var versions := Versions(ordered);
    HighestIs(versions);
    OrderedKeeps(registry);
    forall m | m in registry
      ensures m.version <= Highest(versions)
    {
      var i :| 0 <= i < |ordered| && ordered[i] == m;
      assert versions[i] in versions;
    }
    if Highest(versions) in versions {
      var i :| 0 <= i < |versions| && versions[i] == Highest(versions);
      assert ordered[i] in registry;
    }
  }

  lemma {:induction false} PendingIs(ordered: seq<Migration>, recorded: seq<int>)
    ensures forall m :: m in Pending(ordered, recorded) <==> m in ordered && m.version !in recorded
  {
    if ordered != [] {
      PendingIs(ordered[1..], recorded);
      assert ordered == [ordered[0]] + ordered[1..];
    }
  }

  lemma PendingNext(before: seq<Migration>, ordered: seq<Migration>, recorded: seq<int>, i: nat)
    requires i < |ordered|
    ensures before + Pending(ordered[i..], recorded)
            == (if ordered[i].version !in recorded then before + [ordered[i]] else before)
                + Pending(ordered[i + 1..], recorded)
  {
    assert ordered[i..][1..] == ordered[i + 1..];
  }

  /** The migration tool's view of one database. */
  class Migrator<S> {
    const exec: Executor<S>
    var schema: S
    var recorded: seq<int>

    constructor (exec: Executor<S>, schema: S)
      ensures this.exec == exec && View() == Database(schema, [])
    {
      this.exec := exec;
      this.schema := schema;
      recorded := [];
    }

    function View(): Database<S>
      reads this
    {
      Database(schema, recorded)
    }

    /** The recorded versions in order, the bounds of what is recorded and of what there is, and
        what is pending. */
    method MigrationStatus(registry: seq<Migration>)
      returns (applied: seq<int>, current: int, latest: int, pending: seq<Migration>)
      ensures applied == SortedVersions(recorded) && current == Highest(applied)
      ensures latest == Highest(Versions(Ordered(registry))) && pending == Pending(Ordered(registry), recorded)
    {
      applied, current, latest, pending := [], 0, 0, [];
      var rows := SortedVersions(recorded);
      for i := 0 to |rows|
        invariant applied == rows[..i] && current == Highest(rows[..i])
      {
        HighestNext(rows, i);
        applied := applied + [rows[i]];
        if rows[i] > current {
          current := rows[i];
        }
      }
      var ordered := Ordered(registry);
      for i := 0 to |ordered|
        invariant latest == Highest(Versions(ordered)[..i])
        invariant pending + Pending(ordered[i..], recorded) == Pending(ordered, recorded)
      {
        HighestNext(Versions(ordered), i);
        if ordered[i].version > latest {
          latest := ordered[i].version;
        }
        PendingNext(pending, ordered, recorded, i);
        if ordered[i].version !in recorded {
          pending := pending + [ordered[i]];
        }
      }
      assert applied == rows && rows[..|rows|] == rows && Versions(ordered)[..|ordered|] == Versions(ordered);
    }

    /** One migration's transaction, with `left` statements to go before the run is stopped: the
        schema it commits, if it does. */
    method Transact(m: Migration, left: nat) returns (tx: Option<S>)
      ensures tx.Some? <==> Commits(exec, View(), m, left)
      ensures tx.Some? ==> tx == Executed(exec, schema, m.statements)
    {
      var current := schema;
      for k := 0 to |m.statements|
        invariant k <= left
        invariant Executed(exec, current, m.statements[k..]) == Executed(exec, schema, m.statements)
      {
        assert m.statements[k..][1..] == m.statements[k + 1..];
        if k == left {
          return None;
        }
        var next := exec(current, m.statements[k]);
        if next.None? {
          return None;
        }
        current := next.value;
      }
      if left - |m.statements| < 2 || m.version in recorded {
        return None;
      }
      tx := Some(current);
    }

    /** Stopped after `budget` statements, whatever it is doing; an open transaction is then
        rolled back. */
    method ApplyMigrations(registry: seq<Migration>, budget: nat) returns (done: seq<Migration>)
      modifies this
      ensures var pending := Pending(Ordered(registry), old(recorded));
              && View() == Applied(exec, old(View()), pending, budget)
              && done == pending[..CommitCount(exec, old(View()), pending, budget)]
    {
      var applied, current, latest, pending := MigrationStatus(registry);
      done := ApplyPending(pending, budget);
    }

    /** The loop of ApplyMigrations. */
    method ApplyPending(pending: seq<Migration>, budget: nat) returns (done: seq<Migration>)
      modifies this
      ensures View() == Applied(exec, old(View()), pending, budget)
      ensures done == pending[..CommitCount(exec, old(View()), pending, budget)]
    {
      ghost var start, db := View(), View();
      var left: nat := budget;
      done := [];
      for i := 0 to |pending|
        invariant done == pending[..i] && schema == db.schema && recorded == db.recorded
        invariant Reached(exec, start, pending, budget, i) == Some((db, left))
      {
        var tx := Transact(pending[i], left);
        if tx.None? {
          RunStops(exec, start, pending, budget, i, db, left);
          return;
        }
        db := Committed(exec, db, pending[i]);
        schema, recorded := tx.value, recorded + [pending[i].version];
        left := left - (|pending[i].statements| + 2);
        done := done + [pending[i]];
      }
      RunStops(exec, start, pending, budget, |pending|, db, left);
    }
  }

  lemma {:induction false} InsertKeeps(m: Migration, ms: seq<Migration>)
    ensures multiset(Insert(m, ms)) == multiset{m} + multiset(ms)
  {
    if ms != [] && m.version >= ms[0].version {
      InsertKeeps(m, ms[1..]);
      assert ms == [ms[0]] + ms[1..];
    }
  }

  lemma {:induction false} OrderedIsPermutation(registry: seq<Migration>)
    ensures multiset(Ordered(registry)) == multiset(registry)
  {
    if registry != [] {
      OrderedIsPermutation(registry[1..]);
      InsertKeeps(registry[0], Ordered(registry[1..]));
      assert registry == [registry[0]] + registry[1..];
    }
  }

  lemma OrderedKeeps(registry: seq<Migration>)
    ensures forall m :: m in registry <==> m in Ordered(registry)
  {
    OrderedIsPermutation(registry);
    assert forall m :: m in registry <==> m in multiset(registry);
    assert forall m :: m in Ordered(registry) <==> m in multiset(Ordered(registry));
  }

  // ---- Main results ------------------------------------------------------------------------

  lemma {:induction false} InsertAscends(m: Migration, ms: seq<Migration>)
    requires Ascending(ms) && forall i :: 0 <= i < |ms| ==> ms[i].version != m.version
    ensures Ascending(Insert(m, ms))
  {
    if ms != [] && m.version >= ms[0].version {
      InsertAscends(m, ms[1..]);
      var rest := Insert(m, ms[1..]);
      forall x | x in rest
        ensures ms[0].version < x.version
      {
        InsertKeeps(m, ms[1..]);
        assert x in multiset(rest);
        assert x == m || x in ms[1..];
      }
    }
  }

  lemma {:induction false} OrderedAscends(registry: seq<Migration>)
    requires UniqueVersions(registry)
    ensures Ascending(Ordered(registry))
  {
    if registry != [] {
      OrderedAscends(registry[1..]);
      OrderedKeeps(registry[1..]);
      forall i | 0 <= i < |Ordered(registry[1..])|
        ensures Ordered(registry[1..])[i].version != registry[0].version
      {
        assert Ordered(registry[1..])[i] in registry[1..];
      }
      InsertAscends(registry[0], Ordered(registry[1..]));
    }
  }

  /** The schema that a series of migrations builds. */
  function Built<S>(exec: Executor<S>, schema: S, ms: seq<Migration>): Option<S> {
    if ms == [] then Some(schema)
    else
      var before := Built(exec, schema, ms[..|ms| - 1]);
      if before.None? then None else Executed(exec, before.value, ms[|ms| - 1].statements)
  }

  /** The database is what exactly the first n migrations of the order build from `empty`. */
  ghost predicate AtPrefix<S>(exec: Executor<S>, empty: S, db: Database<S>, ordered: seq<Migration>, n: nat) {
    n <= |ordered| && db.recorded == Versions(ordered[..n]) && Built(exec, empty, ordered[..n]) == Some(db.schema)
  }

  lemma RecordedBelow(ordered: seq<Migration>, n: nat, i: nat)
    requires Ascending(ordered) && n <= |ordered| && i < |ordered|
    ensures ordered[i].version in Versions(ordered[..n]) <==> i < n
  {
  }

  lemma PendingStep(ms: seq<Migration>, recorded: seq<int>, rest: seq<Migration>)
    requires ms != [] && Pending(ms[1..], recorded) == rest
    ensures Pending(ms, recorded) == if ms[0].version in recorded then rest else [ms[0]] + rest
  {
  }

  lemma {:induction false} PendingIsTheRest(ordered: seq<Migration>, n: nat, i: nat)
    requires Ascending(ordered) && n <= |ordered| && i <= |ordered|
    ensures Pending(ordered[i..], Versions(ordered[..n])) == ordered[if i < n then n else i..]
    decreases |ordered| - i
  {
    if i < |ordered| {
      PendingIsTheRest(ordered, n, i + 1);
      assert ordered[i..][1..] == ordered[i + 1..];
      RecordedBelow(ordered, n, i);
      PendingStep(ordered[i..], Versions(ordered[..n]), ordered[if i + 1 < n then n else i + 1..]);
    }
  }

  lemma CommitAdvances<S>(exec: Executor<S>, empty: S, db: Database<S>, ordered: seq<Migration>, n: nat)
    requires AtPrefix(exec, empty, db, ordered, n) && n < |ordered|
    requires Executed(exec, db.schema, ordered[n].statements).Some?
    ensures AtPrefix(exec, empty, Committed(exec, db, ordered[n]), ordered, n + 1)
  {
    var next := ordered[..n + 1];
    assert next[..n] == ordered[..n] && next[n] == ordered[n];
    assert Versions(next) == Versions(ordered[..n]) + [ordered[n].version];
  }

  lemma AppliedNext<S>(exec: Executor<S>, db: Database<S>, ordered: seq<Migration>, n: nat, budget: nat)
    requires n <= |ordered|
    ensures if n < |ordered| && Commits(exec, db, ordered[n], budget) then
              var next, left := Committed(exec, db, ordered[n]), budget - Cost(ordered[n]);
              && Applied(exec, db, ordered[n..], budget) == Applied(exec, next, ordered[n + 1..], left)
              && CommitCount(exec, db, ordered[n..], budget) == 1 + CommitCount(exec, next, ordered[n + 1..], left)
            else Applied(exec, db, ordered[n..], budget) == db && CommitCount(exec, db, ordered[n..], budget) == 0
  {
    if n < |ordered| {
      assert ordered[n..][0] == ordered[n] && ordered[n..][1..] == ordered[n + 1..];
    }
  }

  /** A run moves the database along the order, by what it commits. */
  lemma {:induction false} RunAdvances<S>(exec: Executor<S>, empty: S, db: Database<S>, ordered: seq<Migration>, n: nat,
                                          budget: nat)
    requires AtPrefix(exec, empty, db, ordered, n)
    ensures AtPrefix(exec, empty, Applied(exec, db, ordered[n..], budget), ordered,
        n + CommitCount(exec, db, ordered[n..], budget))
    decreases |ordered| - n
  {
    AppliedNext(exec, db, ordered, n, budget);
    if n < |ordered| && Commits(exec, db, ordered[n], budget) {
      CommitAdvances(exec, empty, db, ordered, n);
      RunAdvances(exec, empty, Committed(exec, db, ordered[n]), ordered, n + 1, budget - Cost(ordered[n]));
    }
  }

  /** `later` keeps every migration of `earlier` and adds only higher versions. */
  ghost predicate Extends(earlier: seq<Migration>, later: seq<Migration>) {
    && (forall m :: m in earlier ==> m in later)
    && (forall m, k :: m in later && m !in earlier && k in earlier ==> k.version < m.version)
  }

  /** Two orders that agree up to i agree at i, if the second holds all of the first and
      nothing else below the first's versions. */
  lemma SameNext(a: seq<Migration>, b: seq<Migration>, i: nat)
    requires Ascending(a) && Ascending(b) && i < |a| && i <= |b|
    requires forall x :: 0 <= x < i ==> a[x] == b[x]
    requires a[i] in b
    requires forall m, k :: m in b && m !in a && k in a ==> k.version < m.version
    ensures i < |b| && a[i] == b[i]
  {
  }

  lemma {:induction false} SamePrefix(a: seq<Migration>, b: seq<Migration>, n: nat)
    requires Ascending(a) && Ascending(b) && n <= |a|
    requires forall m :: m in a ==> m in b
    requires forall m, k :: m in b && m !in a && k in a ==> k.version < m.version
    ensures n <= |b| && forall x :: 0 <= x < n ==> a[x] == b[x]
  {
    if n > 0 {
      SamePrefix(a, b, n - 1);
      SameNext(a, b, n - 1);
    }
  }

  lemma ExtensionKeepsOrder(earlier: seq<Migration>, later: seq<Migration>, n: nat)
    requires UniqueVersions(earlier) && UniqueVersions(later) && Extends(earlier, later)
    requires n <= |Ordered(earlier)|
    ensures n <= |Ordered(later)| && Ordered(later)[..n] == Ordered(earlier)[..n]
  {
    OrderedAscends(earlier);
    OrderedAscends(later);
    OrderedKeeps(earlier);
    OrderedKeeps(later);
    SamePrefix(Ordered(earlier), Ordered(later), n);
  }

  /** One run of the tool: the registry it was built with, and when it stops. */
  datatype Attempt = Attempt(registry: seq<Migration>, budget: nat)

  function AfterRun<S>(exec: Executor<S>, db: Database<S>, a: Attempt): Database<S> {
    Applied(exec, db, Pending(Ordered(a.registry), db.recorded), a.budget)
  }

  function AfterRuns<S>(exec: Executor<S>, empty: S, attempts: seq<Attempt>): Database<S> {
    if attempts == [] then Database(empty, [])
    else AfterRun(exec, AfterRuns(exec, empty, attempts[..|attempts| - 1]), attempts[|attempts| - 1])
  }

  ghost predicate Growing(attempts: seq<Attempt>) {
    && (forall i :: 0 <= i < |attempts| ==> UniqueVersions(attempts[i].registry))
    && (forall i :: 0 < i < |attempts| ==> Extends(attempts[i - 1].registry, attempts[i].registry))
  }

  /** However many runs there were and wherever each stopped, the recorded versions are a
      prefix of the version order and the schema is what exactly those migrations build. */
  lemma {:induction false} RunsLeaveAPrefix<S>(exec: Executor<S>, empty: S, attempts: seq<Attempt>) returns (n: nat)
    requires attempts != [] && Growing(attempts)
    ensures AtPrefix(exec, empty, AfterRuns(exec, empty, attempts), Ordered(attempts[|attempts| - 1].registry), n)
  {
    var last := |attempts| - 1;
    var a := attempts[last];
    var before := AfterRuns(exec, empty, attempts[..last]);
    n := 0;
    if last > 0 {
      n := RunsLeaveAPrefix(exec, empty, attempts[..last]);
      ExtensionKeepsOrder(attempts[last - 1].registry, a.registry, n);
    }
    assert AtPrefix(exec, empty, before, Ordered(a.registry), n);
    n := RunFromPrefix(exec, empty, before, a, n);
  }

  lemma PendingFromPrefix<S>(exec: Executor<S>, empty: S, db: Database<S>, registry: seq<Migration>, n: nat)
    requires UniqueVersions(registry) && AtPrefix(exec, empty, db, Ordered(registry), n)
    ensures Ascending(Ordered(registry)) && Pending(Ordered(registry), db.recorded) == Ordered(registry)[n..]
  {
    OrderedAscends(registry);
    PendingIsTheRest(Ordered(registry), n, 0);
    assert Ordered(registry)[0..] == Ordered(registry);
  }

  lemma AdvancedBy<S>(exec: Executor<S>, empty: S, db: Database<S>, ordered: seq<Migration>, pending: seq<Migration>,
                      n: nat, budget: nat) returns (m: nat)
    requires AtPrefix(exec, empty, db, ordered, n) && pending == ordered[n..]
    ensures m == n + CommitCount(exec, db, pending, budget)
    ensures AtPrefix(exec, empty, Applied(exec, db, pending, budget), ordered, m)
  {
    RunAdvances(exec, empty, db, ordered, n, budget);
    m := n + CommitCount(exec, db, pending, budget);
  }

  lemma RunFromPrefix<S>(exec: Executor<S>, empty: S, db: Database<S>, a: Attempt, n: nat) returns (m: nat)
    requires UniqueVersions(a.registry) && AtPrefix(exec, empty, db, Ordered(a.registry), n)
    ensures Pending(Ordered(a.registry), db.recorded) == Ordered(a.registry)[n..]
    ensures m == n + CommitCount(exec, db, Pending(Ordered(a.registry), db.recorded), a.budget)
    ensures AtPrefix(exec, empty, AfterRun(exec, db, a), Ordered(a.registry), m)
  {
    var ordered := Ordered(a.registry);
    PendingFromPrefix(exec, empty, db, a.registry, n);
    m := AdvancedBy(exec, empty, db, ordered, Pending(ordered, db.recorded), n, a.budget);
  }

  /** A run that commits all it found pending leaves nothing pending, and every later run of
      the same registry changes nothing. */
  lemma CompletedRunIsFinal<S>(exec: Executor<S>, empty: S, attempts: seq<Attempt>, again: nat)
    requires attempts != [] && Growing(attempts)
    requires var last := |attempts| - 1;
             var before := AfterRuns(exec, empty, attempts[..last]);
             var pending := Pending(Ordered(attempts[last].registry), before.recorded);
             CommitCount(exec, before, pending, attempts[last].budget) == |pending|
    ensures var registry := attempts[|attempts| - 1].registry;
            var db := AfterRuns(exec, empty, attempts);
            && db.recorded == Versions(Ordered(registry))
            && Pending(Ordered(registry), db.recorded) == []
            && AfterRun(exec, db, Attempt(registry, again)) == db
  {
    var last := |attempts| - 1;
    var a := attempts[last];
    var ordered := Ordered(a.registry);
    var before := AfterRuns(exec, empty, attempts[..last]);
    var n := 0;
    if last > 0 {
      n := RunsLeaveAPrefix(exec, empty, attempts[..last]);
      ExtensionKeepsOrder(attempts[last - 1].registry, a.registry, n);
    }
    var m := RunFromPrefix(exec, empty, before, a, n);
    assert m == |ordered| && ordered[..m] == ordered;
    OrderedAscends(a.registry);
    PendingIsTheRest(ordered, m, 0);
    assert ordered[0..] == ordered;
  }

  /** The condition on extensions is exact. Once every migration of a registry is recorded in
      order, they are still a prefix of a later registry's order exactly when that registry
      adds only higher versions; a lower one is applied after migrations meant to follow it. */
  lemma LowerVersionBreaksThePrefix(earlier: seq<Migration>, later: seq<Migration>)
    requires UniqueVersions(earlier) && UniqueVersions(later) && forall m :: m in earlier ==> m in later
    ensures Extends(earlier, later)
            <==> && |Ordered(earlier)| <= |Ordered(later)|
                 && Versions(Ordered(earlier)) == Versions(Ordered(later))[..|Ordered(earlier)|]
  {
    var a, b := Ordered(earlier), Ordered(later);
    if Extends(earlier, later) {
      ExtensionKeepsOrder(earlier, later, |a|);
      assert a[..|a|] == a;
    } else if |a| <= |b| && Versions(a) == Versions(b)[..|a|] {
      OrderedAscends(earlier);
      OrderedAscends(later);
      OrderedKeeps(earlier);
      OrderedKeeps(later);
      PrefixIsExtended(a, b);
    }
  }

  lemma PrefixIsExtended(a: seq<Migration>, b: seq<Migration>)
    requires Ascending(a) && Ascending(b) && (forall m :: m in a ==> m in b)
    requires |a| <= |b| && Versions(a) == Versions(b)[..|a|]
    ensures forall m, k :: m in b && m !in a && k in a ==> k.version < m.version
  {
    forall x | 0 <= x < |a|
      ensures a[x] == b[x]
    {
      assert Versions(a)[x] == Versions(b)[x];
      assert a[x] in b;
    }
  }
}
