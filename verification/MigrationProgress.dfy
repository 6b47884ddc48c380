/** How far a migration run gets, exactly: it records every pending migration up to the first that
    holds a failing statement or is not paid for by the statements left before the run is stopped. */
module MigrationProgress {
  import opened Migrations
  import opened Options

  /** The schema after some statements, if none fails. */
  function Outcome<S>(exec: Executor<S>, schema: S, statements: seq<Statement>): Option<S> {
    if statements == [] then Some(schema)
    else
      match Outcome(exec, schema, statements[..|statements| - 1])
      case None => None
      case Some(s) => exec(s, statements[|statements| - 1])
  }

  function AllStatements(ms: seq<Migration>): seq<Statement> {
    if ms == [] then [] else AllStatements(ms[..|ms| - 1]) + ms[|ms| - 1].statements
  }

  /** The statements of some migrations, and two more for each: the record and the commit. */
  function Needed(ms: seq<Migration>): nat {
    if ms == [] then 0 else Needed(ms[..|ms| - 1]) + |ms[|ms| - 1].statements| + 2
  }

  // ---- The fold ------------------------------------------------------------------------

  lemma {:induction false} OutcomeAppend<S>(exec: Executor<S>, schema: S, a: seq<Statement>, b: seq<Statement>)
    ensures Outcome(exec, schema, a + b)
         == match Outcome(exec, schema, a) case None => None case Some(s) => Outcome(exec, s, b)
    decreases |b|
  {
    if b == [] {
      assert a + b == a;
    } else {
      var front := b[..|b| - 1];
      assert (a + b)[..|a + b| - 1] == a + front;
      OutcomeAppend(exec, schema, a, front);
    }
  }

  lemma OutcomeOne<S>(exec: Executor<S>, schema: S, statement: Statement)
    ensures Outcome(exec, schema, [statement]) == exec(schema, statement)
  {
    assert [statement][..0] == [];
  }

  /** A transaction runs its statements one after the other. */
  lemma {:induction false} ExecutedIs<S>(exec: Executor<S>, schema: S, statements: seq<Statement>)
    ensures Executed(exec, schema, statements) == Outcome(exec, schema, statements)
  {
    if statements != [] {
      var first, rest := statements[0], statements[1..];
      assert statements == [first] + rest;
      OutcomeAppend(exec, schema, [first], rest);
      OutcomeOne(exec, schema, first);
      if exec(schema, first).Some? {
        ExecutedIs(exec, exec(schema, first).value, rest);
      }
    }
  }

  lemma {:induction false} BuiltIs<S>(exec: Executor<S>, schema: S, ms: seq<Migration>)
    ensures Built(exec, schema, ms) == Outcome(exec, schema, AllStatements(ms))
  {
    if ms != [] {
      var front, last := ms[..|ms| - 1], ms[|ms| - 1];
      BuiltIs(exec, schema, front);
      OutcomeAppend(exec, schema, AllStatements(front), last.statements);
      if Built(exec, schema, front).Some? {
        ExecutedIs(exec, Built(exec, schema, front).value, last.statements);
      }
    }
  }

  lemma {:induction false} BuiltBefore<S>(exec: Executor<S>, schema: S, ms: seq<Migration>, k: nat)
    requires k <= |ms| && Built(exec, schema, ms).Some?
    ensures Built(exec, schema, ms[..k]).Some?
    decreases |ms|
  {
    if k < |ms| {
      BuiltBefore(exec, schema, ms[..|ms| - 1], k);
      assert ms[..|ms| - 1][..k] == ms[..k];
    } else {
      assert ms[..k] == ms;
    }
  }

  lemma {:induction false} NeededCons(m: Migration, ms: seq<Migration>)
    ensures Needed([m] + ms) == |m.statements| + 2 + Needed(ms)
    decreases |ms|
  {
    if ms == [] {
      assert [m] + ms == [m] && [m][..0] == [];
    } else {
      assert ([m] + ms)[..|ms|] == [m] + ms[..|ms| - 1];
      NeededCons(m, ms[..|ms| - 1]);
    }
  }

  // ---- How far a run gets ----------------------------------------------------------------

  lemma NextCommits<S>(exec: Executor<S>, empty: S, db: Database<S>, ordered: seq<Migration>, n: nat, budget: nat)
    requires Ascending(ordered) && AtPrefix(exec, empty, db, ordered, n) && n < |ordered|
    ensures Commits(exec, db, ordered[n], budget)
        <==> Built(exec, empty, ordered[..n + 1]).Some? && |ordered[n].statements| + 2 <= budget
  {
    RecordedBelow(ordered, n, n);
    assert ordered[..n + 1][..n] == ordered[..n];
  }

  /** What a run from n to k takes is what its first migration takes and what the rest takes. */
  lemma FirstOfMany<S>(exec: Executor<S>, empty: S, ordered: seq<Migration>, n: nat, k: nat)
    requires n < k <= |ordered|
    ensures Needed(ordered[n..k]) == |ordered[n].statements| + 2 + Needed(ordered[n + 1..k])
    ensures Built(exec, empty, ordered[..k]).Some? ==> Built(exec, empty, ordered[..n + 1]).Some?
  {
    assert ordered[n..k] == [ordered[n]] + ordered[n + 1..k];
    NeededCons(ordered[n], ordered[n + 1..k]);
    if Built(exec, empty, ordered[..k]).Some? {
      BuiltBefore(exec, empty, ordered[..k], n + 1);
      assert ordered[..k][..n + 1] == ordered[..n + 1];
    }
  }

  lemma {:induction false} CommitsExactly<S>(exec: Executor<S>, empty: S, db: Database<S>, ordered: seq<Migration>,
                                             n: nat, k: nat, budget: nat)
    requires Ascending(ordered) && AtPrefix(exec, empty, db, ordered, n) && n <= k <= |ordered|
    ensures CommitCount(exec, db, ordered[n..], budget) >= k - n
        <==> Built(exec, empty, ordered[..k]).Some? && Needed(ordered[n..k]) <= budget
    decreases k - n
  {
    if k == n {
      assert ordered[n..k] == [];
    } else {
      FirstOfMany(exec, empty, ordered, n, k);
      NextCommits(exec, empty, db, ordered, n, budget);
      AppliedNext(exec, db, ordered, n, budget);
      if Commits(exec, db, ordered[n], budget) {
        CommitAdvances(exec, empty, db, ordered, n);
        CommitsExactly(exec, empty, Committed(exec, db, ordered[n]), ordered, n + 1, k, budget - Cost(ordered[n]));
      }
    }
  }

  /** The first n migrations of the order are recorded, and the schema is what their statements
      make of the empty one. */
  ghost predicate Stands<S>(exec: Executor<S>, empty: S, db: Database<S>, ordered: seq<Migration>, n: nat) {
    && n <= |ordered| && db.recorded == Versions(ordered[..n])
    && Outcome(exec, empty, AllStatements(ordered[..n])) == Some(db.schema)
  }

  /** A run that starts behind the first n migrations ends behind the first m, and m is at least k
      exactly if no statement of the first k fails and those from n to k are paid for. */
  lemma RunGetsExactlyAsFar<S>(exec: Executor<S>, empty: S, db: Database<S>, a: Attempt, n: nat) returns (m: nat)
    requires forall i, j :: 0 <= i < j < |a.registry| ==> a.registry[i].version != a.registry[j].version
    requires Stands(exec, empty, db, Ordered(a.registry), n)
    ensures n <= m && Stands(exec, empty, AfterRun(exec, db, a), Ordered(a.registry), m)
    ensures forall k :: n <= k <= |Ordered(a.registry)| ==>
              (k <= m <==> && Outcome(exec, empty, AllStatements(Ordered(a.registry)[..k])).Some?
                           && Needed(Ordered(a.registry)[n..k]) <= a.budget)
  {
    var ordered := Ordered(a.registry);
    BuiltIs(exec, empty, ordered[..n]);
    m := RunFromPrefix(exec, empty, db, a, n);
    BuiltIs(exec, empty, ordered[..m]);
    OrderedAscends(a.registry);
    forall k | n <= k <= |ordered|
      ensures k <= m <==> Outcome(exec, empty, AllStatements(ordered[..k])).Some? && Needed(ordered[n..k]) <= a.budget
    {
      CommitsExactly(exec, empty, db, ordered, n, k, a.budget);
      BuiltIs(exec, empty, ordered[..k]);
    }
  }

  /** So a run that may take its time, over statements that succeed, applies everything. */
  lemma RunAppliesAll<S>(exec: Executor<S>, empty: S, db: Database<S>, a: Attempt, n: nat)
    requires forall i, j :: 0 <= i < j < |a.registry| ==> a.registry[i].version != a.registry[j].version
    requires Stands(exec, empty, db, Ordered(a.registry), n)
    requires Outcome(exec, empty, AllStatements(Ordered(a.registry))).Some?
    requires Needed(Ordered(a.registry)[n..]) <= a.budget
    ensures AfterRun(exec, db, a).recorded == Versions(Ordered(a.registry))
    ensures Some(AfterRun(exec, db, a).schema) == Outcome(exec, empty, AllStatements(Ordered(a.registry)))
  {
    var ordered := Ordered(a.registry);
    var m := RunGetsExactlyAsFar(exec, empty, db, a, n);
    assert ordered[..|ordered|] == ordered && ordered[n..|ordered|] == ordered[n..];
  }
}
