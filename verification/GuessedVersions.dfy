/** When a conditional PATCH is protected, exactly: a client may send a version it has not seen
    (internal/server/handlers_crm.go), and the check passes once that version exists. */
module GuessedVersions {
  import opened OptimisticConcurrency

  /** Whatever happens next, if the request's write takes effect it stores its patch merged onto
      the content of exactly the version it expects. */
  ghost predicate WritesOntoExpected(t: State, r: nat, k: Key, p: Patch, e: int) {
    forall i :: 0 <= i < |t.log| && t.log[i].request == r ==>
      (k, e) in t.history && (k, e + 1) in t.history && t.history[(k, e + 1)] == Merge(p, t.history[(k, e)])
  }

  ghost predicate Protected(s: State, r: nat, k: Key, p: Patch, e: int) {
    forall steps :: WritesOntoExpected(Run(Next(s, Arrive(r, k, p, e)), steps), r, k, p, e)
  }

  /** The version exists; or the record was deleted, or is another workspace's, and can never be
      written under this key; or it is the first version of a record yet to be created. */
  predicate MayExpect(s: State, k: Key, e: int) {
    || (k, e) in s.history
    || (k.id in s.used && k !in s.rows)
    || (k.id !in s.used && e == 1)
  }

  /** The patch leaves nothing of the content it is merged onto. */
  predicate Overwrites(p: Patch) {
    (forall f: Column :: f in p.columns) && p.custom.Cleared?
  }

  // ---- What a continuation keeps -------------------------------------------------------

  /** The request as it arrived, and its entries in the log. */
  ghost predicate Tracks(t: State, r: nat, k: Key, p: Patch, e: int, sighted: bool) {
    && r in t.requests
    && t.requests[r] == Request(k, p, e, sighted, t.requests[r].at)
    && forall i :: 0 <= i < |t.log| && t.log[i].request == r ==>
         t.log[i] == Write(r, k, p, e, sighted, t.log[i].base, t.log[i].from)
  }

  lemma StepTracks(t: State, step: Step, r: nat, k: Key, p: Patch, e: int, sighted: bool)
    requires Tracks(t, r, k, p, e, sighted)
    ensures Tracks(Next(t, step), r, k, p, e, sighted)
  {
  }

  lemma {:induction false} RunTracks(t: State, steps: seq<Step>, r: nat, k: Key, p: Patch, e: int, sighted: bool)
    requires Tracks(t, r, k, p, e, sighted) && Inv(t)
    ensures Tracks(Run(t, steps), r, k, p, e, sighted) && Inv(Run(t, steps))
  {
    if steps != [] {
      RunTracks(t, steps[..|steps| - 1], r, k, p, e, sighted);
      StepTracks(Run(t, steps[..|steps| - 1]), steps[|steps| - 1], r, k, p, e, sighted);
      StepKeepsInv(Run(t, steps[..|steps| - 1]), steps[|steps| - 1]);
    }
  }

  /** A key without a row whose id is taken never gets one, and is never written. */
  ghost predicate Closed(t: State, k: Key, n: nat) {
    k.id in t.used && k !in t.rows && |t.log| >= n && forall i :: n <= i < |t.log| ==> t.log[i].key != k
  }

  lemma {:induction false} RunStaysClosed(t: State, steps: seq<Step>, k: Key, n: nat)
    requires Closed(t, k, n)
    ensures Closed(Run(t, steps), k, n)
  {
    if steps != [] {
      RunStaysClosed(t, steps[..|steps| - 1], k, n);
    }
  }

  lemma Arrival(before: seq<Step>, r: nat, k: Key, p: Patch, e: int)
    requires r !in Run(INITIAL, before).requests
    ensures var s := Run(INITIAL, before);
            var t := Next(s, Arrive(r, k, p, e));
            && Inv(s) && Inv(t) && Tracks(t, r, k, p, e, (k, e) in s.history)
            && t == s.(requests := s.requests[r := Request(k, p, e, (k, e) in s.history, Arrived)])
            && forall i :: 0 <= i < |t.log| ==> t.log[i].request != r
  {
    RunKeepsInv(before);
    RunKeepsAnswers(before);
    StepKeepsInv(Run(INITIAL, before), Arrive(r, k, p, e));
  }

  lemma MayExpectIsEnough(before: seq<Step>, r: nat, k: Key, p: Patch, e: int, steps: seq<Step>)
    requires r !in Run(INITIAL, before).requests && e > 0 && MayExpect(Run(INITIAL, before), k, e)
    ensures WritesOntoExpected(Run(Next(Run(INITIAL, before), Arrive(r, k, p, e)), steps), r, k, p, e)
  {
    var s := Run(INITIAL, before);
    var t := Next(s, Arrive(r, k, p, e));
    Arrival(before, r, k, p, e);
    RunTracks(t, steps, r, k, p, e, (k, e) in s.history);
    if k.id in s.used && k !in s.rows {
      ClosedIsEnough(t, steps, r, k, p, e);
    } else {
      FirstOrSeenIsEnough(Run(t, steps), r, k, p, e, (k, e) in s.history);
    }
  }

  lemma ClosedIsEnough(t: State, steps: seq<Step>, r: nat, k: Key, p: Patch, e: int)
    requires k.id in t.used && k !in t.rows && forall i :: 0 <= i < |t.log| ==> t.log[i].request != r
    requires forall i :: 0 <= i < |Run(t, steps).log| && Run(t, steps).log[i].request == r ==>
               Run(t, steps).log[i].key == k
    ensures WritesOntoExpected(Run(t, steps), r, k, p, e)
  {
    RunStaysClosed(t, steps, k, |t.log|);
    RunKeepsLog(t, steps);
  }

  lemma FirstOrSeenIsEnough(u: State, r: nat, k: Key, p: Patch, e: int, sighted: bool)
    requires Inv(u) && Tracks(u, r, k, p, e, sighted) && e > 0 && (sighted || e == 1)
    ensures WritesOntoExpected(u, r, k, p, e)
  {
    forall i | 0 <= i < |u.log| && u.log[i].request == r
      ensures (k, e) in u.history && (k, e + 1) in u.history && u.history[(k, e + 1)] == Merge(p, u.history[(k, e)])
    {
      assert IsMerge(u.history, u.log[i]);
    }
  }

  lemma {:induction false} RunKeepsLog(t: State, steps: seq<Step>)
    ensures t.log <= Run(t, steps).log
  {
    if steps != [] {
      RunKeepsLog(t, steps[..|steps| - 1]);
    }
  }

  // ---- A loss for any other version ----------------------------------------------------

  /** Versions start at one and have no gap. */
  ghost predicate Gapless(s: State) {
    forall k, v :: k in s.rows && 1 <= v <= s.rows[k].version ==> (k, v) in s.history
  }

  lemma {:induction false} RunIsGapless(steps: seq<Step>)
    ensures Gapless(Run(INITIAL, steps))
  {
    if steps != [] {
      RunIsGapless(steps[..|steps| - 1]);
    }
  }

  lemma AnotherNumber(taken: set<nat>) returns (n: nat)
    ensures n !in taken
    ensures forall x :: x in taken ==> x < n
  {
    if taken == {} {
      n := 0;
    } else {
      var x :| x in taken;
      var m := AnotherNumber(taken - {x});
      n := if x < m then m else x + 1;
      forall y | y in taken
        ensures y < n
      {
        assert y == x || y in taken - {x};
      }
    }
  }

  lemma AnotherKey(taken: set<string>) returns (f: string)
    ensures f !in taken
  {
    var lengths: set<nat> := set x | x in taken :: |x|;
    var n := AnotherNumber(lengths);
    f := seq(n, _ => 'x');
    forall g | g in taken
      ensures g != f
    {
      assert |g| in lengths;
    }
  }

  /** A place in a content: a column or a key of `custom`. */
  datatype Spot = InColumn(f: Column) | InCustom(key: string)

  predicate Shows(c: Content, spot: Spot, value: string) {
    match spot
    case InColumn(f) => c.columns[f] == value
    case InCustom(key) => key in c.custom && c.custom[key] == value
  }

  /** A change of one place. */
  function Setting(spot: Spot, value: string): Patch {
    match spot
    case InColumn(f) => Patch(map[f := value], Unnamed)
    case InCustom(key) => Patch(map[], Named(map[key := value]))
  }

  /** The patch keeps what the content it is merged onto has there. */
  predicate Keeps(p: Patch, spot: Spot) {
    match spot
    case InColumn(f) => f !in p.columns
    case InCustom(key) => p.custom.Unnamed? || (p.custom.Named? && key !in p.custom.fields)
  }

  lemma SomethingIsKept(p: Patch) returns (spot: Spot)
    requires !Overwrites(p)
    ensures Keeps(p, spot)
  {
    if f: Column :| f !in p.columns {
      spot := InColumn(f);
    } else {
      var key := AnotherKey(if p.custom.Named? then p.custom.fields.Keys else {});
      spot := InCustom(key);
    }
  }

  /** Other clients change one place of the row until it has the version wanted. */
  lemma WrittenUpTo(s: State, k: Key, spot: Spot, value: string, e: int) returns (steps: seq<Step>)
    requires k in s.rows && s.rows[k].version < e
    ensures var t := Run(s, steps);
            && k in t.rows && t.rows[k].version == e
            && Shows(t.rows[k].content, spot, value)
            && forall r :: r in s.requests ==> r in t.requests && t.requests[r] == s.requests[r]
    decreases e - s.rows[k].version
  {
    var n := AnotherNumber(s.requests.Keys);
    var v := s.rows[k].version;
    var change := Setting(spot, value);
    var one := PatchSteps(n, k, change, 0);
    PatchedWrites(s, n, k, change, 0);
    PatchStepsRun(s, n, k, change, 0);
    if v + 1 == e {
      steps := one;
    } else {
      var rest := WrittenUpTo(Run(s, one), k, spot, value, e);
      steps := one + rest;
      RunBoth(s, one, rest);
    }
  }

  /** The patch keeps a place, so the content it was merged onto shows there. */
  lemma MergesDiffer(p: Patch, a: Content, b: Content, spot: Spot, value: string)
    requires Keeps(p, spot) && Shows(b, spot, value) && !Shows(a, spot, value)
    ensures Merge(p, a) != Merge(p, b)
  {
    assert Shows(Merge(p, b), spot, value) && !Shows(Merge(p, a), spot, value);
  }

  /** The request reads too early, and writes once the version it guessed is there. */
  lemma LateUpdate(t: State, r: nat, k: Key, p: Patch, e: int, base: Row)
    requires Inv(t) && k in t.rows && t.rows[k].version == e && e > 0
    requires r in t.requests && t.requests[r].key == k && t.requests[r].patch == p && t.requests[r].expected == e
    requires t.requests[r].at == HasRead(base) && Merge(p, base.content) != Merge(p, t.rows[k].content)
    ensures !WritesOntoExpected(Next(t, Update(r)), r, k, p, e)
  {
    var u := Next(t, Update(r));
    assert u == Written(t, r);
    assert u.log[|t.log|].request == r;
    assert u.history[(k, e)] == t.rows[k].content;
  }

  /** A guess of a version that is still to come loses an update. */
  lemma GuessLoses(t: State, r: nat, k: Key, p: Patch, e: int, sighted: bool) returns (steps: seq<Step>)
    requires Inv(t) && r in t.requests && t.requests[r] == Request(k, p, e, sighted, Arrived)
    requires k in t.rows && t.rows[k].version < e && !Overwrites(p)
    ensures !WritesOntoExpected(Run(t, steps), r, k, p, e)
  {
    var spot := SomethingIsKept(p);
    var base := t.rows[k];
    var value := if Shows(base.content, spot, "x") then "y" else "x";
    var read := Next(t, Read(r));
    assert read == Advance(t, r, HasRead(base));
    var writes := WrittenUpTo(read, k, spot, value, e);
    var late := Run(read, writes);
    steps := [Read(r)] + writes + [Update(r)];
    RunThen(t, [], Read(r));
    assert [] + [Read(r)] == [Read(r)];
    RunBoth(t, [Read(r)], writes);
    RunThen(t, [Read(r)] + writes, Update(r));
    MergesDiffer(p, base.content, late.rows[k].content, spot, value);
    StepKeepsInv(t, Read(r));
    InvHolds(read, writes);
    LateUpdate(late, r, k, p, e, base);
  }

  lemma {:induction false} InvHolds(t: State, steps: seq<Step>)
    requires Inv(t)
    ensures Inv(Run(t, steps))
  {
    if steps != [] {
      InvHolds(t, steps[..|steps| - 1]);
      StepKeepsInv(Run(t, steps[..|steps| - 1]), steps[|steps| - 1]);
    }
  }

  lemma NotExpectedLoses(before: seq<Step>, r: nat, k: Key, p: Patch, e: int) returns (steps: seq<Step>)
    requires r !in Run(INITIAL, before).requests && e > 0 && !MayExpect(Run(INITIAL, before), k, e)
    requires !Overwrites(p)
    ensures !WritesOntoExpected(Run(Next(Run(INITIAL, before), Arrive(r, k, p, e)), steps), r, k, p, e)
  {
    var s := Run(INITIAL, before);
    var t := Next(s, Arrive(r, k, p, e));
    Arrival(before, r, k, p, e);
    RunIsGapless(before);
    if k in s.rows {
      steps := GuessLoses(t, r, k, p, e, false);
    } else {
      var create := Create(k, Content(BLANK, map[]));
      StepKeepsInv(t, create);
      var rest := GuessLoses(Next(t, create), r, k, p, e, false);
      steps := [create] + rest;
      RunThen(t, [], create);
      assert [] + [create] == [create];
      RunBoth(t, [create], rest);
    }
  }

  lemma OverwritingIsEnough(u: State, r: nat, k: Key, p: Patch, e: int, sighted: bool)
    requires Inv(u) && Tracks(u, r, k, p, e, sighted) && e > 0 && Overwrites(p)
    ensures WritesOntoExpected(u, r, k, p, e)
  {
    forall i | 0 <= i < |u.log| && u.log[i].request == r
      ensures (k, e) in u.history && (k, e + 1) in u.history && u.history[(k, e + 1)] == Merge(p, u.history[(k, e)])
    {
      assert IsMerge(u.history, u.log[i]);
      MergesAgree(p, u.history[(k, u.log[i].base)], u.history[(k, e)]);
    }
  }

  /** In every reachable state, a request that expects version e of a record is protected from
      losing updates, whatever happens next, if and only if that version exists, or the record
      can no longer be written under its key, or it is yet to be created and e is its first
      version, or the patch overwrites everything a contact holds. */
  lemma ProtectedExactlyIf(before: seq<Step>, r: nat, k: Key, p: Patch, e: int)
    requires r !in Run(INITIAL, before).requests && e > 0
    ensures Protected(Run(INITIAL, before), r, k, p, e)
        <==> MayExpect(Run(INITIAL, before), k, e) || Overwrites(p)
  {
    var s := Run(INITIAL, before);
    if MayExpect(s, k, e) || Overwrites(p) {
      forall steps
        ensures WritesOntoExpected(Run(Next(s, Arrive(r, k, p, e)), steps), r, k, p, e)
      {
        if MayExpect(s, k, e) {
          MayExpectIsEnough(before, r, k, p, e, steps);
        } else {
          Arrival(before, r, k, p, e);
          RunTracks(Next(s, Arrive(r, k, p, e)), steps, r, k, p, e, (k, e) in s.history);
          OverwritingIsEnough(Run(Next(s, Arrive(r, k, p, e)), steps), r, k, p, e, (k, e) in s.history);
        }
      }
    } else {
      var steps := NotExpectedLoses(before, r, k, p, e);
    }
  }
}
