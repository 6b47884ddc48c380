/** What a PATCH that took effect answers. reloadVersion (internal/store/crm.go) reads the version
    back in a statement after the UPDATE, so the answer depends on what comes in between: exactly
    when it is the request's own content under that content's own version. */
module UpdateAnswers {
  import opened OptimisticConcurrency

  /** A later entry of the log writes the same record. */
  ghost predicate Overwritten(log: seq<Write>, i: nat)
    requires i < |log|
  {
    exists j :: i < j < |log| && log[j].key == log[i].key
  }

  /** A record is newer than what a write left exactly if a later write is in the log. */
  ghost predicate NewerIsLogged(s: State) {
    forall i :: 0 <= i < |s.log| && s.log[i].key in s.rows ==>
      (s.rows[s.log[i].key].version > s.log[i].from + 1 <==> Overwritten(s.log, i))
  }

  /** A request writes once. */
  ghost predicate WritesOnce(s: State) {
    forall i, j :: 0 <= i < j < |s.log| ==> s.log[i].request != s.log[j].request
  }

  lemma OverwrittenNext(log: seq<Write>, w: Write, i: nat)
    requires i < |log|
    ensures Overwritten(log + [w], i) <==> Overwritten(log, i) || log[i].key == w.key
    ensures !Overwritten(log + [w], |log|)
  {
    if Overwritten(log, i) {
      var j :| i < j < |log| && log[j].key == log[i].key;
      assert (log + [w])[j].key == (log + [w])[i].key;
    }
    if log[i].key == w.key {
      assert (log + [w])[|log|].key == (log + [w])[i].key;
    }
  }

  lemma WriteKeepsNewer(s: State, r: nat)
    requires Inv(s) && NewerIsLogged(s) && r in s.requests && s.requests[r].at.HasRead?
    requires Matches(s.rows, s.requests[r].key, s.requests[r].expected)
    ensures NewerIsLogged(Written(s, r))
  {
    var t := Written(s, r);
    WriteIsNew(s, s.requests[r].key);
    forall i | 0 <= i < |t.log| && t.log[i].key in t.rows
      ensures t.rows[t.log[i].key].version > t.log[i].from + 1 <==> Overwritten(t.log, i)
    {
      if i < |s.log| {
        OverwrittenNext(s.log, t.log[|s.log|], i);
      }
    }
  }

  lemma CreateKeepsNewer(s: State, k: Key, c: Content)
    requires Inv(s) && NewerIsLogged(s) && k.id !in s.used
    ensures NewerIsLogged(Next(s, Create(k, c)))
  {
    forall i | 0 <= i < |s.log|
      ensures s.log[i].key != k
    {
      assert IsMerge(s.history, s.log[i]);
    }
  }

  lemma StepKeepsNewer(s: State, step: Step)
    requires Inv(s) && NewerIsLogged(s)
    ensures NewerIsLogged(Next(s, step))
  {
    if step.Create? && step.key.id !in s.used {
      CreateKeepsNewer(s, step.key, step.content);
    } else if step.Update? && Next(s, step).log != s.log {
      WriteKeepsNewer(s, step.r);
    } else if step.Arrive? || step.Read? || step.Check? || step.Reload? {
      RequestStepIsLocal(s, step);
    }
  }

  lemma StepKeepsOnce(s: State, step: Step)
    requires AnswersMatchLog(s) && WritesOnce(s)
    ensures WritesOnce(Next(s, step))
  {
    var t := Next(s, step);
    if step.Update? && t.log != s.log {
      forall i | 0 <= i < |s.log|
        ensures s.log[i].request != step.r
      {
        assert TookEffect(s.requests[s.log[i].request].at);
      }
    }
  }

  lemma NewerNext(steps: seq<Step>, step: Step)
    requires NewerIsLogged(Run(INITIAL, steps))
    ensures NewerIsLogged(Next(Run(INITIAL, steps), step))
  {
    RunKeepsInv(steps);
    StepKeepsNewer(Run(INITIAL, steps), step);
  }

  lemma {:induction false} RunKeepsNewer(steps: seq<Step>)
    ensures NewerIsLogged(Run(INITIAL, steps))
  {
    if steps != [] {
      RunKeepsNewer(steps[..|steps| - 1]);
      NewerNext(steps[..|steps| - 1], steps[|steps| - 1]);
    }
  }

  lemma {:induction false} RunKeepsOnce(steps: seq<Step>)
    ensures WritesOnce(Run(INITIAL, steps))
  {
    if steps != [] {
      var front := steps[..|steps| - 1];
      RunKeepsOnce(front);
      RunKeepsAnswers(front);
      StepKeepsOnce(Run(INITIAL, front), steps[|front|]);
    }
  }

  /** The request has written, as entry i of the log, and not yet read its version back. */
  ghost predicate AwaitsVersion(s: State, r: nat, i: nat) {
    && r in s.requests && s.requests[r].at.HasWritten?
    && i < |s.log| && s.log[i].request == r
  }

  /** What the answer says of the write that is entry i of the log. */
  ghost predicate TellsOfWrite(s: State, r: nat, i: nat, o: Outcome)
    requires AwaitsVersion(s, r, i)
  {
    var at, k := s.requests[r].at, s.log[i].key;
    && at.wrote == s.log[i].from + 1
    && (o == Updated(at.wrote, at.content) <==> k in s.rows && !Overwritten(s.log, i))
    && (o == ServerError <==> k !in s.rows)
    && (k in s.rows && Overwritten(s.log, i) ==>
          o.Updated? && o.content == at.content && o.version > at.wrote && o.version == s.rows[k].version)
  }

  lemma OwnEntry(steps: seq<Step>, r: nat, i: nat)
    requires AwaitsVersion(Run(INITIAL, steps), r, i)
    ensures AnswersFor(Run(INITIAL, steps), r, i)
  {
    var s := Run(INITIAL, steps);
    RunKeepsOnce(steps);
    RunKeepsAnswers(steps);
    var j :| 0 <= j < |s.log| && AnswersFor(s, r, j);
    assert s.log[j].request == s.log[i].request && i == j;
  }

  lemma ReloadTells(s: State, r: nat, i: nat)
    requires AwaitsVersion(s, r, i) && AnswersFor(s, r, i) && NewerIsLogged(s)
    requires s.log[i].key in s.rows ==> s.log[i].from + 1 <= s.rows[s.log[i].key].version
    ensures Next(s, Reload(r)).requests[r].at.Answered?
    ensures TellsOfWrite(s, r, i, Next(s, Reload(r)).requests[r].at.outcome)
  {
  }

  /** In every reachable state: a request that has written answers its own content under that
      content's own version if and only if the record is still there and nobody has written it
      since; a server error if and only if the record has been deleted; and otherwise its content
      under the version of a later write. */
  lemma ReloadAnswersExactly(steps: seq<Step>, r: nat, i: nat)
    requires AwaitsVersion(Run(INITIAL, steps), r, i)
    ensures var s := Run(INITIAL, steps);
            && Next(s, Reload(r)).requests[r].at.Answered?
            && TellsOfWrite(s, r, i, Next(s, Reload(r)).requests[r].at.outcome)
  {
    var s := Run(INITIAL, steps);
    OwnEntry(steps, r, i);
    RunKeepsNewer(steps);
    if s.log[i].key in s.rows {
      RunKeepsInv(steps);
      WrittenIsNoNewer(s, i);
    }
    ReloadTells(s, r, i);
  }

  /** Step n of the run read the version back for the write that was then entry i of the log, and
      the answer is o. */
  ghost predicate ReloadedAt(steps: seq<Step>, r: nat, o: Outcome, n: nat, i: nat) {
    && n < |steps| && steps[n] == Reload(r)
    && AwaitsVersion(Run(INITIAL, steps[..n]), r, i)
    && TellsOfWrite(Run(INITIAL, steps[..n]), r, i, o)
  }

  lemma LastAnswer(steps: seq<Step>, r: nat, step: Step)
    requires var s := Run(INITIAL, steps); !(r in s.requests && s.requests[r].at.Answered?)
    requires var t := Next(Run(INITIAL, steps), step);
             r in t.requests && t.requests[r].at.Answered? && TookEffect(t.requests[r].at)
    ensures step == Reload(r) && r in Run(INITIAL, steps).requests && Run(INITIAL, steps).requests[r].at.HasWritten?
  {
  }

  lemma LastAnswerIsReloaded(steps: seq<Step>, r: nat)
    requires var s := Run(INITIAL, steps); r in s.requests && s.requests[r].at.HasWritten?
    ensures var s := Run(INITIAL, steps);
            exists i: nat :: AwaitsVersion(s, r, i) && TellsOfWrite(s, r, i, Next(s, Reload(r)).requests[r].at.outcome)
  {
    var s := Run(INITIAL, steps);
    RunKeepsAnswers(steps);
    var i :| 0 <= i < |s.log| && AnswersFor(s, r, i);
    ReloadAnswersExactly(steps, r, i);
  }

  lemma AnswersStay(s: State, step: Step, r: nat)
    requires r in s.requests && s.requests[r].at.Answered?
    ensures r in Next(s, step).requests && Next(s, step).requests[r] == s.requests[r]
  {
  }

  /** Every answer of a request that took effect was given in this way, at the moment of its
      reload. */
  lemma {:induction false} AnswerWasReloaded(steps: seq<Step>, r: nat)
    requires r in Run(INITIAL, steps).requests && Run(INITIAL, steps).requests[r].at.Answered?
    requires TookEffect(Run(INITIAL, steps).requests[r].at)
    ensures exists n: nat, i: nat :: ReloadedAt(steps, r, Run(INITIAL, steps).requests[r].at.outcome, n, i)
  {
    var front, last := steps[..|steps| - 1], steps[|steps| - 1];
    var s, o := Run(INITIAL, front), Run(INITIAL, steps).requests[r].at.outcome;
    if r in s.requests && s.requests[r].at.Answered? {
      AnswersStay(s, last, r);
      AnswerWasReloaded(front, r);
      var n: nat, i: nat :| ReloadedAt(front, r, o, n, i);
      assert front[..n] == steps[..n];
      assert ReloadedAt(steps, r, o, n, i);
    } else {
      LastAnswer(front, r, last);
      LastAnswerIsReloaded(front, r);
      var i: nat :| AwaitsVersion(s, r, i) && TellsOfWrite(s, r, i, o);
      assert ReloadedAt(steps, r, o, |front|, i);
    }
  }

  // ---- Both cases happen -------------------------------------------------------------

  function OnePatched(k: Key, c: Content, p: Patch): seq<Step> {
    [Create(k, c)] + PatchSteps(0, k, p, 1)
  }

  lemma OnePatchedIs(k: Key, c: Content, p: Patch)
    ensures var s := Run(INITIAL, OnePatched(k, c, p));
            && s.rows == map[k := Row(2, Merge(p, c))] && s.requests.Keys == {0}
            && s.requests[0].key == k && s.requests[0].at == HasWritten(2, Merge(p, c))
            && |s.log| == 1 && s.log[0].request == 0 && s.log[0].from == 1
  {
    var created := Next(INITIAL, Create(k, c));
    RunBoth(INITIAL, [Create(k, c)], PatchSteps(0, k, p, 1));
    RunThen(INITIAL, [], Create(k, c));
    assert [] + [Create(k, c)] == [Create(k, c)];
    PatchStepsRun(created, 0, k, p, 1);
    PatchedWrites(created, 0, k, p, 1);
  }

  /** A run from the empty store in which a conditional PATCH answers its content, which became
      version 2, under version 3: another client wrote version 3 before the version was read back. */
  lemma AnswerMayCarryANewerVersion(k: Key, c: Content, p: Patch, q: Patch)
    ensures var s := Run(INITIAL, OnePatched(k, c, p) + PatchSteps(1, k, q, 2) + [Reload(0)]);
            && 0 in s.requests && s.requests[0].at == Answered(Updated(3, Merge(p, c)))
            && |s.log| > 0 && s.log[0].request == 0 && s.log[0].from + 1 == 2
  {
    var s := Run(INITIAL, OnePatched(k, c, p));
    OnePatchedIs(k, c, p);
    RunThen(INITIAL, OnePatched(k, c, p) + PatchSteps(1, k, q, 2), Reload(0));
    RunBoth(INITIAL, OnePatched(k, c, p), PatchSteps(1, k, q, 2));
    PatchStepsRun(s, 1, k, q, 2);
    NewerAnswered(s, k, Merge(p, c), q);
  }

  lemma NewerAnswered(s: State, k: Key, c: Content, q: Patch)
    requires s.rows == map[k := Row(2, c)] && s.requests.Keys == {0} && s.requests[0].key == k
    requires s.requests[0].at == HasWritten(2, c)
    ensures var t := Next(Patched(s, 1, k, q, 2), Reload(0));
            && 0 in t.requests && t.requests[0].at == Answered(Updated(3, c))
            && s.log <= t.log
  {
    PatchedWrites(s, 1, k, q, 2);
  }

  /** A run in which a PATCH that took effect answers a server error: the record was deleted in
      between. */
  lemma ErrorMayFollowAWrite(k: Key, c: Content, p: Patch)
    ensures var s := Run(INITIAL, OnePatched(k, c, p) + [Delete(k)] + [Reload(0)]);
            0 in s.requests && s.requests[0].at == Answered(ServerError) && |s.log| == 1 && s.log[0].request == 0
  {
    OnePatchedIs(k, c, p);
    RunThen(INITIAL, OnePatched(k, c, p) + [Delete(k)], Reload(0));
    RunThen(INITIAL, OnePatched(k, c, p), Delete(k));
    ErrorAnswered(Run(INITIAL, OnePatched(k, c, p)), k);
  }

  lemma ErrorAnswered(s: State, k: Key)
    requires 0 in s.requests && s.requests[0].key == k && s.requests[0].at.HasWritten?
    ensures var t := Next(Next(s, Delete(k)), Reload(0));
            0 in t.requests && t.requests[0].at == Answered(ServerError) && t.log == s.log
  {
  }
}
