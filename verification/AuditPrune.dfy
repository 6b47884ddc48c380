/** The throttle of the audit retention sweep: internal/server/server.go. A request reads the
    clock, loads the time of the last sweep and tries to replace it; requests interleave between
    these steps in any way. */
module AuditPrune {

  /** In seconds. */
  const INTERVAL := 3600

  class Throttle {
    var lastPrune: int

    constructor ()
      ensures lastPrune == 0
    {
      lastPrune := 0;
    }

    /** sync/atomic's CompareAndSwap. */
    method CompareAndSwap(expected: int, value: int) returns (swapped: bool)
      modifies this
      ensures swapped <==> old(lastPrune) == expected
      ensures lastPrune == if swapped then value else old(lastPrune)
    {
      swapped := lastPrune == expected;
      if swapped {
        lastPrune := value;
      }
    }

    /** maybePruneAudit with no other request in between: does this one run the sweep? */
    method MaybePruneAudit(now: int) returns (sweeps: bool)
      modifies this
      ensures sweeps <==> now - old(lastPrune) >= 3600
      ensures lastPrune == if sweeps then now else old(lastPrune)
    {
      var last := lastPrune;
      if now - last < INTERVAL {
        return false;
      }
      sweeps := CompareAndSwap(last, now);
    }
  }

  // ---- Interleaved requests ------------------------------------------------------------

  datatype Phase =
    | Clocked(now: int)
    | Loaded(now: int, last: int)
    | Done(won: bool)

  /** The shared field, where each request stands, and the times of the sweeps won so far. */
  datatype State = State(lastPrune: int, requests: map<int, Phase>, won: seq<int>)

  datatype Event = ReadClock(r: int, now: int) | Load(r: int) | Swap(r: int)

  const START := State(0, map[], [])

  /** One step of one request; clocks are read in any order and give anything. */
  function Next(s: State, e: Event): State {
    match e
    case ReadClock(r, now) =>
      if r in s.requests then s else s.(requests := s.requests[r := Clocked(now)])
    case Load(r) =>
      if r in s.requests && s.requests[r].Clocked? then
        var now := s.requests[r].now;
        if now - s.lastPrune < INTERVAL then s.(requests := s.requests[r := Done(false)])
        else s.(requests := s.requests[r := Loaded(now, s.lastPrune)])
      else s
    case Swap(r) =>
      if r in s.requests && s.requests[r].Loaded? then
        var now := s.requests[r].now;
        if s.lastPrune == s.requests[r].last then State(now, s.requests[r := Done(true)], s.won + [now])
        else s.(requests := s.requests[r := Done(false)])
      else s
  }

  function Run(events: seq<Event>): State {
    if events == [] then START else Next(Run(events[..|events| - 1]), events[|events| - 1])
  }

  predicate Spaced(won: seq<int>) {
    forall i :: 0 < i < |won| ==> won[i] - won[i - 1] >= INTERVAL
  }

  ghost predicate Inv(s: State) {
    && Spaced(s.won)
    && s.lastPrune == (if s.won == [] then 0 else s.won[|s.won| - 1])
    && (s.won != [] ==> s.won[0] >= INTERVAL)
    && (forall r :: r in s.requests && s.requests[r].Loaded? ==>
          s.requests[r].now - s.requests[r].last >= INTERVAL && s.requests[r].last <= s.lastPrune)
  }

  lemma NextKeepsInv(s: State, e: Event)
    requires Inv(s)
    ensures Inv(Next(s, e))
  {
  }

  lemma {:induction false} RunKeepsInv(events: seq<Event>)
    ensures Inv(Run(events))
  {
    if events != [] {
      RunKeepsInv(events[..|events| - 1]);
      NextKeepsInv(Run(events[..|events| - 1]), events[|events| - 1]);
    }
  }

  lemma {:induction false} SpacedApart(won: seq<int>, i: nat, j: nat)
    requires Spaced(won) && i < j < |won|
    ensures won[j] - won[i] >= INTERVAL
    decreases j - i
  {
    if i + 1 < j {
      SpacedApart(won, i + 1, j);
      assert won[i + 1] - won[i + 1 - 1] >= INTERVAL;
    }
  }

  /** However requests interleave and whatever their clocks say, the times of the sweeps they
      win increase strictly, any two of them at least an hour apart. */
  lemma SweepsAreAnHourApart(events: seq<Event>, i: nat, j: nat)
    requires i < j < |Run(events).won|
    ensures Run(events).won[j] - Run(events).won[i] >= 3600
  {
    RunKeepsInv(events);
    SpacedApart(Run(events).won, i, j);
  }

  /** A request that runs alone is the method. */
  lemma AloneIsTheMethod(s: State, r: int, now: int)
    requires r !in s.requests
    ensures var t := Next(Next(Next(s, ReadClock(r, now)), Load(r)), Swap(r));
            && t.requests[r] == Done(now - s.lastPrune >= 3600)
            && t.lastPrune == (if now - s.lastPrune >= 3600 then now else s.lastPrune)
            && t.won == s.won + (if now - s.lastPrune >= 3600 then [now] else [])
  {
  }

  /** Where two requests that loaded the same value can be: neither has won, or one has and the
      value is gone for good. */
  ghost predicate OneMayWin(s: State, r: int, q: int, last: int) {
    && r in s.requests && q in s.requests && last <= s.lastPrune
    && (s.requests[r] == Done(false) || s.requests[r] == Done(true)
        || (s.requests[r].Loaded? && s.requests[r].last == last))
    && (s.requests[q] == Done(false) || s.requests[q] == Done(true)
        || (s.requests[q].Loaded? && s.requests[q].last == last))
    && (s.requests[r] == Done(true) ==> last < s.lastPrune && s.requests[q] != Done(true))
    && (s.requests[q] == Done(true) ==> last < s.lastPrune && s.requests[r] != Done(true))
  }

  lemma StepKeepsOneWinner(s: State, e: Event, r: int, q: int, last: int)
    requires Inv(s) && r != q && OneMayWin(s, r, q, last)
    ensures OneMayWin(Next(s, e), r, q, last)
  {
  }

  /** A value once replaced never comes back: whatever happens next, of two requests that have
      loaded the same value at most one wins its sweep. */
  lemma {:induction false} LosersStayLosers(events: seq<Event>, more: seq<Event>, r: int, q: int)
    requires r != q && r in Run(events).requests && q in Run(events).requests
    requires Run(events).requests[r].Loaded? && Run(events).requests[q].Loaded?
    requires Run(events).requests[r].last == Run(events).requests[q].last
    ensures OneMayWin(Run(events + more), r, q, Run(events).requests[r].last)
    ensures !(Run(events + more).requests[r] == Run(events + more).requests[q] == Done(true))
  {
    if more == [] {
      RunKeepsInv(events);
      assert events + more == events;
    } else {
      var n := |more| - 1;
      LosersStayLosers(events, more[..n], r, q);
      RunKeepsInv(events + more[..n]);
      assert (events + more)[..|events + more| - 1] == events + more[..n];
      StepKeepsOneWinner(Run(events + more[..n]), more[n], r, q, Run(events).requests[r].last);
    }
  }
}
