/** What revoking a refresh token leaves behind: the family gets nothing further
    (GrantFamilies.RevocationKillsExactlyIf), and its access tokens stay valid until each is revoked
    or dropped itself. */
module RevokedFamilies {
  import opened GrantFamilies
  import opened GrantInvariants
  import opened OAuthGrants

  predicate HasAccess(h: Handler) {
    h.Superseding? || h.Pairing?
  }

  /** An access token that a handler or a stored refresh token is paired with is of its family. */
  ghost predicate PairedInFamily(s: State) {
    && (forall n :: n in s.handlers && HasAccess(s.handlers[n]) && s.handlers[n].access in s.tokens ==>
          s.tokens[s.handlers[n].access].family == s.handlers[n].family)
    && (forall h :: h in s.refresh && s.refresh[h].access in s.tokens ==>
          s.tokens[s.refresh[h].access].family == s.refresh[h].family)
  }

  lemma ExchangedStaysPaired(s256: string -> string, s: State, n: nat, code: Hash, r: Redemption)
    requires PairedInFamily(s)
    ensures PairedInFamily(Exchanged(s256, s, n, code, r))
  {
  }

  lemma RotatedStaysPaired(s: State, n: nat, token: Hash, client: string, now: int)
    requires PairedInFamily(s)
    ensures PairedInFamily(Rotated(s, n, token, client, now))
  {
  }

  lemma SupersededStaysPaired(s: State, n: nat, fails: bool)
    requires PairedInFamily(s)
    ensures PairedInFamily(Superseded(s, n, fails))
  {
  }

  /** The new token is of the handler's family, and no handler or row is paired with it before. */
  lemma MintedStaysPaired(s: State, n: nat, access: Hash, fails: bool)
    requires Rooted(s) && PairedInFamily(s)
    ensures PairedInFamily(Minted(s, n, access, fails))
  {
  }

  lemma StoredStaysPaired(s: State, n: nat, renewal: Hash, expires: int, fails: bool)
    requires PairedInFamily(s)
    ensures PairedInFamily(Stored(s, n, renewal, expires, fails))
  {
  }

  lemma StepKeepsPaired(s256: string -> string, s: State, step: Step)
    requires Rooted(s) && PairedInFamily(s)
    ensures PairedInFamily(Next(s256, s, step))
  {
    match step
    case Exchange(n, code, r) => ExchangedStaysPaired(s256, s, n, code, r);
    case Rotate(n, token, client, now) => RotatedStaysPaired(s, n, token, client, now);
    case Supersede(n, fails) => SupersededStaysPaired(s, n, fails);
    case Mint(n, access, fails) => MintedStaysPaired(s, n, access, fails);
    case Pair(n, renewal, expires, fails) => StoredStaysPaired(s, n, renewal, expires, fails);
    case _ =>
  }

  /** Tokens keep their family. */
  lemma FamilyKept(s256: string -> string, s: State, step: Step, a: Hash)
    requires Rooted(s) && a in s.tokens && a in Next(s256, s, step).tokens
    ensures s.tokens[a].family == Next(s256, s, step).tokens[a].family
  {
    RevokesExactlyBy(s256, s, step, a);
  }

  /** The step revokes or drops this access token by name. */
  predicate Takes(step: Step, a: Hash) {
    step == RevokeAccess(a) || (step.DropTokens? && a in step.hs)
  }

  /** In a family that has ended, only such a step takes an access token, and none adds one. */
  lemma DeadFamilyKeeps(s256: string -> string, s: State, step: Step, f: Hash, a: Hash)
    requires Rooted(s) && PairedInFamily(s) && Dead(s, f)
    ensures a in Unrevoked(Next(s256, s, step), f) <==> a in Unrevoked(s, f) && !Takes(step, a)
  {
    var t := Next(s256, s, step);
    if a in s.tokens && !s.tokens[a].revoked && s.tokens[a].family == f {
      AccessTokenRevokedExactlyBy(s256, s, step, a);
      if step.Supersede? && step.n in s.handlers && s.handlers[step.n].Superseding? {
        assert !Holds(s, f, InFlight(step.n));
      }
      if a in t.tokens {
        FamilyKept(s256, s, step, a);
      }
    } else if a in s.tokens {
      if a in t.tokens {
        FamilyKept(s256, s, step, a);
        RevokesExactlyBy(s256, s, step, a);
      }
    } else {
      DeadStaysDead(s256, s, step, f);
    }
  }

  lemma {:induction false} DeadOver(s256: string -> string, s: State, steps: seq<Step>, f: Hash)
    requires Inv(s256, s) && PairedInFamily(s) && Dead(s, f)
    ensures var t := Run(s256, s, steps); Inv(s256, t) && PairedInFamily(t) && Dead(t, f)
  {
    if steps != [] {
      var before, step := Run(s256, s, steps[..|steps| - 1]), steps[|steps| - 1];
      DeadOver(s256, s, steps[..|steps| - 1], f);
      DeadStaysDead(s256, before, step, f);
      StepKeepsPaired(s256, before, step);
      StepKeepsInv(s256, before, step);
    }
  }

  lemma {:induction false} DeadFamilyKeepsOver(s256: string -> string, s: State, steps: seq<Step>, f: Hash, a: Hash)
    requires Inv(s256, s) && PairedInFamily(s) && Dead(s, f)
    ensures a in Unrevoked(Run(s256, s, steps), f)
            <==> a in Unrevoked(s, f) && forall k :: 0 <= k < |steps| ==> !Takes(steps[k], a)
  {
    if steps != [] {
      var front := steps[..|steps| - 1];
      DeadFamilyKeepsOver(s256, s, front, f, a);
      DeadOver(s256, s, front, f);
      DeadFamilyKeeps(s256, Run(s256, s, front), steps[|steps| - 1], f, a);
      assert forall k :: 0 <= k < |front| ==> front[k] == steps[k];
    }
  }

  lemma {:induction false} RunKeepsPaired(s256: string -> string, steps: seq<Step>)
    ensures Inv(s256, Run(s256, INITIAL, steps)) && PairedInFamily(Run(s256, INITIAL, steps))
  {
    if steps != [] {
      RunKeepsPaired(s256, steps[..|steps| - 1]);
      StepKeepsInv(s256, Run(s256, INITIAL, steps[..|steps| - 1]), steps[|steps| - 1]);
      StepKeepsPaired(s256, Run(s256, INITIAL, steps[..|steps| - 1]), steps[|steps| - 1]);
    }
  }

  /** Revoking a stored refresh token leaves every access token of its family as valid as it was,
      its own pair included, and whatever happens afterwards the family's unrevoked access tokens
      are exactly those, without the ones revoked or dropped by name since. */
  lemma AccessOutlivesRevocation(s256: string -> string, before: seq<Step>, h: Hash, after: seq<Step>, a: Hash)
    requires h in Run(s256, INITIAL, before).refresh
    ensures var s := Run(s256, INITIAL, before);
            var f := s.refresh[h].family;
            var t := Run(s256, Next(s256, s, RevokeRefresh(h)), after);
            a in Unrevoked(t, f)
            <==> a in Unrevoked(s, f) && forall k :: 0 <= k < |after| ==> !Takes(after[k], a)
  {
    var s := Run(s256, INITIAL, before);
    var f := s.refresh[h].family;
    var revoked := Next(s256, s, RevokeRefresh(h));
    RunKeepsPaired(s256, before);
    RevokingAStoredTokenKillsTheFamily(s256, s, h);
    StepKeepsInv(s256, s, RevokeRefresh(h));
    StepKeepsPaired(s256, s, RevokeRefresh(h));
    DeadFamilyKeepsOver(s256, revoked, after, f, a);
    assert Unrevoked(revoked, f) == Unrevoked(s, f);
  }
}
