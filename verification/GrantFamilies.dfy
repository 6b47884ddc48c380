/** What holds of grant families over every interleaving of requests, replayed, failing or
    revoked under way. */
module GrantFamilies {
  import opened GrantInvariants
  import opened OAuthGrants
  import opened Options

  function RowsOf(s: State, f: Hash): set<Hash> {
    set h | h in s.refresh && s.refresh[h].family == f
  }

  function InFlightFor(s: State, f: Hash): set<nat> {
    set n | n in s.handlers && !s.handlers[n].Finished? && s.handlers[n].family == f
  }

  lemma AtMostOne<T>(a: set<T>)
    requires forall x, y :: x in a && y in a ==> x == y
    ensures |a| <= 1
  {
    if a != {} {
      var x :| x in a;
      assert a == {x};
    }
  }

  /** Over any interleaving, replays included, an authorization code's family holds at most
      one of: the unspent code, a stored refresh token, a request that has consumed one of
      these and may still issue. */
  lemma OneLiveGrantPerCode(s256: string -> string, steps: seq<Step>, f: Hash)
    ensures var s := Run(s256, INITIAL, steps);
            (if f in s.codes then 1 else 0) + |RowsOf(s, f)| + |InFlightFor(s, f)| <= 1
  {
    RunKeepsInv(s256, steps);
    var s := Run(s256, INITIAL, steps);
    var rows, flights := RowsOf(s, f), InFlightFor(s, f);
    forall h, k | h in rows && k in rows
      ensures h == k
    {
      assert Holds(s, f, InRow(h)) && Holds(s, f, InRow(k));
    }
    forall n, m | n in flights && m in flights
      ensures n == m
    {
      assert Holds(s, f, InFlight(n)) && Holds(s, f, InFlight(m));
    }
    AtMostOne(rows);
    AtMostOne(flights);
    forall h, n | h in rows && n in flights
      ensures false
    {
      assert Holds(s, f, InRow(h)) && Holds(s, f, InFlight(n));
    }
    OneIsEmpty(rows, flights);
    if f in s.codes {
      assert Holds(s, f, InCode);
      forall h | h in rows
        ensures false
      {
        assert Holds(s, f, InRow(h));
      }
      forall n | n in flights
        ensures false
      {
        assert Holds(s, f, InFlight(n));
      }
      OneIsEmpty({InCode}, rows);
      OneIsEmpty({InCode}, flights);
    }
  }

  lemma OneIsEmpty<T, U>(a: set<T>, b: set<U>)
    requires forall x, y :: x in a ==> y !in b
    ensures |a| == 0 || |b| == 0
  {
    if a != {} {
      var x :| x in a;
      assert forall y :: y !in b;
    }
  }

  // ---- What is paid ----------------------------------------------------------------------

  /** The code was presented in time, by its own client, for its own redirect URI, and with the
      verifier whose transform is its challenge. */
  predicate Proper(s256: string -> string, c: Code, r: Redemption) {
    && r.now <= c.expires
    && r.client == c.grant.client && r.redirect == c.redirect
    && r.verifier != "" && c.challenge != "" && s256(r.verifier) == c.challenge
  }

  /** A code exchange is paid exactly if the code is stored and properly presented and no write
      fails. It then leaves an unrevoked access token and a refresh token with the code's grant.
      Otherwise it leaves no refresh token, spends the code unless a part of the request is
      missing, and leaves an access token only when storing the refresh token failed. */
  lemma ExchangePaidExactlyIf(s256: string -> string, t: Tables, code: Hash, r: Redemption,
                              access: Hash, renewal: Hash, expires: int, f: Faults)
    ensures var (u, a) := AfterExchange(s256, t, Some(code), r, access, renewal, expires, f);
            if r.client == "" || r.verifier == "" then a == InvalidRequest && u == t
            else if code !in t.codes || !Proper(s256, t.codes[code], r) then
              a == InvalidGrant && u == Tables(t.codes - {code}, t.refresh, t.tokens)
            else
              var g := t.codes[code].grant;
              var minted := t.tokens[access := Token(g.user, g.ws, false, code)];
              if f.create then a == ServerFailure && u == Tables(t.codes - {code}, t.refresh, t.tokens)
              else if f.store then a == ServerFailure && u == Tables(t.codes - {code}, t.refresh, minted)
              else
                && a == Issued(access, renewal)
                && u == Tables(t.codes - {code}, t.refresh[renewal := Refresh(g, access, expires, code)], minted)
  {
  }

  /** A rotation is paid exactly if the refresh token is stored, in time and, where a client is
      named, its own, and no write of the new pair fails. Presented so, it has the access token of
      its pair revoked, unless that write fails; presented at all, it is spent. */
  lemma RotationPaidExactlyIf(t: Tables, token: Hash, client: string, now: int, access: Hash, renewal: Hash,
                              expires: int, f: Faults)
    requires access !in t.tokens
    ensures var (u, a) := AfterRotation(t, Some(token), client, now, access, renewal, expires, f);
            && u.codes == t.codes
            && if token !in t.refresh || now > t.refresh[token].expires
                || (client != "" && client != t.refresh[token].grant.client)
               then a == InvalidGrant && u == Tables(t.codes, t.refresh - {token}, t.tokens)
               else
                 var row := t.refresh[token];
                 && (a == if f.create || f.store then ServerFailure else Issued(access, renewal))
                 && (u.refresh == if f.create || f.store then t.refresh - {token}
                     else (t.refresh - {token})[renewal := Refresh(row.grant, access, expires, row.family)])
                 && (access in u.tokens <==> !f.create)
                 && (!f.create ==> u.tokens[access] == Token(row.grant.user, row.grant.ws, false, row.family))
                 && u.tokens.Keys == t.tokens.Keys + (if f.create then {} else {access})
                 && forall h :: h in t.tokens ==>
                      u.tokens[h] == if h == row.access && h != NO_HASH && !f.revoke then t.tokens[h].(revoked := true)
                                     else t.tokens[h]
  {
  }

  /** A step that would spend the code, or the refresh token. */
  predicate Presents(step: Step, h: Hash) {
    || (step.Exchange? && step.code == h && step.r.client != "" && step.r.verifier != "")
    || (step.Rotate? && step.token == h)
    || step == RevokeRefresh(h)
  }

  lemma NextKeepsCode(s256: string -> string, s: State, step: Step, h: Hash)
    requires Rooted(s) && !Presents(step, h) && h in s.codes
    ensures var t := Next(s256, s, step); h in t.codes && t.codes[h] == s.codes[h]
  {
    match step
    case Authorize(code, row) => assert Next(s256, s, step) == Authorized(s, code, row);
    case Exchange(n, code, r) => assert Next(s256, s, step) == Exchanged(s256, s, n, code, r);
    case _ =>
  }

  lemma NextKeepsRefresh(s256: string -> string, s: State, step: Step, h: Hash)
    requires Rooted(s) && !Presents(step, h) && h in s.refresh
    ensures var t := Next(s256, s, step); h in t.refresh && t.refresh[h] == s.refresh[h]
  {
    match step
    case Rotate(n, token, client, now) => assert Next(s256, s, step) == Rotated(s, n, token, client, now);
    case Pair(n, renewal, expires, fails) => assert Next(s256, s, step) == Stored(s, n, renewal, expires, fails);
    case _ =>
  }

  /** A stored code or refresh token stays as it is until it is presented or revoked. */
  lemma {:induction false} CredentialsWait(s256: string -> string, steps: seq<Step>, more: seq<Step>, h: Hash)
    requires forall i :: 0 <= i < |more| ==> !Presents(more[i], h)
    ensures var s, t := Run(s256, INITIAL, steps), Run(s256, INITIAL, steps + more);
            && (h in s.codes ==> h in t.codes && t.codes[h] == s.codes[h])
            && (h in s.refresh ==> h in t.refresh && t.refresh[h] == s.refresh[h])
    decreases |more|
  {
    if more == [] {
      assert steps + more == steps;
    } else {
      var n := |more| - 1;
      CredentialsWait(s256, steps, more[..n], h);
      RunKeepsInv(s256, steps + more[..n]);
      assert (steps + more)[..|steps + more| - 1] == steps + more[..n];
      var t := Run(s256, INITIAL, steps + more[..n]);
      if h in t.codes {
        NextKeepsCode(s256, t, more[n], h);
      }
      if h in t.refresh {
        NextKeepsRefresh(s256, t, more[n], h);
      }
    }
  }

  /** So a code is good from the moment it is granted: whatever else happens before it is properly
      presented, its client gets a pair with the code's grant. */
  lemma AuthorizedCodeIsPaid(s256: string -> string, steps: seq<Step>, code: Hash, row: Code, more: seq<Step>,
                             r: Redemption, access: Hash, renewal: Hash, expires: int)
    requires code !in Run(s256, INITIAL, steps).used && r.client != "" && Proper(s256, row, r)
    requires forall i :: 0 <= i < |more| ==> !Presents(more[i], code)
    ensures var t := TablesOf(Run(s256, INITIAL, steps + [Authorize(code, row)] + more));
            var (u, a) := AfterExchange(s256, t, Some(code), r, access, renewal, expires, Faults(false, false, false));
            && a == Issued(access, renewal)
            && renewal in u.refresh && u.refresh[renewal] == Refresh(row.grant, access, expires, code)
            && access in u.tokens && u.tokens[access] == Token(row.grant.user, row.grant.ws, false, code)
  {
    var granted := steps + [Authorize(code, row)];
    assert granted[..|granted| - 1] == steps;
    CredentialsWait(s256, granted, more, code);
    ExchangePaidExactlyIf(s256, TablesOf(Run(s256, INITIAL, granted + more)), code, r, access, renewal, expires,
                          Faults(false, false, false));
  }

  /** Every token descends from a code that was redeemed in time by its own client, at its own
      redirect URI, with a verifier matching its challenge, and carries that code's grant. */
  lemma TokensDescendFromRedeemedCodes(s256: string -> string, steps: seq<Step>)
    ensures var s := Run(s256, INITIAL, steps);
            && (forall h :: h in s.refresh ==>
                  var f := s.refresh[h].family;
                  f in s.issued && f in s.redeemed && Proper(s256, s.issued[f], s.redeemed[f])
                  && s.refresh[h].grant == s.issued[f].grant)
            && (forall h :: h in s.tokens ==>
                  var f := s.tokens[h].family;
                  f in s.issued && f in s.redeemed && Proper(s256, s.issued[f], s.redeemed[f])
                  && s.tokens[h].user == s.issued[f].grant.user && s.tokens[h].ws == s.issued[f].grant.ws)
  {
    RunKeepsInv(s256, steps);
    var s := Run(s256, INITIAL, steps);
    forall h | h in s.refresh
      ensures Holds(s, s.refresh[h].family, InRow(h))
    {
    }
  }

  /** A family has at most one unrevoked access token more than revocations of superseded
      tokens that failed. */
  lemma UnrevokedWithinFailures(s256: string -> string, steps: seq<Step>, f: Hash)
    ensures |Unrevoked(Run(s256, INITIAL, steps), f)| <= 1 + Failed(Run(s256, INITIAL, steps), f)
  {
    RunKeepsInv(s256, steps);
    assert FewUnrevoked(Run(s256, INITIAL, steps), f);
  }

  lemma SuccessIsNotCounted(s256: string -> string, s: State, step: Step)
    requires step.Supersede? ==> !step.fails
    ensures Next(s256, s, step).failed == s.failed
  {
    match step
    case Supersede(n, fails) => assert Next(s256, s, step) == Superseded(s, n, fails);
    case Exchange(n, code, r) => assert Next(s256, s, step) == Exchanged(s256, s, n, code, r);
    case _ =>
  }

  lemma {:induction false} NoFailuresCounted(s256: string -> string, steps: seq<Step>)
    requires forall i :: 0 <= i < |steps| && steps[i].Supersede? ==> !steps[i].fails
    ensures Run(s256, INITIAL, steps).failed == map[]
  {
    if steps != [] {
      NoFailuresCounted(s256, steps[..|steps| - 1]);
      SuccessIsNotCounted(s256, Run(s256, INITIAL, steps[..|steps| - 1]), steps[|steps| - 1]);
    }
  }

  /** So while those revocations succeed, at most one access token per family is unrevoked. */
  lemma OneUnrevokedAccessToken(s256: string -> string, steps: seq<Step>, f: Hash)
    requires forall i :: 0 <= i < |steps| && steps[i].Supersede? ==> !steps[i].fails
    ensures |Unrevoked(Run(s256, INITIAL, steps), f)| <= 1
  {
    UnrevokedWithinFailures(s256, steps, f);
    NoFailuresCounted(s256, steps);
  }

  /** A family that has been issued and holds no slot. */
  ghost predicate Dead(s: State, f: Hash) {
    f in s.used && forall slot :: !Holds(s, f, slot)
  }

  /** A dead family stays dead and never gets another token. */
  lemma DeadStaysDead(s256: string -> string, s: State, step: Step, f: Hash)
    requires Rooted(s) && Dead(s, f)
    ensures Dead(Next(s256, s, step), f)
    ensures forall h :: h in Next(s256, s, step).tokens && h !in s.tokens ==> Next(s256, s, step).tokens[h].family != f
  {
    var t := Next(s256, s, step);
    RecordsGrow(s256, s, step);
    forall slot
      ensures !Holds(t, f, slot)
    {
      if Holds(t, f, slot) {
        SlotComesFrom(s256, s, step, f, slot);
      }
    }
    forall h | h in t.tokens && h !in s.tokens
      ensures t.tokens[h].family != f
    {
      TokenComesFrom(s256, s, step, h);
      assert !Holds(s, f, InFlight(step.n));
    }
  }

  /** Revoking a refresh token while it is stored ends its family for good. */
  lemma RevokingAStoredTokenKillsTheFamily(s256: string -> string, s: State, h: Hash)
    requires Inv(s256, s) && h in s.refresh
    ensures Dead(Next(s256, s, RevokeRefresh(h)), s.refresh[h].family)
  {
    var f := s.refresh[h].family;
    var t := Next(s256, s, RevokeRefresh(h));
    assert Holds(s, f, InRow(h)) && f in s.issued;
    forall slot
      ensures !Holds(t, f, slot)
    {
      if Holds(t, f, slot) {
        assert Holds(s, f, slot);
      }
    }
  }

  /** Revoking a refresh token ends a family for good if and only if the token is stored and
      belongs to it, or the family had ended already. A rotation that has consumed the token is
      neither. */
  lemma RevocationKillsExactlyIf(s256: string -> string, s: State, h: Hash, f: Hash)
    requires Inv(s256, s) && f in s.used
    ensures Dead(Next(s256, s, RevokeRefresh(h)), f) <==> (h in s.refresh && s.refresh[h].family == f) || Dead(s, f)
  {
    var t := Next(s256, s, RevokeRefresh(h));
    if h in s.refresh && s.refresh[h].family == f {
      RevokingAStoredTokenKillsTheFamily(s256, s, h);
    } else {
      forall slot
        ensures Holds(t, f, slot) <==> Holds(s, f, slot)
      {
      }
    }
  }

  /** So a request in flight misses it, wherever it is between its statements: it goes on to
      store a new refresh token, and to mint an access token if it has not yet. */
  lemma RevocationMissesARotationInFlight(s256: string -> string, s: State, h: Hash, n: nat,
                                          access: Hash, renewal: Hash, expires: int)
    requires Inv(s256, s) && n in s.handlers && !s.handlers[n].Finished?
    requires access !in s.used && renewal !in s.used && access != renewal
    ensures var f := s.handlers[n].family;
            var revoked := Next(s256, s, RevokeRefresh(h));
            var minted := Next(s256, Next(s256, revoked, Supersede(n, false)), Mint(n, access, false));
            var t := Next(s256, minted, Pair(n, renewal, expires, false));
            Holds(t, f, InRow(renewal)) && (s.handlers[n].Pairing? || access in Unrevoked(t, f))
  {
    InFlightGoesOn(s256, Next(s256, s, RevokeRefresh(h)), n, access, renewal, expires);
  }

  lemma InFlightGoesOn(s256: string -> string, s: State, n: nat, access: Hash, renewal: Hash, expires: int)
    requires n in s.handlers && !s.handlers[n].Finished?
    requires access !in s.used && renewal !in s.used && access != renewal
    ensures var f := s.handlers[n].family;
            var minted := Next(s256, Next(s256, s, Supersede(n, false)), Mint(n, access, false));
            var t := Next(s256, minted, Pair(n, renewal, expires, false));
            Holds(t, f, InRow(renewal)) && (s.handlers[n].Pairing? || access in Unrevoked(t, f))
  {
    var superseded := Next(s256, s, Supersede(n, false));
    assert superseded.used == s.used && n in superseded.handlers;
    MintingGoesOn(s256, superseded, n, access, renewal, expires);
  }

  lemma MintingGoesOn(s256: string -> string, s: State, n: nat, access: Hash, renewal: Hash, expires: int)
    requires n in s.handlers && (s.handlers[n].Minting? || s.handlers[n].Pairing?)
    requires access !in s.used && renewal !in s.used && access != renewal
    ensures var f := s.handlers[n].family;
            var t := Next(s256, Next(s256, s, Mint(n, access, false)), Pair(n, renewal, expires, false));
            Holds(t, f, InRow(renewal)) && (s.handlers[n].Pairing? || access in Unrevoked(t, f))
  {
  }

  // ---- A code that is presented again --------------------------------------------------

  /** Presenting a spent code is refused and leaves every code, token and refresh token as it
      is: tokens already issued from it are not revoked. */
  lemma ReplayedCodeChangesNothing(s256: string -> string, s: State, n: nat, code: Hash, r: Redemption)
    requires code !in s.codes
    ensures TablesOf(Next(s256, s, Exchange(n, code, r))) == TablesOf(s)
    ensures forall access, renewal, expires, f ::
              var (t, a) := AfterExchange(s256, TablesOf(s), Some(code), r, access, renewal, expires, f);
              t == TablesOf(s) && !a.Issued?
  {
    assert s.codes - {code} == s.codes;
  }

  /** What does revoke an access token, exactly: its own revocation, or the rotation of the
      refresh token it was paired with. */
  lemma AccessTokenRevokedExactlyBy(s256: string -> string, s: State, step: Step, h: Hash)
    requires Rooted(s) && h in s.tokens && !s.tokens[h].revoked
    ensures var t := Next(s256, s, step);
            && (h !in t.tokens <==> step.DropTokens? && h in step.hs)
            && (h in t.tokens && t.tokens[h].revoked <==>
                  || step == RevokeAccess(h)
                  || (&& step.Supersede? && !step.fails && step.n in s.handlers && s.handlers[step.n].Superseding?
                      && s.handlers[step.n].access == h))
  {
    RevokesExactlyBy(s256, s, step, h);
  }

  lemma RevokesExactlyBy(s256: string -> string, s: State, step: Step, h: Hash)
    requires Rooted(s) && h in s.tokens
    ensures var t := Next(s256, s, step).tokens;
            match step
            case RevokeAccess(k) => h in t && t[h] == (if k == h then s.tokens[h].(revoked := true) else s.tokens[h])
            case DropTokens(hs) => if h in hs then h !in t else h in t && t[h] == s.tokens[h]
            case Supersede(n, fails) =>
              && h in t
              && t[h] == (if n in s.handlers && s.handlers[n].Superseding? && !fails && s.handlers[n].access == h
                          then s.tokens[h].(revoked := true) else s.tokens[h])
            case _ => h in t && t[h] == s.tokens[h]
  {
    match step
    case Mint(n, access, fails) => assert Next(s256, s, step) == Minted(s, n, access, fails);
    case Supersede(n, fails) => assert Next(s256, s, step) == Superseded(s, n, fails);
    case _ =>
  }

  // ---- A request alone -----------------------------------------------------------------

  function TablesOf(s: State): Tables {
    Tables(s.codes, s.refresh, s.tokens)
  }

  /** The statements that issue a pair, with nothing in between. */
  function IssuingSteps(s256: string -> string, s: State, n: nat, access: Hash, renewal: Hash, expires: int,
                        f: Faults): State {
    Next(s256, Next(s256, s, Mint(n, access, f.create)), Pair(n, renewal, expires, f.store))
  }

  lemma IssuingAloneIsTheMethod(s256: string -> string, s: State, n: nat, access: Hash, renewal: Hash, expires: int,
                                f: Faults)
    requires n in s.handlers && (s.handlers[n].Minting? || s.handlers[n].Finished?)
    requires access !in s.used && renewal !in s.used && access != renewal
    ensures TablesOf(IssuingSteps(s256, s, n, access, renewal, expires, f))
            == if s.handlers[n].Finished? then TablesOf(s)
               else IssuedTables(TablesOf(s), s.handlers[n].grant, s.handlers[n].family, access, renewal, expires, f)
  {
    if s.handlers[n].Minting? {
      var minted := Next(s256, s, Mint(n, access, f.create));
      assert !f.create ==> minted.handlers[n] == Pairing(s.handlers[n].family, s.handlers[n].grant, access);
    }
  }

  lemma RotateConsumes(s256: string -> string, s: State, n: nat, token: Hash, client: string, now: int)
    requires n !in s.handlers
    ensures var t := Next(s256, s, Rotate(n, token, client, now));
            && TablesOf(t) == WithoutRefresh(TablesOf(s), token) && t.used == s.used
            && n in t.handlers && t.handlers[n] == Rotating(s.refresh, token, client, now)
  {
  }

  lemma SupersedeRevokes(s256: string -> string, s: State, n: nat, fails: bool)
    requires n in s.handlers
    ensures var t, q := Next(s256, s, Supersede(n, fails)), s.handlers[n];
            if q.Superseding? then
              && TablesOf(t) == (if fails then TablesOf(s) else WithTokenRevoked(TablesOf(s), q.access))
              && t.used == s.used && n in t.handlers && t.handlers[n] == Minting(q.family, q.grant)
            else t == s
  {
  }

  /** What a rotation leaves before it issues. */
  lemma RotationSpends(s256: string -> string, s: State, n: nat, token: Hash, client: string, now: int, f: Faults)
    requires Rooted(s) && n !in s.handlers
    ensures var t := Next(s256, Next(s256, s, Rotate(n, token, client, now)), Supersede(n, f.revoke));
            var spent := WithoutRefresh(TablesOf(s), token);
            && t.used == s.used && n in t.handlers
            && if token in s.refresh && now <= s.refresh[token].expires
                && (client == "" || client == s.refresh[token].grant.client)
               then
                 var row := s.refresh[token];
                 && TablesOf(t) == (if row.access == NO_HASH || f.revoke then spent
                     else WithTokenRevoked(spent, row.access))
                 && t.handlers[n] == Minting(row.family, row.grant)
               else TablesOf(t) == spent && t.handlers[n].Finished?
  {
    RotateConsumes(s256, s, n, token, client, now);
    SupersedeRevokes(s256, Next(s256, s, Rotate(n, token, client, now)), n, f.revoke);
    if token in s.refresh {
      assert s.refresh[token].access in s.used - {NO_HASH};
    }
  }

  /** A rotation's statements with nothing in between do what TokenFromRefresh is proved to do,
      whether the request is paid or refused. */
  lemma RotationAloneIsTheMethod(s256: string -> string, s: State, n: nat, token: Hash, client: string, now: int,
                                 access: Hash, renewal: Hash, expires: int, f: Faults)
    requires Inv(s256, s) && n !in s.handlers && access !in s.used && renewal !in s.used && access != renewal
    ensures var superseded := Next(s256, Next(s256, s, Rotate(n, token, client, now)), Supersede(n, f.revoke));
            TablesOf(IssuingSteps(s256, superseded, n, access, renewal, expires, f))
            == AfterRotation(TablesOf(s), Some(token), client, now, access, renewal, expires, f).0
  {
    RotationSpends(s256, s, n, token, client, now, f);
    var superseded := Next(s256, Next(s256, s, Rotate(n, token, client, now)), Supersede(n, f.revoke));
    IssuingAloneIsTheMethod(s256, superseded, n, access, renewal, expires, f);
  }

  /** An exchange consumes its code, and goes on to issue tokens if the code is redeemed. */
  lemma ExchangeConsumes(s256: string -> string, s: State, n: nat, code: Hash, r: Redemption)
    requires n !in s.handlers && r.client != "" && r.verifier != ""
    ensures var t := Next(s256, s, Exchange(n, code, r));
            && TablesOf(t) == WithoutCode(TablesOf(s), code) && t.used == s.used && n in t.handlers
            && t.handlers[n] == if code in s.codes && Redeems(s256, s.codes[code], r)
                                then Minting(code, s.codes[code].grant) else Finished
  {
  }

  /** Likewise for TokenFromAuthCode. */
  lemma ExchangeAloneIsTheMethod(s256: string -> string, s: State, n: nat, code: Hash, r: Redemption,
                                 access: Hash, renewal: Hash, expires: int, f: Faults)
    requires n !in s.handlers && access !in s.used && renewal !in s.used && access != renewal
    ensures TablesOf(IssuingSteps(s256, Next(s256, s, Exchange(n, code, r)), n, access, renewal, expires, f))
            == AfterExchange(s256, TablesOf(s), Some(code), r, access, renewal, expires, f).0
  {
    if r.client != "" && r.verifier != "" {
      ExchangeConsumes(s256, s, n, code, r);
      IssuingAloneIsTheMethod(s256, Next(s256, s, Exchange(n, code, r)), n, access, renewal, expires, f);
    }
  }
}
