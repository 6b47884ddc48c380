/** Runs of TenancyRaces: a request whose statements have nothing in between is the whole call of
    Tenancy, and concrete runs from the empty store in which something does come in between and
    harm is done. */
module TenancyRuns {
  import opened Options
  import opened Tenancy
  import opened TenancyRaces
  import opened SeatHolders

  // ---- Runs, concatenated ----------------------------------------------------------------

  lemma {:induction false} AfterBoth(limit: Id -> int, r: Race, a: seq<Move>, b: seq<Move>)
    ensures After(limit, r, a + b) == After(limit, After(limit, r, a), b)
    decreases |b|
  {
    if b == [] {
      assert a + b == a;
    } else {
      var front := b[..|b| - 1];
      assert (a + b)[..|a + b| - 1] == a + front;
      AfterBoth(limit, r, a, front);
    }
  }

  lemma AfterOne(limit: Id -> int, r: Race, m: Move)
    ensures After(limit, r, [m]) == Moved(limit, r, m)
  {
    assert [m][..0] == [];
    assert After(limit, r, []) == r;
  }

  lemma AfterTwo(limit: Id -> int, r: Race, a: Move, b: Move)
    ensures After(limit, r, [a, b]) == Moved(limit, Moved(limit, r, a), b)
  {
    assert [a, b] == [a] + [b];
    AfterBoth(limit, r, [a], [b]);
    AfterOne(limit, r, a);
    AfterOne(limit, Moved(limit, r, a), b);
  }

  lemma AfterThree(limit: Id -> int, r: Race, a: Move, b: Move, c: Move)
    ensures After(limit, r, [a, b, c]) == Moved(limit, Moved(limit, Moved(limit, r, a), b), c)
  {
    assert [a, b, c] == [a, b] + [c];
    AfterBoth(limit, r, [a, b], [c]);
    AfterTwo(limit, r, a, b);
    AfterOne(limit, Moved(limit, Moved(limit, r, a), b), c);
  }

  // ---- A request alone -------------------------------------------------------------------

  function InviteMoves(n: nat, w: Write): seq<Move> {
    [CountMembers(n, w), CountInvites(n), Perform(n)]
  }

  function MemberMoves(n: nat, w: Write): seq<Move> {
    [ReadRole(n, w), CountAdmins(n), Perform(n)]
  }

  lemma InviteChecked(limit: Id -> int, r: Race, n: nat, w: Write)
    requires n !in r.requests && w.PutInvite?
    ensures Moved(limit, Moved(limit, r, CountMembers(n, w)), CountInvites(n))
         == if w.ws in r.store.workspaces && UnderLimit(r.store, w.ws, limit(w.ws)) then Begun(r, n, Checked(w)) else r
  {
  }

  lemma InviteAloneIsTheCall(limit: Id -> int, r: Race, n: nat, w: Write)
    requires n !in r.requests && w.PutInvite?
    ensures After(limit, r, InviteMoves(n, w))
         == Race(Next(limit, r.store, Invite(w.ws, w.email, w.role)), r.requests)
  {
    AfterThree(limit, r, CountMembers(n, w), CountInvites(n), Perform(n));
    InviteChecked(limit, r, n, w);
  }

  lemma MemberChangeChecked(limit: Id -> int, r: Race, n: nat, w: Write)
    requires n !in r.requests && !w.PutInvite?
    ensures Moved(limit, Moved(limit, r, ReadRole(n, w)), CountAdmins(n))
         == if (w.ws, w.user) in r.store.members && (Demotes(w) ==> !IsLastAdmin(r.store, w.ws, w.user))
            then Begun(r, n, Checked(w)) else r
  {
  }

  lemma MemberChangeAloneIsTheCall(limit: Id -> int, r: Race, n: nat, w: Write)
    requires n !in r.requests && !w.PutInvite?
    ensures After(limit, r, MemberMoves(n, w))
         == Race(Next(limit, r.store, if w.Assign? then SetRole(w.ws, w.user, w.role) else Remove(w.ws, w.user)),
                 r.requests)
  {
    AfterThree(limit, r, ReadRole(n, w), CountAdmins(n), Perform(n));
    MemberChangeChecked(limit, r, n, w);
  }

  function JoinMoves(n: nat, order: seq<Id>): seq<Move> {
    if order == [] then [] else JoinMoves(n, order[..|order| - 1]) + [Join(n, order[|order| - 1])]
  }

  /** The statements of a login in order, its invites joined in any order; those that do not apply
      (the provisioning of a known user, say) change nothing. */
  function LoginMoves(n: nat, e: Email, user: Id, ws: Id, order: seq<Id>): seq<Move> {
    [FindUser(n, e), SignUp(n, user, ws)] + AcceptMoves(n, order) + [NewHome(n, ws), SetHome(n)]
  }

  function AcceptMoves(n: nat, order: seq<Id>): seq<Move> {
    [ReadInvites(n)] + JoinMoves(n, order) + [ClearInvites(n)]
  }

  /** The sequence lists the workspaces with an invite for the address. */
  ghost predicate Lists(s: State, e: Email, order: seq<Id>) {
    forall ws :: ws in order <==> (ws, e) in s.invites
  }

  /** The store with the invites of some workspaces turned into memberships. */
  function JoinedIn(s: State, user: Id, e: Email, order: seq<Id>): State {
    var gained := set k | k in s.invites && k.1 == e && k.0 in order :: (k.0, user);
    s.(members := map k | k in s.members.Keys + gained :: if k in s.members then s.members[k] else s.invites[(k.0, e)])
  }

  /** The invites that a login read and has not joined yet. */
  function Unjoined(s: State, e: Email, order: seq<Id>): map<Id, Role> {
    map ws | ws in InvitesFor(s, e) && ws !in order :: InvitesFor(s, e)[ws]
  }

  lemma JoinedKey(s: State, user: Id, e: Email, order: seq<Id>, ws: Id, k: (Id, Id))
    requires (ws, e) in s.invites
    ensures var before, after := JoinedIn(s, user, e, order), JoinedIn(s, user, e, order + [ws]);
            && (k in after.members <==> k in before.members || k == (ws, user))
            && (k in before.members ==> after.members[k] == before.members[k])
            && (k == (ws, user) && k !in before.members ==> after.members[k] == s.invites[(ws, e)])
  {
    assert (ws, e).0 in order + [ws];
  }

  lemma JoinedOneMore(s: State, user: Id, e: Email, order: seq<Id>, ws: Id)
    requires (ws, e) in s.invites
    ensures WithJoined(JoinedIn(s, user, e, order), ws, user, s.invites[(ws, e)]) == JoinedIn(s, user, e, order + [ws])
  {
    var before, after := JoinedIn(s, user, e, order), JoinedIn(s, user, e, order + [ws]);
    forall k {
      JoinedKey(s, user, e, order, ws, k);
    }
    assert WithJoined(before, ws, user, s.invites[(ws, e)]).members == after.members;
  }

  lemma UnjoinedOneMore(s: State, e: Email, order: seq<Id>, ws: Id)
    ensures Unjoined(s, e, order) - {ws} == Unjoined(s, e, order + [ws])
  {
  }

  /** The login after it has joined the listed workspaces. */
  function JoinedSoFar(r: Race, n: nat, q: Session, order: seq<Id>): Race {
    Race(JoinedIn(r.store, q.user, q.email, order), r.requests[n := Joining(q, Unjoined(r.store, q.email, order))])
  }

  lemma NotJoinedYet(s: State, e: Email, order: seq<Id>, ws: Id)
    requires (ws, e) in s.invites
    ensures ws in InvitesFor(s, e) && InvitesFor(s, e)[ws] == s.invites[(ws, e)]
    ensures ws in Unjoined(s, e, order) <==> ws !in order
    ensures ws !in order ==> Unjoined(s, e, order)[ws] == s.invites[(ws, e)]
  {
    assert (ws, e).0 == ws;
  }

  lemma JoinedAlready(s: State, user: Id, e: Email, order: seq<Id>, ws: Id)
    requires (ws, e) in s.invites && ws in order
    ensures (ws, user) in JoinedIn(s, user, e, order).members
    ensures Unjoined(s, e, order + [ws]) == Unjoined(s, e, order)
  {
    assert (ws, e) in s.invites && (ws, e).0 in order;
  }

  lemma JoinsAgain(limit: Id -> int, r: Race, n: nat, q: Session, order: seq<Id>, ws: Id)
    requires (ws, q.email) in r.store.invites && ws in order
    ensures JoinedSoFar(r, n, q, order + [ws]) == JoinedSoFar(r, n, q, order)
    ensures Moved(limit, JoinedSoFar(r, n, q, order), Join(n, ws)) == JoinedSoFar(r, n, q, order)
  {
    NotJoinedYet(r.store, q.email, order, ws);
    JoinedOneMore(r.store, q.user, q.email, order, ws);
    JoinedAlready(r.store, q.user, q.email, order, ws);
  }

  lemma JoinStep(limit: Id -> int, r: Race, n: nat, q: Session, todo: map<Id, Role>, ws: Id)
    requires n in r.requests && r.requests[n] == Joining(q, todo) && ws in todo && ws in r.store.workspaces
    ensures Moved(limit, r, Join(n, ws))
         == Begun(r.(store := WithJoined(r.store, ws, q.user, todo[ws])), n, Joining(q, todo - {ws}))
  {
  }

  lemma JoinsOneMore(limit: Id -> int, r: Race, n: nat, q: Session, order: seq<Id>, ws: Id)
    requires (ws, q.email) in r.store.invites && ws in r.store.workspaces
    ensures Moved(limit, JoinedSoFar(r, n, q, order), Join(n, ws)) == JoinedSoFar(r, n, q, order + [ws])
  {
    if ws in order {
      JoinsAgain(limit, r, n, q, order, ws);
    } else {
      var todo := Unjoined(r.store, q.email, order);
      NotJoinedYet(r.store, q.email, order, ws);
      JoinStep(limit, JoinedSoFar(r, n, q, order), n, q, todo, ws);
      JoinedOneMore(r.store, q.user, q.email, order, ws);
      UnjoinedOneMore(r.store, q.email, order, ws);
      BegunAnew(r, n, Joining(q, todo), Joining(q, todo - {ws}));
    }
  }

  lemma NobodyJoined(s: State, user: Id, e: Email)
    ensures JoinedIn(s, user, e, []) == s
  {
  }

  lemma NobodyUnjoined(s: State, e: Email)
    ensures Unjoined(s, e, []) == InvitesFor(s, e)
  {
  }

  lemma {:induction false} JoinsAccept(limit: Id -> int, r: Race, n: nat, q: Session, order: seq<Id>)
    requires n in r.requests && r.requests[n] == Joining(q, InvitesFor(r.store, q.email))
    requires forall ws :: ws in order ==> (ws, q.email) in r.store.invites && ws in r.store.workspaces
    ensures After(limit, r, JoinMoves(n, order)) == JoinedSoFar(r, n, q, order)
  {
    if order == [] {
      NobodyJoined(r.store, q.user, q.email);
      NobodyUnjoined(r.store, q.email);
      assert r.requests[n := r.requests[n]] == r.requests;
    } else {
      var front, ws := order[..|order| - 1], order[|order| - 1];
      assert order == front + [ws];
      JoinsAccept(limit, r, n, q, front);
      AfterBoth(limit, r, JoinMoves(n, front), [Join(n, ws)]);
      AfterOne(limit, After(limit, r, JoinMoves(n, front)), Join(n, ws));
      JoinsOneMore(limit, r, n, q, front, ws);
    }
  }

  lemma InvitesForIs(s: State, e: Email)
    ensures forall ws :: ws in InvitesFor(s, e) <==> (ws, e) in s.invites
  {
    forall ws | (ws, e) in s.invites
      ensures ws in InvitesFor(s, e)
    {
      assert (ws, e).0 == ws;
    }
  }

  lemma AllUnjoined(s: State, e: Email, order: seq<Id>)
    requires Lists(s, e, order)
    ensures Unjoined(s, e, order) == map[]
  {
    InvitesForIs(s, e);
  }

  lemma AllJoined(s: State, user: Id, e: Email, order: seq<Id>)
    requires Lists(s, e, order)
    ensures WithoutInvites(JoinedIn(s, user, e, order), e) == Accepted(s, user, e)
  {
    forall k | k in s.invites && k.1 == e
      ensures k.0 in order
    {
      assert (k.0, e) in s.invites;
    }
  }

  lemma NobodyInvited(s: State, user: Id, e: Email)
    requires InvitesFor(s, e) == map[]
    ensures Accepted(s, user, e) == s
  {
    InvitesForIs(s, e);
    forall k | k in s.invites
      ensures k.1 != e
    {
      assert k.1 == e ==> k.0 in InvitesFor(s, e);
    }
  }

  lemma AcceptMovesAre(limit: Id -> int, r: Race, n: nat, order: seq<Id>)
    ensures After(limit, r, AcceptMoves(n, order))
         == Moved(limit, After(limit, Moved(limit, r, ReadInvites(n)), JoinMoves(n, order)), ClearInvites(n))
  {
    var joins := JoinMoves(n, order);
    AfterBoth(limit, r, [ReadInvites(n)] + joins, [ClearInvites(n)]);
    AfterBoth(limit, r, [ReadInvites(n)], joins);
    AfterOne(limit, r, ReadInvites(n));
    AfterOne(limit, After(limit, Moved(limit, r, ReadInvites(n)), joins), ClearInvites(n));
  }

  lemma Clears(limit: Id -> int, r: Race, n: nat, q: Session)
    requires n in r.requests && r.requests[n] == Joining(q, map[])
    ensures Moved(limit, r, ClearInvites(n)) == InvitesAccepted(r.(store := WithoutInvites(r.store, q.email)), n, q)
  {
  }

  lemma ClearsAll(limit: Id -> int, r: Race, n: nat, q: Session, order: seq<Id>)
    requires Lists(r.store, q.email, order)
    ensures Moved(limit, JoinedSoFar(r, n, q, order), ClearInvites(n))
         == InvitesAccepted(r.(store := Accepted(r.store, q.user, q.email)), n, q)
  {
    AllUnjoined(r.store, q.email, order);
    AllJoined(r.store, q.user, q.email, order);
    Clears(limit, JoinedSoFar(r, n, q, order), n, q);
    AcceptingAnew(r, n, Joining(q, map[]), Accepted(r.store, q.user, q.email), q);
  }

  lemma AcceptNobody(limit: Id -> int, r: Race, n: nat, q: Session)
    requires n in r.requests && r.requests[n] == Present(q) && InvitesFor(r.store, q.email) == map[]
    ensures var read := Moved(limit, r, ReadInvites(n));
            read == InvitesAccepted(r, n, q) && Moved(limit, read, ClearInvites(n)) == read
  {
  }

  lemma SomebodyListed(s: State, e: Email, order: seq<Id>)
    requires Lists(s, e, order) && order != []
    ensures InvitesFor(s, e) != map[]
  {
    InvitesForIs(s, e);
    assert order[0] in order;
    assert order[0] in InvitesFor(s, e);
  }

  lemma AcceptingAnew(r: Race, n: nat, p: Request, s: State, q: Session)
    ensures InvitesAccepted(Begun(r, n, p).(store := s), n, q) == InvitesAccepted(r.(store := s), n, q)
  {
  }

  lemma AcceptSomebody(limit: Id -> int, r: Race, n: nat, q: Session, order: seq<Id>)
    requires Linked(r.store) && n in r.requests && r.requests[n] == Present(q) && Lists(r.store, q.email, order)
    requires InvitesFor(r.store, q.email) != map[]
    ensures Moved(limit, After(limit, Moved(limit, r, ReadInvites(n)), JoinMoves(n, order)), ClearInvites(n))
         == InvitesAccepted(r.(store := Accepted(r.store, q.user, q.email)), n, q)
  {
    var p := Joining(q, InvitesFor(r.store, q.email));
    assert Moved(limit, r, ReadInvites(n)) == Begun(r, n, p);
    JoinsAccept(limit, Begun(r, n, p), n, q, order);
    ClearsAll(limit, Begun(r, n, p), n, q, order);
    AcceptingAnew(r, n, p, Accepted(r.store, q.user, q.email), q);
  }

  /** The statements of acceptInvites with nothing in between. */
  lemma AcceptAlone(limit: Id -> int, r: Race, n: nat, q: Session, order: seq<Id>)
    requires Linked(r.store) && n in r.requests && r.requests[n] == Present(q) && Lists(r.store, q.email, order)
    ensures After(limit, r, AcceptMoves(n, order))
         == InvitesAccepted(r.(store := Accepted(r.store, q.user, q.email)), n, q)
  {
    AcceptMovesAre(limit, r, n, order);
    if order != [] {
      SomebodyListed(r.store, q.email, order);
    }
    if InvitesFor(r.store, q.email) != map[] {
      AcceptSomebody(limit, r, n, q, order);
    } else {
      assert JoinMoves(n, order) == [];
      NobodyInvited(r.store, q.user, q.email);
      AcceptNobody(limit, r, n, q);
    }
  }

  /** Whom a login is for once its first two statements have run, and the store then. */
  function SessionOf(s: State, e: Email, user: Id): Session {
    if e in s.users then Session(e, s.users[e].id, s.users[e].home == None) else Session(e, user, false)
  }

  function Provisioned(s: State, e: Email, user: Id, ws: Id): State {
    if e in s.users then s else WithUser(s, e, user, ws)
  }

  lemma IdentifiesAlone(limit: Id -> int, r: Race, n: nat, e: Email, user: Id, ws: Id)
    requires n !in r.requests && ws !in r.store.used && user !in r.store.used && ws != user
    ensures After(limit, r, [FindUser(n, e), SignUp(n, user, ws)])
         == Begun(r.(store := Provisioned(r.store, e, user, ws)), n, Present(SessionOf(r.store, e, user)))
  {
    AfterTwo(limit, r, FindUser(n, e), SignUp(n, user, ws));
  }

  /** The store and the session once acceptInvites has run. */
  lemma AcceptsNext(limit: Id -> int, r: Race, n: nat, s: State, q: Session, order: seq<Id>)
    requires Linked(s) && Lists(s, q.email, order)
    ensures After(limit, Begun(r.(store := s), n, Present(q)), AcceptMoves(n, order))
         == InvitesAccepted(r.(store := Accepted(s, q.user, q.email)), n, q)
  {
    AcceptAlone(limit, Begun(r.(store := s), n, Present(q)), n, q, order);
    AcceptingAnew(r, n, Present(q), Accepted(s, q.user, q.email), q);
  }

  function Healed(s: State, q: Session, ws: Id): State
    requires q.email in s.users
  {
    if q.homeless then WithHome(WithWorkspace(s, ws, q.user), q.email, Some(ws)) else s
  }

  lemma HealsAlone(limit: Id -> int, r: Race, n: nat, q: Session, ws: Id)
    requires n !in r.requests && q.email in r.store.users && (q.homeless ==> ws !in r.store.used)
    ensures After(limit, InvitesAccepted(r, n, q), [NewHome(n, ws), SetHome(n)])
         == r.(store := Healed(r.store, q, ws))
  {
    AfterTwo(limit, InvitesAccepted(r, n, q), NewHome(n, ws), SetHome(n));
  }

  lemma LoginMovesAre(limit: Id -> int, r: Race, n: nat, e: Email, user: Id, ws: Id, order: seq<Id>)
    ensures var first := After(limit, r, [FindUser(n, e), SignUp(n, user, ws)]);
            After(limit, r, LoginMoves(n, e, user, ws, order))
            == After(limit, After(limit, first, AcceptMoves(n, order)), [NewHome(n, ws), SetHome(n)])
  {
    var first := [FindUser(n, e), SignUp(n, user, ws)];
    AfterBoth(limit, r, first + AcceptMoves(n, order), [NewHome(n, ws), SetHome(n)]);
    AfterBoth(limit, r, first, AcceptMoves(n, order));
  }

  lemma LoggedInIs(s: State, e: Email, user: Id, ws: Id)
    ensures var q, t := SessionOf(s, e, user), Provisioned(s, e, user, ws);
            LoggedIn(s, e, user, ws) == Healed(Accepted(t, q.user, e), q, ws)
  {
  }

  lemma ProvisionedIsLinked(s: State, e: Email, user: Id, ws: Id)
    requires Rows(s) && ws !in s.used && user !in s.used && ws != user
    ensures Linked(Provisioned(s, e, user, ws))
  {
    if e !in s.users {
      SignUpKeepsRows(s, e, user, ws);
    }
  }

  lemma AcceptsAlone(limit: Id -> int, r: Race, n: nat, e: Email, user: Id, ws: Id, order: seq<Id>)
    requires Rows(r.store) && n !in r.requests && Lists(r.store, e, order)
    requires ws !in r.store.used && user !in r.store.used && ws != user
    ensures var q, s := SessionOf(r.store, e, user), Provisioned(r.store, e, user, ws);
            After(limit, After(limit, r, [FindUser(n, e), SignUp(n, user, ws)]), AcceptMoves(n, order))
            == InvitesAccepted(r.(store := Accepted(s, q.user, e)), n, q)
  {
    IdentifiesAlone(limit, r, n, e, user, ws);
    ProvisionedIsLinked(r.store, e, user, ws);
    AcceptsNext(limit, r, n, Provisioned(r.store, e, user, ws), SessionOf(r.store, e, user), order);
  }

  /** The statements of a login with nothing in between are the whole call, in whatever order the
      invites are joined. */
  lemma LoginAloneIsTheCall(limit: Id -> int, r: Race, n: nat, e: Email, user: Id, ws: Id, order: seq<Id>)
    requires Rows(r.store) && n !in r.requests && Lists(r.store, e, order)
    requires ws !in r.store.used && user !in r.store.used && ws != user
    ensures After(limit, r, LoginMoves(n, e, user, ws, order))
         == Race(Next(limit, r.store, Login(e, user, ws)), r.requests)
  {
    var q, s := SessionOf(r.store, e, user), Provisioned(r.store, e, user, ws);
    var t := Accepted(s, q.user, e);
    LoginMovesAre(limit, r, n, e, user, ws, order);
    AcceptsAlone(limit, r, n, e, user, ws, order);
    LoggedInIs(r.store, e, user, ws);
    HealsAlone(limit, r.(store := t), n, q, ws);
  }

  // ---- Two requests at once --------------------------------------------------------------

  /** Both requests pass their checks before either writes. */
  function Together(a: Move, b: Move, c: Move, d: Move): seq<Move> {
    [a, b] + [c, d] + [Perform(0), Perform(1)]
  }

  function BothChecked(s: State, v: Write, w: Write): Race {
    Race(s, map[0 := Checked(v), 1 := Checked(w)])
  }

  lemma BothPerformed(limit: Id -> int, s: State, v: Write, w: Write)
    ensures Moved(limit, Moved(limit, BothChecked(s, v, w), Perform(0)), Perform(1))
         == Race(Written(Written(s, v), w), map[])
  {
  }

  lemma TogetherIs(limit: Id -> int, s: State, a: Move, b: Move, c: Move, d: Move, v: Write, w: Write)
    requires Moved(limit, Moved(limit, Moved(limit, Moved(limit, Race(s, map[]), a), b), c), d) == BothChecked(s, v, w)
    ensures After(limit, Race(s, map[]), Together(a, b, c, d)) == Race(Written(Written(s, v), w), map[])
  {
    var r := Race(s, map[]);
    AfterBoth(limit, r, [a, b] + [c, d], [Perform(0), Perform(1)]);
    AfterBoth(limit, r, [a, b], [c, d]);
    AfterTwo(limit, r, a, b);
    AfterTwo(limit, Moved(limit, Moved(limit, r, a), b), c, d);
    AfterTwo(limit, BothChecked(s, v, w), Perform(0), Perform(1));
    BothPerformed(limit, s, v, w);
  }

  lemma BothInvitesCounted(limit: Id -> int, s: State, v: Write, w: Write)
    requires v.PutInvite? && w.PutInvite? && v.ws == w.ws && v.ws in s.workspaces
    requires limit(v.ws) >= 1 && Seats(s, v.ws) < limit(v.ws)
    ensures var counted := Moved(limit, Moved(limit, Race(s, map[]), CountMembers(0, v)), CountMembers(1, w));
            Moved(limit, Moved(limit, counted, CountInvites(0)), CountInvites(1)) == BothChecked(s, v, w)
  {
    var members := |MembersOf(s, v.ws)|;
    assert Moved(limit, Moved(limit, Race(s, map[]), CountMembers(0, v)), CountMembers(1, w))
        == Race(s, map[0 := CountedMembers(v, members), 1 := CountedMembers(w, members)]);
  }

  /** Two invites counted before either is written take two seats where one was free. */
  lemma BothInvitesPass(limit: Id -> int, s: State, v: Write, w: Write)
    requires v.PutInvite? && w.PutInvite? && v.ws == w.ws && v.email != w.email && v.ws in s.workspaces
    requires (v.ws, v.email) !in s.invites && (v.ws, w.email) !in s.invites
    requires limit(v.ws) >= 1 && Seats(s, v.ws) < limit(v.ws)
    ensures var moves := Together(CountMembers(0, v), CountMembers(1, w), CountInvites(0), CountInvites(1));
            Seats(After(limit, Race(s, map[]), moves).store, v.ws) == Seats(s, v.ws) + 2
  {
    BothInvitesCounted(limit, s, v, w);
    TogetherIs(limit, s, CountMembers(0, v), CountMembers(1, w), CountInvites(0), CountInvites(1), v, w);
    InvitingTakesOneSeat(s, v.ws, v.email, v.role, v.ws);
    InvitingTakesOneSeat(WithInvite(s, v.ws, v.email, v.role), v.ws, w.email, w.role, v.ws);
  }

  lemma BothAdminsGo(s: State, v: Write, w: Write)
    requires Demotes(v) && Demotes(w) && v.ws == w.ws && AdminsOf(s, v.ws) == {v.user, w.user}
    ensures !HasAdmin(Written(Written(s, v), w), v.ws) && Written(Written(s, v), w).workspaces == s.workspaces
  {
    forall u | (v.ws, u) in s.members && s.members[(v.ws, u)] == Admin
      ensures u == v.user || u == w.user
    {
      assert u in AdminsOf(s, v.ws);
    }
  }

  lemma BothCounted(limit: Id -> int, s: State, v: Write, w: Write)
    requires Demotes(v) && Demotes(w) && v.ws == w.ws && v.user != w.user && AdminsOf(s, v.ws) == {v.user, w.user}
    ensures var read := Moved(limit, Moved(limit, Race(s, map[]), ReadRole(0, v)), ReadRole(1, w));
            Moved(limit, Moved(limit, read, CountAdmins(0)), CountAdmins(1)) == BothChecked(s, v, w)
  {
    assert v.user in AdminsOf(s, v.ws) && w.user in AdminsOf(s, v.ws);
    assert |{v.user, w.user}| == 2;
    assert Moved(limit, Moved(limit, Race(s, map[]), ReadRole(0, v)), ReadRole(1, w))
        == Race(s, map[0 := ReadAdmin(v), 1 := ReadAdmin(w)]);
  }

  /** Two admins, each removed or demoted by a request that counted both, leave none. */
  lemma BothMemberChangesPass(limit: Id -> int, s: State, v: Write, w: Write)
    requires Demotes(v) && Demotes(w) && v.ws == w.ws && v.user != w.user && AdminsOf(s, v.ws) == {v.user, w.user}
    ensures var moves := Together(ReadRole(0, v), ReadRole(1, w), CountAdmins(0), CountAdmins(1));
            var t := After(limit, Race(s, map[]), moves).store;
            t.workspaces == s.workspaces && !HasAdmin(t, v.ws)
  {
    BothCounted(limit, s, v, w);
    TogetherIs(limit, s, ReadRole(0, v), ReadRole(1, w), CountAdmins(0), CountAdmins(1), v, w);
    BothAdminsGo(s, v, w);
  }

  // ---- A login and its invite ------------------------------------------------------------

  function Reading(n: nat, e: Email): seq<Move> {
    [FindUser(n, e), ReadInvites(n)]
  }

  lemma FindsUser(limit: Id -> int, r: Race, n: nat, q: Session)
    requires n !in r.requests && Placed(r.store, q) && q.homeless == (r.store.users[q.email].home == None)
    ensures Moved(limit, r, FindUser(n, q.email)) == Begun(r, n, Present(q))
  {
  }

  lemma BegunAnew(r: Race, n: nat, p: Request, q: Request)
    ensures Begun(Begun(r, n, p), n, q) == Begun(r, n, q)
  {
  }

  lemma Reads(limit: Id -> int, r: Race, n: nat, q: Session)
    requires n !in r.requests && Placed(r.store, q) && q.homeless == (r.store.users[q.email].home == None)
    requires InvitesFor(r.store, q.email) != map[]
    ensures After(limit, r, Reading(n, q.email)) == Begun(r, n, Joining(q, InvitesFor(r.store, q.email)))
  {
    var todo := InvitesFor(r.store, q.email);
    AfterTwo(limit, r, FindUser(n, q.email), ReadInvites(n));
    FindsUser(limit, r, n, q);
    assert Moved(limit, Begun(r, n, Present(q)), ReadInvites(n))
        == Begun(Begun(r, n, Present(q)), n, Joining(q, todo));
    BegunAnew(r, n, Present(q), Joining(q, todo));
  }

  lemma JoinsOne(limit: Id -> int, s: State, q: Session, ws: Id)
    requires (ws, q.email) in s.invites && ws in s.workspaces
    ensures Moved(limit, Race(s, map[0 := Joining(q, InvitesFor(s, q.email))]), Join(0, ws)).store
         == WithJoined(s, ws, q.user, s.invites[(ws, q.email)])
  {
    InvitesForIs(s, q.email);
    assert ws in InvitesFor(s, q.email);
  }

  lemma JoinedHolds(s: State, q: Session, ws: Id, role: Role)
    requires Numbered(s) && Placed(s, q) && (ws, q.email) in s.invites
    ensures Holders(WithJoined(s, ws, q.user, role), ws) == Holders(s, ws)
  {
    JoiningHolds(s, q, ws, role, ws);
    HoldersIs(s, ws);
    assert q.email in Holders(s, ws);
  }

  /** Between the INSERT of a login and its DELETE the quota counts the invitee twice, and a full
      workspace is one seat over; the addresses that hold a seat stay the same. */
  lemma JoiningIsCountedTwice(limit: Id -> int, s: State, q: Session, ws: Id)
    requires Rows(s) && Placed(s, q) && q.homeless == (s.users[q.email].home == None)
    requires (ws, q.email) in s.invites && (ws, q.user) !in s.members
    ensures var t := After(limit, Race(s, map[]), Reading(0, q.email) + [Join(0, ws)]).store;
            Seats(t, ws) == Seats(s, ws) + 1 && Holders(t, ws) == Holders(s, ws)
  {
    var r, read := Race(s, map[]), Race(s, map[0 := Joining(q, InvitesFor(s, q.email))]);
    InvitesForIs(s, q.email);
    assert ws in InvitesFor(s, q.email);
    AfterBoth(limit, r, Reading(0, q.email), [Join(0, ws)]);
    Reads(limit, r, 0, q);
    AfterOne(limit, read, Join(0, ws));
    JoinsOne(limit, s, q, ws);
    JoiningTakesOneSeat(s, ws, q.user, s.invites[(ws, q.email)], ws);
    JoinedHolds(s, q, ws, s.invites[(ws, q.email)]);
  }

  /** A login that read the only invite of its user, to ws, and waits while another login of the
      same user finishes, an admin removes the user again and invites somebody else. */
  function Meanwhile(q: Session, ws: Id, other: Write): seq<Move> {
    Reading(1, q.email) + (Reading(0, q.email) + JoinMoves(0, [ws]) + [ClearInvites(0)])
    + MemberMoves(2, Drop(ws, q.user)) + InviteMoves(2, other)
  }

  predicate OnlyInvite(s: State, q: Session, ws: Id) {
    && Placed(s, q) && !q.homeless && s.users[q.email].home.Some?
    && (ws, q.email) in s.invites && s.invites[(ws, q.email)] == Member && (ws, q.user) !in s.members
    && forall k :: k in s.invites && k.1 == q.email ==> k.0 == ws
  }

  /** What the store is when the waiting login goes on. */
  function Left(s: State, q: Session, ws: Id, other: Write): State
    requires other.PutInvite?
  {
    WithInvite(WithoutMember(Accepted(s, q.user, q.email), ws, q.user), ws, other.email, other.role)
  }

  lemma OtherLoginFinishes(limit: Id -> int, r: Race, q: Session, ws: Id)
    requires Rows(r.store) && OnlyInvite(r.store, q, ws) && 0 !in r.requests
    ensures After(limit, r, Reading(0, q.email) + JoinMoves(0, [ws]) + [ClearInvites(0)])
         == Race(Accepted(r.store, q.user, q.email), r.requests)
  {
    var p := Joining(q, InvitesFor(r.store, q.email));
    InvitesForIs(r.store, q.email);
    assert ws in InvitesFor(r.store, q.email);
    AfterBoth(limit, r, Reading(0, q.email) + JoinMoves(0, [ws]), [ClearInvites(0)]);
    AfterBoth(limit, r, Reading(0, q.email), JoinMoves(0, [ws]));
    Reads(limit, r, 0, q);
    JoinsAccept(limit, Begun(r, 0, p), 0, q, [ws]);
    AfterOne(limit, JoinedSoFar(Begun(r, 0, p), 0, q, [ws]), ClearInvites(0));
    ClearsAll(limit, Begun(r, 0, p), 0, q, [ws]);
    AcceptingAnew(r, 0, p, Accepted(r.store, q.user, q.email), q);
  }

  lemma LeavingFreesASeat(s: State, ws: Id, user: Id)
    requires (ws, user) in s.members
    ensures Seats(WithoutMember(s, ws, user), ws) == Seats(s, ws) - 1
  {
    assert (ws, user).1 in MembersOf(s, ws);
    assert MembersOf(WithoutMember(s, ws, user), ws) == MembersOf(s, ws) - {user};
    assert InvitesOf(WithoutMember(s, ws, user), ws) == InvitesOf(s, ws);
  }

  lemma AcceptedIsMember(s: State, q: Session, ws: Id)
    requires OnlyInvite(s, q, ws)
    ensures var t := Accepted(s, q.user, q.email);
            && (ws, q.user) in t.members && t.members[(ws, q.user)] == Member
            && Seats(t, ws) == Seats(s, ws) && t.workspaces == s.workspaces
  {
    assert (ws, q.email) in s.invites && ((ws, q.email).0, q.user) == (ws, q.user);
    AcceptingConservesSeats(s, q.user, q.email, ws);
  }

  lemma LeftSeats(s: State, q: Session, ws: Id, other: Write)
    requires OnlyInvite(s, q, ws) && other.PutInvite? && other.ws == ws
    requires other.email != q.email && (ws, other.email) !in s.invites
    ensures Seats(Left(s, q, ws, other), ws) == Seats(s, ws)
  {
    var t := Accepted(s, q.user, q.email);
    AcceptedIsMember(s, q, ws);
    LeavingFreesASeat(t, ws, q.user);
    InvitingTakesOneSeat(WithoutMember(t, ws, q.user), ws, other.email, other.role, ws);
  }

  /** The guest is removed and the other one invited, each by a request that nothing disturbs. */
  lemma RemovedAndReplaced(limit: Id -> int, r: Race, q: Session, ws: Id, s: State, other: Write)
    requires Rows(s) && OnlyInvite(s, q, ws) && other.PutInvite? && other.ws == ws && Seats(s, ws) <= limit(ws)
    requires 2 !in r.requests && r.store == Accepted(s, q.user, q.email)
    ensures After(limit, After(limit, r, MemberMoves(2, Drop(ws, q.user))), InviteMoves(2, other))
         == Race(Left(s, q, ws, other), r.requests)
  {
    AcceptedIsMember(s, q, ws);
    MemberChangeAloneIsTheCall(limit, r, 2, Drop(ws, q.user));
    LeavingFreesASeat(r.store, ws, q.user);
    InviteAloneIsTheCall(limit, Race(WithoutMember(r.store, ws, q.user), r.requests), 2, other);
  }

  lemma MeanwhileIs(limit: Id -> int, s: State, q: Session, ws: Id, other: Write)
    requires Rows(s) && OnlyInvite(s, q, ws) && other.PutInvite? && other.ws == ws && Seats(s, ws) <= limit(ws)
    ensures After(limit, Race(s, map[]), Meanwhile(q, ws, other))
         == Race(Left(s, q, ws, other), map[1 := Joining(q, InvitesFor(s, q.email))])
  {
    var r, todo := Race(s, map[]), InvitesFor(s, q.email);
    var first, second := Reading(1, q.email), Reading(0, q.email) + JoinMoves(0, [ws]) + [ClearInvites(0)];
    InvitesForIs(s, q.email);
    assert ws in todo;
    AfterBoth(limit, r, first + second + MemberMoves(2, Drop(ws, q.user)), InviteMoves(2, other));
    AfterBoth(limit, r, first + second, MemberMoves(2, Drop(ws, q.user)));
    AfterBoth(limit, r, first, second);
    Reads(limit, r, 1, q);
    var read := Begun(r, 1, Joining(q, todo));
    OtherLoginFinishes(limit, read, q, ws);
    RemovedAndReplaced(limit, Race(Accepted(s, q.user, q.email), read.requests), q, ws, s, other);
  }

  function StaleLogin(q: Session, ws: Id, other: Write): seq<Move> {
    Meanwhile(q, ws, other) + [Join(1, ws), ClearInvites(1)]
  }

  lemma WaitingLoginJoins(limit: Id -> int, t: State, q: Session, ws: Id, todo: map<Id, Role>)
    requires todo == map[ws := Member] && ws in t.workspaces && (ws, q.user) !in t.members
    ensures Moved(limit, Race(t, map[1 := Joining(q, todo)]), Join(1, ws))
         == Race(WithRole(t, ws, q.user, Member), map[1 := Joining(q, map[])])
  {
    assert todo - {ws} == map[];
  }

  /** The waiting login goes on: it makes a member of the user who was removed, and its DELETE finds
      no invite. */
  lemma WaitingLoginFinishes(limit: Id -> int, t: State, q: Session, ws: Id, todo: map<Id, Role>)
    requires !q.homeless && todo == map[ws := Member] && ws in t.workspaces && (ws, q.user) !in t.members
    requires forall k :: k in t.invites ==> k.1 != q.email
    ensures After(limit, Race(t, map[1 := Joining(q, todo)]), [Join(1, ws), ClearInvites(1)])
         == Race(WithRole(t, ws, q.user, Member), map[])
  {
    var r, u := Race(t, map[1 := Joining(q, todo)]), WithRole(t, ws, q.user, Member);
    AfterTwo(limit, r, Join(1, ws), ClearInvites(1));
    WaitingLoginJoins(limit, t, q, ws, todo);
    Clears(limit, Race(u, map[1 := Joining(q, map[])]), 1, q);
    assert WithoutInvites(u, q.email) == u;
  }

  /** Every invite was written when a seat was free, and still the workspace ends with one seat
      more than before: one more than the limit if it was full. */
  lemma StaleLoginTakesASeat(limit: Id -> int, s: State, q: Session, ws: Id, other: Write)
    requires Rows(s) && OnlyInvite(s, q, ws) && Seats(s, ws) <= limit(ws)
    requires other.PutInvite? && other.ws == ws && other.email != q.email && (ws, other.email) !in s.invites
    ensures var t := After(limit, Race(s, map[]), StaleLogin(q, ws, other));
            && t == Race(WithRole(Left(s, q, ws, other), ws, q.user, Member), map[])
            && Seats(t.store, ws) == Seats(s, ws) + 1
  {
    var left, todo := Left(s, q, ws, other), InvitesFor(s, q.email);
    InvitesForIs(s, q.email);
    assert todo == map[ws := Member];
    AcceptedIsMember(s, q, ws);
    AfterBoth(limit, Race(s, map[]), Meanwhile(q, ws, other), [Join(1, ws), ClearInvites(1)]);
    MeanwhileIs(limit, s, q, ws, other);
    WaitingLoginFinishes(limit, left, q, ws, todo);
    LeftSeats(s, q, ws, other);
    JoiningTakesOneSeat(left, ws, q.user, Member, ws);
  }

  lemma LeftMembers(s: State, q: Session, ws: Id, other: Write, user: Id)
    requires OnlyInvite(s, q, ws) && other.PutInvite? && other.ws == ws
    ensures (ws, user) in WithRole(Left(s, q, ws, other), ws, q.user, Member).members
        <==> (ws, user) in s.members || user == q.user
  {
  }

  lemma LeftInvites(s: State, q: Session, ws: Id, other: Write, e: Email)
    requires OnlyInvite(s, q, ws) && other.PutInvite? && other.ws == ws
    ensures (ws, e) in WithRole(Left(s, q, ws, other), ws, q.user, Member).invites
        <==> ((ws, e) in s.invites && e != q.email) || e == other.email
  {
  }

  lemma StaleLoginHolds(s: State, q: Session, ws: Id, other: Write, e: Email)
    requires Numbered(s) && OnlyInvite(s, q, ws) && other.PutInvite? && other.ws == ws
    ensures Holds(WithRole(Left(s, q, ws, other), ws, q.user, Member), ws, e) <==> Holds(s, ws, e) || e == other.email
  {
    LeftInvites(s, q, ws, other, e);
    if e in s.users {
      LeftMembers(s, q, ws, other, s.users[e].id);
    }
  }

  /** Counted by addresses too, the workspace ends with one more. */
  lemma StaleLoginAddsAHolder(s: State, q: Session, ws: Id, other: Write)
    requires Numbered(s) && OnlyInvite(s, q, ws)
    requires other.PutInvite? && other.ws == ws && !Holds(s, ws, other.email)
    ensures |Holders(WithRole(Left(s, q, ws, other), ws, q.user, Member), ws)| == |Holders(s, ws)| + 1
  {
    var t, before := WithRole(Left(s, q, ws, other), ws, q.user, Member), Holders(s, ws);
    HoldersIs(s, ws);
    HoldersIs(t, ws);
    forall e
      ensures e in Holders(t, ws) <==> e in before || e == other.email
    {
      StaleLoginHolds(s, q, ws, other, e);
    }
    assert Holders(t, ws) == before + {other.email};
    AddingOne(before, other.email);
  }

  /** A default workspace deleted after the login created it and before it was recorded. */
  function Dangling(e: Email, home: Id): seq<Move> {
    [FindUser(0, e), ReadInvites(0)] + [NewHome(0, home), DropWorkspace(home), SetHome(0)]
  }

  lemma ReadsNothing(limit: Id -> int, s: State, q: Session)
    requires Placed(s, q) && q.homeless && s.users[q.email].home == None && InvitesFor(s, q.email) == map[]
    ensures After(limit, Race(s, map[]), [FindUser(0, q.email), ReadInvites(0)]) == Race(s, map[0 := Homeless(q)])
  {
    var r := Race(s, map[]);
    AfterTwo(limit, r, FindUser(0, q.email), ReadInvites(0));
    FindsUser(limit, r, 0, q);
    assert Moved(limit, Begun(r, 0, Present(q)), ReadInvites(0)) == Begun(Begun(r, 0, Present(q)), 0, Homeless(q));
  }

  lemma HomeComesAndGoes(limit: Id -> int, s: State, q: Session, home: Id)
    requires home !in s.used
    ensures Moved(limit, Moved(limit, Race(s, map[0 := Homeless(q)]), NewHome(0, home)), DropWorkspace(home))
         == Race(WithoutWorkspace(WithWorkspace(s, home, q.user), home), map[0 := Housed(q, home)])
  {
    var t := WithWorkspace(s, home, q.user);
    assert Moved(limit, Race(s, map[0 := Homeless(q)]), NewHome(0, home)) == Race(t, map[0 := Housed(q, home)]);
    assert home in t.workspaces;
  }

  lemma RecordsHome(limit: Id -> int, s: State, q: Session, home: Id)
    requires q.email in s.users
    ensures Moved(limit, Race(s, map[0 := Housed(q, home)]), SetHome(0))
         == Race(WithHome(s, q.email, Some(home)), map[])
  {
  }

  lemma DeletedHomeIsRecorded(limit: Id -> int, s: State, q: Session, home: Id)
    requires Placed(s, q) && q.homeless && s.users[q.email].home == None
    requires InvitesFor(s, q.email) == map[] && home !in s.used
    ensures var t := After(limit, Race(s, map[]), Dangling(q.email, home)).store;
            q.email in t.users && t.users[q.email].home == Some(home) && home !in t.workspaces
  {
    var t := WithoutWorkspace(WithWorkspace(s, home, q.user), home);
    AfterBoth(limit, Race(s, map[]), [FindUser(0, q.email), ReadInvites(0)],
      [NewHome(0, home), DropWorkspace(home), SetHome(0)]);
    ReadsNothing(limit, s, q);
    AfterThree(limit, Race(s, map[0 := Homeless(q)]), NewHome(0, home), DropWorkspace(home), SetHome(0));
    HomeComesAndGoes(limit, s, q, home);
    RecordsHome(limit, t, q, home);
  }

  // ---- Runs from the empty store ---------------------------------------------------------

  /** The owner of a team, a guest with a workspace of its own, and some more names. */
  datatype Cast = Cast(team: Id, owner: Id, guest: Id, den: Id, spare: Id, loft: Id,
                       boss: Email, friend: Email, third: Email)

  predicate Distinct(c: Cast) {
    && c.boss != c.friend && c.boss != c.third && c.friend != c.third
    && c.owner !in {c.team} && c.guest !in {c.team, c.owner} && c.den !in {c.team, c.owner, c.guest}
    && c.spare !in {c.team, c.owner, c.guest, c.den} && c.loft !in {c.team, c.owner, c.guest, c.den, c.spare}
  }

  function Founding(c: Cast): seq<Move> {
    LoginMoves(0, c.boss, c.owner, c.team, [])
  }

  function Visiting(c: Cast): seq<Move> {
    Founding(c) + LoginMoves(0, c.friend, c.guest, c.den, [])
  }

  function Inviting(c: Cast, role: Role): seq<Move> {
    Visiting(c) + InviteMoves(0, PutInvite(c.team, c.friend, role))
  }

  function Founded(c: Cast): State {
    WithUser(INITIAL, c.boss, c.owner, c.team)
  }

  function Visited(c: Cast): State {
    WithUser(Founded(c), c.friend, c.guest, c.den)
  }

  function Invited(c: Cast, role: Role): State {
    WithInvite(Visited(c), c.team, c.friend, role)
  }

  /** A sign-up of an address without invites. */
  lemma SignsUp(limit: Id -> int, s: State, e: Email, user: Id, ws: Id)
    requires Rows(s) && e !in s.users && s.invites == map[]
    requires ws !in s.used && user !in s.used && ws != user
    ensures After(limit, Race(s, map[]), LoginMoves(0, e, user, ws, [])) == Race(WithUser(s, e, user, ws), map[])
  {
    LoginAloneIsTheCall(limit, Race(s, map[]), 0, e, user, ws, []);
    assert Accepted(WithUser(s, e, user, ws), user, e) == WithUser(s, e, user, ws);
  }

  lemma VisitingLeadsTo(limit: Id -> int, c: Cast)
    requires Distinct(c)
    ensures Raced(limit, Founding(c)) == Race(Founded(c), map[])
    ensures Raced(limit, Visiting(c)) == Race(Visited(c), map[])
    ensures Rows(Founded(c)) && Rows(Visited(c))
  {
    SignsUp(limit, INITIAL, c.boss, c.owner, c.team);
    RacedIsSound(limit, Founding(c));
    AfterBoth(limit, START, Founding(c), LoginMoves(0, c.friend, c.guest, c.den, []));
    SignsUp(limit, Founded(c), c.friend, c.guest, c.den);
    RacedIsSound(limit, Visiting(c));
  }

  lemma TeamOfOne(c: Cast)
    requires Distinct(c) && Rows(Founded(c))
    ensures Seats(Founded(c), c.team) == 1 && Seats(Visited(c), c.team) == 1
  {
    NewWorkspaceHasOneSeat(INITIAL, Founded(c), c.team, c.owner);
    NewWorkspaceHasOneSeat(Founded(c), Visited(c), c.den, c.guest);
  }

  lemma InvitingLeadsTo(limit: Id -> int, c: Cast, role: Role)
    requires Distinct(c) && limit(c.team) >= 2
    ensures Raced(limit, Inviting(c, role)) == Race(Invited(c, role), map[])
    ensures Rows(Invited(c, role)) && Seats(Invited(c, role), c.team) == 2
  {
    var w := PutInvite(c.team, c.friend, role);
    VisitingLeadsTo(limit, c);
    TeamOfOne(c);
    AfterBoth(limit, START, Visiting(c), InviteMoves(0, w));
    InviteAloneIsTheCall(limit, Race(Visited(c), map[]), 0, w);
    InvitingTakesOneSeat(Visited(c), c.team, c.friend, role, c.team);
    RacedIsSound(limit, Inviting(c, role));
  }

  /** A run that breaks a limit of two: two invites, both counted before either is written. */
  lemma ConcurrentInvitesCanExceedTheLimit(limit: Id -> int, c: Cast)
    requires Distinct(c) && limit(c.team) == 2
    ensures var v, w := PutInvite(c.team, c.friend, Member), PutInvite(c.team, c.third, Member);
            var moves := Founding(c)
                         + Together(CountMembers(0, v), CountMembers(1, w), CountInvites(0), CountInvites(1));
            Seats(Raced(limit, moves).store, c.team) == 3
  {
    var v, w := PutInvite(c.team, c.friend, Member), PutInvite(c.team, c.third, Member);
    VisitingLeadsTo(limit, c);
    TeamOfOne(c);
    AfterBoth(limit, START, Founding(c),
      Together(CountMembers(0, v), CountMembers(1, w), CountInvites(0), CountInvites(1)));
    BothInvitesPass(limit, Founded(c), v, w);
  }

  /** A run that breaks a limit of two, as the quota counts, without a second request: the guest
      logs in, and its invite is not yet gone. */
  lemma JoiningCanExceedTheLimit(limit: Id -> int, c: Cast)
    requires Distinct(c) && limit(c.team) == 2
    ensures var t := Raced(limit, Inviting(c, Member) + (Reading(0, c.friend) + [Join(0, c.team)])).store;
            Seats(t, c.team) == 3 && |Holders(t, c.team)| == 2
  {
    var s, q := Invited(c, Member), Session(c.friend, c.guest, false);
    InvitingLeadsTo(limit, c, Member);
    AfterBoth(limit, START, Inviting(c, Member), Reading(0, c.friend) + [Join(0, c.team)]);
    JoiningIsCountedTwice(limit, s, q, c.team);
    HoldersAreSeats(s, c.team);
  }

  lemma GuestHasOneInvite(c: Cast)
    requires Distinct(c)
    ensures OnlyInvite(Invited(c, Member), Session(c.friend, c.guest, false), c.team)
    ensures !Holds(Invited(c, Member), c.team, c.third)
    ensures forall e :: (c.team, e) in Invited(c, Member).invites ==> e == c.friend
    ensures (c.team, c.guest) !in Invited(c, Member).members
  {
  }

  lemma TwoHolders(c: Cast)
    requires Distinct(c) && Rows(Invited(c, Member)) && Seats(Invited(c, Member), c.team) == 2
    ensures |Holders(Invited(c, Member), c.team)| == 2
  {
    GuestHasOneInvite(c);
    HoldersAreSeats(Invited(c, Member), c.team);
  }

  lemma RacedOn(limit: Id -> int, moves: seq<Move>, s: State, more: seq<Move>)
    requires Raced(limit, moves) == Race(s, map[])
    ensures Raced(limit, moves + more) == After(limit, Race(s, map[]), more)
  {
    AfterBoth(limit, START, moves, more);
  }

  lemma StaleLoginTakesASeatAndAHolder(limit: Id -> int, s: State, q: Session, ws: Id, other: Write)
    requires Rows(s) && OnlyInvite(s, q, ws) && Seats(s, ws) <= limit(ws)
    requires other.PutInvite? && other.ws == ws && !Holds(s, ws, other.email)
    ensures var t := After(limit, Race(s, map[]), StaleLogin(q, ws, other));
            && t.requests == map[] && Seats(t.store, ws) == Seats(s, ws) + 1
            && |Holders(t.store, ws)| == |Holders(s, ws)| + 1
  {
    StaleLoginTakesASeat(limit, s, q, ws, other);
    StaleLoginAddsAHolder(s, q, ws, other);
  }

  /** A run that breaks a limit of two for good, by either count, although every invite found a free
      seat: the guest's second login had read the invite that its first login used up. */
  lemma StaleLoginCanExceedTheLimit(limit: Id -> int, c: Cast)
    requires Distinct(c) && limit(c.team) == 2
    ensures var q, other := Session(c.friend, c.guest, false), PutInvite(c.team, c.third, Member);
            var moves := Inviting(c, Member) + StaleLogin(q, c.team, other);
            var t := Raced(limit, moves);
            t.requests == map[] && Seats(t.store, c.team) == 3 && |Holders(t.store, c.team)| == 3
  {
    var s, q := Invited(c, Member), Session(c.friend, c.guest, false);
    var other := PutInvite(c.team, c.third, Member);
    InvitingLeadsTo(limit, c, Member);
    GuestHasOneInvite(c);
    TwoHolders(c);
    RacedOn(limit, Inviting(c, Member), s, StaleLogin(q, c.team, other));
    StaleLoginTakesASeatAndAHolder(limit, s, q, c.team, other);
  }

  lemma TeamOfTwoAdmins(c: Cast)
    requires Distinct(c)
    ensures AdminsOf(Accepted(Invited(c, Admin), c.guest, c.friend), c.team) == {c.owner, c.guest}
  {
    var j := Accepted(Invited(c, Admin), c.guest, c.friend);
    assert (c.team, c.friend) in Invited(c, Admin).invites;
    assert (c.team, c.owner) in j.members && (c.team, c.guest) in j.members;
  }

  function Joined(c: Cast): seq<Move> {
    Inviting(c, Admin) + LoginMoves(0, c.friend, c.spare, c.loft, [c.team])
  }

  lemma GuestLogsIn(limit: Id -> int, c: Cast)
    requires Distinct(c)
    ensures Lists(Invited(c, Admin), c.friend, [c.team])
    ensures Next(limit, Invited(c, Admin), Login(c.friend, c.spare, c.loft))
         == Accepted(Invited(c, Admin), c.guest, c.friend)
    ensures c.spare !in Invited(c, Admin).used && c.loft !in Invited(c, Admin).used && c.spare != c.loft
  {
  }

  lemma JoinedLeadsTo(limit: Id -> int, c: Cast)
    requires Distinct(c) && limit(c.team) >= 2
    ensures Raced(limit, Joined(c)) == Race(Accepted(Invited(c, Admin), c.guest, c.friend), map[])
  {
    InvitingLeadsTo(limit, c, Admin);
    GuestLogsIn(limit, c);
    AfterBoth(limit, START, Inviting(c, Admin), LoginMoves(0, c.friend, c.spare, c.loft, [c.team]));
    LoginAloneIsTheCall(limit, Race(Invited(c, Admin), map[]), 0, c.friend, c.spare, c.loft, [c.team]);
  }

  /** A run that orphans a workspace: its two admins are removed or demoted by requests that both
      counted two. */
  lemma ConcurrentRemovalsCanOrphanAWorkspace(limit: Id -> int, c: Cast, v: Write, w: Write)
    requires Distinct(c) && limit(c.team) >= 2
    requires v in {Drop(c.team, c.owner), Assign(c.team, c.owner, Member)}
    requires w in {Drop(c.team, c.guest), Assign(c.team, c.guest, Member)}
    ensures var moves := Joined(c) + Together(ReadRole(0, v), ReadRole(1, w), CountAdmins(0), CountAdmins(1));
            var t := Raced(limit, moves).store;
            c.team in t.workspaces && !HasAdmin(t, c.team)
  {
    JoinedLeadsTo(limit, c);
    TeamOfTwoAdmins(c);
    AfterBoth(limit, START, Joined(c), Together(ReadRole(0, v), ReadRole(1, w), CountAdmins(0), CountAdmins(1)));
    BothMemberChangesPass(limit, Accepted(Invited(c, Admin), c.guest, c.friend), v, w);
  }

  lemma TeamIsDeleted(limit: Id -> int, c: Cast)
    requires Distinct(c)
    ensures Raced(limit, Founding(c) + [DropWorkspace(c.team)])
         == Race(WithoutWorkspace(Founded(c), c.team), map[])
  {
    VisitingLeadsTo(limit, c);
    RacedOn(limit, Founding(c), Founded(c), [DropWorkspace(c.team)]);
    AfterOne(limit, Race(Founded(c), map[]), DropWorkspace(c.team));
  }

  lemma OwnerIsHomeless(c: Cast)
    requires Distinct(c)
    ensures var s := WithoutWorkspace(Founded(c), c.team);
            && Placed(s, Session(c.boss, c.owner, true)) && s.users[c.boss].home == None
            && InvitesFor(s, c.boss) == map[] && c.den !in s.used
  {
    InvitesForIs(WithoutWorkspace(Founded(c), c.team), c.boss);
  }

  /** A run that leaves a user with a default workspace that does not exist. */
  lemma DeletedHomeCanStayDefault(limit: Id -> int, c: Cast)
    requires Distinct(c)
    ensures var t := Raced(limit, Founding(c) + [DropWorkspace(c.team)] + Dangling(c.boss, c.den)).store;
            c.boss in t.users && t.users[c.boss].home == Some(c.den) && c.den !in t.workspaces
  {
    var s := WithoutWorkspace(Founded(c), c.team);
    TeamIsDeleted(limit, c);
    RacedOn(limit, Founding(c) + [DropWorkspace(c.team)], s, Dangling(c.boss, c.den));
    OwnerIsHomeless(c);
    DeletedHomeIsRecorded(limit, s, Session(c.boss, c.owner, true), c.den);
  }
}
