/** The quota counts an invitee who has just joined twice: between the membership INSERT of a
    login and its DELETE of the invites both rows are there. Here the seats of a workspace are
    counted by the addresses that hold one, as a member or as an invitee, and the limit on them
    holds over interleaved statements under its own exact condition. */
module SeatHolders {
  import opened Tenancy
  import opened TenancyRaces

  function MemberAddresses(s: State, ws: Id): set<Email> {
    set e | e in s.users && (ws, s.users[e].id) in s.members
  }

  /** The addresses that are invited to the workspace or belong to a member of it. */
  function Holders(s: State, ws: Id): set<Email> {
    MemberAddresses(s, ws) + InvitesOf(s, ws)
  }

  predicate Holds(s: State, ws: Id, e: Email) {
    (e in s.users && (ws, s.users[e].id) in s.members) || (ws, e) in s.invites
  }

  lemma HoldersIs(s: State, ws: Id)
    ensures forall e :: e in Holders(s, ws) <==> Holds(s, ws, e)
  {
    forall e | (ws, e) in s.invites
      ensures e in InvitesOf(s, ws)
    {
      assert (ws, e).1 == e;
    }
  }

  lemma SameHolders(s: State, t: State, x: Id)
    requires forall e :: Holds(t, x, e) <==> Holds(s, x, e)
    ensures Holders(t, x) == Holders(s, x)
  {
    HoldersIs(s, x);
    HoldersIs(t, x);
  }

  lemma OneHolder(s: State, x: Id, owner: Email)
    requires forall e :: Holds(s, x, e) <==> e == owner
    ensures |Holders(s, x)| == 1
  {
    HoldersIs(s, x);
    assert Holders(s, x) == {owner};
  }

  ghost predicate WithinHolders(limit: Id -> int, s: State) {
    forall ws :: ws in s.workspaces && limit(ws) >= 1 ==> |Holders(s, ws)| <= limit(ws)
  }

  // ---- The two counts --------------------------------------------------------------------

  function IdsOf(s: State, a: set<Email>): set<Id>
    requires a <= s.users.Keys
  {
    set e | e in a :: s.users[e].id
  }

  lemma {:induction false} OneIdEach(s: State, a: set<Email>)
    requires Numbered(s) && a <= s.users.Keys
    ensures |IdsOf(s, a)| == |a|
    decreases a
  {
    if |a| > 0 {
      var e :| e in a;
      var rest := a - {e};
      OneIdEach(s, rest);
      assert IdsOf(s, a) == IdsOf(s, rest) + {s.users[e].id};
      assert s.users[e].id !in IdsOf(s, rest);
    }
  }

  lemma MembersHaveAddresses(s: State, ws: Id)
    requires Rows(s)
    ensures |MemberAddresses(s, ws)| == |MembersOf(s, ws)|
  {
    var a := MemberAddresses(s, ws);
    OneIdEach(s, a);
    assert IdsOf(s, a) == MembersOf(s, ws) by {
      forall u | u in MembersOf(s, ws)
        ensures u in IdsOf(s, a)
      {
        assert Known(s, u);
        var e :| e in s.users && s.users[e].id == u;
        assert e in a;
      }
    }
  }

  /** An address holds at most one seat of those the quota counts, and exactly one unless it is
      both invited and a member. */
  lemma HoldersAreSeats(s: State, ws: Id)
    requires Rows(s)
    ensures |Holders(s, ws)| <= Seats(s, ws)
    ensures |Holders(s, ws)| == Seats(s, ws)
        <==> forall e :: (ws, e) in s.invites && e in s.users ==> (ws, s.users[e].id) !in s.members
  {
    var a, b := MemberAddresses(s, ws), InvitesOf(s, ws);
    MembersHaveAddresses(s, ws);
    assert |a + b| + |a * b| == |a| + |b|;
    if |a + b| == |a| + |b| {
      forall e | (ws, e) in s.invites && e in s.users
        ensures (ws, s.users[e].id) !in s.members
      {
        assert e in b && e !in a * b;
      }
    } else {
      assert |a * b| > 0;
      var e :| e in a * b;
      assert (ws, e) in s.invites;
    }
  }

  // ---- What the writes do to the holders -------------------------------------------------

  lemma InvitingHolds(s: State, ws: Id, e: Email, role: Role, x: Id)
    ensures Holders(WithInvite(s, ws, e, role), x) == Holders(s, x) + if x == ws then {e} else {}
  {
    InvitingAddsOne(s, ws, e, role, x);
    assert MemberAddresses(WithInvite(s, ws, e, role), x) == MemberAddresses(s, x);
  }

  lemma JoiningHolds(s: State, q: Session, ws: Id, role: Role, x: Id)
    requires Numbered(s) && Placed(s, q)
    ensures Holders(WithJoined(s, ws, q.user, role), x) == Holders(s, x) + if x == ws then {q.email} else {}
  {
    HoldersIs(s, x);
    HoldersIs(WithJoined(s, ws, q.user, role), x);
  }

  lemma HoldersShrink(s: State, t: State, x: Id)
    requires UsersStay(s, t) && t.users.Keys == s.users.Keys
    requires t.members.Keys <= s.members.Keys && t.invites.Keys <= s.invites.Keys
    ensures Holders(t, x) <= Holders(s, x)
    ensures |Holders(t, x)| <= |Holders(s, x)|
  {
    HoldersIs(s, x);
    HoldersIs(t, x);
    SubsetSize(Holders(t, x), Holders(s, x));
  }

  lemma CreatingHolds(s: State, user: Id, ws: Id, x: Id)
    requires Rows(s) && ws !in s.workspaces && Known(s, user)
    ensures x != ws ==> Holders(WithWorkspace(s, ws, user), x) == Holders(s, x)
    ensures |Holders(WithWorkspace(s, ws, user), ws)| == 1
  {
    var t := WithWorkspace(s, ws, user);
    var owner :| owner in s.users && s.users[owner].id == user;
    if x != ws {
      SameHolders(s, t, x);
    }
    OneHolder(t, ws, owner);
  }

  lemma SigningUpHolds(s: State, e: Email, user: Id, ws: Id, x: Id)
    requires Rows(s) && e !in s.users && ws !in s.workspaces && user !in s.used
    ensures x != ws ==> Holders(WithUser(s, e, user, ws), x) == Holders(s, x)
    ensures |Holders(WithUser(s, e, user, ws), ws)| == 1
  {
    var t := WithUser(s, e, user, ws);
    assert !Known(s, user);
    if x != ws {
      SameHolders(s, t, x);
    }
    OneHolder(t, ws, e);
  }

  /** Creating a workspace leaves the holders of the others alone; its own is its creator. */
  lemma CreationHolds(limit: Id -> int, r: Race, m: Move, x: Id)
    requires Sound(r) && (m.NewWorkspace? || m.SignUp? || m.NewHome?)
    ensures var t := Moved(limit, r, m).store;
            && (x in r.store.workspaces ==> Holders(t, x) == Holders(r.store, x))
            && (x !in r.store.workspaces && x in t.workspaces ==> |Holders(t, x)| == 1)
  {
    if Moved(limit, r, m).store != r.store {
      if m.NewWorkspace? {
        CreatingHolds(r.store, m.user, m.ws, x);
      } else if m.SignUp? {
        SigningUpHolds(r.store, r.requests[m.n].email, m.user, m.ws, x);
      } else {
        var q := r.requests[m.n].session;
        assert Known(r.store, q.user);
        CreatingHolds(r.store, q.user, m.ws, x);
      }
    }
  }

  // ---- Exactly when the limit on holders is broken ---------------------------------------

  /** The write adds a row for the address to the workspace. */
  predicate Admits(r: Race, m: Move, ws: Id, e: Email) {
    && ws in r.store.workspaces
    && (|| (Writes(r, m) && r.requests[m.n].w.PutInvite? && r.requests[m.n].w.ws == ws
            && r.requests[m.n].w.email == e)
        || (Joins(r, m) && m.ws == ws && r.requests[m.n].session.email == e))
  }

  /** An address that an invite or a login adds has a seat already, or there is a free one. */
  ghost predicate HoldersAllow(limit: Id -> int, r: Race, m: Move) {
    forall ws, e :: Admits(r, m, ws, e) && limit(ws) >= 1 ==>
                      Holds(r.store, ws, e) || |Holders(r.store, ws)| < limit(ws)
  }

  ghost function HoldersHold(limit: Id -> int): Race -> bool {
    (r: Race) => WithinHolders(limit, r.store)
  }

  ghost function HoldersAllowed(limit: Id -> int): (Race, Move) -> bool {
    (r: Race, m: Move) => HoldersAllow(limit, r, m)
  }

  lemma AdmittingHolds(limit: Id -> int, r: Race, m: Move, ws: Id, e: Email, x: Id)
    requires Sound(r) && Admits(r, m, ws, e)
    ensures Holders(Moved(limit, r, m).store, x) == Holders(r.store, x) + if x == ws then {e} else {}
  {
    var q := r.requests[m.n];
    if m.Perform? {
      InvitingHolds(r.store, ws, e, q.w.role, x);
    } else {
      JoiningHolds(r.store, q.session, ws, q.todo[ws], x);
    }
  }

  lemma AdmittingCounts(limit: Id -> int, r: Race, m: Move, ws: Id, e: Email, x: Id)
    requires Sound(r) && Admits(r, m, ws, e)
    ensures |Holders(Moved(limit, r, m).store, x)|
            == |Holders(r.store, x)| + if x == ws && !Holds(r.store, ws, e) then 1 else 0
  {
    var before := Holders(r.store, x);
    AdmittingHolds(limit, r, m, ws, e, x);
    if x == ws {
      HoldersIs(r.store, ws);
      AddingOne(before, e);
    } else {
      assert before + {} == before;
    }
  }

  lemma OtherwiseHolds(limit: Id -> int, r: Race, m: Move, x: Id)
    requires Sound(r) && x in r.store.workspaces && forall ws, e :: !Admits(r, m, ws, e)
    ensures |Holders(Moved(limit, r, m).store, x)| <= |Holders(r.store, x)|
  {
    if m.NewWorkspace? || m.SignUp? || m.NewHome? {
      CreationHolds(limit, r, m, x);
    } else {
      NoRowIsAdded(limit, r, m);
      HoldersShrink(r.store, Moved(limit, r, m).store, x);
    }
  }

  lemma NoRowIsAdded(limit: Id -> int, r: Race, m: Move)
    requires !m.NewWorkspace? && !m.SignUp? && !m.NewHome? && forall ws, e :: !Admits(r, m, ws, e)
    ensures var t := Moved(limit, r, m).store;
            && UsersStay(r.store, t) && t.users.Keys == r.store.users.Keys
            && t.members.Keys <= r.store.members.Keys && t.invites.Keys <= r.store.invites.Keys
  {
    if Writes(r, m) && r.requests[m.n].w.PutInvite? {
      assert !Admits(r, m, r.requests[m.n].w.ws, r.requests[m.n].w.email);
    }
    if Joins(r, m) {
      assert !Admits(r, m, m.ws, r.requests[m.n].session.email);
    }
  }

  lemma AdmittingKeeps(limit: Id -> int, r: Race, m: Move, ws: Id, e: Email)
    requires Sound(r) && WithinHolders(limit, r.store) && Admits(r, m, ws, e)
    requires limit(ws) >= 1 ==> Holds(r.store, ws, e) || |Holders(r.store, ws)| < limit(ws)
    ensures WithinHolders(limit, Moved(limit, r, m).store)
  {
    var t := Moved(limit, r, m).store;
    forall x | x in t.workspaces && limit(x) >= 1
      ensures |Holders(t, x)| <= limit(x)
    {
      AdmittingCounts(limit, r, m, ws, e, x);
    }
  }

  lemma AdmittingBreaks(limit: Id -> int, r: Race, m: Move, ws: Id, e: Email)
    requires Sound(r) && Admits(r, m, ws, e)
    requires limit(ws) >= 1 && !Holds(r.store, ws, e) && |Holders(r.store, ws)| >= limit(ws)
    ensures !WithinHolders(limit, Moved(limit, r, m).store)
  {
    AdmittingCounts(limit, r, m, ws, e, ws);
    assert ws in Moved(limit, r, m).store.workspaces;
  }

  lemma AdmittedOnce(r: Race, m: Move, ws: Id, e: Email, v: Id, d: Email)
    requires Admits(r, m, ws, e) && Admits(r, m, v, d)
    ensures v == ws && d == e
  {
  }

  /** From a state in which no more addresses hold seats than the limit allows, a move ends that
      only by an invite or a membership for a new address when no seat was free. */
  lemma HoldersKeptExactly(limit: Id -> int, r: Race, m: Move)
    requires Sound(r) && WithinHolders(limit, r.store)
    ensures WithinHolders(limit, Moved(limit, r, m).store) <==> HoldersAllow(limit, r, m)
  {
    if ws, e :| Admits(r, m, ws, e) {
      forall v, d | Admits(r, m, v, d)
        ensures v == ws && d == e
      {
        AdmittedOnce(r, m, ws, e, v, d);
      }
      if HoldersAllow(limit, r, m) {
        AdmittingKeeps(limit, r, m, ws, e);
      } else {
        AdmittingBreaks(limit, r, m, ws, e);
      }
    } else {
      var t := Moved(limit, r, m).store;
      forall x | x in t.workspaces
        ensures |Holders(t, x)| <= if x in r.store.workspaces then |Holders(r.store, x)| else 1
      {
        if x in r.store.workspaces {
          OtherwiseHolds(limit, r, m, x);
        } else {
          NewWorkspaceSeats(limit, r, m, x);
          CreationHolds(limit, r, m, x);
        }
      }
    }
  }

  /** Over any interleaving no state has more addresses with a seat than the limit allows if and
      only if every invite and every membership inserted by a login was for an address that had a
      seat, or found a free one, at the time of its write. */
  lemma HoldersStayExactlyIf(limit: Id -> int, moves: seq<Move>)
    ensures Always(limit, moves, HoldersHold(limit)) <==> Throughout(limit, moves, HoldersAllowed(limit))
  {
    forall r, m | Sound(r) && HoldersHold(limit)(r)
      ensures HoldersHold(limit)(Moved(limit, r, m)) <==> HoldersAllowed(limit)(r, m)
    {
      HoldersKeptExactly(limit, r, m);
    }
    GoodExactlyIf(limit, moves, HoldersHold(limit), HoldersAllowed(limit));
  }
}
