/** Who belongs where, with which role, after each store call, and what becomes of an invite. */
module Memberships {
  import opened Options
  import opened Tenancy

  function RoleOf(s: State, ws: Id, user: Id): Option<Role> {
    if (ws, user) in s.members then Some(s.members[(ws, user)]) else None
  }

  function InviteOf(s: State, ws: Id, e: Email): Option<Role> {
    if (ws, e) in s.invites then Some(s.invites[(ws, e)]) else None
  }

  /** The member is an admin of the workspace and the only one. */
  ghost predicate OnlyAdmin(s: State, ws: Id, user: Id) {
    RoleOf(s, ws, user) == Some(Admin) && forall u :: RoleOf(s, ws, u) == Some(Admin) ==> u == user
  }

  /** Counting the admins comes to that. */
  lemma LastAdminIsOnlyAdmin(s: State, ws: Id, user: Id)
    ensures IsLastAdmin(s, ws, user) <==> OnlyAdmin(s, ws, user)
  {
    var admins := AdminsOf(s, ws);
    forall u
      ensures u in admins <==> RoleOf(s, ws, u) == Some(Admin)
    {
      if RoleOf(s, ws, u) == Some(Admin) {
        assert (ws, u) in s.members;
      }
    }
    if RoleOf(s, ws, user) == Some(Admin) {
      if OnlyAdmin(s, ws, user) {
        assert admins == {user};
      } else if |admins| <= 1 {
        var u :| RoleOf(s, ws, u) == Some(Admin) && u != user;
        assert {u, user} <= admins;
        SubsetSize({u, user}, admins);
      }
    }
  }

  /** A seat is taken by each member and by each invite. */
  lemma SeatsAre(s: State, ws: Id, user: Id, e: Email)
    ensures user in MembersOf(s, ws) <==> RoleOf(s, ws, user).Some?
    ensures e in InvitesOf(s, ws) <==> InviteOf(s, ws, e).Some?
  {
    if (ws, user) in s.members {
      assert user in MembersOf(s, ws);
    }
    if (ws, e) in s.invites {
      assert e in InvitesOf(s, ws);
    }
  }

  // ---- Each call ------------------------------------------------------------------------

  lemma AcceptingSettles(s: State, user: Id, e: Email, ws: Id, u: Id, d: Email)
    ensures RoleOf(Accepted(s, user, e), ws, u)
         == if u == user && RoleOf(s, ws, u).None? then InviteOf(s, ws, e) else RoleOf(s, ws, u)
    ensures InviteOf(Accepted(s, user, e), ws, d) == if d == e then None else InviteOf(s, ws, d)
  {
  }

  /** The user that logs in, new or not. */
  function Identity(s: State, e: Email, user: Id): Id {
    if e in s.users then s.users[e].id else user
  }

  /** Whether the login makes the workspace it was given. */
  predicate NeedsHome(s: State, e: Email) {
    e !in s.users || s.users[e].home.None?
  }

  /** A login makes its user a member wherever an invite to the address was waiting, with the
      role the invite was made with, keeps every membership there was, makes it admin of the
      workspace it creates, and uses the invites up. */
  lemma LoginSettles(s: State, e: Email, user: Id, home: Id, ws: Id, u: Id, d: Email)
    requires Rows(s) && home !in s.used && user !in s.used && home != user
    ensures var t := LoggedIn(s, e, user, home);
            && RoleOf(t, ws, u) == (if ws == home && NeedsHome(s, e) && u == Identity(s, e, user) then Some(Admin)
                                    else if u == Identity(s, e, user) && RoleOf(s, ws, u).None? then InviteOf(s, ws, e)
                                    else RoleOf(s, ws, u))
            && InviteOf(t, ws, d) == (if d == e then None else InviteOf(s, ws, d))
  {
    if e in s.users {
      AcceptingSettles(s, s.users[e].id, e, ws, u, d);
    } else {
      AcceptingSettles(WithUser(s, e, user, home), user, e, ws, u, d);
    }
  }

  /** The roles after a call, all of them. */
  lemma RolesAfter(limit: Id -> int, s: State, step: Step, ws: Id, u: Id)
    requires Rows(s)
    ensures RoleOf(Next(limit, s, step), ws, u)
         == match step
            case Create(user, w) =>
              if w == ws && user == u && w !in s.used && Known(s, user) then Some(Admin) else RoleOf(s, ws, u)
            case Invite(_, _, _) => RoleOf(s, ws, u)
            case SetRole(w, user, role) =>
              if w == ws && user == u && RoleOf(s, ws, u).Some? && (role == Admin || !OnlyAdmin(s, ws, u))
              then Some(role) else RoleOf(s, ws, u)
            case Remove(w, user) =>
              if w == ws && user == u && !OnlyAdmin(s, ws, u) then None else RoleOf(s, ws, u)
            case Delete(w) => if w == ws then None else RoleOf(s, ws, u)
            case Login(e, user, home) =>
              if home in s.used || user in s.used || home == user || u != Identity(s, e, user) then RoleOf(s, ws, u)
              else if ws == home && NeedsHome(s, e) then Some(Admin)
              else if RoleOf(s, ws, u).Some? then RoleOf(s, ws, u)
              else InviteOf(s, ws, e)
  {
    match step
    case Create(user, w) =>
    case Invite(w, e, role) =>
    case SetRole(w, user, role) => LastAdminIsOnlyAdmin(s, w, user);
    case Remove(w, user) => LastAdminIsOnlyAdmin(s, w, user);
    case Delete(w) =>
    case Login(e, user, home) =>
      if home !in s.used && user !in s.used && home != user {
        LoginSettles(s, e, user, home, ws, u, e);
      }
  }

  /** Room for one more seat; a negative limit is none. */
  predicate HasRoom(s: State, ws: Id, limit: int) {
    limit < 0 || |MembersOf(s, ws)| + |InvitesOf(s, ws)| < limit
  }

  /** The invites after a call. */
  lemma InvitesAfter(limit: Id -> int, s: State, step: Step, ws: Id, d: Email)
    requires Rows(s)
    ensures InviteOf(Next(limit, s, step), ws, d)
         == match step
            case Invite(w, e, role) =>
              if w == ws && e == d && ws in s.workspaces && HasRoom(s, ws, limit(ws)) then Some(role)
              else InviteOf(s, ws, d)
            case Delete(w) => if w == ws then None else InviteOf(s, ws, d)
            case Login(e, user, home) =>
              if home !in s.used && user !in s.used && home != user && e == d then None else InviteOf(s, ws, d)
            case _ => InviteOf(s, ws, d)
  {
    if step.Login? && step.ws !in s.used && step.user !in s.used && step.ws != step.user {
      LoginSettles(s, step.email, step.user, step.ws, ws, step.user, d);
    }
  }

  /** The workspaces after a call. */
  lemma WorkspacesAfter(limit: Id -> int, s: State, step: Step, ws: Id)
    ensures ws in Next(limit, s, step).workspaces
        <==> || (ws in s.workspaces && step != Delete(ws))
             || (step.Create? && step.ws == ws && ws !in s.used && Known(s, step.user))
             || (step.Login? && step.ws == ws && ws !in s.used && step.user !in s.used && ws != step.user
                 && NeedsHome(s, step.email))
  {
  }

  function UserOf(s: State, e: Email): Option<User> {
    if e in s.users then Some(s.users[e]) else None
  }

  /** The users after a call. */
  lemma UsersAfter(limit: Id -> int, s: State, step: Step, d: Email)
    requires HomesExist(s)
    ensures UserOf(Next(limit, s, step), d)
         == match step
            case Delete(ws) =>
              if d in s.users && s.users[d].home == Some(ws) then Some(User(s.users[d].id, None)) else UserOf(s, d)
            case Login(e, user, ws) =>
              if ws !in s.used && user !in s.used && ws != user && e == d && NeedsHome(s, d)
              then Some(User(Identity(s, d, user), Some(ws)))
              else UserOf(s, d)
            case _ => UserOf(s, d)
  {
  }

  // ---- An invite, from being made to being accepted --------------------------------------

  /** Steps that end the wait of an invite: the workspace is deleted, the address is invited to it
      once more, or logs in. */
  predicate Settles(step: Step, ws: Id, e: Email) {
    step == Delete(ws) || (step.Invite? && step.ws == ws && step.email == e) || (step.Login? && step.email == e)
  }

  lemma {:induction false} InviteWaits(limit: Id -> int, steps: seq<Step>, more: seq<Step>, ws: Id, e: Email)
    requires forall i :: 0 <= i < |more| ==> !Settles(more[i], ws, e)
    ensures InviteOf(Run(limit, steps + more), ws, e) == InviteOf(Run(limit, steps), ws, e)
    decreases |more|
  {
    if more == [] {
      assert steps + more == steps;
    } else {
      var n := |more| - 1;
      InviteWaits(limit, steps, more[..n], ws, e);
      assert (steps + more)[..|steps + more| - 1] == steps + more[..n];
      ReachableIsSound(limit, steps + more[..n]);
      InviteStays(limit, Run(limit, steps + more[..n]), more[n], ws, e);
    }
  }

  lemma InviteStays(limit: Id -> int, s: State, step: Step, ws: Id, e: Email)
    requires Rows(s) && !Settles(step, ws, e)
    ensures InviteOf(Next(limit, s, step), ws, e) == InviteOf(s, ws, e)
  {
    InvitesAfter(limit, s, step, ws, e);
  }

  /** An invite made while there is room confers its role: whatever happens in between, when the
      address next logs in its user is a member of the workspace, with the role it had there
      already, or else with the role of the invite, and the invite is gone. */
  lemma InviteConfersItsRole(limit: Id -> int, steps: seq<Step>, ws: Id, e: Email, role: Role, more: seq<Step>,
                             user: Id, home: Id)
    requires ws in Run(limit, steps).workspaces && HasRoom(Run(limit, steps), ws, limit(ws))
    requires forall i :: 0 <= i < |more| ==> !Settles(more[i], ws, e)
    requires var s := Run(limit, steps + [Invite(ws, e, role)] + more);
             home !in s.used && user !in s.used && home != user
    ensures var s := Run(limit, steps + [Invite(ws, e, role)] + more);
            var t := Run(limit, steps + [Invite(ws, e, role)] + more + [Login(e, user, home)]);
            && e in t.users && t.users[e].id == Identity(s, e, user)
            && RoleOf(t, ws, t.users[e].id) == (if RoleOf(s, ws, t.users[e].id).Some?
                                                then RoleOf(s, ws, t.users[e].id) else Some(role))
            && InviteOf(t, ws, e).None?
  {
    var invited := steps + [Invite(ws, e, role)];
    assert invited[..|invited| - 1] == steps;
    ReachableIsSound(limit, steps);
    InvitesAfter(limit, Run(limit, steps), Invite(ws, e, role), ws, e);
    InviteWaits(limit, invited, more, ws, e);
    var waited := invited + more;
    var s := Run(limit, waited);
    ReachableIsSound(limit, waited);
    var login := waited + [Login(e, user, home)];
    assert login[..|login| - 1] == waited;
    assert ws in s.used by {
      assert (ws, e) in s.invites;
    }
    RolesAfter(limit, s, Login(e, user, home), ws, Identity(s, e, user));
    InvitesAfter(limit, s, Login(e, user, home), ws, e);
    UsersAfter(limit, s, Login(e, user, home), e);
  }
}
