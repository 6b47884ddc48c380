/** Workspaces, users, memberships and invites: internal/store/memberships.go, the login
    provisioning of internal/store/sqlite.go and the seat quota of internal/server/quota.go.
    Each store method is one step here; the program runs most of them as a check followed by
    a write, and TenancyRaces shows what that costs. */
module Tenancy {
  import opened Options

  /** Ids and normalised email addresses. */
  type Id(==, !new)
  type Email(==, !new)

  datatype Role = Admin | Member
  /** A user row, found by its unique email; `home` is default_workspace_id. */
  datatype User = User(id: Id, home: Option<Id>)

  /** The four tables, and every id handed out so far. */
  datatype State = State(
    workspaces: set<Id>,
    users: map<Email, User>,
    members: map<(Id, Id), Role>,
    invites: map<(Id, Email), Role>,
    used: set<Id>)

  const INITIAL := State({}, map[], map[], map[], {})

  datatype Outcome = Done | NotFound | LastAdmin | PlanLimit | Refused

  // ---- The tables, read --------------------------------------------------------------

  predicate Known(s: State, user: Id) {
    exists e :: e in s.users && s.users[e].id == user
  }

  function MembersOf(s: State, ws: Id): set<Id> {
    set k | k in s.members && k.0 == ws :: k.1
  }

  function InvitesOf(s: State, ws: Id): set<Email> {
    set k | k in s.invites && k.0 == ws :: k.1
  }

  function AdminsOf(s: State, ws: Id): set<Id> {
    set k | k in s.members && k.0 == ws && s.members[k] == Admin :: k.1
  }

  /** workspaceResourceCount for "members": a pending invite takes a seat too. */
  function Seats(s: State, ws: Id): nat {
    |MembersOf(s, ws)| + |InvitesOf(s, ws)|
  }

  /** A negative limit is unlimited. */
  predicate UnderLimit(s: State, ws: Id, limit: int) {
    limit < 0 || Seats(s, ws) < limit
  }

  // ---- The tables, changed -------------------------------------------------------------

  function WithWorkspace(s: State, ws: Id, user: Id): State {
    s.(workspaces := s.workspaces + {ws}, members := s.members[(ws, user) := Admin], used := s.used + {ws})
  }

  function WithHome(s: State, e: Email, home: Option<Id>): State
    requires e in s.users
  {
    s.(users := s.users[e := s.users[e].(home := home)])
  }

  function WithInvite(s: State, ws: Id, e: Email, role: Role): State {
    s.(invites := s.invites[(ws, e) := role])
  }

  /** Whether demoting or removing this member would take the last admin away. */
  predicate IsLastAdmin(s: State, ws: Id, user: Id) {
    (ws, user) in s.members && s.members[(ws, user)] == Admin && |AdminsOf(s, ws)| <= 1
  }

  function WithRole(s: State, ws: Id, user: Id, role: Role): State {
    s.(members := s.members[(ws, user) := role])
  }

  function WithoutMember(s: State, ws: Id, user: Id): State {
    s.(members := s.members - {(ws, user)})
  }

  function WithoutWorkspace(s: State, ws: Id): State {
    s.(invites := map k | k in s.invites && k.0 != ws :: s.invites[k],
       members := map k | k in s.members && k.0 != ws :: s.members[k],
       users := map e | e in s.users :: s.users[e].(home := if s.users[e].home == Some(ws) then None
         else s.users[e].home),
       workspaces := s.workspaces - {ws})
  }

  /** Every invite for the email becomes a membership unless there is one already; the invites
      go. */
  function Accepted(s: State, user: Id, e: Email): State {
    var gained := set k | k in s.invites && k.1 == e :: (k.0, user);
    s.(members := map k | k in s.members.Keys + gained :: if k in s.members then s.members[k] else s.invites[(k.0, e)],
       invites := map k | k in s.invites && k.1 != e :: s.invites[k])
  }

  function WithUser(s: State, e: Email, user: Id, ws: Id): State {
    s.(workspaces := s.workspaces + {ws},
       users := s.users[e := User(user, Some(ws))],
       members := s.members[(ws, user) := Admin],
       used := s.used + {ws, user})
  }

  /** GetOrCreateIdentity, with the ids it would generate. */
  function LoggedIn(s: State, e: Email, user: Id, ws: Id): State {
    if e in s.users then
      var t := Accepted(s, s.users[e].id, e);
      if s.users[e].home == None then WithHome(WithWorkspace(t, ws, s.users[e].id), e, Some(ws)) else t
    else Accepted(WithUser(s, e, user, ws), user, e)
  }

  class TenantStore {
    var workspaces: set<Id>
    var users: map<Email, User>
    var members: map<(Id, Id), Role>
    var invites: map<(Id, Email), Role>
    var used: set<Id>

    constructor ()
      ensures View() == INITIAL
    {
      workspaces, users, members, invites, used := {}, map[], map[], map[], {};
    }

    function View(): State
      reads this
    {
      State(workspaces, users, members, invites, used)
    }

    method CreateWorkspace(user: Id, ws: Id)
      modifies this
      ensures View() == WithWorkspace(old(View()), ws, user)
    {
      workspaces := workspaces + {ws};
      members := members[(ws, user) := Admin];
      used := used + {ws};
    }

    method CreateInvite(ws: Id, e: Email, role: Role)
      modifies this
      ensures View() == WithInvite(old(View()), ws, e, role)
    {
      invites := invites[(ws, e) := role];
    }

    /** handleInvite: the quota first, then the invite. */
    method HandleInvite(ws: Id, e: Email, role: Role, limit: int) returns (o: Outcome)
      modifies this
      ensures UnderLimit(old(View()), ws, limit) ==> o == Done && View() == WithInvite(old(View()), ws, e, role)
      ensures !UnderLimit(old(View()), ws, limit) ==> o == PlanLimit && View() == old(View())
    {
      if limit >= 0 {
        var taken := |MembersOf(View(), ws)|;
        var pending := |InvitesOf(View(), ws)|;
        if taken + pending >= limit {
          return PlanLimit;
        }
      }
      CreateInvite(ws, e, role);
      o := Done;
    }

    method SetMemberRole(ws: Id, user: Id, role: Role) returns (o: Outcome)
      modifies this
      ensures (ws, user) !in old(members) ==> o == NotFound && View() == old(View())
      ensures (ws, user) in old(members) ==>
                if role != Admin && IsLastAdmin(old(View()), ws, user)
                then o == LastAdmin && View() == old(View())
                else o == Done && View() == WithRole(old(View()), ws, user, role)
    {
      if (ws, user) !in members {
        return NotFound;
      }
      if members[(ws, user)] == Admin && role != Admin {
        var admins := |AdminsOf(View(), ws)|;
        if admins <= 1 {
          return LastAdmin;
        }
      }
      members := members[(ws, user) := role];
      o := Done;
    }

    method RemoveMember(ws: Id, user: Id) returns (o: Outcome)
      modifies this
      ensures (ws, user) !in old(members) ==> o == NotFound && View() == old(View())
      ensures (ws, user) in old(members) ==>
                if IsLastAdmin(old(View()), ws, user)
                then o == LastAdmin && View() == old(View())
                else o == Done && View() == WithoutMember(old(View()), ws, user)
    {
      if (ws, user) !in members {
        return NotFound;
      }
      if members[(ws, user)] == Admin {
        var admins := |AdminsOf(View(), ws)|;
        if admins <= 1 {
          return LastAdmin;
        }
      }
      members := members - {(ws, user)};
      o := Done;
    }

    method DeleteWorkspace(ws: Id) returns (o: Outcome)
      modifies this
      ensures ws !in old(workspaces) ==> o == NotFound && View() == old(View())
      ensures ws in old(workspaces) ==> o == Done && View() == WithoutWorkspace(old(View()), ws)
    {
      if ws !in workspaces {
        return NotFound;
      }
      invites := map k | k in invites && k.0 != ws :: invites[k];
      members := map k | k in members && k.0 != ws :: members[k];
      users := map e | e in users :: users[e].(home := if users[e].home == Some(ws) then None else users[e].home);
      workspaces := workspaces - {ws};
      o := Done;
    }

    method AcceptInvites(user: Id, e: Email)
      modifies this
      ensures View() == Accepted(old(View()), user, e)
    {
      var pending := set k | k in invites && k.1 == e;
      var todo := pending;
      while todo != {}
        invariant todo <= pending
        invariant forall k :: k in members <==> k in old(members) || (k.1 == user && (k.0, e) in pending - todo)
        invariant forall k :: k in members ==>
                                members[k] == if k in old(members) then old(members)[k] else invites[(k.0, e)]
        decreases todo
        modifies this`members
      {
        var k :| k in todo;
        todo := todo - {k};
        if (k.0, user) !in members {
          members := members[(k.0, user) := invites[k]];
        }
      }
      assert members == Accepted(old(View()), user, e).members;
      invites := map k | k in invites && k.1 != e :: invites[k];
    }

    /** Returns the user's default workspace. */
    method GetOrCreateIdentity(e: Email, user: Id, ws: Id) returns (home: Id)
      modifies this
      ensures View() == LoggedIn(old(View()), e, user, ws)
      ensures e in users && users[e].home == Some(home)
    {
      if e in users {
        var u := users[e];
        AcceptInvites(u.id, e);
        if u.home == None {
          CreateWorkspace(u.id, ws);
          users := users[e := u.(home := Some(ws))];
          return ws;
        }
        return u.home.value;
      }
      workspaces := workspaces + {ws};
      users := users[e := User(user, Some(ws))];
      members := members[(ws, user) := Admin];
      used := used + {ws, user};
      AcceptInvites(user, e);
      home := ws;
    }
  }

  // ---- Runs of whole store calls ---------------------------------------------------------

  datatype Step =
    | Create(user: Id, ws: Id)
    | Invite(ws: Id, email: Email, role: Role)
    | SetRole(ws: Id, user: Id, role: Role)
    | Remove(ws: Id, user: Id)
    | Delete(ws: Id)
    | Login(email: Email, user: Id, ws: Id)

  /** One call, with what the schema's foreign keys and unique ids refuse left out. `limit` is
      the seat limit of each workspace's plan. */
  function Next(limit: Id -> int, s: State, step: Step): State {
    match step
    case Create(user, ws) => if ws in s.used || !Known(s, user) then s else WithWorkspace(s, ws, user)
    case Invite(ws, e, role) =>
      if ws !in s.workspaces || !UnderLimit(s, ws, limit(ws)) then s else WithInvite(s, ws, e, role)
    case SetRole(ws, user, role) =>
      if (ws, user) !in s.members || (role != Admin && IsLastAdmin(s, ws, user)) then s else WithRole(s, ws, user, role)
    case Remove(ws, user) =>
      if (ws, user) !in s.members || IsLastAdmin(s, ws, user) then s else WithoutMember(s, ws, user)
    case Delete(ws) => if ws !in s.workspaces then s else WithoutWorkspace(s, ws)
    case Login(e, user, ws) =>
      if ws in s.used || user in s.used || ws == user then s else LoggedIn(s, e, user, ws)
  }

  function Run(limit: Id -> int, steps: seq<Step>): State {
    if steps == [] then INITIAL else Next(limit, Run(limit, steps[..|steps| - 1]), steps[|steps| - 1])
  }

  ghost predicate HasAdmin(s: State, ws: Id) {
    exists user :: (ws, user) in s.members && s.members[(ws, user)] == Admin
  }

  /** Every workspace has an admin. */
  ghost predicate Administered(s: State) {
    forall ws :: ws in s.workspaces ==> HasAdmin(s, ws)
  }

  /** Every default workspace exists. No foreign key says so. */
  ghost predicate HomesExist(s: State) {
    forall e :: e in s.users && s.users[e].home.Some? ==> s.users[e].home.value in s.workspaces
  }

  /** Members and invites point at rows that exist, as the schema's foreign keys demand. */
  ghost predicate Linked(s: State) {
    && (forall k :: k in s.members ==> k.0 in s.workspaces && Known(s, k.1))
    && (forall k :: k in s.invites ==> k.0 in s.workspaces)
  }

  /** Ids in the tables have been handed out, and no two users share one. */
  ghost predicate Numbered(s: State) {
    && s.workspaces <= s.used
    && (forall e :: e in s.users ==> s.users[e].id in s.used)
    && (forall e, d :: e in s.users && d in s.users && s.users[e].id == s.users[d].id ==> e == d)
  }

  ghost predicate WithinSeats(limit: Id -> int, s: State) {
    forall ws :: ws in s.workspaces && limit(ws) >= 1 ==> Seats(s, ws) <= limit(ws)
  }

  ghost predicate Rows(s: State) {
    Linked(s) && Numbered(s)
  }

  ghost predicate Inv(s: State) {
    Administered(s) && HomesExist(s) && Rows(s)
  }

  /** If every membership with the admin role is still there, every workspace of t that s had
      is still administered. */
  lemma AdminsKept(s: State, t: State)
    requires Administered(s)
    requires forall k :: k in s.members && k.0 in t.workspaces && s.members[k] == Admin ==>
               k in t.members && t.members[k] == Admin
    ensures forall ws :: ws in t.workspaces && ws in s.workspaces ==> HasAdmin(t, ws)
  {
  }

  lemma AnotherAdmin(s: State, ws: Id, user: Id) returns (other: Id)
    requires (ws, user) in s.members && s.members[(ws, user)] == Admin && !IsLastAdmin(s, ws, user)
    ensures other != user && other in AdminsOf(s, ws)
  {
    var admins := AdminsOf(s, ws);
    assert (ws, user) in s.members && user in admins;
    other := AnotherElement(admins, user);
  }

  lemma AnotherElement<T>(a: set<T>, x: T) returns (y: T)
    requires |a| > 1 && x in a
    ensures y in a && y != x
  {
    var rest := a - {x};
    assert |rest| == |a| - 1;
    y :| y in rest;
  }

  lemma KnownStays(s: State, t: State)
    requires forall e :: e in s.users ==> e in t.users && t.users[e].id == s.users[e].id
    ensures forall user :: Known(s, user) ==> Known(t, user)
  {
  }

  // ---- What every call keeps: rows that point at rows ------------------------------------

  lemma CreateKeepsRows(s: State, user: Id, ws: Id)
    requires Rows(s) && ws !in s.used && Known(s, user)
    ensures Rows(WithWorkspace(s, ws, user))
  {
    KnownStays(s, WithWorkspace(s, ws, user));
  }

  lemma DeleteKeepsRows(s: State, ws: Id)
    requires Rows(s)
    ensures Rows(WithoutWorkspace(s, ws))
  {
    KnownStays(s, WithoutWorkspace(s, ws));
  }

  lemma AcceptKeepsRows(s: State, user: Id, e: Email)
    requires Rows(s) && Known(s, user)
    ensures Rows(Accepted(s, user, e))
  {
    KnownStays(s, Accepted(s, user, e));
  }

  lemma SignUpKeepsRows(s: State, e: Email, user: Id, ws: Id)
    requires Rows(s) && e !in s.users && ws !in s.used && user !in s.used && ws != user
    ensures Rows(WithUser(s, e, user, ws)) && Known(WithUser(s, e, user, ws), user)
  {
    var t := WithUser(s, e, user, ws);
    KnownStays(s, t);
    assert e in t.users && t.users[e].id == user && Known(t, user);
  }

  lemma LoginKeepsRows(s: State, e: Email, user: Id, ws: Id)
    requires Rows(s) && ws !in s.used && user !in s.used && ws != user
    ensures Rows(LoggedIn(s, e, user, ws))
  {
    if e in s.users {
      var id := s.users[e].id;
      assert Known(s, id);
      AcceptKeepsRows(s, id, e);
      var t := Accepted(s, id, e);
      if s.users[e].home == None {
        assert e in t.users && Known(t, id);
        CreateKeepsRows(t, id, ws);
        KnownStays(WithWorkspace(t, ws, id), WithHome(WithWorkspace(t, ws, id), e, Some(ws)));
      }
    } else {
      SignUpKeepsRows(s, e, user, ws);
      AcceptKeepsRows(WithUser(s, e, user, ws), user, e);
    }
  }

  lemma StepKeepsRows(limit: Id -> int, s: State, step: Step)
    requires Rows(s)
    ensures Rows(Next(limit, s, step))
  {
    match step
    case Create(user, ws) =>
      if ws !in s.used && Known(s, user) {
        CreateKeepsRows(s, user, ws);
      }
    case Invite(ws, e, role) => KnownStays(s, WithInvite(s, ws, e, role));
    case SetRole(ws, user, role) => KnownStays(s, WithRole(s, ws, user, role));
    case Remove(ws, user) => KnownStays(s, WithoutMember(s, ws, user));
    case Delete(ws) => DeleteKeepsRows(s, ws);
    case Login(e, user, ws) =>
      if ws !in s.used && user !in s.used && ws != user {
        LoginKeepsRows(s, e, user, ws);
      }
  }

  // ---- What every call keeps: default workspaces -----------------------------------------

  lemma LoginKeepsHomes(s: State, e: Email, user: Id, ws: Id)
    requires HomesExist(s)
    ensures HomesExist(LoggedIn(s, e, user, ws))
  {
  }

  lemma StepKeepsHomes(limit: Id -> int, s: State, step: Step)
    requires HomesExist(s)
    ensures HomesExist(Next(limit, s, step))
  {
    if step.Login? {
      LoginKeepsHomes(s, step.email, step.user, step.ws);
    }
  }

  // ---- What every call keeps: admins -----------------------------------------------------

  /** Demoting or removing one member leaves the other admins alone. */
  lemma LosingAMemberKeepsAdmins(s: State, ws: Id, user: Id, t: State)
    requires Administered(s) && (ws, user) in s.members && !IsLastAdmin(s, ws, user)
    requires t == WithRole(s, ws, user, Member) || t == WithoutMember(s, ws, user)
    ensures Administered(t)
  {
    forall w | w in t.workspaces
      ensures HasAdmin(t, w)
    {
      var u :| (w, u) in s.members && s.members[(w, u)] == Admin;
      if w == ws && u == user {
        var other := AnotherAdmin(s, ws, user);
        assert (ws, other) in t.members && t.members[(ws, other)] == Admin;
      } else {
        assert (w, u) in t.members && t.members[(w, u)] == Admin;
      }
    }
  }

  lemma CreateKeepsAdmins(s: State, user: Id, ws: Id)
    requires Administered(s)
    ensures Administered(WithWorkspace(s, ws, user))
  {
    var t := WithWorkspace(s, ws, user);
    AdminsKept(s, t);
    assert (ws, user) in t.members && t.members[(ws, user)] == Admin;
  }

  lemma LoginKeepsAdmins(s: State, e: Email, user: Id, ws: Id)
    requires Administered(s)
    ensures Administered(LoggedIn(s, e, user, ws))
  {
    if e in s.users {
      var t := Accepted(s, s.users[e].id, e);
      AdminsKept(s, t);
      if s.users[e].home == None {
        CreateKeepsAdmins(t, s.users[e].id, ws);
        AdminsKept(WithWorkspace(t, ws, s.users[e].id), LoggedIn(s, e, user, ws));
      }
    } else {
      SignUpKeepsAdmins(s, e, user, ws);
      AdminsKept(WithUser(s, e, user, ws), LoggedIn(s, e, user, ws));
    }
  }

  lemma SignUpKeepsAdmins(s: State, e: Email, user: Id, ws: Id)
    requires Administered(s)
    ensures Administered(WithUser(s, e, user, ws))
  {
    var t := WithUser(s, e, user, ws);
    AdminsKept(s, t);
    assert (ws, user) in t.members && t.members[(ws, user)] == Admin;
  }

  lemma StepKeepsAdmins(limit: Id -> int, s: State, step: Step)
    requires Administered(s)
    ensures Administered(Next(limit, s, step))
  {
    match step
    case Create(user, ws) => CreateKeepsAdmins(s, user, ws);
    case Invite(ws, e, role) => AdminsKept(s, WithInvite(s, ws, e, role));
    case SetRole(ws, user, role) =>
      if (ws, user) in s.members {
        if role == Admin {
          AdminsKept(s, WithRole(s, ws, user, role));
        } else if !IsLastAdmin(s, ws, user) {
          LosingAMemberKeepsAdmins(s, ws, user, WithRole(s, ws, user, role));
        }
      }
    case Remove(ws, user) =>
      if (ws, user) in s.members && !IsLastAdmin(s, ws, user) {
        LosingAMemberKeepsAdmins(s, ws, user, WithoutMember(s, ws, user));
      }
    case Delete(ws) => AdminsKept(s, WithoutWorkspace(s, ws));
    case Login(e, user, ws) => LoginKeepsAdmins(s, e, user, ws);
  }

  /** In every state a series of calls can reach, each workspace has an admin, each default
      workspace exists and every membership and invite points at rows that exist. */
  lemma {:induction false} ReachableIsSound(limit: Id -> int, steps: seq<Step>)
    ensures Inv(Run(limit, steps))
  {
    if steps != [] {
      ReachableIsSound(limit, steps[..|steps| - 1]);
      StepKeepsRows(limit, Run(limit, steps[..|steps| - 1]), steps[|steps| - 1]);
      StepKeepsAdmins(limit, Run(limit, steps[..|steps| - 1]), steps[|steps| - 1]);
      StepKeepsHomes(limit, Run(limit, steps[..|steps| - 1]), steps[|steps| - 1]);
    }
  }

  /** Logging in always ends with a default workspace that exists. */
  lemma LoginFindsAHome(limit: Id -> int, steps: seq<Step>, e: Email, user: Id, ws: Id)
    requires var s := Run(limit, steps); ws !in s.used && user !in s.used && ws != user
    ensures var t := LoggedIn(Run(limit, steps), e, user, ws);
            e in t.users && t.users[e].home.Some? && t.users[e].home.value in t.workspaces
  {
    ReachableIsSound(limit, steps);
    LoginKeepsHomes(Run(limit, steps), e, user, ws);
  }

  /** The token login mints is for that workspace and resolves only for its members. The user
      is one exactly when login created the workspace, or the user already belonged to it, or
      an invite to it was waiting: a user removed from a default workspace that still exists
      is not given a new one. */
  lemma LoginTokenResolves(s: State, e: Email, user: Id, ws: Id)
    requires Inv(s) && ws !in s.used && user !in s.used && ws != user
    ensures var t := LoggedIn(s, e, user, ws);
            e in t.users && t.users[e].home.Some? &&
            ((t.users[e].home.value, t.users[e].id) in t.members <==>
              || e !in s.users
              || s.users[e].home == None
              || (s.users[e].home.value, s.users[e].id) in s.members
              || (s.users[e].home.value, e) in s.invites)
  {
  }

  // ---- Seats -------------------------------------------------------------------------------

  lemma AcceptingMovesSeats(s: State, user: Id, e: Email, ws: Id)
    ensures MembersOf(Accepted(s, user, e), ws) == MembersOf(s, ws) + if (ws, e) in s.invites then {user} else {}
    ensures InvitesOf(Accepted(s, user, e), ws) == InvitesOf(s, ws) - {e}
  {
    var t := Accepted(s, user, e);
    forall u | u in MembersOf(s, ws) || ((ws, e) in s.invites && u == user)
      ensures u in MembersOf(t, ws)
    {
      assert (ws, u) in t.members;
    }
    forall d | d in InvitesOf(s, ws) && d != e
      ensures d in InvitesOf(t, ws)
    {
      assert (ws, d) in t.invites;
    }
  }

  /** Accepting invites never takes more seats than it frees, in any workspace. */
  lemma AcceptingConservesSeats(s: State, user: Id, e: Email, ws: Id)
    ensures Seats(Accepted(s, user, e), ws) <= Seats(s, ws)
    ensures Seats(Accepted(s, user, e), ws) == Seats(s, ws)
            <==> ((ws, e) in s.invites ==> (ws, user) !in s.members)
  {
    AcceptingMovesSeats(s, user, e, ws);
    if (ws, e) in s.invites {
      assert e in InvitesOf(s, ws) by {
        assert (ws, e) in s.invites;
      }
      assert user in MembersOf(s, ws) <==> (ws, user) in s.members;
      if user in MembersOf(s, ws) {
        assert MembersOf(s, ws) + {user} == MembersOf(s, ws);
      }
    } else {
      assert e !in InvitesOf(s, ws);
      assert InvitesOf(s, ws) - {e} == InvitesOf(s, ws);
      assert MembersOf(s, ws) + {} == MembersOf(s, ws);
    }
  }

  lemma SubsetSize<T>(a: set<T>, b: set<T>)
    requires a <= b
    ensures |a| <= |b|
  {
    assert b == a + (b - a);
  }

  lemma SeatsShrink(s: State, t: State, ws: Id)
    requires MembersOf(t, ws) <= MembersOf(s, ws) && InvitesOf(t, ws) <= InvitesOf(s, ws)
    ensures Seats(t, ws) <= Seats(s, ws)
  {
    SubsetSize(MembersOf(t, ws), MembersOf(s, ws));
    SubsetSize(InvitesOf(t, ws), InvitesOf(s, ws));
  }

  lemma NewWorkspaceHasOneSeat(s: State, t: State, ws: Id, user: Id)
    requires Linked(s) && ws !in s.workspaces
    requires t.members == s.members[(ws, user) := Admin] && t.invites == s.invites
    ensures Seats(t, ws) == 1
    ensures forall w :: w != ws ==> MembersOf(t, w) == MembersOf(s, w) && InvitesOf(t, w) == InvitesOf(s, w)
  {
    assert (ws, user) in t.members;
    assert MembersOf(t, ws) == {user};
    assert InvitesOf(t, ws) == {};
    forall w | w != ws
      ensures MembersOf(t, w) == MembersOf(s, w)
    {
      forall u | u in MembersOf(s, w)
        ensures u in MembersOf(t, w)
      {
        assert (w, u) in t.members;
      }
    }
  }

  lemma InvitingAddsOne(s: State, ws: Id, e: Email, role: Role, w: Id)
    ensures MembersOf(WithInvite(s, ws, e, role), w) == MembersOf(s, w)
    ensures InvitesOf(WithInvite(s, ws, e, role), w) == InvitesOf(s, w) + if w == ws then {e} else {}
  {
  }

  lemma AddingOne<T>(a: set<T>, x: T)
    ensures |a + {x}| == |a| + if x in a then 0 else 1
  {
    if x in a {
      assert a + {x} == a;
    }
  }

  lemma InvitingTakesOneSeat(s: State, ws: Id, e: Email, role: Role, w: Id)
    ensures Seats(WithInvite(s, ws, e, role), w)
            == Seats(s, w) + if w == ws && (ws, e) !in s.invites then 1 else 0
  {
    InvitingAddsOne(s, ws, e, role, w);
    if w == ws {
      AddingOne(InvitesOf(s, ws), e);
      assert e in InvitesOf(s, ws) <==> (ws, e) in s.invites;
    } else {
      assert InvitesOf(s, w) + {} == InvitesOf(s, w);
    }
  }

  /** A login takes one seat in the workspace it creates and none in any other. */
  lemma LoginTakesNoSeat(s: State, e: Email, user: Id, ws: Id, w: Id)
    requires Rows(s) && ws !in s.used
    ensures Seats(LoggedIn(s, e, user, ws), w) <= if w == ws then 1 else Seats(s, w)
  {
    if e in s.users {
      var id := s.users[e].id;
      assert Known(s, id);
      AcceptKeepsRows(s, id, e);
      AcceptingConservesSeats(s, id, e, w);
      var t := Accepted(s, id, e);
      if s.users[e].home == None {
        NewWorkspaceHasOneSeat(t, LoggedIn(s, e, user, ws), ws, id);
      } else {
        assert MembersOf(s, ws) == {} && InvitesOf(s, ws) == {};
      }
    } else {
      var t := WithUser(s, e, user, ws);
      NewWorkspaceHasOneSeat(s, t, ws, user);
      AcceptingConservesSeats(t, user, e, w);
    }
  }

  lemma StepKeepsSeats(limit: Id -> int, s: State, step: Step)
    requires Rows(s) && WithinSeats(limit, s)
    ensures WithinSeats(limit, Next(limit, s, step))
  {
    var t := Next(limit, s, step);
    match step
    case Create(user, ws) =>
      if t != s {
        NewWorkspaceHasOneSeat(s, t, ws, user);
      }
    case Invite(ws, e, role) =>
      if t != s {
        forall w
          ensures Seats(t, w) == Seats(s, w) + if w == ws && (ws, e) !in s.invites then 1 else 0
        {
          InvitingTakesOneSeat(s, ws, e, role, w);
        }
      }
    case SetRole(ws, user, role) =>
      forall w {
        SeatsShrink(s, t, w);
      }
    case Remove(ws, user) =>
      forall w {
        SeatsShrink(s, t, w);
      }
    case Delete(ws) =>
      forall w {
        SeatsShrink(s, t, w);
      }
    case Login(e, user, ws) =>
      if t != s {
        forall w {
          LoginTakesNoSeat(s, e, user, ws, w);
        }
      }
  }

  /** With invites gated by the quota, no reachable state has more members and pending invites
      in a workspace than a seat limit of at least one allows. */
  lemma {:induction false} SeatsNeverExceedTheLimit(limit: Id -> int, steps: seq<Step>)
    ensures WithinSeats(limit, Run(limit, steps))
  {
    if steps != [] {
      SeatsNeverExceedTheLimit(limit, steps[..|steps| - 1]);
      ReachableIsSound(limit, steps[..|steps| - 1]);
      StepKeepsSeats(limit, Run(limit, steps[..|steps| - 1]), steps[|steps| - 1]);
    }
  }

  /** A limit of zero is exceeded by every workspace that is created: its owner has a seat. */
  lemma ZeroSeatsAreExceededAtOnce(limit: Id -> int, s: State, user: Id, ws: Id)
    requires Inv(s) && Known(s, user) && ws !in s.used && limit(ws) == 0
    ensures Seats(Next(limit, s, Create(user, ws)), ws) > limit(ws)
  {
  }
}
